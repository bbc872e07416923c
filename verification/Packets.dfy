/** Packets: a 16-bit id, content, and a 32-bit count of the content's bytes, which is all the receiver decodes. */
module Packets {
  import opened Polyglot

  /** The bytes one token takes. Every result holds for all assignments of sizes. */
  type Bytes = n: int | n > 0 witness 1

  datatype Packet = Packet(id: uint16, length: uint32, content: seq<Token>)

  function ByteLength(size: Token -> Bytes, ts: seq<Token>): nat {
    if ts == [] then 0 else size(ts[0]) + ByteLength(size, ts[1..])
  }

  /** The whole tokens within the first `n` bytes. A token that is cut off cannot be read, like one that is missing. */
  function Within(size: Token -> Bytes, ts: seq<Token>, n: nat): seq<Token> {
    if ts == [] || size(ts[0]) > n then [] else [ts[0]] + Within(size, ts[1..], n - size(ts[0]))
  }

  /** The length field is truncated to 32 bits. */
  function Packed(size: Token -> Bytes, id: uint16, content: seq<Token>): Packet {
    Packet(id, ByteLength(size, content) % TWO_TO_THE_32, content)
  }

  /** What the receiver's decoder is given. */
  function Seen(size: Token -> Bytes, p: Packet): seq<Token> {
    Within(size, p.content, p.length)
  }

  lemma {:induction false} WithinConcat(size: Token -> Bytes, a: seq<Token>, b: seq<Token>, n: nat)
    requires ByteLength(size, a) <= n
    ensures Within(size, a + b, n) == a + Within(size, b, n - ByteLength(size, a))
  {
    if a == [] {
      assert a + b == b;
    } else {
      var ts, m := a + b, n - size(a[0]);
      assert ts[0] == a[0] && ts[1..] == a[1..] + b;
      WithinConcat(size, a[1..], b, m);
      var behind := Within(size, b, m - ByteLength(size, a[1..]));
      assert [a[0]] + (a[1..] + behind) == a + behind;
    }
  }

  /** What is seen is the front of the content, and all of it exactly when the length covers all bytes. */
  lemma {:induction false} WithinIsFront(size: Token -> Bytes, ts: seq<Token>, n: nat)
    ensures var k := |Within(size, ts, n)|;
      && k <= |ts| && Within(size, ts, n) == ts[..k]
      && (k == |ts| <==> ByteLength(size, ts) <= n)
  {
    if ts != [] && size(ts[0]) <= n {
      WithinIsFront(size, ts[1..], n - size(ts[0]));
    }
  }

  /** A length that ends between two tokens. */
  lemma WithinFront(size: Token -> Bytes, a: seq<Token>, b: seq<Token>)
    ensures Within(size, a + b, ByteLength(size, a)) == a
  {
    WithinConcat(size, a, b, ByteLength(size, a));
    assert Within(size, b, 0) == [];
    assert a + [] == a;
  }

  /** Content that fits the length field is seen whole. */
  lemma SeenWhole(size: Token -> Bytes, id: uint16, content: seq<Token>)
    requires ByteLength(size, content) < TWO_TO_THE_32
    ensures Seen(size, Packed(size, id, content)) == content
  {
    WithinFront(size, content, []);
    assert content + [] == content;
  }

  lemma {:induction false} LengthConcat(size: Token -> Bytes, a: seq<Token>, b: seq<Token>)
    ensures ByteLength(size, a + b) == ByteLength(size, a) + ByteLength(size, b)
  {
    if a == [] {
      assert a + b == b;
    } else {
      assert (a + b)[1..] == a[1..] + b;
      LengthConcat(size, a[1..], b);
    }
  }

  lemma {:induction false} TokensTakeBytes(size: Token -> Bytes, ts: seq<Token>)
    ensures |ts| <= ByteLength(size, ts)
  {
    if ts != [] {
      TokensTakeBytes(size, ts[1..]);
    }
  }
}
