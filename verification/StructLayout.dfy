/**
 The tokens of each struct in their order, and what a decoder leaves in any receiver, used or new:
 when all tokens are there, when they break off, and when a Nil or an error stands in their place.
 */
module StructLayout {
  import opened Wrappers
  import opened Polyglot
  import opened Wire
  import opened CodecLaws

  /** The next token is one of the same kind. */
  predicate Starts(like: Token, ts: seq<Token>) {
    ts != [] &&
    match like {
      case Uint8(_) => ts[0].Uint8?
      case Uint32(_) => ts[0].Uint32?
      case Bool(_) => ts[0].Bool?
      case String(_) => ts[0].String?
      case _ => false
    }
  }

  /**
   The first `r` fields are there, and what follows is not the next one, nor a Nil or an error in
   the place of the first.
   */
  predicate BreaksOff(fields: seq<Token>, r: nat, bad: seq<Token>) {
    r < |fields| && !Starts(fields[r], bad) && (r == 0 ==> !NilNext(bad) && !ErrorNext(bad))
  }

  /** Field number `at` after such a break: read if it was there, zero where it broke off, otherwise what it was. */
  function Field<T>(at: nat, r: nat, read: T, zero: T, before: T): T {
    if at < r then read else if at == r then zero else before
  }

  /** Each field that comes is behind the ones before it. */
  lemma {:induction false} AllBehind(fields: seq<Token>, r: nat, bad: seq<Token>)
    requires r <= |fields|
    ensures forall j :: 0 <= j < r ==>
      (fields[..r] + bad)[j..] != [] && (fields[..r] + bad)[j..][0] == fields[j]
    ensures forall j :: 0 <= j < r ==> (fields[..r] + bad)[j..][1..] == (fields[..r] + bad)[j + 1..]
    ensures (fields[..r] + bad)[r..] == bad && (fields[..r] + bad)[0..] == fields[..r] + bad
  {
  }

  // ---------------------------------------------------------------- keys

  /** A key that is all there replaces every field of the receiver. */
  lemma KeyOverwrites(x: Key, k: Key, tail: seq<Token>)
    requires k.error.None?
    ensures DecodeKey(x, EncodeKey(Some(k)) + tail) == Decoded(true, k, tail)
  {
    var fs := EncodeKey(Some(k));
    assert fs[..5] == fs;
    AllBehind(fs, 5, tail);
  }

  /** A key that breaks off replaces the fields that were there, and zeroes the one that was not. */
  lemma KeyBreaksOff(x: Key, k: Key, r: nat, bad: seq<Token>)
    requires k.error.None? && BreaksOff(EncodeKey(Some(k)), r, bad)
    ensures DecodeKey(x, EncodeKey(Some(k))[..r] + bad) == Decoded(false, Key(None,
      Field(0, r, k.flags, 0, x.flags),
      Field(1, r, k.destinationIp, "", x.destinationIp), Field(2, r, k.destinationPort, 0, x.destinationPort),
      Field(3, r, k.sourceIp, "", x.sourceIp), Field(4, r, k.sourcePort, 0, x.sourcePort)), bad)
  {
    AllBehind(EncodeKey(Some(k)), r, bad);
  }

  // ---------------------------------------------------------------- values

  lemma ValueOverwrites(x: Value, v: Value, tail: seq<Token>)
    requires v.error.None?
    ensures DecodeValue(x, EncodeValue(Some(v)) + tail) == Decoded(true, v, tail)
  {
    var fs := EncodeValue(Some(v));
    assert fs[..4] == fs;
    AllBehind(fs, 4, tail);
  }

  lemma ValueBreaksOff(x: Value, v: Value, r: nat, bad: seq<Token>)
    requires v.error.None? && BreaksOff(EncodeValue(Some(v)), r, bad)
    ensures DecodeValue(x, EncodeValue(Some(v))[..r] + bad) == Decoded(false, Value(None,
      Field(0, r, v.flags, 0, x.flags), Field(1, r, v.lastSeen, "", x.lastSeen),
      Field(2, r, v.translateIp, "", x.translateIp), Field(3, r, v.translatePort, 0, x.translatePort)), bad)
  {
    AllBehind(EncodeValue(Some(v)), r, bad);
  }

  // ---------------------------------------------------------------- bitmaps

  lemma BitmapOverwrites(x: Bitmap, b: Bitmap, tail: seq<Token>)
    requires b.error.None?
    ensures DecodeBitmap(x, EncodeBitmap(Some(b)) + tail) == Decoded(true, b, tail)
  {
    var fs := EncodeBitmap(Some(b));
    assert fs[..5] == fs;
    AllBehind(fs, 5, tail);
  }

  lemma BitmapBreaksOff(x: Bitmap, b: Bitmap, r: nat, bad: seq<Token>)
    requires b.error.None? && BreaksOff(EncodeBitmap(Some(b)), r, bad)
    ensures DecodeBitmap(x, EncodeBitmap(Some(b))[..r] + bad) == Decoded(false, Bitmap(None,
      Field(0, r, b.flags, 0, x.flags), Field(1, r, b.bitmap, "", x.bitmap),
      Field(2, r, b.destinationIp, "", x.destinationIp), Field(3, r, b.lastChunk, 0, x.lastChunk),
      Field(4, r, b.natip, "", x.natip)), bad)
  {
    AllBehind(EncodeBitmap(Some(b)), r, bad);
  }

  // ---------------------------------------------------------------- pairs

  /** A child that is there is decoded anew, and a Nil one leaves the receiver's child alone. */
  lemma ChildrenKeptOrRenewed(x: Pair, p: Pair, tail: seq<Token>)
    requires p.error.None?
    requires p.key.Some? ==> p.key.value.error.None?
    requires p.value.Some? ==> p.value.value.error.None?
    ensures DecodePair(x, EncodePair(Some(p)) + tail) == Decoded(true, Pair(None, p.flags,
      if p.key.Some? then p.key else x.key, if p.value.Some? then p.value else x.value), tail)
  {
    var ks, vs := EncodeKey(p.key), EncodeValue(p.value);
    var ts := EncodePair(Some(p)) + tail;
    assert ts[0] == Uint8(p.flags) && ts[1..] == ks + (vs + tail);
    if p.key.Some? {
      KeyOverwrites(NEW_KEY, p.key.value, vs + tail);
    } else {
      assert (ks + (vs + tail))[1..] == vs + tail;
    }
    if p.value.Some? {
      ValueOverwrites(NEW_VALUE, p.value.value, tail);
    } else {
      assert (vs + tail)[1..] == tail;
    }
  }

  // ---------------------------------------------------------------- states, requests, responses

  lemma RequestOverwrites(x: Request, r: Request, tail: seq<Token>)
    requires r.error.None?
    ensures DecodeRequest(x, EncodeRequest(Some(r)) + tail) == Decoded(true, r, tail)
  {
    var fs := EncodeRequest(Some(r));
    assert fs[..2] == fs;
    AllBehind(fs, 2, tail);
  }

  /** A response without a state replaces the scalar fields of the receiver and keeps its state. */
  lemma StateKept(x: Response, r: Response, tail: seq<Token>)
    requires r.error.None? && r.state.None?
    ensures DecodeResponse(x, EncodeResponse(Some(r)) + tail) == Decoded(true, r.(state := x.state), tail)
  {
    var fs := ResponseHead(r);
    assert fs[..4] == fs;
    assert EncodeResponse(Some(r)) + tail == fs + ([Nil] + tail);
    AllBehind(fs, 4, [Nil] + tail);
    assert ([Nil] + tail)[1..] == tail;
  }

  lemma ResponseBreaksOff(x: Response, r: Response, n: nat, bad: seq<Token>)
    requires r.error.None? && BreaksOff(ResponseHead(r), n, bad)
    ensures DecodeResponse(x, ResponseHead(r)[..n] + bad) == Decoded(false, Response(None,
      Field(0, n, r.flags, 0, x.flags), Field(1, n, r.requestId, "", x.requestId),
      Field(2, n, r.success, false, x.success), Field(3, n, r.errorMessage, "", x.errorMessage), x.state), bad)
  {
    AllBehind(ResponseHead(r), n, bad);
  }

  // ---------------------------------------------------------------- Nil and errors

  /** A Nil in the place of a struct leaves the receiver as it is. */
  lemma NilLeavesAlone(k: Key, v: Value, p: Pair, b: Bitmap, s: State, q: Request, r: Response, tail: seq<Token>)
    ensures var ts := [Nil] + tail;
      && DecodeKey(k, ts) == Decoded(true, k, tail) && DecodeValue(v, ts) == Decoded(true, v, tail)
      && DecodePair(p, ts) == Decoded(true, p, tail) && DecodeBitmap(b, ts) == Decoded(true, b, tail)
      && DecodeState(s, ts) == Decoded(true, s, tail) && DecodeRequest(q, ts) == Decoded(true, q, tail)
      && DecodeResponse(r, ts) == Decoded(true, r, tail)
  {
    assert ([Nil] + tail)[1..] == tail;
  }

  /** An error in the place of a struct sets the error of the receiver and nothing else. */
  lemma ErrorSetsError(
    k: Key, v: Value, p: Pair, b: Bitmap, s: State, q: Request, r: Response, text: string, tail: seq<Token>)
    ensures var ts, e := [Error(text)] + tail, Some(text);
      && DecodeKey(k, ts) == Decoded(true, k.(error := e), tail)
      && DecodeValue(v, ts) == Decoded(true, v.(error := e), tail)
      && DecodePair(p, ts) == Decoded(true, p.(error := e), tail)
      && DecodeBitmap(b, ts) == Decoded(true, b.(error := e), tail)
      && DecodeState(s, ts) == Decoded(true, s.(error := e), tail)
      && DecodeRequest(q, ts) == Decoded(true, q.(error := e), tail)
      && DecodeResponse(r, ts) == Decoded(true, r.(error := e), tail)
  {
    assert ([Error(text)] + tail)[1..] == tail;
  }

  // ---------------------------------------------------------------- lists

  /** A list whose header is missing keeps what the receiver had. */
  lemma ListKept<S>(kind: Kind, dec: (S, seq<Token>) -> Decoded<S>, blank: S, prior: seq<S>, ts: seq<Token>)
    requires ts == [] || !ts[0].Slice? || ts[0].kind != kind
    ensures DecodeList(kind, dec, blank, prior, ts) == Decoded(false, prior, ts)
  {
  }

  /** Element `j` failed, and those behind it are still what they were. */
  ghost predicate FailsAt<S(!new)>(
    dec: (S, seq<Token>) -> Decoded<S>, slots: seq<S>, d: Decoded<seq<S>>, j: nat)
  {
    && j < |slots| == |d.value|
    && d.value[j + 1..] == slots[j + 1..]
    && exists us :: dec(slots[j], us) == Decoded(false, d.value[j], d.rest)
  }

  /** An element that fails ends the list: the elements behind it are those of the receiver. */
  lemma {:induction false} FailureEndsList<S(!new)>(
    dec: (S, seq<Token>) -> Decoded<S>, slots: seq<S>, ts: seq<Token>)
    ensures var d := DecodeAll(dec, slots, ts);
      !d.ok ==> exists j: nat :: FailsAt(dec, slots, d, j)
  {
    if slots != [] {
      var first, d := dec(slots[0], ts), DecodeAll(dec, slots, ts);
      if !first.ok {
        assert FailsAt(dec, slots, d, 0);
      } else {
        FailureEndsList(dec, slots[1..], first.rest);
        var e := DecodeAll(dec, slots[1..], first.rest);
        if !e.ok {
          var j: nat :| FailsAt(dec, slots[1..], e, j);
          assert d.value[j + 2..] == e.value[j + 1..] && slots[j + 2..] == slots[1..][j + 1..];
          assert FailsAt(dec, slots, d, j + 1);
        }
      }
    }
  }
}
