/**
 Token-level view of the polyglot buffer. The library's byte layout is abstracted to one
 token per encoded item; a reader that finds another token fails, returns the zero value
 and leaves the cursor where it was.
 */
module Polyglot {
  import opened Wrappers

  type uint8 = x: int | 0 <= x < 0x100
  type uint16 = x: int | 0 <= x < 0x1_0000
  type uint32 = x: int | 0 <= x < 0x1_0000_0000

  const TWO_TO_THE_32: int := 0x1_0000_0000

  datatype Kind = AnyKind | StringKind

  datatype Token =
    | Nil
    | Error(text: string)
    | Uint8(u8: uint8)
    | Uint32(u32: uint32)
    | Bool(b: bool)
    | String(s: string)
    | Slice(kind: Kind, size: uint32)

  /** What a reader leaves behind: whether it succeeded, the value written, the unread tokens. */
  datatype Decoded<+T> = Decoded(ok: bool, value: T, rest: seq<Token>)

  predicate NilNext(ts: seq<Token>) { ts != [] && ts[0].Nil? }

  predicate ErrorNext(ts: seq<Token>) { ts != [] && ts[0].Error? }

  function TakeUint8(ts: seq<Token>): Decoded<uint8> {
    if ts != [] && ts[0].Uint8? then Decoded(true, ts[0].u8, ts[1..]) else Decoded(false, 0, ts)
  }

  function TakeUint32(ts: seq<Token>): Decoded<uint32> {
    if ts != [] && ts[0].Uint32? then Decoded(true, ts[0].u32, ts[1..]) else Decoded(false, 0, ts)
  }

  function TakeBool(ts: seq<Token>): Decoded<bool> {
    if ts != [] && ts[0].Bool? then Decoded(true, ts[0].b, ts[1..]) else Decoded(false, false, ts)
  }

  function TakeString(ts: seq<Token>): Decoded<string> {
    if ts != [] && ts[0].String? then Decoded(true, ts[0].s, ts[1..]) else Decoded(false, "", ts)
  }

  function TakeSlice(kind: Kind, ts: seq<Token>): Decoded<uint32> {
    if ts != [] && ts[0].Slice? && ts[0].kind == kind then Decoded(true, ts[0].size, ts[1..])
    else Decoded(false, 0, ts)
  }

  /** `uint32(len(xs))`: the length a slice header carries, truncated to 32 bits. */
  function SliceHeader(kind: Kind, length: nat): Token {
    Slice(kind, length % TWO_TO_THE_32)
  }

  /** The growing output buffer. */
  class Buffer {
    var tokens: seq<Token>

    constructor ()
      ensures tokens == []
    {
      tokens := [];
    }

    method Put(t: Token)
      modifies this
      ensures tokens == old(tokens) + [t]
    {
      tokens := tokens + [t];
    }
  }

  /** The input cursor: `rest` is what has not been read yet. */
  class BufferDecoder {
    var rest: seq<Token>

    constructor (ts: seq<Token>)
      ensures rest == ts
    {
      rest := ts;
    }

    /** Consumes a Nil token only when one is next. */
    method Nil() returns (value: bool)
      modifies this
      ensures value == NilNext(old(rest))
      ensures rest == if value then old(rest)[1..] else old(rest)
    {
      value := NilNext(rest);
      if value {
        rest := rest[1..];
      }
    }

    /** Consumes an Error token only when one is next. */
    method Error() returns (value: Option<string>, ok: bool)
      modifies this
      ensures ok == ErrorNext(old(rest))
      ensures value == if ok then Some(old(rest)[0].text) else None
      ensures rest == if ok then old(rest)[1..] else old(rest)
    {
      ok, value := ErrorNext(rest), None;
      if ok {
        value, rest := Some(rest[0].text), rest[1..];
      }
    }

    method Uint8() returns (value: uint8, ok: bool)
      modifies this
      ensures TakeUint8(old(rest)) == Decoded(ok, value, rest)
    {
      var Decoded(o, v, r) := TakeUint8(rest);
      ok, value, rest := o, v, r;
    }

    method Uint32() returns (value: uint32, ok: bool)
      modifies this
      ensures TakeUint32(old(rest)) == Decoded(ok, value, rest)
    {
      var Decoded(o, v, r) := TakeUint32(rest);
      ok, value, rest := o, v, r;
    }

    method Bool() returns (value: bool, ok: bool)
      modifies this
      ensures TakeBool(old(rest)) == Decoded(ok, value, rest)
    {
      var Decoded(o, v, r) := TakeBool(rest);
      ok, value, rest := o, v, r;
    }

    method String() returns (value: string, ok: bool)
      modifies this
      ensures TakeString(old(rest)) == Decoded(ok, value, rest)
    {
      var Decoded(o, v, r) := TakeString(rest);
      ok, value, rest := o, v, r;
    }

    method Slice(kind: Kind) returns (size: uint32, ok: bool)
      modifies this
      ensures TakeSlice(kind, old(rest)) == Decoded(ok, size, rest)
    {
      var Decoded(o, v, r) := TakeSlice(kind, rest);
      ok, size, rest := o, v, r;
    }
  }
}
