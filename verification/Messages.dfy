/**
 The generated messages as they run: encoders append to a buffer, decoders advance a cursor
 and write their receiver field by field. Each is proved against the functions of `Wire`.
 A key, a value or a state below another message is always decoded into a struct allocated
 on the spot and never written again, so the parent keeps its contents; list elements are
 the only structs written in place, and lists hold references.
 */
module Messages {
  import opened Wrappers
  import opened Polyglot
  import Wire

  // ---------------------------------------------------------------- encoders

  method EncodeKey(x: Option<Wire.Key>, b: Buffer)
    modifies b
    ensures b.tokens == old(b.tokens) + Wire.EncodeKey(x)
  {
    match x
    case None => b.Put(Nil);
    case Some(k) =>
      if k.error.Some? {
        b.Put(Error(k.error.value));
        return;
      }
      b.Put(Uint8(k.flags));
      b.Put(String(k.destinationIp));
      b.Put(Uint32(k.destinationPort));
      b.Put(String(k.sourceIp));
      b.Put(Uint32(k.sourcePort));
  }

  method EncodeValue(x: Option<Wire.Value>, b: Buffer)
    modifies b
    ensures b.tokens == old(b.tokens) + Wire.EncodeValue(x)
  {
    match x
    case None => b.Put(Nil);
    case Some(v) =>
      if v.error.Some? {
        b.Put(Error(v.error.value));
        return;
      }
      b.Put(Uint8(v.flags));
      b.Put(String(v.lastSeen));
      b.Put(String(v.translateIp));
      b.Put(Uint32(v.translatePort));
  }

  method EncodePair(x: Option<Wire.Pair>, b: Buffer)
    modifies b
    ensures b.tokens == old(b.tokens) + Wire.EncodePair(x)
  {
    match x
    case None => b.Put(Nil);
    case Some(p) =>
      if p.error.Some? {
        b.Put(Error(p.error.value));
        return;
      }
      b.Put(Uint8(p.flags));
      EncodeKey(p.key, b);
      EncodeValue(p.value, b);
  }

  method EncodeBitmap(x: Option<Wire.Bitmap>, b: Buffer)
    modifies b
    ensures b.tokens == old(b.tokens) + Wire.EncodeBitmap(x)
  {
    match x
    case None => b.Put(Nil);
    case Some(p) =>
      if p.error.Some? {
        b.Put(Error(p.error.value));
        return;
      }
      b.Put(Uint8(p.flags));
      b.Put(String(p.bitmap));
      b.Put(String(p.destinationIp));
      b.Put(Uint32(p.lastChunk));
      b.Put(String(p.natip));
  }

  method EncodeAddresses(xs: seq<string>, b: Buffer)
    modifies b
    ensures b.tokens == old(b.tokens) + Wire.EncodeList(StringKind, Wire.EncodeAddress, xs)
  {
    b.Put(SliceHeader(StringKind, |xs|));
    for i := 0 to |xs|
      invariant b.tokens == old(b.tokens) + Wire.Written(StringKind, Wire.EncodeAddress, xs, i)
    {
      Wire.WrittenStep(old(b.tokens), StringKind, Wire.EncodeAddress, xs, i);
      b.Put(String(xs[i]));
    }
    Wire.WrittenWhole(StringKind, Wire.EncodeAddress, xs);
  }

  method EncodePairs(xs: seq<Option<Wire.Pair>>, b: Buffer)
    modifies b
    ensures b.tokens == old(b.tokens) + Wire.EncodeList(AnyKind, Wire.EncodePair, xs)
  {
    b.Put(SliceHeader(AnyKind, |xs|));
    for i := 0 to |xs|
      invariant b.tokens == old(b.tokens) + Wire.Written(AnyKind, Wire.EncodePair, xs, i)
    {
      Wire.WrittenStep(old(b.tokens), AnyKind, Wire.EncodePair, xs, i);
      EncodePair(xs[i], b);
    }
    Wire.WrittenWhole(AnyKind, Wire.EncodePair, xs);
  }

  method EncodeBitmaps(xs: seq<Option<Wire.Bitmap>>, b: Buffer)
    modifies b
    ensures b.tokens == old(b.tokens) + Wire.EncodeList(AnyKind, Wire.EncodeBitmap, xs)
  {
    b.Put(SliceHeader(AnyKind, |xs|));
    for i := 0 to |xs|
      invariant b.tokens == old(b.tokens) + Wire.Written(AnyKind, Wire.EncodeBitmap, xs, i)
    {
      Wire.WrittenStep(old(b.tokens), AnyKind, Wire.EncodeBitmap, xs, i);
      EncodeBitmap(xs[i], b);
    }
    Wire.WrittenWhole(AnyKind, Wire.EncodeBitmap, xs);
  }

  method EncodeState(x: Option<Wire.State>, b: Buffer)
    modifies b
    ensures b.tokens == old(b.tokens) + Wire.EncodeState(x)
  {
    match x
    case None => b.Put(Nil);
    case Some(s) =>
      if s.error.Some? {
        b.Put(Error(s.error.value));
        return;
      }
      b.Put(Uint8(s.flags));
      EncodeAddresses(s.ips, b);
      EncodePairs(s.tcpInbound, b);
      EncodePairs(s.tcpOutbound, b);
      EncodePairs(s.udpInbound, b);
      EncodePairs(s.udpOutbound, b);
      EncodeBitmaps(s.natPorts, b);
      Wire.StateBody(old(b.tokens), s);
  }

  method EncodeRequest(x: Option<Wire.Request>, b: Buffer)
    modifies b
    ensures b.tokens == old(b.tokens) + Wire.EncodeRequest(x)
  {
    match x
    case None => b.Put(Nil);
    case Some(r) =>
      if r.error.Some? {
        b.Put(Error(r.error.value));
        return;
      }
      b.Put(Uint8(r.flags));
      b.Put(String(r.requestId));
  }

  method EncodeResponse(x: Option<Wire.Response>, b: Buffer)
    modifies b
    ensures b.tokens == old(b.tokens) + Wire.EncodeResponse(x)
  {
    match x
    case None => b.Put(Nil);
    case Some(r) =>
      if r.error.Some? {
        b.Put(Error(r.error.value));
        return;
      }
      b.Put(Uint8(r.flags));
      b.Put(String(r.requestId));
      b.Put(Bool(r.success));
      b.Put(String(r.errorMessage));
      EncodeState(r.state, b);
  }

  // ---------------------------------------------------------------- receivers

  class FailoverNATKey {
    var error: Option<string>
    var flags: uint8
    var destinationIp: string
    var destinationPort: uint32
    var sourceIp: string
    var sourcePort: uint32

    function Contents(): Wire.Key reads this {
      Wire.Key(error, flags, destinationIp, destinationPort, sourceIp, sourcePort)
    }

    constructor ()
      ensures Contents() == Wire.NEW_KEY
    {
      error, flags, destinationIp, destinationPort, sourceIp, sourcePort := None, 0, "", 0, "", 0;
    }

    method Decode(d: BufferDecoder) returns (ok: bool)
      modifies this, d
      ensures Wire.DecodeKey(old(Contents()), old(d.rest)) == Decoded(ok, Contents(), d.rest)
    {
      var isNil := d.Nil();
      if isNil {
        return true;
      }
      var hasError;
      error, hasError := d.Error();
      if hasError {
        return true;
      }
      flags, ok := d.Uint8();
      if !ok {
        return;
      }
      destinationIp, ok := d.String();
      if !ok {
        return;
      }
      destinationPort, ok := d.Uint32();
      if !ok {
        return;
      }
      sourceIp, ok := d.String();
      if !ok {
        return;
      }
      sourcePort, ok := d.Uint32();
    }
  }

  class FailoverNATValue {
    var error: Option<string>
    var flags: uint8
    var lastSeen: string
    var translateIp: string
    var translatePort: uint32

    function Contents(): Wire.Value reads this {
      Wire.Value(error, flags, lastSeen, translateIp, translatePort)
    }

    constructor ()
      ensures Contents() == Wire.NEW_VALUE
    {
      error, flags, lastSeen, translateIp, translatePort := None, 0, "", "", 0;
    }

    method Decode(d: BufferDecoder) returns (ok: bool)
      modifies this, d
      ensures Wire.DecodeValue(old(Contents()), old(d.rest)) == Decoded(ok, Contents(), d.rest)
    {
      var isNil := d.Nil();
      if isNil {
        return true;
      }
      var hasError;
      error, hasError := d.Error();
      if hasError {
        return true;
      }
      flags, ok := d.Uint8();
      if !ok {
        return;
      }
      lastSeen, ok := d.String();
      if !ok {
        return;
      }
      translateIp, ok := d.String();
      if !ok {
        return;
      }
      translatePort, ok := d.Uint32();
    }
  }

  class FailoverNATKeyValuePair {
    var error: Option<string>
    var flags: uint8
    var key: Option<Wire.Key>
    var value: Option<Wire.Value>

    function Contents(): Wire.Pair reads this {
      Wire.Pair(error, flags, key, value)
    }

    constructor ()
      ensures Contents() == Wire.NEW_PAIR
    {
      error, flags, key, value := None, 0, None, None;
    }

    method Decode(d: BufferDecoder) returns (ok: bool)
      modifies this, d
      ensures Wire.DecodePair(old(Contents()), old(d.rest)) == Decoded(ok, Contents(), d.rest)
    {
      var isNil := d.Nil();
      if isNil {
        return true;
      }
      var hasError;
      error, hasError := d.Error();
      if hasError {
        return true;
      }
      flags, ok := d.Uint8();
      if !ok {
        return;
      }
      isNil := d.Nil();
      if !isNil {
        var k := new FailoverNATKey();
        ok := k.Decode(d);
        key := Some(k.Contents());
        if !ok {
          return;
        }
      }
      isNil := d.Nil();
      if !isNil {
        var v := new FailoverNATValue();
        ok := v.Decode(d);
        value := Some(v.Contents());
      }
    }
  }

  class FailoverNATBitmapPair {
    var error: Option<string>
    var flags: uint8
    var bitmap: string
    var destinationIp: string
    var lastChunk: uint32
    var natip: string

    function Contents(): Wire.Bitmap reads this {
      Wire.Bitmap(error, flags, bitmap, destinationIp, lastChunk, natip)
    }

    constructor ()
      ensures Contents() == Wire.NEW_BITMAP
    {
      error, flags, bitmap, destinationIp, lastChunk, natip := None, 0, "", "", 0, "";
    }

    method Decode(d: BufferDecoder) returns (ok: bool)
      modifies this, d
      ensures Wire.DecodeBitmap(old(Contents()), old(d.rest)) == Decoded(ok, Contents(), d.rest)
    {
      var isNil := d.Nil();
      if isNil {
        return true;
      }
      var hasError;
      error, hasError := d.Error();
      if hasError {
        return true;
      }
      flags, ok := d.Uint8();
      if !ok {
        return;
      }
      bitmap, ok := d.String();
      if !ok {
        return;
      }
      destinationIp, ok := d.String();
      if !ok {
        return;
      }
      lastChunk, ok := d.Uint32();
      if !ok {
        return;
      }
      natip, ok := d.String();
    }
  }

  // ---------------------------------------------------------------- lists, in place

  /** Decoding all `slots` from `start` amounts to `done` followed by decoding what is left. */
  ghost predicate Resumes<S>(
    dec: (S, seq<Token>) -> Decoded<S>, slots: seq<S>, start: seq<Token>,
    done: seq<S>, left: seq<S>, rest: seq<Token>)
  {
    var r := Wire.DecodeAll(dec, left, rest);
    Wire.DecodeAll(dec, slots, start) == Decoded(r.ok, done + r.value, r.rest)
  }

  /**
   A list decode under way: `xs` is the list after `i` of its first `size` slots have been
   decoded, `slots` what it was before, `rest` the tokens still unread.
   */
  ghost predicate UnderWay<S>(
    dec: (S, seq<Token>) -> Decoded<S>, slots: seq<S>, size: nat, start: seq<Token>,
    xs: seq<S>, i: nat, rest: seq<Token>)
  {
    && i <= size <= |slots| == |xs|
    && xs[i..] == slots[i..]
    && Resumes(dec, slots[..size], start, xs[..i], slots[i..size], rest)
  }

  lemma UnderWayStart<S>(dec: (S, seq<Token>) -> Decoded<S>, slots: seq<S>, size: nat, start: seq<Token>)
    requires size <= |slots|
    ensures UnderWay(dec, slots, size, start, slots, 0, start)
  {
    var r := Wire.DecodeAll(dec, slots[..size], start);
    assert slots[0..size] == slots[..size] && slots[..0] + r.value == r.value;
  }

  /** One more element: either the decode is under way one slot further, or it ends here with a failure. */
  lemma UnderWayStep<S>(
    dec: (S, seq<Token>) -> Decoded<S>, slots: seq<S>, size: nat, start: seq<Token>,
    xs: seq<S>, i: nat, rest: seq<Token>)
    requires UnderWay(dec, slots, size, start, xs, i, rest) && i < size
    ensures var d := dec(xs[i], rest);
      var ys := xs[i := d.value];
      if d.ok then UnderWay(dec, slots, size, start, ys, i + 1, d.rest)
      else Ended(dec, slots, size, start, ys, false, d.rest)
  {
    var left := slots[i..size];
    assert xs[i] == xs[i..][0] == slots[i..][0] == left[0];
    var d := dec(left[0], rest);
    var ys := xs[i := d.value];
    assert ys[..i + 1] == xs[..i] + [d.value];
    assert ys[i + 1..] == xs[i..][1..] == slots[i + 1..];
    assert left[1..] == slots[i + 1..size];
    if d.ok {
      var r := Wire.DecodeAll(dec, left[1..], d.rest);
      assert xs[..i] + ([d.value] + r.value) == xs[..i] + [d.value] + r.value;
    } else {
      assert xs[..i] + ([d.value] + left[1..]) == ys[..size];
      assert ys[size..] == ys[i + 1..][size - i - 1..] == slots[size..];
    }
  }

  /** The list decode is over. */
  ghost predicate Ended<S>(
    dec: (S, seq<Token>) -> Decoded<S>, slots: seq<S>, size: nat, start: seq<Token>,
    xs: seq<S>, ok: bool, rest: seq<Token>)
  {
    && size <= |slots| == |xs|
    && xs[size..] == slots[size..]
    && Wire.DecodeAll(dec, slots[..size], start) == Decoded(ok, xs[..size], rest)
  }

  lemma UnderWayEnd<S>(
    dec: (S, seq<Token>) -> Decoded<S>, slots: seq<S>, size: nat, start: seq<Token>, xs: seq<S>, rest: seq<Token>)
    requires UnderWay(dec, slots, size, start, xs, size, rest)
    ensures Ended(dec, slots, size, start, xs, true, rest)
  {
    assert slots[size..size] == [] && xs[..size] + [] == xs[..size];
  }

  lemma EndedIsDecoded<S>(
    kind: Kind, dec: (S, seq<Token>) -> Decoded<S>, blank: S, prior: seq<S>, ts: seq<Token>,
    xs: seq<S>, ok: bool, rest: seq<Token>)
    requires var size := TakeSlice(kind, ts);
      size.ok && Ended(dec, Wire.Slots(prior, blank, size.value), size.value, size.rest, xs, ok, rest)
    ensures Wire.DecodeList(kind, dec, blank, prior, ts) == Decoded(ok, xs, rest)
  {
    var size := TakeSlice(kind, ts).value;
    assert xs == xs[..size] + xs[size..];
  }

  method DecodeAddresses(prior: seq<string>, d: BufferDecoder) returns (xs: seq<string>, ok: bool)
    modifies d
    ensures Wire.DecodeAddresses(prior, old(d.rest)) == Decoded(ok, xs, d.rest)
  {
    xs := prior;
    var size;
    size, ok := d.Slice(StringKind);
    if !ok {
      return;
    }
    if |xs| % TWO_TO_THE_32 != size {
      xs := seq(size, _ => "");
    }
    ghost var slots, start := xs, d.rest;
    assert slots == Wire.Slots(prior, "", size);
    UnderWayStart(Wire.DecodeAddressSlot, slots, size, start);
    for i := 0 to size
      invariant UnderWay(Wire.DecodeAddressSlot, slots, size, start, xs, i, d.rest)
    {
      UnderWayStep(Wire.DecodeAddressSlot, slots, size, start, xs, i, d.rest);
      var ip;
      ip, ok := d.String();
      xs := xs[i := ip];
      if !ok {
        EndedIsDecoded(StringKind, Wire.DecodeAddressSlot, "", prior, old(d.rest), xs, false, d.rest);
        return;
      }
    }
    UnderWayEnd(Wire.DecodeAddressSlot, slots, size, start, xs, d.rest);
    EndedIsDecoded(StringKind, Wire.DecodeAddressSlot, "", prior, old(d.rest), xs, true, d.rest);
    ok := true;
  }

  function PairOf(p: FailoverNATKeyValuePair?): Option<Wire.Pair> reads p {
    if p == null then None else Some(p.Contents())
  }

  function PairsOf(xs: seq<FailoverNATKeyValuePair?>): (r: seq<Option<Wire.Pair>>)
    reads xs
    ensures |r| == |xs| && forall i :: 0 <= i < |xs| ==> r[i] == PairOf(xs[i])
  {
    seq(|xs|, i requires 0 <= i < |xs| reads xs => PairOf(xs[i]))
  }

  /** No struct is shared between two elements of the list. */
  ghost predicate DistinctPairs(xs: seq<FailoverNATKeyValuePair?>) {
    forall i, j :: 0 <= i < j < |xs| && xs[i] != null ==> xs[i] != xs[j]
  }

  /** Decodes element `i` where it stands, or into a new struct when the slot is empty. */
  method DecodePairAt(prior: seq<FailoverNATKeyValuePair?>, i: nat, d: BufferDecoder)
    returns (xs: seq<FailoverNATKeyValuePair?>, ok: bool)
    requires i < |prior| && DistinctPairs(prior)
    modifies d, prior[i]
    ensures |xs| == |prior| && DistinctPairs(xs)
    ensures forall j :: 0 <= j < |xs| && j != i ==> xs[j] == prior[j]
    ensures if prior[i] == null then xs[i] != null && fresh(xs[i]) else xs[i] == prior[i]
    ensures var e := Wire.DecodePairSlot(old(PairsOf(prior))[i], old(d.rest));
      e == Decoded(ok, e.value, d.rest) && PairsOf(xs) == old(PairsOf(prior))[i := e.value]
  {
    xs := prior;
    if xs[i] == null {
      var p := new FailoverNATKeyValuePair();
      xs := xs[i := p];
    }
    ok := xs[i].Decode(d);
    forall j | 0 <= j < |xs| && j != i
      ensures PairsOf(xs)[j] == old(PairsOf(prior))[j]
    {
      assert xs[j] == prior[j];
    }
  }

  /** Each slot keeps its struct, or has been given a new one if it was empty. */
  twostate predicate InPlacePairs(prior: seq<FailoverNATKeyValuePair?>, new xs: seq<FailoverNATKeyValuePair?>) {
    && |xs| == |prior|
    && forall j :: 0 <= j < |xs| ==> xs[j] == prior[j] || (prior[j] == null && xs[j] != null && fresh(xs[j]))
  }

  /** Decodes the first `size` elements of a list in place. */
  method DecodePairSlots(prior: seq<FailoverNATKeyValuePair?>, size: nat, d: BufferDecoder)
    returns (xs: seq<FailoverNATKeyValuePair?>, ok: bool)
    requires size <= |prior| && DistinctPairs(prior)
    modifies d, prior
    ensures InPlacePairs(prior, xs) && DistinctPairs(xs)
    ensures Ended(Wire.DecodePairSlot, old(PairsOf(prior)), size, old(d.rest), PairsOf(xs), ok, d.rest)
  {
    xs := prior;
    ghost var slots, start := PairsOf(xs), d.rest;
    UnderWayStart(Wire.DecodePairSlot, slots, size, start);
    for i := 0 to size
      invariant InPlacePairs(prior, xs) && DistinctPairs(xs)
      invariant UnderWay(Wire.DecodePairSlot, slots, size, start, PairsOf(xs), i, d.rest)
    {
      UnderWayStep(Wire.DecodePairSlot, slots, size, start, PairsOf(xs), i, d.rest);
      xs, ok := DecodePairAt(xs, i, d);
      if !ok {
        return;
      }
    }
    UnderWayEnd(Wire.DecodePairSlot, slots, size, start, PairsOf(xs), d.rest);
    ok := true;
  }

  /**
   Reads a list into `prior`: elements of a list of the right length are decoded in place,
   otherwise, and in empty slots, new structs are allocated.
   */
  method DecodePairs(prior: seq<FailoverNATKeyValuePair?>, d: BufferDecoder)
    returns (xs: seq<FailoverNATKeyValuePair?>, ok: bool)
    requires DistinctPairs(prior)
    modifies d, prior
    ensures Wire.DecodePairs(old(PairsOf(prior)), old(d.rest)) == Decoded(ok, PairsOf(xs), d.rest)
    ensures DistinctPairs(xs)
    ensures forall p :: p in xs ==> p == null || p in prior || fresh(p)
  {
    var size;
    size, ok := d.Slice(AnyKind);
    if !ok {
      return prior, false;
    }
    xs := if |prior| % TWO_TO_THE_32 != size then seq(size, _ => null) else prior;
    assert PairsOf(xs) == Wire.Slots(old(PairsOf(prior)), None, size);
    xs, ok := DecodePairSlots(xs, size, d);
    EndedIsDecoded(AnyKind, Wire.DecodePairSlot, None, old(PairsOf(prior)), old(d.rest), PairsOf(xs), ok, d.rest);
  }

  function BitmapOf(p: FailoverNATBitmapPair?): Option<Wire.Bitmap> reads p {
    if p == null then None else Some(p.Contents())
  }

  function BitmapsOf(xs: seq<FailoverNATBitmapPair?>): (r: seq<Option<Wire.Bitmap>>)
    reads xs
    ensures |r| == |xs| && forall i :: 0 <= i < |xs| ==> r[i] == BitmapOf(xs[i])
  {
    seq(|xs|, i requires 0 <= i < |xs| reads xs => BitmapOf(xs[i]))
  }

  /** No struct is shared between two elements of the list. */
  ghost predicate DistinctBitmaps(xs: seq<FailoverNATBitmapPair?>) {
    forall i, j :: 0 <= i < j < |xs| && xs[i] != null ==> xs[i] != xs[j]
  }

  /** Decodes element `i` where it stands, or into a new struct when the slot is empty. */
  method DecodeBitmapAt(prior: seq<FailoverNATBitmapPair?>, i: nat, d: BufferDecoder)
    returns (xs: seq<FailoverNATBitmapPair?>, ok: bool)
    requires i < |prior| && DistinctBitmaps(prior)
    modifies d, prior[i]
    ensures |xs| == |prior| && DistinctBitmaps(xs)
    ensures forall j :: 0 <= j < |xs| && j != i ==> xs[j] == prior[j]
    ensures if prior[i] == null then xs[i] != null && fresh(xs[i]) else xs[i] == prior[i]
    ensures var e := Wire.DecodeBitmapSlot(old(BitmapsOf(prior))[i], old(d.rest));
      e == Decoded(ok, e.value, d.rest) && BitmapsOf(xs) == old(BitmapsOf(prior))[i := e.value]
  {
    xs := prior;
    if xs[i] == null {
      var p := new FailoverNATBitmapPair();
      xs := xs[i := p];
    }
    ok := xs[i].Decode(d);
    forall j | 0 <= j < |xs| && j != i
      ensures BitmapsOf(xs)[j] == old(BitmapsOf(prior))[j]
    {
      assert xs[j] == prior[j];
    }
  }

  /** Each slot keeps its struct, or has been given a new one if it was empty. */
  twostate predicate InPlaceBitmaps(prior: seq<FailoverNATBitmapPair?>, new xs: seq<FailoverNATBitmapPair?>) {
    && |xs| == |prior|
    && forall j :: 0 <= j < |xs| ==> xs[j] == prior[j] || (prior[j] == null && xs[j] != null && fresh(xs[j]))
  }

  /** Decodes the first `size` elements of a list in place. */
  method DecodeBitmapSlots(prior: seq<FailoverNATBitmapPair?>, size: nat, d: BufferDecoder)
    returns (xs: seq<FailoverNATBitmapPair?>, ok: bool)
    requires size <= |prior| && DistinctBitmaps(prior)
    modifies d, prior
    ensures InPlaceBitmaps(prior, xs) && DistinctBitmaps(xs)
    ensures Ended(Wire.DecodeBitmapSlot, old(BitmapsOf(prior)), size, old(d.rest), BitmapsOf(xs), ok, d.rest)
  {
    xs := prior;
    ghost var slots, start := BitmapsOf(xs), d.rest;
    UnderWayStart(Wire.DecodeBitmapSlot, slots, size, start);
    for i := 0 to size
      invariant InPlaceBitmaps(prior, xs) && DistinctBitmaps(xs)
      invariant UnderWay(Wire.DecodeBitmapSlot, slots, size, start, BitmapsOf(xs), i, d.rest)
    {
      UnderWayStep(Wire.DecodeBitmapSlot, slots, size, start, BitmapsOf(xs), i, d.rest);
      xs, ok := DecodeBitmapAt(xs, i, d);
      if !ok {
        return;
      }
    }
    UnderWayEnd(Wire.DecodeBitmapSlot, slots, size, start, BitmapsOf(xs), d.rest);
    ok := true;
  }

  /**
   Reads a list into `prior`: elements of a list of the right length are decoded in place,
   otherwise, and in empty slots, new structs are allocated.
   */
  method DecodeBitmaps(prior: seq<FailoverNATBitmapPair?>, d: BufferDecoder)
    returns (xs: seq<FailoverNATBitmapPair?>, ok: bool)
    requires DistinctBitmaps(prior)
    modifies d, prior
    ensures Wire.DecodeBitmaps(old(BitmapsOf(prior)), old(d.rest)) == Decoded(ok, BitmapsOf(xs), d.rest)
    ensures DistinctBitmaps(xs)
    ensures forall p :: p in xs ==> p == null || p in prior || fresh(p)
  {
    var size;
    size, ok := d.Slice(AnyKind);
    if !ok {
      return prior, false;
    }
    xs := if |prior| % TWO_TO_THE_32 != size then seq(size, _ => null) else prior;
    assert BitmapsOf(xs) == Wire.Slots(old(BitmapsOf(prior)), None, size);
    xs, ok := DecodeBitmapSlots(xs, size, d);
    EndedIsDecoded(AnyKind, Wire.DecodeBitmapSlot, None, old(BitmapsOf(prior)), old(d.rest), BitmapsOf(xs), ok, d.rest);
  }

  // ---------------------------------------------------------------- state and response

  /** The two lists share no struct. */
  ghost predicate Apart(xs: seq<FailoverNATKeyValuePair?>, ys: seq<FailoverNATKeyValuePair?>) {
    forall i, j :: 0 <= i < |xs| && 0 <= j < |ys| && xs[i] != null ==> xs[i] != ys[j]
  }

  /** Decodes one list of a state and leaves the three others alone. */
  method DecodePairsBeside(
    prior: seq<FailoverNATKeyValuePair?>, d: BufferDecoder,
    ghost a: seq<FailoverNATKeyValuePair?>, ghost b: seq<FailoverNATKeyValuePair?>,
    ghost c: seq<FailoverNATKeyValuePair?>)
    returns (xs: seq<FailoverNATKeyValuePair?>, ok: bool)
    requires DistinctPairs(prior) && Apart(prior, a) && Apart(prior, b) && Apart(prior, c)
    modifies d, prior
    ensures Wire.DecodePairs(old(PairsOf(prior)), old(d.rest)) == Decoded(ok, PairsOf(xs), d.rest)
    ensures DistinctPairs(xs) && Apart(xs, a) && Apart(xs, b) && Apart(xs, c)
    ensures forall p :: p in xs ==> p == null || p in prior || fresh(p)
    ensures PairsOf(a) == old(PairsOf(a)) && PairsOf(b) == old(PairsOf(b)) && PairsOf(c) == old(PairsOf(c))
  {
    xs, ok := DecodePairs(prior, d);
    forall i | 0 <= i < |xs| && xs[i] != null
      ensures xs[i] in prior || fresh(xs[i])
    {
      assert xs[i] in xs;
    }
    assert PairsOf(a) == old(PairsOf(a));
    assert PairsOf(b) == old(PairsOf(b));
    assert PairsOf(c) == old(PairsOf(c));
  }

  class FailoverNATState {
    var error: Option<string>
    var flags: uint8
    var ips: seq<string>
    var tcpInbound: seq<FailoverNATKeyValuePair?>
    var tcpOutbound: seq<FailoverNATKeyValuePair?>
    var udpInbound: seq<FailoverNATKeyValuePair?>
    var udpOutbound: seq<FailoverNATKeyValuePair?>
    var natPorts: seq<FailoverNATBitmapPair?>

    /** No pair occurs twice, neither within a list nor in two lists. */
    ghost predicate Valid() reads this {
      && DistinctPairs(tcpInbound) && DistinctPairs(tcpOutbound)
      && DistinctPairs(udpInbound) && DistinctPairs(udpOutbound)
      && DistinctBitmaps(natPorts)
      && Apart(tcpInbound, tcpOutbound) && Apart(tcpInbound, udpInbound) && Apart(tcpInbound, udpOutbound)
      && Apart(tcpOutbound, udpInbound) && Apart(tcpOutbound, udpOutbound) && Apart(udpInbound, udpOutbound)
    }

    function Contents(): Wire.State
      reads this, tcpInbound, tcpOutbound, udpInbound, udpOutbound, natPorts
    {
      Wire.State(error, flags, ips, PairsOf(tcpInbound), PairsOf(tcpOutbound),
                 PairsOf(udpInbound), PairsOf(udpOutbound), BitmapsOf(natPorts))
    }

    constructor ()
      ensures Valid() && Contents() == Wire.NEW_STATE
    {
      error, flags, ips := None, 0, [];
      tcpInbound, tcpOutbound, udpInbound, udpOutbound, natPorts := [], [], [], [], [];
    }

    method Decode(d: BufferDecoder) returns (ok: bool)
      requires Valid()
      modifies this, d, tcpInbound, tcpOutbound, udpInbound, udpOutbound, natPorts
      ensures Wire.DecodeState(old(Contents()), old(d.rest)) == Decoded(ok, Contents(), d.rest)
    {
      var body;
      body, ok := DecodeHeader(d);
      if body {
        ok := DecodeIpsOnwards(d);
      }
    }

    /** Reads what comes before the lists; `body` tells that the lists follow. */
    method DecodeHeader(d: BufferDecoder) returns (body: bool, ok: bool)
      modifies `error, `flags, d
      ensures body == Wire.ReadHeader(old(d.rest)).Fields?
      ensures match Wire.ReadHeader(old(d.rest))
        case NilHeader(rest) => ok && error == old(error) && flags == old(flags) && d.rest == rest
        case ErrorHeader(text, rest) => ok && error == Some(text) && flags == old(flags) && d.rest == rest
        case BadFlags(rest) => !ok && error == None && flags == 0 && d.rest == rest
        case Fields(f, rest) => error == None && flags == f && d.rest == rest
    {
      var isNil := d.Nil();
      if isNil {
        return false, true;
      }
      var hasError;
      error, hasError := d.Error();
      if hasError {
        return false, true;
      }
      flags, ok := d.Uint8();
      body := ok;
    }

    // The rest of a decode, from each list onwards.

    method DecodeIpsOnwards(d: BufferDecoder) returns (ok: bool)
      requires Valid()
      modifies this, d, tcpInbound, tcpOutbound, udpInbound, udpOutbound, natPorts
      ensures Wire.DecodeIpsOnwards(old(Contents()), old(d.rest)) == Decoded(ok, Contents(), d.rest)
    {
      ips, ok := DecodeAddresses(ips, d);
      if ok {
        ok := DecodeTcpInboundOnwards(d);
      }
    }

    method DecodeTcpInboundOnwards(d: BufferDecoder) returns (ok: bool)
      requires Valid()
      modifies this, d, tcpInbound, tcpOutbound, udpInbound, udpOutbound, natPorts
      ensures Wire.DecodeTcpInboundOnwards(old(Contents()), old(d.rest)) == Decoded(ok, Contents(), d.rest)
    {
      tcpInbound, ok := DecodePairsBeside(tcpInbound, d, tcpOutbound, udpInbound, udpOutbound);
      assert BitmapsOf(natPorts) == old(BitmapsOf(natPorts));
      if ok {
        ok := DecodeTcpOutboundOnwards(d);
      }
    }

    method DecodeTcpOutboundOnwards(d: BufferDecoder) returns (ok: bool)
      requires Valid()
      modifies this, d, tcpOutbound, udpInbound, udpOutbound, natPorts
      ensures Wire.DecodeTcpOutboundOnwards(old(Contents()), old(d.rest)) == Decoded(ok, Contents(), d.rest)
    {
      tcpOutbound, ok := DecodePairsBeside(tcpOutbound, d, tcpInbound, udpInbound, udpOutbound);
      assert BitmapsOf(natPorts) == old(BitmapsOf(natPorts));
      if ok {
        ok := DecodeUdpInboundOnwards(d);
      }
    }

    method DecodeUdpInboundOnwards(d: BufferDecoder) returns (ok: bool)
      requires Valid()
      modifies this, d, udpInbound, udpOutbound, natPorts
      ensures Wire.DecodeUdpInboundOnwards(old(Contents()), old(d.rest)) == Decoded(ok, Contents(), d.rest)
    {
      udpInbound, ok := DecodePairsBeside(udpInbound, d, tcpInbound, tcpOutbound, udpOutbound);
      assert BitmapsOf(natPorts) == old(BitmapsOf(natPorts));
      if ok {
        ok := DecodeUdpOutboundOnwards(d);
      }
    }

    method DecodeUdpOutboundOnwards(d: BufferDecoder) returns (ok: bool)
      requires Valid()
      modifies this, d, udpOutbound, natPorts
      ensures Wire.DecodeUdpOutboundOnwards(old(Contents()), old(d.rest)) == Decoded(ok, Contents(), d.rest)
    {
      udpOutbound, ok := DecodePairsBeside(udpOutbound, d, tcpInbound, tcpOutbound, udpInbound);
      assert BitmapsOf(natPorts) == old(BitmapsOf(natPorts));
      if ok {
        ok := DecodeNatPortsOnwards(d);
      }
    }

    method DecodeNatPortsOnwards(d: BufferDecoder) returns (ok: bool)
      requires Valid()
      modifies this, d, natPorts
      ensures Wire.DecodeNatPortsOnwards(old(Contents()), old(d.rest)) == Decoded(ok, Contents(), d.rest)
    {
      hide Wire.DecodeBitmaps, DistinctPairs, Apart;
      natPorts, ok := DecodeBitmaps(natPorts, d);
      assert PairsOf(tcpInbound) == old(PairsOf(tcpInbound)) && PairsOf(tcpOutbound) == old(PairsOf(tcpOutbound));
      assert PairsOf(udpInbound) == old(PairsOf(udpInbound)) && PairsOf(udpOutbound) == old(PairsOf(udpOutbound));
    }
  }

  class FailoverSyncStateRequest {
    var error: Option<string>
    var flags: uint8
    var requestId: string

    function Contents(): Wire.Request reads this {
      Wire.Request(error, flags, requestId)
    }

    constructor ()
      ensures Contents() == Wire.NEW_REQUEST
    {
      error, flags, requestId := None, 0, "";
    }

    method Decode(d: BufferDecoder) returns (ok: bool)
      modifies this, d
      ensures Wire.DecodeRequest(old(Contents()), old(d.rest)) == Decoded(ok, Contents(), d.rest)
    {
      var isNil := d.Nil();
      if isNil {
        return true;
      }
      var hasError;
      error, hasError := d.Error();
      if hasError {
        return true;
      }
      flags, ok := d.Uint8();
      if !ok {
        return;
      }
      requestId, ok := d.String();
    }
  }

  class FailoverSyncStateResponse {
    var error: Option<string>
    var flags: uint8
    var requestId: string
    var success: bool
    var errorMessage: string
    var state: Option<Wire.State>

    function Contents(): Wire.Response reads this {
      Wire.Response(error, flags, requestId, success, errorMessage, state)
    }

    constructor ()
      ensures Contents() == Wire.NEW_RESPONSE
    {
      error, flags, requestId, success, errorMessage, state := None, 0, "", false, "", None;
    }

    method Decode(d: BufferDecoder) returns (ok: bool)
      modifies this, d
      ensures Wire.DecodeResponse(old(Contents()), old(d.rest)) == Decoded(ok, Contents(), d.rest)
    {
      hide Wire.DecodeState;
      var isNil := d.Nil();
      if isNil {
        return true;
      }
      var hasError;
      error, hasError := d.Error();
      if hasError {
        return true;
      }
      flags, ok := d.Uint8();
      if !ok {
        return;
      }
      requestId, ok := d.String();
      if !ok {
        return;
      }
      success, ok := d.Bool();
      if !ok {
        return;
      }
      errorMessage, ok := d.String();
      if !ok {
        return;
      }
      isNil := d.Nil();
      if !isNil {
        var s := new FailoverNATState();
        ok := s.Decode(d);
        state := Some(s.Contents());
      }
    }
  }
}
