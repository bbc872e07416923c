/**
 The wire format of the generated messages, as functions on values. A null pointer is
 `None`. Every `Decode…` function takes the receiver as it was before the call, because the
 generated code writes into it field by field and reuses the elements of its lists; on
 failure the returned value is the partly written receiver.
 */
module Wire {
  import opened Wrappers
  import opened Polyglot

  datatype Key = Key(
    error: Option<string>, flags: uint8,
    destinationIp: string, destinationPort: uint32, sourceIp: string, sourcePort: uint32)

  datatype Value = Value(
    error: Option<string>, flags: uint8,
    lastSeen: string, translateIp: string, translatePort: uint32)

  datatype Pair = Pair(error: Option<string>, flags: uint8, key: Option<Key>, value: Option<Value>)

  datatype Bitmap = Bitmap(
    error: Option<string>, flags: uint8,
    bitmap: string, destinationIp: string, lastChunk: uint32, natip: string)

  datatype State = State(
    error: Option<string>, flags: uint8,
    ips: seq<string>,
    tcpInbound: seq<Option<Pair>>, tcpOutbound: seq<Option<Pair>>,
    udpInbound: seq<Option<Pair>>, udpOutbound: seq<Option<Pair>>,
    natPorts: seq<Option<Bitmap>>)

  datatype Request = Request(error: Option<string>, flags: uint8, requestId: string)

  datatype Response = Response(
    error: Option<string>, flags: uint8,
    requestId: string, success: bool, errorMessage: string, state: Option<State>)

  const NEW_KEY: Key := Key(None, 0, "", 0, "", 0)
  const NEW_VALUE: Value := Value(None, 0, "", "", 0)
  const NEW_PAIR: Pair := Pair(None, 0, None, None)
  const NEW_BITMAP: Bitmap := Bitmap(None, 0, "", "", 0, "")
  const NEW_STATE: State := State(None, 0, [], [], [], [], [], [])
  const NEW_REQUEST: Request := Request(None, 0, "")
  const NEW_RESPONSE: Response := Response(None, 0, "", false, "", None)

  // ---------------------------------------------------------------- encoding

  /** What every `Encode` writes first: an error replaces the whole body. */
  function WithError(error: Option<string>, body: seq<Token>): seq<Token> {
    match error
    case Some(text) => [Error(text)]
    case None => body
  }

  function EncodeKey(x: Option<Key>): seq<Token> {
    match x
    case None => [Nil]
    case Some(k) => WithError(k.error,
      [Uint8(k.flags), String(k.destinationIp), Uint32(k.destinationPort), String(k.sourceIp), Uint32(k.sourcePort)])
  }

  function EncodeValue(x: Option<Value>): seq<Token> {
    match x
    case None => [Nil]
    case Some(v) => WithError(v.error,
      [Uint8(v.flags), String(v.lastSeen), String(v.translateIp), Uint32(v.translatePort)])
  }

  function EncodePair(x: Option<Pair>): seq<Token> {
    match x
    case None => [Nil]
    case Some(p) => WithError(p.error, [Uint8(p.flags)] + EncodeKey(p.key) + EncodeValue(p.value))
  }

  function EncodeBitmap(x: Option<Bitmap>): seq<Token> {
    match x
    case None => [Nil]
    case Some(p) => WithError(p.error,
      [Uint8(p.flags), String(p.bitmap), String(p.destinationIp), Uint32(p.lastChunk), String(p.natip)])
  }

  function EncodeAddress(ip: string): seq<Token> { [String(ip)] }

  /** The elements of a list, one after the other. */
  function EncodeAll<S>(enc: S -> seq<Token>, xs: seq<S>): seq<Token> {
    if xs == [] then [] else enc(xs[0]) + EncodeAll(enc, xs[1..])
  }

  function EncodeList<S>(kind: Kind, enc: S -> seq<Token>, xs: seq<S>): seq<Token> {
    [SliceHeader(kind, |xs|)] + EncodeAll(enc, xs)
  }

  /** The header and the first `n` elements. */
  function Written<S>(kind: Kind, enc: S -> seq<Token>, xs: seq<S>, n: nat): seq<Token>
    requires n <= |xs|
  {
    [SliceHeader(kind, |xs|)] + EncodeAll(enc, xs[..n])
  }

  lemma WrittenStep<S>(before: seq<Token>, kind: Kind, enc: S -> seq<Token>, xs: seq<S>, n: nat)
    requires n < |xs|
    ensures before + Written(kind, enc, xs, n + 1) == before + Written(kind, enc, xs, n) + enc(xs[n])
  {
    EncodeAllSnoc(enc, xs[..n], xs[n]);
    assert xs[..n] + [xs[n]] == xs[..n + 1];
  }

  lemma WrittenWhole<S>(kind: Kind, enc: S -> seq<Token>, xs: seq<S>)
    ensures Written(kind, enc, xs, |xs|) == EncodeList(kind, enc, xs)
  {
    assert xs[..|xs|] == xs;
  }

  lemma {:induction false} EncodeAllSnoc<S>(enc: S -> seq<Token>, xs: seq<S>, x: S)
    ensures EncodeAll(enc, xs + [x]) == EncodeAll(enc, xs) + enc(x)
  {
    if xs == [] {
      assert EncodeAll(enc, [x]) == enc(x) + EncodeAll(enc, []);
    } else {
      assert (xs + [x])[1..] == xs[1..] + [x];
      EncodeAllSnoc(enc, xs[1..], x);
    }
  }

  function EncodeState(x: Option<State>): seq<Token> {
    match x
    case None => [Nil]
    case Some(s) => WithError(s.error,
      [Uint8(s.flags)]
      + EncodeList(StringKind, EncodeAddress, s.ips)
      + EncodeList(AnyKind, EncodePair, s.tcpInbound)
      + EncodeList(AnyKind, EncodePair, s.tcpOutbound)
      + EncodeList(AnyKind, EncodePair, s.udpInbound)
      + EncodeList(AnyKind, EncodePair, s.udpOutbound)
      + EncodeList(AnyKind, EncodeBitmap, s.natPorts))
  }

  lemma StateBody(before: seq<Token>, s: State)
    requires s.error.None?
    ensures before + EncodeState(Some(s))
         == before + [Uint8(s.flags)]
            + EncodeList(StringKind, EncodeAddress, s.ips)
            + EncodeList(AnyKind, EncodePair, s.tcpInbound)
            + EncodeList(AnyKind, EncodePair, s.tcpOutbound)
            + EncodeList(AnyKind, EncodePair, s.udpInbound)
            + EncodeList(AnyKind, EncodePair, s.udpOutbound)
            + EncodeList(AnyKind, EncodeBitmap, s.natPorts)
  {
    Concatenation(before, [Uint8(s.flags)],
                  EncodeList(StringKind, EncodeAddress, s.ips),
                  EncodeList(AnyKind, EncodePair, s.tcpInbound),
                  EncodeList(AnyKind, EncodePair, s.tcpOutbound),
                  EncodeList(AnyKind, EncodePair, s.udpInbound),
                  EncodeList(AnyKind, EncodePair, s.udpOutbound),
                  EncodeList(AnyKind, EncodeBitmap, s.natPorts));
  }

  lemma Concatenation<T>(z: seq<T>, a: seq<T>, b: seq<T>, c: seq<T>, d: seq<T>, e: seq<T>, f: seq<T>, g: seq<T>)
    ensures z + (a + b + c + d + e + f + g) == z + a + b + c + d + e + f + g
  {
    assert z + (a + b) == z + a + b;
    assert z + (a + b + c) == z + (a + b) + c;
    assert z + (a + b + c + d) == z + (a + b + c) + d;
    assert z + (a + b + c + d + e) == z + (a + b + c + d) + e;
    assert z + (a + b + c + d + e + f) == z + (a + b + c + d + e) + f;
    assert z + (a + b + c + d + e + f + g) == z + (a + b + c + d + e + f) + g;
  }

  function EncodeRequest(x: Option<Request>): seq<Token> {
    match x
    case None => [Nil]
    case Some(r) => WithError(r.error, [Uint8(r.flags), String(r.requestId)])
  }

  function EncodeResponse(x: Option<Response>): seq<Token> {
    match x
    case None => [Nil]
    case Some(r) => WithError(r.error,
      [Uint8(r.flags), String(r.requestId), Bool(r.success), String(r.errorMessage)] + EncodeState(r.state))
  }

  // ---------------------------------------------------------------- decoding

  /** What every `decode` reads first. */
  datatype Header =
    | NilHeader(rest: seq<Token>)
    | ErrorHeader(text: string, rest: seq<Token>)
    | BadFlags(rest: seq<Token>)
    | Fields(flags: uint8, rest: seq<Token>)

  function ReadHeader(ts: seq<Token>): Header {
    if NilNext(ts) then NilHeader(ts[1..])
    else if ErrorNext(ts) then ErrorHeader(ts[0].text, ts[1..])
    else
      var flags := TakeUint8(ts);
      if flags.ok then Fields(flags.value, flags.rest) else BadFlags(flags.rest)
  }

  function DecodeKey(x: Key, ts: seq<Token>): Decoded<Key> {
    match ReadHeader(ts)
    case NilHeader(rest) => Decoded(true, x, rest)
    case ErrorHeader(text, rest) => Decoded(true, x.(error := Some(text)), rest)
    case BadFlags(rest) => Decoded(false, x.(error := None, flags := 0), rest)
    case Fields(flags, rest) =>
      var x := x.(error := None, flags := flags);
      var a := TakeString(rest);
      var x := x.(destinationIp := a.value);
      if !a.ok then Decoded(false, x, a.rest) else
      var b := TakeUint32(a.rest);
      var x := x.(destinationPort := b.value);
      if !b.ok then Decoded(false, x, b.rest) else
      var c := TakeString(b.rest);
      var x := x.(sourceIp := c.value);
      if !c.ok then Decoded(false, x, c.rest) else
      var d := TakeUint32(c.rest);
      Decoded(d.ok, x.(sourcePort := d.value), d.rest)
  }

  function DecodeValue(x: Value, ts: seq<Token>): Decoded<Value> {
    match ReadHeader(ts)
    case NilHeader(rest) => Decoded(true, x, rest)
    case ErrorHeader(text, rest) => Decoded(true, x.(error := Some(text)), rest)
    case BadFlags(rest) => Decoded(false, x.(error := None, flags := 0), rest)
    case Fields(flags, rest) =>
      var x := x.(error := None, flags := flags);
      var a := TakeString(rest);
      var x := x.(lastSeen := a.value);
      if !a.ok then Decoded(false, x, a.rest) else
      var b := TakeString(a.rest);
      var x := x.(translateIp := b.value);
      if !b.ok then Decoded(false, x, b.rest) else
      var c := TakeUint32(b.rest);
      Decoded(c.ok, x.(translatePort := c.value), c.rest)
  }

  /** A child that is not Nil is decoded into a new struct; a Nil keeps the child that is there. */
  function DecodeKeyField(prior: Option<Key>, ts: seq<Token>): Decoded<Option<Key>> {
    if NilNext(ts) then Decoded(true, prior, ts[1..])
    else
      var k := DecodeKey(NEW_KEY, ts);
      Decoded(k.ok, Some(k.value), k.rest)
  }

  function DecodeValueField(prior: Option<Value>, ts: seq<Token>): Decoded<Option<Value>> {
    if NilNext(ts) then Decoded(true, prior, ts[1..])
    else
      var v := DecodeValue(NEW_VALUE, ts);
      Decoded(v.ok, Some(v.value), v.rest)
  }

  function DecodePair(x: Pair, ts: seq<Token>): Decoded<Pair> {
    match ReadHeader(ts)
    case NilHeader(rest) => Decoded(true, x, rest)
    case ErrorHeader(text, rest) => Decoded(true, x.(error := Some(text)), rest)
    case BadFlags(rest) => Decoded(false, x.(error := None, flags := 0), rest)
    case Fields(flags, rest) =>
      var x := x.(error := None, flags := flags);
      var k := DecodeKeyField(x.key, rest);
      var x := x.(key := k.value);
      if !k.ok then Decoded(false, x, k.rest) else
      var v := DecodeValueField(x.value, k.rest);
      Decoded(v.ok, x.(value := v.value), v.rest)
  }

  function DecodeBitmap(x: Bitmap, ts: seq<Token>): Decoded<Bitmap> {
    match ReadHeader(ts)
    case NilHeader(rest) => Decoded(true, x, rest)
    case ErrorHeader(text, rest) => Decoded(true, x.(error := Some(text)), rest)
    case BadFlags(rest) => Decoded(false, x.(error := None, flags := 0), rest)
    case Fields(flags, rest) =>
      var x := x.(error := None, flags := flags);
      var a := TakeString(rest);
      var x := x.(bitmap := a.value);
      if !a.ok then Decoded(false, x, a.rest) else
      var b := TakeString(a.rest);
      var x := x.(destinationIp := b.value);
      if !b.ok then Decoded(false, x, b.rest) else
      var c := TakeUint32(b.rest);
      var x := x.(lastChunk := c.value);
      if !c.ok then Decoded(false, x, c.rest) else
      var d := TakeString(c.rest);
      Decoded(d.ok, x.(natip := d.value), d.rest)
  }

  /** One list slot: an empty slot is filled with a new struct before it is decoded into. */
  function DecodePairSlot(slot: Option<Pair>, ts: seq<Token>): Decoded<Option<Pair>> {
    var p := DecodePair(slot.GetOr(NEW_PAIR), ts);
    Decoded(p.ok, Some(p.value), p.rest)
  }

  function DecodeBitmapSlot(slot: Option<Bitmap>, ts: seq<Token>): Decoded<Option<Bitmap>> {
    var p := DecodeBitmap(slot.GetOr(NEW_BITMAP), ts);
    Decoded(p.ok, Some(p.value), p.rest)
  }

  function DecodeAddressSlot(slot: string, ts: seq<Token>): Decoded<string> { TakeString(ts) }

  /** Decodes into the slots from left to right and stops at the first failure. */
  function DecodeAll<S>(dec: (S, seq<Token>) -> Decoded<S>, slots: seq<S>, ts: seq<Token>): (r: Decoded<seq<S>>)
    ensures |r.value| == |slots|
  {
    if slots == [] then Decoded(true, [], ts)
    else
      var d := dec(slots[0], ts);
      if !d.ok then Decoded(false, [d.value] + slots[1..], d.rest)
      else
        var r := DecodeAll(dec, slots[1..], d.rest);
        Decoded(r.ok, [d.value] + r.value, r.rest)
  }

  function Blank<S>(blank: S, n: nat): (r: seq<S>)
    ensures |r| == n && forall i :: 0 <= i < n ==> r[i] == blank
  {
    seq(n, _ => blank)
  }

  /** The list a decode writes into: the old one when its 32-bit length matches, otherwise a new one. */
  function Slots<S>(prior: seq<S>, blank: S, size: uint32): (r: seq<S>)
    ensures size <= |r| && |r| % TWO_TO_THE_32 == size
  {
    if |prior| % TWO_TO_THE_32 == size then prior else Blank(blank, size)
  }

  function DecodeList<S>(kind: Kind, dec: (S, seq<Token>) -> Decoded<S>, blank: S, prior: seq<S>, ts: seq<Token>)
    : Decoded<seq<S>>
  {
    var size := TakeSlice(kind, ts);
    if !size.ok then Decoded(false, prior, size.rest)
    else
      var slots := Slots(prior, blank, size.value);
      var d := DecodeAll(dec, slots[..size.value], size.rest);
      Decoded(d.ok, d.value + slots[size.value..], d.rest)
  }

  function DecodeAddresses(prior: seq<string>, ts: seq<Token>): Decoded<seq<string>> {
    DecodeList(StringKind, DecodeAddressSlot, "", prior, ts)
  }

  function DecodePairs(prior: seq<Option<Pair>>, ts: seq<Token>): Decoded<seq<Option<Pair>>> {
    DecodeList(AnyKind, DecodePairSlot, None, prior, ts)
  }

  function DecodeBitmaps(prior: seq<Option<Bitmap>>, ts: seq<Token>): Decoded<seq<Option<Bitmap>>> {
    DecodeList(AnyKind, DecodeBitmapSlot, None, prior, ts)
  }

  function DecodeState(x: State, ts: seq<Token>): Decoded<State> {
    match ReadHeader(ts)
    case NilHeader(rest) => Decoded(true, x, rest)
    case ErrorHeader(text, rest) => Decoded(true, x.(error := Some(text)), rest)
    case BadFlags(rest) => Decoded(false, x.(error := None, flags := 0), rest)
    case Fields(flags, rest) => DecodeIpsOnwards(x.(error := None, flags := flags), rest)
  }

  // The lists of a state in the order they are read; each function reads one and goes on with the next.

  function DecodeIpsOnwards(x: State, ts: seq<Token>): Decoded<State> {
    var d := DecodeAddresses(x.ips, ts);
    var x := x.(ips := d.value);
    if d.ok then DecodeTcpInboundOnwards(x, d.rest) else Decoded(false, x, d.rest)
  }

  function DecodeTcpInboundOnwards(x: State, ts: seq<Token>): Decoded<State> {
    var d := DecodePairs(x.tcpInbound, ts);
    var x := x.(tcpInbound := d.value);
    if d.ok then DecodeTcpOutboundOnwards(x, d.rest) else Decoded(false, x, d.rest)
  }

  function DecodeTcpOutboundOnwards(x: State, ts: seq<Token>): Decoded<State> {
    var d := DecodePairs(x.tcpOutbound, ts);
    var x := x.(tcpOutbound := d.value);
    if d.ok then DecodeUdpInboundOnwards(x, d.rest) else Decoded(false, x, d.rest)
  }

  function DecodeUdpInboundOnwards(x: State, ts: seq<Token>): Decoded<State> {
    var d := DecodePairs(x.udpInbound, ts);
    var x := x.(udpInbound := d.value);
    if d.ok then DecodeUdpOutboundOnwards(x, d.rest) else Decoded(false, x, d.rest)
  }

  function DecodeUdpOutboundOnwards(x: State, ts: seq<Token>): Decoded<State> {
    var d := DecodePairs(x.udpOutbound, ts);
    var x := x.(udpOutbound := d.value);
    if d.ok then DecodeNatPortsOnwards(x, d.rest) else Decoded(false, x, d.rest)
  }

  function DecodeNatPortsOnwards(x: State, ts: seq<Token>): Decoded<State> {
    var d := DecodeBitmaps(x.natPorts, ts);
    Decoded(d.ok, x.(natPorts := d.value), d.rest)
  }

  function DecodeStateField(prior: Option<State>, ts: seq<Token>): Decoded<Option<State>> {
    if NilNext(ts) then Decoded(true, prior, ts[1..])
    else
      var s := DecodeState(NEW_STATE, ts);
      Decoded(s.ok, Some(s.value), s.rest)
  }

  function DecodeRequest(x: Request, ts: seq<Token>): Decoded<Request> {
    match ReadHeader(ts)
    case NilHeader(rest) => Decoded(true, x, rest)
    case ErrorHeader(text, rest) => Decoded(true, x.(error := Some(text)), rest)
    case BadFlags(rest) => Decoded(false, x.(error := None, flags := 0), rest)
    case Fields(flags, rest) =>
      var id := TakeString(rest);
      Decoded(id.ok, x.(error := None, flags := flags, requestId := id.value), id.rest)
  }

  function DecodeResponse(x: Response, ts: seq<Token>): Decoded<Response> {
    match ReadHeader(ts)
    case NilHeader(rest) => Decoded(true, x, rest)
    case ErrorHeader(text, rest) => Decoded(true, x.(error := Some(text)), rest)
    case BadFlags(rest) => Decoded(false, x.(error := None, flags := 0), rest)
    case Fields(flags, rest) =>
      var x := x.(error := None, flags := flags);
      var a := TakeString(rest);
      var x := x.(requestId := a.value);
      if !a.ok then Decoded(false, x, a.rest) else
      var b := TakeBool(a.rest);
      var x := x.(success := b.value);
      if !b.ok then Decoded(false, x, b.rest) else
      var c := TakeString(b.rest);
      var x := x.(errorMessage := c.value);
      if !c.ok then Decoded(false, x, c.rest) else
      var d := DecodeStateField(x.state, c.rest);
      Decoded(d.ok, x.(state := d.value), d.rest)
  }
}
