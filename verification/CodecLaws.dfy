/** What encoding followed by decoding means, for every message that carries NAT state. */
module CodecLaws {
  import opened Wrappers
  import opened Polyglot
  import opened Wire

  // ---------------------------------------------------------------- normal forms

  /** A struct that carries an error keeps only the error. */
  function NormKey(k: Key): Key {
    if k.error.Some? then NEW_KEY.(error := k.error) else k
  }

  function NormValue(v: Value): Value {
    if v.error.Some? then NEW_VALUE.(error := v.error) else v
  }

  function NormKeyField(k: Option<Key>): Option<Key> {
    if k.None? then None else Some(NormKey(k.value))
  }

  function NormValueField(v: Option<Value>): Option<Value> {
    if v.None? then None else Some(NormValue(v.value))
  }

  function NormPair(p: Pair): Pair {
    if p.error.Some? then NEW_PAIR.(error := p.error)
    else p.(key := NormKeyField(p.key), value := NormValueField(p.value))
  }

  function NormBitmap(b: Bitmap): Bitmap {
    if b.error.Some? then NEW_BITMAP.(error := b.error) else b
  }

  /** A nil list element comes back as an empty struct. */
  function NormPairSlot(p: Option<Pair>): Option<Pair> {
    Some(if p.None? then NEW_PAIR else NormPair(p.value))
  }

  function NormBitmapSlot(b: Option<Bitmap>): Option<Bitmap> {
    Some(if b.None? then NEW_BITMAP else NormBitmap(b.value))
  }

  function Map<S, T>(f: S -> T, xs: seq<S>): (r: seq<T>)
    ensures |r| == |xs| && forall i :: 0 <= i < |xs| ==> r[i] == f(xs[i])
  {
    seq(|xs|, i requires 0 <= i < |xs| => f(xs[i]))
  }

  function NormState(s: State): State {
    if s.error.Some? then NEW_STATE.(error := s.error)
    else s.(
      tcpInbound := Map(NormPairSlot, s.tcpInbound), tcpOutbound := Map(NormPairSlot, s.tcpOutbound),
      udpInbound := Map(NormPairSlot, s.udpInbound), udpOutbound := Map(NormPairSlot, s.udpOutbound),
      natPorts := Map(NormBitmapSlot, s.natPorts))
  }

  function NormStateField(s: Option<State>): Option<State> {
    if s.None? then None else Some(NormState(s.value))
  }

  function NormRequest(r: Request): Request {
    if r.error.Some? then NEW_REQUEST.(error := r.error) else r
  }

  function NormResponse(r: Response): Response {
    if r.error.Some? then NEW_RESPONSE.(error := r.error) else r.(state := NormStateField(r.state))
  }

  /** The list has a length that its 32-bit header can carry. */
  predicate Fits<S>(xs: seq<S>) { |xs| < TWO_TO_THE_32 }

  predicate FitsHeaders(s: State) {
    && Fits(s.ips) && Fits(s.tcpInbound) && Fits(s.tcpOutbound)
    && Fits(s.udpInbound) && Fits(s.udpOutbound) && Fits(s.natPorts)
  }

  /** As many elements as the 32-bit header says there are. */
  function Cut<S>(xs: seq<S>): (r: seq<S>)
    ensures |r| == |xs| % TWO_TO_THE_32 && Fits(r)
    ensures Fits(xs) ==> r == xs
  {
    xs[..|xs| % TWO_TO_THE_32]
  }

  // ---------------------------------------------------------------- structs without lists

  lemma KeyRoundTrip(x: Option<Key>, tail: seq<Token>)
    ensures DecodeKeyField(None, EncodeKey(x) + tail) == Decoded(true, NormKeyField(x), tail)
  {
    var ts := EncodeKey(x) + tail;
    assert ts[|EncodeKey(x)|..] == tail;
    if x.Some? && x.value.error.None? {
      assert ts[1..][1..][1..][1..][1..] == tail;
    }
  }

  lemma ValueRoundTrip(x: Option<Value>, tail: seq<Token>)
    ensures DecodeValueField(None, EncodeValue(x) + tail) == Decoded(true, NormValueField(x), tail)
  {
    var ts := EncodeValue(x) + tail;
    assert ts[|EncodeValue(x)|..] == tail;
    if x.Some? && x.value.error.None? {
      assert ts[1..][1..][1..][1..] == tail;
    }
  }

  lemma PairRoundTrip(x: Option<Pair>, tail: seq<Token>)
    ensures DecodePairSlot(None, EncodePair(x) + tail) == Decoded(true, NormPairSlot(x), tail)
  {
    var ts := EncodePair(x) + tail;
    if x.Some? && x.value.error.None? {
      var p := x.value;
      var afterKey := EncodeValue(p.value) + tail;
      assert ts[1..] == EncodeKey(p.key) + afterKey;
      KeyRoundTrip(p.key, afterKey);
      ValueRoundTrip(p.value, tail);
    } else {
      assert ts[1..] == tail;
    }
  }

  lemma BitmapRoundTrip(x: Option<Bitmap>, tail: seq<Token>)
    ensures DecodeBitmapSlot(None, EncodeBitmap(x) + tail) == Decoded(true, NormBitmapSlot(x), tail)
  {
    var ts := EncodeBitmap(x) + tail;
    assert ts[|EncodeBitmap(x)|..] == tail;
    if x.Some? && x.value.error.None? {
      assert ts[1..][1..][1..][1..][1..] == tail;
    }
  }

  // ---------------------------------------------------------------- lists

  /** One element written with `enc` and read into a blank slot with `dec` comes back as `norm` says. */
  ghost predicate ElementLaw<S(!new)>(
    enc: S -> seq<Token>, dec: (S, seq<Token>) -> Decoded<S>, norm: S -> S, blank: S)
  {
    forall x: S, tail: seq<Token> :: dec(blank, enc(x) + tail) == Decoded(true, norm(x), tail)
  }

  /** Decoding `n` slots of a longer encoded list yields its first `n` elements and leaves the others unread. */
  lemma {:induction false} DecodePrefix<S(!new)>(
    enc: S -> seq<Token>, dec: (S, seq<Token>) -> Decoded<S>, norm: S -> S, blank: S,
    xs: seq<S>, n: nat, tail: seq<Token>)
    requires ElementLaw(enc, dec, norm, blank)
    requires n <= |xs|
    ensures DecodeAll(dec, Blank(blank, n), EncodeAll(enc, xs) + tail)
         == Decoded(true, Map(norm, xs[..n]), EncodeAll(enc, xs[n..]) + tail)
  {
    if n == 0 {
      assert xs[n..] == xs && Map(norm, xs[..n]) == [];
    } else {
      var after := EncodeAll(enc, xs[1..]) + tail;
      assert EncodeAll(enc, xs) + tail == enc(xs[0]) + after;
      assert Blank(blank, n)[1..] == Blank(blank, n - 1);
      DecodePrefix(enc, dec, norm, blank, xs[1..], n - 1, tail);
      assert xs[1..][n - 1..] == xs[n..];
      assert [norm(xs[0])] + Map(norm, xs[1..][..n - 1]) == Map(norm, xs[..n]);
    }
  }

  /** A list read into an empty receiver: the header says how many elements are read back. */
  lemma ListPrefix<S(!new)>(
    kind: Kind, enc: S -> seq<Token>, dec: (S, seq<Token>) -> Decoded<S>, norm: S -> S, blank: S,
    xs: seq<S>, tail: seq<Token>)
    requires ElementLaw(enc, dec, norm, blank)
    ensures DecodeList(kind, dec, blank, [], EncodeList(kind, enc, xs) + tail)
         == (var n := |xs| % TWO_TO_THE_32; Decoded(true, Map(norm, xs[..n]), EncodeAll(enc, xs[n..]) + tail))
  {
    var n := |xs| % TWO_TO_THE_32;
    var ts := EncodeList(kind, enc, xs) + tail;
    assert ts[1..] == EncodeAll(enc, xs) + tail;
    var slots := Slots([], blank, n);
    assert slots[..n] == Blank(blank, n) && slots[n..] == [];
    DecodePrefix(enc, dec, norm, blank, xs, n, tail);
    assert Map(norm, xs[..n]) + [] == Map(norm, xs[..n]);
  }

  /** No element starts with a slice header, so a leftover element cannot pass for the next list. */
  ghost predicate NeverSlice<S(!new)>(enc: S -> seq<Token>) {
    forall x: S :: enc(x) != [] && !enc(x)[0].Slice?
  }

  /** A list comes back cut to its header; when that loses something, a stray element is next. */
  ghost predicate ReadBack<S, T>(d: Decoded<seq<S>>, xs: seq<T>, norm: T -> S, tail: seq<Token>) {
    && d.ok
    && d.value == Map(norm, Cut(xs))
    && if Fits(xs) then d.rest == tail else d.rest != [] && !d.rest[0].Slice?
  }

  lemma ListReadBack<S(!new)>(
    kind: Kind, enc: S -> seq<Token>, dec: (S, seq<Token>) -> Decoded<S>, norm: S -> S, blank: S,
    xs: seq<S>, tail: seq<Token>)
    requires ElementLaw(enc, dec, norm, blank) && NeverSlice(enc)
    ensures ReadBack(DecodeList(kind, dec, blank, [], EncodeList(kind, enc, xs) + tail), xs, norm, tail)
  {
    ListPrefix(kind, enc, dec, norm, blank, xs, tail);
    var n := |xs| % TWO_TO_THE_32;
    if Fits(xs) {
      assert xs[n..] == [];
      assert EncodeAll(enc, xs[n..]) + tail == tail;
    } else {
      assert xs[n..] != [];
      assert enc(xs[n..][0]) != [];
    }
  }

  function Same(ip: string): string { ip }

  lemma AddressesReadBack(xs: seq<string>, tail: seq<Token>)
    ensures ReadBack(DecodeAddresses([], EncodeList(StringKind, EncodeAddress, xs) + tail), xs, Same, tail)
  {
    forall x: string, t: seq<Token>
      ensures DecodeAddressSlot("", EncodeAddress(x) + t) == Decoded(true, Same(x), t)
    {
      assert (EncodeAddress(x) + t)[1..] == t;
    }
    ListReadBack(StringKind, EncodeAddress, DecodeAddressSlot, Same, "", xs, tail);
  }

  lemma PairsReadBack(xs: seq<Option<Pair>>, tail: seq<Token>)
    ensures ReadBack(DecodePairs([], EncodeList(AnyKind, EncodePair, xs) + tail), xs, NormPairSlot, tail)
  {
    forall x: Option<Pair>, t: seq<Token>
      ensures DecodePairSlot(None, EncodePair(x) + t) == Decoded(true, NormPairSlot(x), t)
    {
      PairRoundTrip(x, t);
    }
    ListReadBack(AnyKind, EncodePair, DecodePairSlot, NormPairSlot, None, xs, tail);
  }

  lemma BitmapsReadBack(xs: seq<Option<Bitmap>>, tail: seq<Token>)
    ensures ReadBack(DecodeBitmaps([], EncodeList(AnyKind, EncodeBitmap, xs) + tail), xs, NormBitmapSlot, tail)
  {
    forall x: Option<Bitmap>, t: seq<Token>
      ensures DecodeBitmapSlot(None, EncodeBitmap(x) + t) == Decoded(true, NormBitmapSlot(x), t)
    {
      BitmapRoundTrip(x, t);
    }
    ListReadBack(AnyKind, EncodeBitmap, DecodeBitmapSlot, NormBitmapSlot, None, xs, tail);
  }

  // ---------------------------------------------------------------- NAT state

  // What remains of an encoded state from each list onwards, in front of `tail`.

  function NatPortsTokens(s: State, tail: seq<Token>): seq<Token> {
    EncodeList(AnyKind, EncodeBitmap, s.natPorts) + tail
  }

  function UdpOutboundTokens(s: State, tail: seq<Token>): seq<Token> {
    EncodeList(AnyKind, EncodePair, s.udpOutbound) + NatPortsTokens(s, tail)
  }

  function UdpInboundTokens(s: State, tail: seq<Token>): seq<Token> {
    EncodeList(AnyKind, EncodePair, s.udpInbound) + UdpOutboundTokens(s, tail)
  }

  function TcpOutboundTokens(s: State, tail: seq<Token>): seq<Token> {
    EncodeList(AnyKind, EncodePair, s.tcpOutbound) + UdpInboundTokens(s, tail)
  }

  function TcpInboundTokens(s: State, tail: seq<Token>): seq<Token> {
    EncodeList(AnyKind, EncodePair, s.tcpInbound) + TcpOutboundTokens(s, tail)
  }

  function IpsTokens(s: State, tail: seq<Token>): seq<Token> {
    EncodeList(StringKind, EncodeAddress, s.ips) + TcpInboundTokens(s, tail)
  }

  lemma StateTokens(s: State, tail: seq<Token>)
    requires s.error.None?
    ensures EncodeState(Some(s)) + tail == [Uint8(s.flags)] + IpsTokens(s, tail)
  {
    Regroup([Uint8(s.flags)],
            EncodeList(StringKind, EncodeAddress, s.ips),
            EncodeList(AnyKind, EncodePair, s.tcpInbound),
            EncodeList(AnyKind, EncodePair, s.tcpOutbound),
            EncodeList(AnyKind, EncodePair, s.udpInbound),
            EncodeList(AnyKind, EncodePair, s.udpOutbound),
            EncodeList(AnyKind, EncodeBitmap, s.natPorts), tail);
  }

  lemma Regroup<T>(a: seq<T>, b: seq<T>, c: seq<T>, d: seq<T>, e: seq<T>, f: seq<T>, g: seq<T>, tail: seq<T>)
    ensures a + b + c + d + e + f + g + tail == a + (b + (c + (d + (e + (f + (g + tail))))))
  {
    assert a + b + c + d + e + f + g + tail == a + b + c + d + e + f + (g + tail);
    assert a + b + c + d + e + f + (g + tail) == a + b + c + d + e + (f + (g + tail));
    assert a + b + c + d + e + (f + (g + tail)) == a + b + c + d + (e + (f + (g + tail)));
    assert a + b + c + d + (e + (f + (g + tail))) == a + b + c + (d + (e + (f + (g + tail))));
  }

  /** A list read at a token that is no slice header fails and writes nothing. */
  lemma StrayTokenFails(x: State, ts: seq<Token>)
    requires ts == [] || !ts[0].Slice?
    ensures DecodeTcpInboundOnwards(x, ts) == Decoded(false, x, ts)
    ensures DecodeTcpOutboundOnwards(x, ts) == Decoded(false, x, ts)
    ensures DecodeUdpInboundOnwards(x, ts) == Decoded(false, x, ts)
    ensures DecodeUdpOutboundOnwards(x, ts) == Decoded(false, x, ts)
    ensures DecodeNatPortsOnwards(x, ts) == Decoded(false, x, ts)
  {
  }

  // What arrives in `x` of the lists of a state from each list onwards: each is cut to its header,
  // and nothing is read after the first that loses something.

  function ArriveNatPorts(x: State, s: State): State {
    x.(natPorts := Cut(s.natPorts))
  }

  function ArriveUdpOutbound(x: State, s: State): State {
    var y := x.(udpOutbound := Cut(s.udpOutbound));
    if Fits(s.udpOutbound) then ArriveNatPorts(y, s) else y
  }

  function ArriveUdpInbound(x: State, s: State): State {
    var y := x.(udpInbound := Cut(s.udpInbound));
    if Fits(s.udpInbound) then ArriveUdpOutbound(y, s) else y
  }

  function ArriveTcpOutbound(x: State, s: State): State {
    var y := x.(tcpOutbound := Cut(s.tcpOutbound));
    if Fits(s.tcpOutbound) then ArriveUdpInbound(y, s) else y
  }

  function ArriveTcpInbound(x: State, s: State): State {
    var y := x.(tcpInbound := Cut(s.tcpInbound));
    if Fits(s.tcpInbound) then ArriveTcpOutbound(y, s) else y
  }

  function ArriveIps(x: State, s: State): State {
    var y := x.(ips := Cut(s.ips));
    if Fits(s.ips) then ArriveTcpInbound(y, s) else y
  }

  /** The state that a decoder is given to read when `s` is encoded. */
  function Arriving(s: State): State {
    if s.error.Some? then s else ArriveIps(NEW_STATE.(flags := s.flags), s)
  }

  /** The whole state arrives exactly when every list fits its header. */
  lemma ArrivesWhole(s: State)
    requires s.error.None?
    ensures Arriving(s) == s <==> FitsHeaders(s)
  {
  }

  /** A decode has read what arrives, and when that is everything, it has succeeded and left the tail. */
  ghost predicate Reads(d: Decoded<State>, arrives: State, whole: bool, tail: seq<Token>) {
    d.value == NormState(arrives) && (whole ==> d.ok && d.rest == tail)
  }

  lemma NatPortsRead(x: State, s: State, tail: seq<Token>)
    requires x.error.None? && x.natPorts == []
    ensures Reads(DecodeNatPortsOnwards(NormState(x), NatPortsTokens(s, tail)), ArriveNatPorts(x, s),
                  Fits(s.natPorts), tail)
  {
    BitmapsReadBack(s.natPorts, tail);
    assert Map(NormBitmapSlot, x.natPorts) == [];
  }

  lemma UdpOutboundRead(x: State, s: State, tail: seq<Token>)
    requires x.error.None? && x.udpOutbound == [] && x.natPorts == []
    ensures Reads(DecodeUdpOutboundOnwards(NormState(x), UdpOutboundTokens(s, tail)), ArriveUdpOutbound(x, s),
                  Fits(s.udpOutbound) && Fits(s.natPorts), tail)
  {
    PairsReadBack(s.udpOutbound, NatPortsTokens(s, tail));
    assert Map(NormPairSlot, x.udpOutbound) == [];
    var d := DecodePairs([], UdpOutboundTokens(s, tail));
    var y := x.(udpOutbound := Cut(s.udpOutbound));
    assert NormState(x).(udpOutbound := d.value) == NormState(y);
    if Fits(s.udpOutbound) {
      NatPortsRead(y, s, tail);
    } else {
      StrayTokenFails(NormState(y), d.rest);
    }
  }

  lemma UdpInboundRead(x: State, s: State, tail: seq<Token>)
    requires x.error.None? && x.udpInbound == [] && x.udpOutbound == [] && x.natPorts == []
    ensures Reads(DecodeUdpInboundOnwards(NormState(x), UdpInboundTokens(s, tail)), ArriveUdpInbound(x, s),
                  Fits(s.udpInbound) && Fits(s.udpOutbound) && Fits(s.natPorts), tail)
  {
    PairsReadBack(s.udpInbound, UdpOutboundTokens(s, tail));
    assert Map(NormPairSlot, x.udpInbound) == [];
    var d := DecodePairs([], UdpInboundTokens(s, tail));
    var y := x.(udpInbound := Cut(s.udpInbound));
    assert NormState(x).(udpInbound := d.value) == NormState(y);
    if Fits(s.udpInbound) {
      UdpOutboundRead(y, s, tail);
    } else {
      StrayTokenFails(NormState(y), d.rest);
    }
  }

  // What the two lists for UDP and the ports have in common in the three lemmas that follow.

  predicate UdpEmpty(x: State) {
    x.udpInbound == [] && x.udpOutbound == [] && x.natPorts == []
  }

  predicate UdpFits(s: State) {
    Fits(s.udpInbound) && Fits(s.udpOutbound) && Fits(s.natPorts)
  }

  lemma TcpOutboundRead(x: State, s: State, tail: seq<Token>)
    requires x.error.None? && x.tcpOutbound == [] && UdpEmpty(x)
    ensures Reads(DecodeTcpOutboundOnwards(NormState(x), TcpOutboundTokens(s, tail)), ArriveTcpOutbound(x, s),
                  Fits(s.tcpOutbound) && UdpFits(s), tail)
  {
    PairsReadBack(s.tcpOutbound, UdpInboundTokens(s, tail));
    assert Map(NormPairSlot, x.tcpOutbound) == [];
    var d := DecodePairs([], TcpOutboundTokens(s, tail));
    var y := x.(tcpOutbound := Cut(s.tcpOutbound));
    assert NormState(x).(tcpOutbound := d.value) == NormState(y);
    if Fits(s.tcpOutbound) {
      UdpInboundRead(y, s, tail);
    } else {
      StrayTokenFails(NormState(y), d.rest);
    }
  }

  lemma TcpInboundRead(x: State, s: State, tail: seq<Token>)
    requires x.error.None? && x.tcpInbound == [] && x.tcpOutbound == [] && UdpEmpty(x)
    ensures Reads(DecodeTcpInboundOnwards(NormState(x), TcpInboundTokens(s, tail)), ArriveTcpInbound(x, s),
                  Fits(s.tcpInbound) && Fits(s.tcpOutbound) && UdpFits(s), tail)
  {
    PairsReadBack(s.tcpInbound, TcpOutboundTokens(s, tail));
    assert Map(NormPairSlot, x.tcpInbound) == [];
    var d := DecodePairs([], TcpInboundTokens(s, tail));
    var y := x.(tcpInbound := Cut(s.tcpInbound));
    assert NormState(x).(tcpInbound := d.value) == NormState(y);
    if Fits(s.tcpInbound) {
      TcpOutboundRead(y, s, tail);
    } else {
      StrayTokenFails(NormState(y), d.rest);
    }
  }

  lemma IpsRead(x: State, s: State, tail: seq<Token>)
    requires x.error.None? && x.ips == [] && x.tcpInbound == [] && x.tcpOutbound == [] && UdpEmpty(x)
    ensures Reads(DecodeIpsOnwards(NormState(x), IpsTokens(s, tail)), ArriveIps(x, s), FitsHeaders(s), tail)
  {
    AddressesReadBack(s.ips, TcpInboundTokens(s, tail));
    var d := DecodeAddresses([], IpsTokens(s, tail));
    var y := x.(ips := Cut(s.ips));
    assert Map(Same, Cut(s.ips)) == Cut(s.ips);
    assert NormState(x).(ips := d.value) == NormState(y);
    if Fits(s.ips) {
      TcpInboundRead(y, s, tail);
    } else {
      StrayTokenFails(NormState(y), d.rest);
    }
  }

  lemma ListsFollow(x: State, flags: uint8, lists: seq<Token>)
    ensures DecodeState(x, [Uint8(flags)] + lists) == DecodeIpsOnwards(x.(error := None, flags := flags), lists)
  {
    var ts := [Uint8(flags)] + lists;
    assert ts[1..] == lists;
    assert ReadHeader(ts) == Fields(flags, lists);
  }

  /**
   Decoding the encoding of a state gives what arrives of it in normal form. In front of any
   further tokens, the whole state comes back and exactly those tokens are left if and only if
   every list fits its 32-bit header (an encoded error has no lists).
   */
  lemma StateRoundTrip(s: State, tail: seq<Token>)
    ensures var d := DecodeState(NEW_STATE, EncodeState(Some(s)) + tail);
      && d.value == NormState(Arriving(s))
      && (d == Decoded(true, NormState(s), tail) <==> s.error.Some? || FitsHeaders(s))
  {
    var ts := EncodeState(Some(s)) + tail;
    if s.error.Some? {
      assert ts[1..] == tail;
    } else {
      var x := NEW_STATE.(flags := s.flags);
      StateTokens(s, tail);
      ListsFollow(NEW_STATE, s.flags, IpsTokens(s, tail));
      NormNew(s.flags);
      IpsRead(x, s, tail);
      ArrivesWhole(s);
      LengthsKept(Arriving(s), s);
    }
  }

  lemma NormNew(flags: uint8)
    ensures NormState(NEW_STATE.(flags := flags)) == NEW_STATE.(flags := flags)
  {
    var x := NEW_STATE.(flags := flags);
    assert Map(NormPairSlot, x.tcpInbound) == [] && Map(NormBitmapSlot, x.natPorts) == [];
  }

  /** Of a state that does not fit, some list arrives with another length, also in normal form. */
  lemma LengthsKept(a: State, s: State)
    requires a == Arriving(s) && s.error.None?
    ensures !FitsHeaders(s) ==> NormState(a) != NormState(s)
  {
  }

  // ---------------------------------------------------------------- responses

  predicate StateFits(s: Option<State>) {
    s.None? || s.value.error.Some? || FitsHeaders(s.value)
  }

  /** What a decoder is given to read of a response. */
  function ArrivingResponse(r: Response): Response {
    r.(state := if r.state.None? then None else Some(Arriving(r.state.value)))
  }

  lemma StateFieldRoundTrip(s: Option<State>, tail: seq<Token>)
    ensures var d := DecodeStateField(None, EncodeState(s) + tail);
      && d.value == NormStateField(if s.None? then None else Some(Arriving(s.value)))
      && (d == Decoded(true, NormStateField(s), tail) <==> StateFits(s))
  {
    var ts := EncodeState(s) + tail;
    if s.None? {
      assert ts[1..] == tail;
    } else {
      StateStartsNotNil(s.value, tail);
      StateRoundTrip(s.value, tail);
    }
  }

  lemma StateStartsNotNil(s: State, tail: seq<Token>)
    ensures !NilNext(EncodeState(Some(s)) + tail)
  {
    if s.error.None? {
      StateTokens(s, tail);
    }
  }

  /** The same for a whole response; a nil response comes back as an empty one. */
  lemma ResponseRoundTrip(x: Option<Response>, tail: seq<Token>)
    ensures var d := DecodeResponse(NEW_RESPONSE, EncodeResponse(x) + tail);
      && d.value == (if x.None? then NEW_RESPONSE else NormResponse(ArrivingResponse(x.value)))
      && (d == Decoded(true, if x.None? then NEW_RESPONSE else NormResponse(x.value), tail)
          <==> x.None? || x.value.error.Some? || StateFits(x.value.state))
  {
    var ts := EncodeResponse(x) + tail;
    if x.None? || x.value.error.Some? {
      assert ts[1..] == tail;
    } else {
      ResponseTokens(x.value, tail);
      HeadReadBack(x.value, EncodeState(x.value.state) + tail);
      StateFieldRoundTrip(x.value.state, tail);
    }
  }

  function ResponseHead(r: Response): seq<Token> {
    [Uint8(r.flags), String(r.requestId), Bool(r.success), String(r.errorMessage)]
  }

  /** The scalar fields of a response are read back whatever tokens follow them. */
  lemma HeadReadBack(r: Response, body: seq<Token>)
    ensures var d := DecodeStateField(None, body);
      DecodeResponse(NEW_RESPONSE, ResponseHead(r) + body)
      == Decoded(d.ok, Response(None, r.flags, r.requestId, r.success, r.errorMessage, d.value), d.rest)
  {
    var ts := ResponseHead(r) + body;
    assert ts[1..] == [String(r.requestId), Bool(r.success), String(r.errorMessage)] + body;
    assert ts[1..][1..] == [Bool(r.success), String(r.errorMessage)] + body;
    assert ts[1..][1..][1..] == [String(r.errorMessage)] + body;
    assert ts[1..][1..][1..][1..] == body;
  }

  lemma ResponseTokens(r: Response, tail: seq<Token>)
    requires r.error.None?
    ensures EncodeResponse(Some(r)) + tail == ResponseHead(r) + (EncodeState(r.state) + tail)
  {
  }

  /** Every request comes back in normal form; a nil request comes back as an empty one. */
  lemma RequestRoundTrip(x: Option<Request>, tail: seq<Token>)
    ensures DecodeRequest(NEW_REQUEST, EncodeRequest(x) + tail)
         == Decoded(true, if x.None? then NEW_REQUEST else NormRequest(x.value), tail)
  {
    var ts := EncodeRequest(x) + tail;
    assert ts[|EncodeRequest(x)|..] == tail;
    if x.Some? && x.value.error.None? {
      assert ts[1..][1..] == tail;
    }
  }

  // ---------------------------------------------------------------- decoding canonicalises

  lemma PairCanonical(ts: seq<Token>)
    ensures var d := DecodePairSlot(None, ts); d.ok ==> NormPairSlot(d.value) == d.value
  {
  }

  lemma BitmapCanonical(ts: seq<Token>)
    ensures var d := DecodeBitmapSlot(None, ts); d.ok ==> NormBitmapSlot(d.value) == d.value
  {
  }

  lemma {:induction false} SlotsCanonical<S(!new)>(
    dec: (S, seq<Token>) -> Decoded<S>, norm: S -> S, blank: S, n: nat, ts: seq<Token>)
    requires forall t: seq<Token> :: dec(blank, t).ok ==> norm(dec(blank, t).value) == dec(blank, t).value
    ensures var d := DecodeAll(dec, Blank(blank, n), ts); d.ok ==> Map(norm, d.value) == d.value
  {
    if n > 0 {
      assert Blank(blank, n)[1..] == Blank(blank, n - 1);
      SlotsCanonical(dec, norm, blank, n - 1, dec(blank, ts).rest);
    }
  }

  /** A list decoded into an empty receiver is in normal form and fits its header. */
  lemma ListCanonical<S(!new)>(
    kind: Kind, dec: (S, seq<Token>) -> Decoded<S>, norm: S -> S, blank: S, ts: seq<Token>)
    requires forall t: seq<Token> :: dec(blank, t).ok ==> norm(dec(blank, t).value) == dec(blank, t).value
    ensures var d := DecodeList(kind, dec, blank, [], ts);
      d.ok ==> |d.value| < TWO_TO_THE_32 && Map(norm, d.value) == d.value
  {
    var size := TakeSlice(kind, ts);
    if size.ok {
      var slots := Slots([], blank, size.value);
      assert slots[..size.value] == Blank(blank, size.value) && slots[size.value..] == [];
      SlotsCanonical(dec, norm, blank, size.value, size.rest);
      var d := DecodeAll(dec, Blank(blank, size.value), size.rest);
      assert d.value + [] == d.value;
    }
  }

  lemma PairsCanonical(ts: seq<Token>)
    ensures var d := DecodePairs([], ts); d.ok ==> |d.value| < TWO_TO_THE_32 && Map(NormPairSlot, d.value) == d.value
  {
    forall t: seq<Token> ensures var d := DecodePairSlot(None, t); d.ok ==> NormPairSlot(d.value) == d.value {
      PairCanonical(t);
    }
    ListCanonical(AnyKind, DecodePairSlot, NormPairSlot, None, ts);
  }

  lemma BitmapsCanonical(ts: seq<Token>)
    ensures var d := DecodeBitmaps([], ts); d.ok ==>
      |d.value| < TWO_TO_THE_32 && Map(NormBitmapSlot, d.value) == d.value
  {
    forall t: seq<Token> ensures var d := DecodeBitmapSlot(None, t); d.ok ==> NormBitmapSlot(d.value) == d.value {
      BitmapCanonical(t);
    }
    ListCanonical(AnyKind, DecodeBitmapSlot, NormBitmapSlot, None, ts);
  }

  lemma AddressesCanonical(ts: seq<Token>)
    ensures var d := DecodeAddresses([], ts); d.ok ==> |d.value| < TWO_TO_THE_32
  {
    ListCanonical(StringKind, DecodeAddressSlot, Same, "", ts);
  }

  /** Whatever a state is successfully decoded from, it is in normal form and fits its headers. */
  lemma DecodedStateIsNormal(ts: seq<Token>)
    ensures var d := DecodeState(NEW_STATE, ts);
      d.ok ==> NormState(d.value) == d.value && (d.value.error.Some? || FitsHeaders(d.value))
  {
    var h := ReadHeader(ts);
    if h.Fields? {
      var a := DecodeAddresses([], h.rest);
      var b := DecodePairs([], a.rest);
      var c := DecodePairs([], b.rest);
      var d := DecodePairs([], c.rest);
      var e := DecodePairs([], d.rest);
      AddressesCanonical(h.rest);
      PairsCanonical(a.rest);
      PairsCanonical(b.rest);
      PairsCanonical(c.rest);
      PairsCanonical(d.rest);
      BitmapsCanonical(e.rest);
    }
  }

  /** On any tokens: if decoding succeeds with `r`, then decoding the encoding of `r` gives exactly `r`. */
  lemma DecodingCanonicalises(ts: seq<Token>, tail: seq<Token>)
    requires DecodeResponse(NEW_RESPONSE, ts).ok
    ensures var r := DecodeResponse(NEW_RESPONSE, ts).value;
      DecodeResponse(NEW_RESPONSE, EncodeResponse(Some(r)) + tail) == Decoded(true, r, tail)
  {
    var r := DecodeResponse(NEW_RESPONSE, ts).value;
    var h := ReadHeader(ts);
    if h.Fields? {
      var c := TakeString(TakeBool(TakeString(h.rest).rest).rest);
      DecodedStateIsNormal(c.rest);
    }
    ResponseRoundTrip(Some(r), tail);
  }
}
