/** Decoding into a used receiver: what it can and cannot change. */
module ReceiverReuse {
  import opened Wrappers
  import opened Polyglot
  import opened Wire
  import opened CodecLaws

  /** No struct of the stream is nil or an error. */
  predicate Plain(ts: seq<Token>) {
    forall t :: t in ts ==> !t.Nil? && !t.Error?
  }

  /**
   Two decodes of the same tokens into different receivers: they succeed together and stop at
   the same place; when they succeed on a plain stream they also leave the same contents.
   */
  ghost predicate Alike<T>(ts: seq<Token>, d: Decoded<T>, e: Decoded<T>) {
    && d.ok == e.ok
    && d.rest == e.rest
    && (Plain(ts) ==> Plain(d.rest))
    && (Plain(ts) && d.ok ==> d.value == e.value)
  }

  ghost predicate SlotLaw<S(!new)>(dec: (S, seq<Token>) -> Decoded<S>) {
    forall s: S, t: S, ts: seq<Token> :: Alike(ts, dec(s, ts), dec(t, ts))
  }

  lemma KeyFieldAlike(p: Option<Key>, q: Option<Key>, ts: seq<Token>)
    ensures Alike(ts, DecodeKeyField(p, ts), DecodeKeyField(q, ts))
  {
    var h := ReadHeader(ts);
    if h.Fields? {
      assert Plain(ts) ==> Plain(h.rest);
    }
  }

  lemma ValueFieldAlike(p: Option<Value>, q: Option<Value>, ts: seq<Token>)
    ensures Alike(ts, DecodeValueField(p, ts), DecodeValueField(q, ts))
  {
    var h := ReadHeader(ts);
    if h.Fields? {
      assert Plain(ts) ==> Plain(h.rest);
    }
  }

  lemma PairAlike(p: Option<Pair>, q: Option<Pair>, ts: seq<Token>)
    ensures Alike(ts, DecodePairSlot(p, ts), DecodePairSlot(q, ts))
  {
    var h := ReadHeader(ts);
    if h.Fields? {
      var x, y := p.GetOr(NEW_PAIR), q.GetOr(NEW_PAIR);
      KeyFieldAlike(x.key, y.key, h.rest);
      ValueFieldAlike(x.value, y.value, DecodeKeyField(x.key, h.rest).rest);
    }
  }

  lemma BitmapAlike(p: Option<Bitmap>, q: Option<Bitmap>, ts: seq<Token>)
    ensures Alike(ts, DecodeBitmapSlot(p, ts), DecodeBitmapSlot(q, ts))
  {
    var h := ReadHeader(ts);
    if h.Fields? {
      assert Plain(ts) ==> Plain(h.rest);
      var a := TakeString(h.rest);
      var b := TakeString(a.rest);
      var c := TakeUint32(b.rest);
      assert Plain(ts) ==> Plain(a.rest) && Plain(b.rest) && Plain(c.rest);
    }
  }

  lemma {:induction false} SlotsAlike<S(!new)>(
    dec: (S, seq<Token>) -> Decoded<S>, p: seq<S>, q: seq<S>, ts: seq<Token>)
    requires SlotLaw(dec) && |p| == |q|
    ensures Alike(ts, DecodeAll(dec, p, ts), DecodeAll(dec, q, ts))
  {
    if p != [] {
      assert Alike(ts, dec(p[0], ts), dec(q[0], ts));
      SlotsAlike(dec, p[1..], q[1..], dec(p[0], ts).rest);
    }
  }

  lemma ListAlike<S(!new)>(
    kind: Kind, dec: (S, seq<Token>) -> Decoded<S>, blank: S, p: seq<S>, q: seq<S>, ts: seq<Token>)
    requires SlotLaw(dec) && |p| < TWO_TO_THE_32 && |q| < TWO_TO_THE_32
    ensures Alike(ts, DecodeList(kind, dec, blank, p, ts), DecodeList(kind, dec, blank, q, ts))
  {
    var size := TakeSlice(kind, ts);
    if size.ok {
      var n := size.value;
      var a, b := Slots(p, blank, n), Slots(q, blank, n);
      assert a[..n] == a && b[..n] == b;
      SlotsAlike(dec, a, b, size.rest);
      assert a[n..] == [] && b[n..] == [];
    }
  }

  lemma PairsAlike(p: seq<Option<Pair>>, q: seq<Option<Pair>>, ts: seq<Token>)
    requires |p| < TWO_TO_THE_32 && |q| < TWO_TO_THE_32
    ensures Alike(ts, DecodePairs(p, ts), DecodePairs(q, ts))
  {
    forall s: Option<Pair>, t: Option<Pair>, us: seq<Token>
      ensures Alike(us, DecodePairSlot(s, us), DecodePairSlot(t, us))
    {
      PairAlike(s, t, us);
    }
    ListAlike(AnyKind, DecodePairSlot, None, p, q, ts);
  }

  lemma BitmapsAlike(p: seq<Option<Bitmap>>, q: seq<Option<Bitmap>>, ts: seq<Token>)
    requires |p| < TWO_TO_THE_32 && |q| < TWO_TO_THE_32
    ensures Alike(ts, DecodeBitmaps(p, ts), DecodeBitmaps(q, ts))
  {
    forall s: Option<Bitmap>, t: Option<Bitmap>, us: seq<Token>
      ensures Alike(us, DecodeBitmapSlot(s, us), DecodeBitmapSlot(t, us))
    {
      BitmapAlike(s, t, us);
    }
    ListAlike(AnyKind, DecodeBitmapSlot, None, p, q, ts);
  }

  lemma AddressesAlike(p: seq<string>, q: seq<string>, ts: seq<Token>)
    requires |p| < TWO_TO_THE_32 && |q| < TWO_TO_THE_32
    ensures Alike(ts, DecodeAddresses(p, ts), DecodeAddresses(q, ts))
  {
    ListAlike(StringKind, DecodeAddressSlot, "", p, q, ts);
  }

  /**
   Receiver reuse is invisible: whatever a used state holds, decoding into it succeeds and
   stops exactly where decoding into a new one does, and on a stream without Nil structs and
   errors a successful decode leaves the same contents.
   */
  lemma ReuseInvisible(used: State, ts: seq<Token>)
    requires FitsHeaders(used)
    ensures Alike(ts, DecodeState(used, ts), DecodeState(NEW_STATE, ts))
  {
    var h := ReadHeader(ts);
    if h.Fields? {
      var a := DecodeAddresses(used.ips, h.rest);
      var b := DecodePairs(used.tcpInbound, a.rest);
      var c := DecodePairs(used.tcpOutbound, b.rest);
      var d := DecodePairs(used.udpInbound, c.rest);
      var e := DecodePairs(used.udpOutbound, d.rest);
      AddressesAlike(used.ips, [], h.rest);
      PairsAlike(used.tcpInbound, [], a.rest);
      PairsAlike(used.tcpOutbound, [], b.rest);
      PairsAlike(used.udpInbound, [], c.rest);
      PairsAlike(used.udpOutbound, [], d.rest);
      BitmapsAlike(used.natPorts, [], e.rest);
    }
  }

  lemma {:induction false} CopiesArePlain<S>(enc: S -> seq<Token>, x: S, n: nat)
    requires Plain(enc(x))
    ensures Plain(EncodeAll(enc, Blank(x, n)))
  {
    if n > 0 {
      CopiesArePlain(enc, x, n - 1);
      assert Blank(x, n)[1..] == Blank(x, n - 1);
    }
  }

  // ---------------------------------------------------------------- lists too long for their headers

  /** A used list whose length has the same last 32 bits as the one that is sent passes for it, and keeps its length. */
  lemma LengthPasses<S(!new)>(
    kind: Kind, enc: S -> seq<Token>, dec: (S, seq<Token>) -> Decoded<S>, norm: S -> S, blank: S,
    used: seq<S>, xs: seq<S>, tail: seq<Token>)
    requires ElementLaw(enc, dec, norm, blank) && NeverSlice(enc) && SlotLaw(dec)
    requires |xs| == |used| % TWO_TO_THE_32
    ensures var d := DecodeList(kind, dec, blank, used, EncodeList(kind, enc, xs) + tail);
      d.ok && d.rest == tail && |d.value| == |used|
  {
    var ts := EncodeList(kind, enc, xs) + tail;
    var n := |xs|;
    var slots := Slots([], blank, n);
    ListReadBack(kind, enc, dec, norm, blank, xs, tail);
    assert slots[..n] == slots;
    SlotsAlike(dec, used[..n], slots, ts[1..]);
  }

  lemma AddressesPass(used: seq<string>, xs: seq<string>, tail: seq<Token>)
    requires |xs| == |used| % TWO_TO_THE_32
    ensures var d := DecodeAddresses(used, EncodeList(StringKind, EncodeAddress, xs) + tail);
      d.ok && d.rest == tail && |d.value| == |used|
  {
    forall x: string, t: seq<Token>
      ensures DecodeAddressSlot("", EncodeAddress(x) + t) == Decoded(true, Same(x), t)
    {
      assert (EncodeAddress(x) + t)[1..] == t;
    }
    LengthPasses(StringKind, EncodeAddress, DecodeAddressSlot, Same, "", used, xs, tail);
  }

  lemma PairsPass(used: seq<Option<Pair>>, xs: seq<Option<Pair>>, tail: seq<Token>)
    requires |xs| == |used| % TWO_TO_THE_32
    ensures var d := DecodePairs(used, EncodeList(AnyKind, EncodePair, xs) + tail);
      d.ok && d.rest == tail && |d.value| == |used|
  {
    forall x: Option<Pair>, t: seq<Token>
      ensures DecodePairSlot(None, EncodePair(x) + t) == Decoded(true, NormPairSlot(x), t)
    {
      PairRoundTrip(x, t);
    }
    forall s: Option<Pair>, t: Option<Pair>, us: seq<Token>
      ensures Alike(us, DecodePairSlot(s, us), DecodePairSlot(t, us))
    {
      PairAlike(s, t, us);
    }
    LengthPasses(AnyKind, EncodePair, DecodePairSlot, NormPairSlot, None, used, xs, tail);
  }

  lemma BitmapsPass(used: seq<Option<Bitmap>>, xs: seq<Option<Bitmap>>, tail: seq<Token>)
    requires |xs| == |used| % TWO_TO_THE_32
    ensures var d := DecodeBitmaps(used, EncodeList(AnyKind, EncodeBitmap, xs) + tail);
      d.ok && d.rest == tail && |d.value| == |used|
  {
    forall x: Option<Bitmap>, t: seq<Token>
      ensures DecodeBitmapSlot(None, EncodeBitmap(x) + t) == Decoded(true, NormBitmapSlot(x), t)
    {
      BitmapRoundTrip(x, t);
    }
    forall s: Option<Bitmap>, t: Option<Bitmap>, us: seq<Token>
      ensures Alike(us, DecodeBitmapSlot(s, us), DecodeBitmapSlot(t, us))
    {
      BitmapAlike(s, t, us);
    }
    LengthPasses(AnyKind, EncodeBitmap, DecodeBitmapSlot, NormBitmapSlot, None, used, xs, tail);
  }

  const FULL_PAIR: Option<Pair> := Some(NEW_PAIR.(key := Some(NEW_KEY), value := Some(NEW_VALUE)))

  function Copies<S>(x: S, xs: seq<S>): (r: seq<S>)
    ensures |r| == |xs| % TWO_TO_THE_32
  {
    Blank(x, |xs| % TWO_TO_THE_32)
  }

  /** A state without Nil and errors whose headers are those of the used receiver. */
  function Sample(used: State): State {
    State(None, 0, Copies("", used.ips),
          Copies(FULL_PAIR, used.tcpInbound), Copies(FULL_PAIR, used.tcpOutbound),
          Copies(FULL_PAIR, used.udpInbound), Copies(FULL_PAIR, used.udpOutbound),
          Copies(Some(NEW_BITMAP), used.natPorts))
  }

  lemma CopiedListPlain<S>(kind: Kind, enc: S -> seq<Token>, x: S, xs: seq<S>)
    requires Plain(enc(x))
    ensures Plain(EncodeList(kind, enc, Copies(x, xs)))
  {
    CopiesArePlain(enc, x, |xs| % TWO_TO_THE_32);
  }

  lemma SampleIsPlain(used: State)
    ensures Plain(EncodeState(Some(Sample(used))))
  {
    CopiedListPlain(StringKind, EncodeAddress, "", used.ips);
    CopiedListPlain(AnyKind, EncodePair, FULL_PAIR, used.tcpInbound);
    CopiedListPlain(AnyKind, EncodePair, FULL_PAIR, used.tcpOutbound);
    CopiedListPlain(AnyKind, EncodePair, FULL_PAIR, used.udpInbound);
    CopiedListPlain(AnyKind, EncodePair, FULL_PAIR, used.udpOutbound);
    CopiedListPlain(AnyKind, EncodeBitmap, Some(NEW_BITMAP), used.natPorts);
    hide EncodeList, Copies, EncodePair, EncodeBitmap;
  }

  predicate SameLengths(x: State, y: State) {
    && |x.ips| == |y.ips|
    && |x.tcpInbound| == |y.tcpInbound| && |x.tcpOutbound| == |y.tcpOutbound|
    && |x.udpInbound| == |y.udpInbound| && |x.udpOutbound| == |y.udpOutbound|
    && |x.natPorts| == |y.natPorts|
  }

  lemma SampleKeepsLengths(used: State)
    ensures SameLengths(DecodeState(used, EncodeState(Some(Sample(used)))).value, used)
  {
    var s := Sample(used);
    StateTokens(s, []);
    assert EncodeState(Some(s)) + [] == EncodeState(Some(s));
    ListsFollow(used, 0, IpsTokens(s, []));
    AddressesPass(used.ips, s.ips, TcpInboundTokens(s, []));
    PairsPass(used.tcpInbound, s.tcpInbound, TcpOutboundTokens(s, []));
    PairsPass(used.tcpOutbound, s.tcpOutbound, UdpInboundTokens(s, []));
    PairsPass(used.udpInbound, s.udpInbound, UdpOutboundTokens(s, []));
    PairsPass(used.udpOutbound, s.udpOutbound, NatPortsTokens(s, []));
    BitmapsPass(used.natPorts, s.natPorts, []);
  }

  lemma SampleReadBack(used: State)
    ensures var d := DecodeState(NEW_STATE, EncodeState(Some(Sample(used))));
      d.ok && SameLengths(d.value, Sample(used))
  {
    hide DecodeState, EncodeState;
    var s := Sample(used);
    StateRoundTrip(s, []);
    assert EncodeState(Some(s)) + [] == EncodeState(Some(s));
  }

  /** Reusing a state is invisible on every stream if and only if its lists fit their 32-bit headers. */
  lemma ReuseInvisibleExactly(used: State)
    ensures (forall ts :: Alike(ts, DecodeState(used, ts), DecodeState(NEW_STATE, ts))) <==> FitsHeaders(used)
  {
    if FitsHeaders(used) {
      forall ts
        ensures Alike(ts, DecodeState(used, ts), DecodeState(NEW_STATE, ts))
      {
        ReuseInvisible(used, ts);
      }
    } else {
      var ts := EncodeState(Some(Sample(used)));
      SampleIsPlain(used);
      SampleKeepsLengths(used);
      SampleReadBack(used);
      assert !Alike(ts, DecodeState(used, ts), DecodeState(NEW_STATE, ts));
    }
  }

  // ---------------------------------------------------------------- Nil elements

  /** The condition on Nil matters: a Nil element keeps the contents of the element it is decoded into. */
  lemma StaleElementSurvivesNil(stale: Pair)
    ensures DecodePairs([Some(stale)], [Slice(AnyKind, 1), Nil]) == Decoded(true, [Some(stale)], [])
    ensures DecodePairs([], [Slice(AnyKind, 1), Nil]) == Decoded(true, [Some(NEW_PAIR)], [])
  {
    OneNilElement([Some(stale)]);
    OneNilElement(Blank(None, 1));
    assert [Some(stale)][..1] == [Some(stale)] && Blank<Option<Pair>>(None, 1)[..1] == Blank(None, 1);
  }

  lemma OneNilElement(slots: seq<Option<Pair>>)
    requires |slots| == 1
    ensures DecodeAll(DecodePairSlot, slots, [Nil]) == Decoded(true, [Some(slots[0].GetOr(NEW_PAIR))], [])
  {
    var ts := [Nil];
    assert ts[1..] == [];
    assert DecodePairSlot(slots[0], ts) == Decoded(true, Some(slots[0].GetOr(NEW_PAIR)), []);
    var others := DecodeAll(DecodePairSlot, slots[1..], []);
    assert [Some(slots[0].GetOr(NEW_PAIR))] + others.value == [Some(slots[0].GetOr(NEW_PAIR))];
  }
}
