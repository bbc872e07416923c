/**
 Encoded lists of which only the first tokens are seen: what the decoder makes of them, and
 exactly when the elements still mean what was meant.
 */
module CutLists {
  import opened Wrappers
  import opened Polyglot
  import opened CodecLaws
  import opened StructLayout
  import opened Replication
  import opened Wire

  // ---------------------------------------------------------------- what survives a cut

  /** The first `k` tokens, or all of them. */
  function Take(ts: seq<Token>, k: nat): seq<Token> {
    if k <= |ts| then ts[..k] else ts
  }

  /** How many of `k` tokens come after a list header and `n` tokens of elements. */
  function Left(k: nat, n: nat): nat {
    if k > 1 + n then k - 1 - n else 0
  }

  /** A pair of which `r` of its ten tokens are seen: the whole key is, and what is not seen of the value is zero. */
  predicate PairSurvives(kv: NATKeyValuePair, r: nat) {
    && r >= 6
    && (r < 8 ==> kv.value.lastSeen == "")
    && (r < 9 ==> kv.value.translateIP == "")
    && (r < 10 ==> kv.value.translatePort == 0)
  }

  /** A bitmap of which `r` of its five tokens are seen: what is not seen is zero. */
  predicate BitmapSurvives(bp: NATBitmapPair, r: nat) {
    && (r < 2 ==> bp.bitmap == "")
    && (r < 3 ==> bp.destinationIP.GetOr("") == "")
    && (r < 4 ==> bp.lastChunk == 0)
    && (r < 5 ==> bp.natIP == "")
  }

  /** A list of which `k` tokens are seen, its header included: what is not seen of it is empty addresses. */
  predicate AddressesSurvive(ips: seq<string>, k: nat) {
    if k == 0 then ips == [] else forall i :: k - 1 <= i < |ips| ==> ips[i] == ""
  }

  /** What is not seen of the list lies in its last pair. */
  predicate PairsSurvive(kvs: seq<NATKeyValuePair>, k: nat) {
    if k == 0 then kvs == []
    else
      var last := |kvs| - 1;
      k - 1 < 10 * |kvs| ==> k - 1 >= 10 * last && PairSurvives(kvs[last], k - 1 - 10 * last)
  }

  /** What is not seen of the list lies in its last bitmap. */
  predicate BitmapsSurvive(bps: seq<NATBitmapPair>, k: nat) {
    if k == 0 then bps == []
    else
      var last := |bps| - 1;
      k - 1 < 5 * |bps| ==> k - 1 >= 5 * last && BitmapSurvives(bps[last], k - 1 - 5 * last)
  }

  // ---------------------------------------------------------------- elements that are cut

  lemma KeyCut(k: Key, r: nat)
    requires k.error.None? && r < 5
    ensures !DecodeKeyField(None, EncodeKey(Some(k))[..r]).ok
  {
    KeyBreaksOff(NEW_KEY, k, r, []);
    assert EncodeKey(Some(k))[..r] + [] == EncodeKey(Some(k))[..r];
  }

  lemma ValueCut(v: Value, r: nat)
    requires v.error.None? && r < 4
    ensures DecodeValueField(None, EncodeValue(Some(v))[..r])
         == Decoded(false, Some(Value(None, if r < 1 then 0 else v.flags, if r < 2 then "" else v.lastSeen,
                                      if r < 3 then "" else v.translateIp, 0)), [])
  {
    ValueBreaksOff(NEW_VALUE, v, r, []);
    assert EncodeValue(Some(v))[..r] + [] == EncodeValue(Some(v))[..r];
  }

  lemma PairTokens(kv: NATKeyValuePair)
    ensures var p := ToWirePair(kv).value;
      && EncodePair(Some(p)) == [Uint8(0)] + (EncodeKey(p.key) + EncodeValue(p.value))
      && |EncodeKey(p.key)| == 5 && |EncodeValue(p.value)| == 4
  {
  }

  lemma PrefixOf(h: Token, a: seq<Token>, b: seq<Token>, r: nat)
    requires 0 < r <= 1 + |a| + |b|
    ensures ([h] + (a + b))[..r][1..] == if r - 1 <= |a| then a[..r - 1] else a + b[..r - 1 - |a|]
  {
  }

  /** A pair that is cut is not decoded, and still means the same exactly when it survives. */
  ghost predicate PairSeenAs(d: Decoded<Option<Pair>>, kv: NATKeyValuePair, r: nat) {
    !d.ok && (Readable(d.value) && FromWirePair(d.value) == kv <==> PairSurvives(kv, r))
  }

  lemma PairCutInKey(kv: NATKeyValuePair, r: nat)
    requires r < 6
    ensures PairSeenAs(DecodePairSlot(None, EncodePair(ToWirePair(kv))[..r]), kv, r)
  {
    var p := ToWirePair(kv).value;
    PairTokens(kv);
    if r > 0 {
      PrefixOf(Uint8(0), EncodeKey(p.key), EncodeValue(p.value), r);
      KeyCut(p.key.value, r - 1);
    }
  }

  lemma PairCutInValue(kv: NATKeyValuePair, r: nat)
    requires 6 <= r < 10
    ensures PairSeenAs(DecodePairSlot(None, EncodePair(ToWirePair(kv))[..r]), kv, r)
  {
    hide EncodeKey, EncodeValue, DecodeKeyField, DecodeValueField;
    var p := ToWirePair(kv).value;
    var key, value := EncodeKey(p.key), EncodeValue(p.value);
    PairTokens(kv);
    PrefixOf(Uint8(0), key, value, r);
    assert EncodePair(Some(p))[..r][1..] == key + value[..r - 6];
    KeyRoundTrip(p.key, value[..r - 6]);
    ValueCut(p.value.value, r - 6);
  }

  lemma PairCut(kv: NATKeyValuePair, r: nat)
    requires r < 10
    ensures PairSeenAs(DecodePairSlot(None, EncodePair(ToWirePair(kv))[..r]), kv, r)
  {
    if r < 6 {
      PairCutInKey(kv, r);
    } else {
      PairCutInValue(kv, r);
    }
  }

  lemma BitmapFields(b: Bitmap, r: nat)
    requires b.error.None? && r < 5
    ensures DecodeBitmapSlot(None, EncodeBitmap(Some(b))[..r])
         == Decoded(false, Some(Bitmap(None, if r < 1 then 0 else b.flags, if r < 2 then "" else b.bitmap,
                                       if r < 3 then "" else b.destinationIp,
                                       if r < 4 then 0 else b.lastChunk, "")), [])
  {
    BitmapBreaksOff(NEW_BITMAP, b, r, []);
    assert EncodeBitmap(Some(b))[..r] + [] == EncodeBitmap(Some(b))[..r];
  }

  lemma BitmapCut(bp: NATBitmapPair, r: nat)
    requires r < 5
    ensures var d := DecodeBitmapSlot(None, EncodeBitmap(ToWireBitmap(bp))[..r]);
      !d.ok && (FromWireBitmap(d.value) == Canonical(bp) <==> BitmapSurvives(bp, r))
  {
    BitmapFields(ToWireBitmap(bp).value, r);
    hide DecodeBitmapSlot, EncodeBitmap;
  }

  // ---------------------------------------------------------------- lists that are cut

  lemma {:induction false} EncodeAllSplit<S>(enc: S -> seq<Token>, xs: seq<S>, j: nat)
    requires j < |xs|
    ensures EncodeAll(enc, xs) == EncodeAll(enc, xs[..j]) + (enc(xs[j]) + EncodeAll(enc, xs[j + 1..]))
  {
    if j > 0 {
      EncodeAllSplit(enc, xs[1..], j - 1);
      assert xs[..j][1..] == xs[1..][..j - 1] && xs[1..][j..] == xs[j + 1..];
    }
  }

  /** Every element of the list is read back from its encoding, whatever follows. */
  ghost predicate ReadsBack<S(!new)>(
    enc: S -> seq<Token>, dec: (S, seq<Token>) -> Decoded<S>, blank: S, xs: seq<S>)
  {
    forall x, tail :: x in xs ==> dec(blank, enc(x) + tail) == Decoded(true, x, tail)
  }

  lemma ReadsBackRest<S(!new)>(
    enc: S -> seq<Token>, dec: (S, seq<Token>) -> Decoded<S>, blank: S, xs: seq<S>)
    requires xs != [] && ReadsBack(enc, dec, blank, xs)
    ensures ReadsBack(enc, dec, blank, xs[1..])
    ensures forall tail :: dec(blank, enc(xs[0]) + tail) == Decoded(true, xs[0], tail)
  {
    assert xs[0] in xs;
    assert forall x :: x in xs[1..] ==> x in xs;
  }

  /** Element `j` cannot be decoded: those before it have been, and the slots behind it stay blank. */
  lemma {:induction false} SlotsCut<S(!new)>(
    enc: S -> seq<Token>, dec: (S, seq<Token>) -> Decoded<S>, blank: S, xs: seq<S>, j: nat, part: seq<Token>)
    requires j < |xs| && !dec(blank, part).ok
    requires ReadsBack(enc, dec, blank, xs)
    ensures var d := DecodeAll(dec, Blank(blank, |xs|), EncodeAll(enc, xs[..j]) + part);
      !d.ok && d.value == xs[..j] + [dec(blank, part).value] + Blank(blank, |xs| - j - 1)
  {
    var slots := Blank(blank, |xs|);
    assert slots[1..] == Blank(blank, |xs| - 1);
    if j == 0 {
      assert EncodeAll(enc, xs[..0]) + part == part;
    } else {
      var behind := EncodeAll(enc, xs[1..][..j - 1]) + part;
      assert xs[..j][1..] == xs[1..][..j - 1];
      assert EncodeAll(enc, xs[..j]) + part == enc(xs[0]) + behind;
      ReadsBackRest(enc, dec, blank, xs);
      SlotsCut(enc, dec, blank, xs[1..], j - 1, part);
      assert [xs[0]] + xs[1..][..j - 1] == xs[..j];
    }
  }

  /** A list that is read into an empty receiver behind its header. */
  lemma BehindHeader<S>(
    kind: Kind, dec: (S, seq<Token>) -> Decoded<S>, blank: S, n: nat, body: seq<Token>)
    requires n < TWO_TO_THE_32
    ensures DecodeList(kind, dec, blank, [], [SliceHeader(kind, n)] + body) == DecodeAll(dec, Blank(blank, n), body)
  {
    var ts := [SliceHeader(kind, n)] + body;
    assert ts[1..] == body;
    var slots := Slots([], blank, n);
    assert slots == Blank(blank, n) && slots[..n] == slots && slots[n..] == [];
    var d := DecodeAll(dec, slots, body);
    assert d.value + [] == d.value;
  }

  lemma FrontOf(h: Token, a: seq<Token>, b: seq<Token>, c: seq<Token>, tail: seq<Token>, r: nat)
    requires r <= |b|
    ensures Take([h] + (a + (b + c)) + tail, 1 + |a| + r) == [h] + (a + b[..r])
  {
  }

  /** The tokens of a list up to `r` tokens into its element `j`. */
  function UpTo<S>(kind: Kind, enc: S -> seq<Token>, xs: seq<S>, j: nat, r: nat): seq<Token>
    requires j < |xs| && r <= |enc(xs[j])|
  {
    [SliceHeader(kind, |xs|)] + (EncodeAll(enc, xs[..j]) + enc(xs[j])[..r])
  }

  lemma TakeUpTo<S>(kind: Kind, enc: S -> seq<Token>, xs: seq<S>, j: nat, r: nat, tail: seq<Token>)
    requires j < |xs| && r <= |enc(xs[j])|
    ensures Take(EncodeList(kind, enc, xs) + tail, 1 + |EncodeAll(enc, xs[..j])| + r) == UpTo(kind, enc, xs, j, r)
  {
    EncodeAllSplit(enc, xs, j);
    FrontOf(SliceHeader(kind, |xs|), EncodeAll(enc, xs[..j]), enc(xs[j]), EncodeAll(enc, xs[j + 1..]), tail, r);
  }

  /** The same for a list with its header. */
  lemma ListCut<S(!new)>(
    kind: Kind, enc: S -> seq<Token>, dec: (S, seq<Token>) -> Decoded<S>, blank: S, xs: seq<S>, j: nat, r: nat)
    requires Fits(xs) && j < |xs| && r <= |enc(xs[j])| && !dec(blank, enc(xs[j])[..r]).ok
    requires ReadsBack(enc, dec, blank, xs)
    ensures var d := DecodeList(kind, dec, blank, [], UpTo(kind, enc, xs, j, r));
      && !d.ok
      && d.value == xs[..j] + [dec(blank, enc(xs[j])[..r]).value] + Blank(blank, |xs| - j - 1)
  {
    var part := enc(xs[j])[..r];
    BehindHeader(kind, dec, blank, |xs|, EncodeAll(enc, xs[..j]) + part);
    SlotsCut(enc, dec, blank, xs, j, part);
  }

  /** Every element is meant by its own slot, and by no blank one. */
  predicate ListMeans<S, T>(means: (S, T) -> bool, xs: seq<S>, ts: seq<T>) {
    |xs| == |ts| && forall i :: 0 <= i < |xs| ==> means(xs[i], ts[i])
  }

  /**
   What is needed of a kind of element: it is read back from its encoding and means what was
   meant, a blank slot does not, and an encoding that is cut after `r` tokens fails and means
   it exactly when it survives.
   */
  ghost predicate Element<S(!new), T(!new)>(
    enc: S -> seq<Token>, dec: (S, seq<Token>) -> Decoded<S>, blank: S, wire: T -> S,
    means: (S, T) -> bool, survives: (T, nat) -> bool, t: T)
  {
    && (forall tail :: dec(blank, enc(wire(t)) + tail) == Decoded(true, wire(t), tail))
    && means(wire(t), t) && !means(blank, t)
    && (forall r: nat :: r < |enc(wire(t))| ==> ElementCut(enc, dec, blank, wire, means, survives, t, r))
  }

  ghost predicate Elements<S(!new), T(!new)>(
    enc: S -> seq<Token>, dec: (S, seq<Token>) -> Decoded<S>, blank: S, wire: T -> S,
    means: (S, T) -> bool, survives: (T, nat) -> bool)
  {
    forall t :: Element(enc, dec, blank, wire, means, survives, t)
  }

  predicate ElementCut<S, T>(
    enc: S -> seq<Token>, dec: (S, seq<Token>) -> Decoded<S>, blank: S, wire: T -> S,
    means: (S, T) -> bool, survives: (T, nat) -> bool, t: T, r: nat)
    requires r < |enc(wire(t))|
  {
    var d := dec(blank, enc(wire(t))[..r]);
    !d.ok && (means(d.value, t) <==> survives(t, r))
  }

  lemma ElementsReadBack<S(!new), T(!new)>(
    enc: S -> seq<Token>, dec: (S, seq<Token>) -> Decoded<S>, blank: S, wire: T -> S,
    means: (S, T) -> bool, survives: (T, nat) -> bool, ts: seq<T>)
    requires Elements(enc, dec, blank, wire, means, survives)
    ensures ReadsBack(enc, dec, blank, Map(wire, ts))
    ensures ListMeans(means, Map(wire, ts), ts)
  {
    forall i | 0 <= i < |ts|
      ensures Element(enc, dec, blank, wire, means, survives, ts[i]) && means(Map(wire, ts)[i], ts[i])
    {
    }
  }

  /** Slots of which `j` are right, one holds `part`, and the others are blank. */
  lemma SlotsMean<S(!new), T(!new)>(means: (S, T) -> bool, blank: S, xs: seq<S>, ts: seq<T>, j: nat, part: S)
    requires ListMeans(means, xs, ts) && j < |ts| && forall t :: !means(blank, t)
    ensures ListMeans(means, xs[..j] + [part] + Blank(blank, |xs| - j - 1), ts) <==> j == |ts| - 1 && means(part, ts[j])
  {
    var v := xs[..j] + [part] + Blank(blank, |xs| - j - 1);
    assert v[j] == part;
    if j < |ts| - 1 {
      assert v[j + 1] == blank;
    }
  }

  lemma OneElement<S(!new), T(!new)>(
    enc: S -> seq<Token>, dec: (S, seq<Token>) -> Decoded<S>, blank: S, wire: T -> S,
    means: (S, T) -> bool, survives: (T, nat) -> bool, t: T, r: nat)
    requires Element(enc, dec, blank, wire, means, survives, t) && r < |enc(wire(t))|
    ensures ElementCut(enc, dec, blank, wire, means, survives, t, r)
  {
  }

  /** A list that is cut inside an element means what was meant exactly when that is the last one and survives. */
  lemma ListCutSeen<S(!new), T(!new)>(
    kind: Kind, enc: S -> seq<Token>, dec: (S, seq<Token>) -> Decoded<S>, blank: S, wire: T -> S,
    means: (S, T) -> bool, survives: (T, nat) -> bool, ts: seq<T>, j: nat, r: nat)
    requires Elements(enc, dec, blank, wire, means, survives)
    requires Fits(ts) && j < |ts| && r < |enc(wire(ts[j]))|
    ensures var d := DecodeList(kind, dec, blank, [], UpTo(kind, enc, Map(wire, ts), j, r));
      !d.ok && (ListMeans(means, d.value, ts) <==> j == |ts| - 1 && survives(ts[j], r))
  {
    var xs := Map(wire, ts);
    ElementsReadBack(enc, dec, blank, wire, means, survives, ts);
    OneElement(enc, dec, blank, wire, means, survives, ts[j], r);
    ListCut(kind, enc, dec, blank, xs, j, r);
    forall t
      ensures !means(blank, t)
    {
      assert Element(enc, dec, blank, wire, means, survives, t);
    }
    SlotsMean(means, blank, xs, ts, j, dec(blank, enc(xs[j])[..r]).value);
  }

  lemma {:induction false} SlotsWhole<S(!new)>(
    enc: S -> seq<Token>, dec: (S, seq<Token>) -> Decoded<S>, blank: S, xs: seq<S>, tail: seq<Token>)
    requires ReadsBack(enc, dec, blank, xs)
    ensures DecodeAll(dec, Blank(blank, |xs|), EncodeAll(enc, xs) + tail) == Decoded(true, xs, tail)
  {
    var slots := Blank(blank, |xs|);
    if xs == [] {
      assert EncodeAll(enc, xs) + tail == tail;
    } else {
      var behind := EncodeAll(enc, xs[1..]) + tail;
      assert EncodeAll(enc, xs) + tail == enc(xs[0]) + behind;
      assert slots[1..] == Blank(blank, |xs| - 1);
      ReadsBackRest(enc, dec, blank, xs);
      SlotsWhole(enc, dec, blank, xs[1..], tail);
      assert [xs[0]] + xs[1..] == xs;
    }
  }

  /** A list that is seen whole, with what is left of the tokens behind it. */
  lemma ListWhole<S(!new)>(
    kind: Kind, enc: S -> seq<Token>, dec: (S, seq<Token>) -> Decoded<S>, blank: S, xs: seq<S>,
    tail: seq<Token>, k: nat)
    requires Fits(xs) && ReadsBack(enc, dec, blank, xs) && k >= |EncodeList(kind, enc, xs)|
    ensures DecodeList(kind, dec, blank, [], Take(EncodeList(kind, enc, xs) + tail, k))
         == Decoded(true, xs, Take(tail, k - |EncodeList(kind, enc, xs)|))
  {
    var behind := Take(tail, k - |EncodeList(kind, enc, xs)|);
    var ts := Take(EncodeList(kind, enc, xs) + tail, k);
    assert ts == [SliceHeader(kind, |xs|)] + (EncodeAll(enc, xs) + behind);
    BehindHeader(kind, dec, blank, |xs|, EncodeAll(enc, xs) + behind);
    SlotsWhole(enc, dec, blank, xs, behind);
  }

  // ---------------------------------------------------------------- what a decoded list means

  predicate PairMeans(p: Option<Pair>, kv: NATKeyValuePair) {
    Readable(p) && FromWirePair(p) == kv
  }

  predicate BitmapMeans(b: Option<Bitmap>, bp: NATBitmapPair) {
    b.Some? && FromWireBitmap(b) == Canonical(bp)
  }

  predicate PairsMean(ps: seq<Option<Pair>>, kvs: seq<NATKeyValuePair>) {
    ListMeans(PairMeans, ps, kvs)
  }

  predicate BitmapsMean(bs: seq<Option<Bitmap>>, bps: seq<NATBitmapPair>) {
    ListMeans(BitmapMeans, bs, bps)
  }

  /** However little of a list is seen, no more elements come of it than its header says. */
  lemma NoMoreThanHeader<S>(kind: Kind, enc: S -> seq<Token>, dec: (S, seq<Token>) -> Decoded<S>, blank: S,
                            xs: seq<S>, tail: seq<Token>, k: nat)
    ensures var d := DecodeList(kind, dec, blank, [], Take(EncodeList(kind, enc, xs) + tail, k));
      |d.value| == if k == 0 then 0 else |xs| % TWO_TO_THE_32
  {
  }

  lemma {:induction false} PairsLength(kvs: seq<NATKeyValuePair>)
    ensures |EncodeAll(EncodePair, Map(ToWirePair, kvs))| == 10 * |kvs|
  {
    if kvs != [] {
      PairTokens(kvs[0]);
      assert Map(ToWirePair, kvs)[1..] == Map(ToWirePair, kvs[1..]);
      PairsLength(kvs[1..]);
    }
  }

  lemma {:induction false} BitmapsLength(bps: seq<NATBitmapPair>)
    ensures |EncodeAll(EncodeBitmap, Map(ToWireBitmap, bps))| == 5 * |bps|
  {
    if bps != [] {
      assert Map(ToWireBitmap, bps)[1..] == Map(ToWireBitmap, bps[1..]);
      BitmapsLength(bps[1..]);
    }
  }

  lemma {:induction false} AddressesLength(ips: seq<string>)
    ensures |EncodeAll(EncodeAddress, ips)| == |ips|
  {
    if ips != [] {
      AddressesLength(ips[1..]);
    }
  }

  lemma PairElement(kv: NATKeyValuePair)
    ensures Element(EncodePair, DecodePairSlot, None, ToWirePair, PairMeans, PairSurvives, kv)
    ensures |EncodePair(ToWirePair(kv))| == 10
  {
    PairTokens(kv);
    forall tail: seq<Token>
      ensures DecodePairSlot(None, EncodePair(ToWirePair(kv)) + tail) == Decoded(true, ToWirePair(kv), tail)
    {
      PairRoundTrip(ToWirePair(kv), tail);
    }
    forall r: nat | r < 10
      ensures ElementCut(EncodePair, DecodePairSlot, None, ToWirePair, PairMeans, PairSurvives, kv, r)
    {
      PairCut(kv, r);
    }
  }

  lemma PairElements()
    ensures Elements(EncodePair, DecodePairSlot, None, ToWirePair, PairMeans, PairSurvives)
  {
    forall kv: NATKeyValuePair
      ensures Element(EncodePair, DecodePairSlot, None, ToWirePair, PairMeans, PairSurvives, kv)
    {
      PairElement(kv);
    }
  }

  /** What is known of the list of pairs `d` when `k` tokens are seen from its header on. */
  ghost predicate PairsSeenAs(d: Decoded<seq<Option<Pair>>>, kvs: seq<NATKeyValuePair>, tail: seq<Token>, k: nat) {
    && (PairsMean(d.value, kvs) <==> Fits(kvs) && PairsSurvive(kvs, k))
    && (Fits(kvs) ==> (d.ok <==> k >= 1 + 10 * |kvs|))
    && (Fits(kvs) && d.ok ==> d.rest == Take(tail, Left(k, 10 * |kvs|)))
  }

  function PairsTokens(kvs: seq<NATKeyValuePair>, tail: seq<Token>, k: nat): seq<Token> {
    Take(EncodeList(AnyKind, EncodePair, Map(ToWirePair, kvs)) + tail, k)
  }

  lemma PairsWhole(kvs: seq<NATKeyValuePair>, tail: seq<Token>, k: nat)
    requires Fits(kvs) && k >= 1 + 10 * |kvs|
    ensures PairsSeenAs(DecodePairs([], PairsTokens(kvs, tail, k)), kvs, tail, k)
  {
    var ps := Map(ToWirePair, kvs);
    PairElements();
    ElementsReadBack(EncodePair, DecodePairSlot, None, ToWirePair, PairMeans, PairSurvives, kvs);
    PairsLength(kvs);
    ListWhole(AnyKind, EncodePair, DecodePairSlot, None, ps, tail, k);
  }

  lemma PairsSurviveAt(kvs: seq<NATKeyValuePair>, j: nat, r: nat)
    requires j < |kvs| && r < 10
    ensures PairsSurvive(kvs, 1 + 10 * j + r) <==> j == |kvs| - 1 && PairSurvives(kvs[j], r)
  {
  }

  lemma PairsUpTo(kvs: seq<NATKeyValuePair>, tail: seq<Token>, j: nat, r: nat)
    requires j < |kvs| && r < 10
    ensures |EncodePair(Map(ToWirePair, kvs)[j])| == 10
    ensures PairsTokens(kvs, tail, 1 + 10 * j + r) == UpTo(AnyKind, EncodePair, Map(ToWirePair, kvs), j, r)
  {
    PairTokens(kvs[j]);
    PairsLength(kvs[..j]);
    assert Map(ToWirePair, kvs)[..j] == Map(ToWirePair, kvs[..j]);
    TakeUpTo(AnyKind, EncodePair, Map(ToWirePair, kvs), j, r, tail);
  }

  lemma PairsCutAt(kvs: seq<NATKeyValuePair>, tail: seq<Token>, j: nat, r: nat)
    requires Fits(kvs) && j < |kvs| && r < 10
    ensures var d := DecodePairs([], PairsTokens(kvs, tail, 1 + 10 * j + r));
      !d.ok && (PairsMean(d.value, kvs) <==> j == |kvs| - 1 && PairSurvives(kvs[j], r))
  {
    PairElements();
    PairsUpTo(kvs, tail, j, r);
    ListCutSeen(AnyKind, EncodePair, DecodePairSlot, None, ToWirePair, PairMeans, PairSurvives, kvs, j, r);
  }

  lemma PairsCut(kvs: seq<NATKeyValuePair>, tail: seq<Token>, j: nat, r: nat)
    requires Fits(kvs) && j < |kvs| && r < 10
    ensures PairsSeenAs(DecodePairs([], PairsTokens(kvs, tail, 1 + 10 * j + r)), kvs, tail, 1 + 10 * j + r)
  {
    PairsCutAt(kvs, tail, j, r);
    PairsSurviveAt(kvs, j, r);
  }

  lemma PairsLost(kvs: seq<NATKeyValuePair>, tail: seq<Token>, k: nat)
    requires !Fits(kvs) || k == 0
    ensures PairsSeenAs(DecodePairs([], PairsTokens(kvs, tail, k)), kvs, tail, k)
  {
    NoMoreThanHeader(AnyKind, EncodePair, DecodePairSlot, None, Map(ToWirePair, kvs), tail, k);
  }

  lemma PairsSeen(kvs: seq<NATKeyValuePair>, tail: seq<Token>, k: nat)
    ensures PairsSeenAs(DecodePairs([], PairsTokens(kvs, tail, k)), kvs, tail, k)
  {
    hide *;
    if !Fits(kvs) || k == 0 {
      PairsLost(kvs, tail, k);
    } else if k >= 1 + 10 * |kvs| {
      PairsWhole(kvs, tail, k);
    } else {
      var j, r := (k - 1) / 10, (k - 1) % 10;
      assert k == 1 + 10 * j + r;
      PairsCut(kvs, tail, j, r);
    }
  }

  lemma BitmapElement(bp: NATBitmapPair)
    ensures Element(EncodeBitmap, DecodeBitmapSlot, None, ToWireBitmap, BitmapMeans, BitmapSurvives, bp)
    ensures |EncodeBitmap(ToWireBitmap(bp))| == 5
  {
    forall tail: seq<Token>
      ensures DecodeBitmapSlot(None, EncodeBitmap(ToWireBitmap(bp)) + tail) == Decoded(true, ToWireBitmap(bp), tail)
    {
      BitmapRoundTrip(ToWireBitmap(bp), tail);
    }
    forall r: nat | r < 5
      ensures ElementCut(EncodeBitmap, DecodeBitmapSlot, None, ToWireBitmap, BitmapMeans, BitmapSurvives, bp, r)
    {
      BitmapCut(bp, r);
    }
  }

  lemma BitmapElements()
    ensures Elements(EncodeBitmap, DecodeBitmapSlot, None, ToWireBitmap, BitmapMeans, BitmapSurvives)
  {
    forall bp: NATBitmapPair
      ensures Element(EncodeBitmap, DecodeBitmapSlot, None, ToWireBitmap, BitmapMeans, BitmapSurvives, bp)
    {
      BitmapElement(bp);
    }
  }

  ghost predicate BitmapsSeenAs(d: Decoded<seq<Option<Bitmap>>>, bps: seq<NATBitmapPair>, k: nat) {
    && (BitmapsMean(d.value, bps) <==> Fits(bps) && BitmapsSurvive(bps, k))
    && (Fits(bps) ==> (d.ok <==> k >= 1 + 5 * |bps|))
  }

  function BitmapsTokens(bps: seq<NATBitmapPair>, tail: seq<Token>, k: nat): seq<Token> {
    Take(EncodeList(AnyKind, EncodeBitmap, Map(ToWireBitmap, bps)) + tail, k)
  }

  lemma BitmapsWhole(bps: seq<NATBitmapPair>, tail: seq<Token>, k: nat)
    requires Fits(bps) && k >= 1 + 5 * |bps|
    ensures BitmapsSeenAs(DecodeBitmaps([], BitmapsTokens(bps, tail, k)), bps, k)
  {
    var bs := Map(ToWireBitmap, bps);
    BitmapElements();
    ElementsReadBack(EncodeBitmap, DecodeBitmapSlot, None, ToWireBitmap, BitmapMeans, BitmapSurvives, bps);
    BitmapsLength(bps);
    ListWhole(AnyKind, EncodeBitmap, DecodeBitmapSlot, None, bs, tail, k);
  }

  lemma BitmapsSurviveAt(bps: seq<NATBitmapPair>, j: nat, r: nat)
    requires j < |bps| && r < 5
    ensures BitmapsSurvive(bps, 1 + 5 * j + r) <==> j == |bps| - 1 && BitmapSurvives(bps[j], r)
  {
  }

  lemma BitmapsLost(bps: seq<NATBitmapPair>, tail: seq<Token>, k: nat)
    requires !Fits(bps) || k == 0
    ensures BitmapsSeenAs(DecodeBitmaps([], BitmapsTokens(bps, tail, k)), bps, k)
  {
    NoMoreThanHeader(AnyKind, EncodeBitmap, DecodeBitmapSlot, None, Map(ToWireBitmap, bps), tail, k);
  }

  lemma BitmapsUpTo(bps: seq<NATBitmapPair>, tail: seq<Token>, j: nat, r: nat)
    requires j < |bps| && r < 5
    ensures |EncodeBitmap(Map(ToWireBitmap, bps)[j])| == 5
    ensures BitmapsTokens(bps, tail, 1 + 5 * j + r) == UpTo(AnyKind, EncodeBitmap, Map(ToWireBitmap, bps), j, r)
  {
    hide EncodeBitmap, EncodeAll, EncodeList, Take;
    BitmapElement(bps[j]);
    BitmapsLength(bps[..j]);
    assert Map(ToWireBitmap, bps)[..j] == Map(ToWireBitmap, bps[..j]);
    TakeUpTo(AnyKind, EncodeBitmap, Map(ToWireBitmap, bps), j, r, tail);
  }

  lemma BitmapsCutAt(bps: seq<NATBitmapPair>, tail: seq<Token>, j: nat, r: nat)
    requires Fits(bps) && j < |bps| && r < 5
    ensures var d := DecodeBitmaps([], BitmapsTokens(bps, tail, 1 + 5 * j + r));
      !d.ok && (BitmapsMean(d.value, bps) <==> j == |bps| - 1 && BitmapSurvives(bps[j], r))
  {
    BitmapElements();
    BitmapsUpTo(bps, tail, j, r);
    ListCutSeen(AnyKind, EncodeBitmap, DecodeBitmapSlot, None, ToWireBitmap, BitmapMeans, BitmapSurvives, bps, j, r);
  }

  lemma BitmapsCut(bps: seq<NATBitmapPair>, tail: seq<Token>, j: nat, r: nat)
    requires Fits(bps) && j < |bps| && r < 5
    ensures BitmapsSeenAs(DecodeBitmaps([], BitmapsTokens(bps, tail, 1 + 5 * j + r)), bps, 1 + 5 * j + r)
  {
    BitmapsCutAt(bps, tail, j, r);
    BitmapsSurviveAt(bps, j, r);
  }

  lemma BitmapsSeen(bps: seq<NATBitmapPair>, tail: seq<Token>, k: nat)
    ensures BitmapsSeenAs(DecodeBitmaps([], BitmapsTokens(bps, tail, k)), bps, k)
  {
    hide *;
    if !Fits(bps) || k == 0 {
      BitmapsLost(bps, tail, k);
    } else if k >= 1 + 5 * |bps| {
      BitmapsWhole(bps, tail, k);
    } else {
      var j, r := (k - 1) / 5, (k - 1) % 5;
      assert k == 1 + 5 * j + r;
      BitmapsCut(bps, tail, j, r);
    }
  }

  lemma LongListCut<S(!new)>(
    kind: Kind, enc: S -> seq<Token>, dec: (S, seq<Token>) -> Decoded<S>, blank: S, xs: seq<S>, n: nat)
    requires !Fits(xs) && n == |xs| % TWO_TO_THE_32 && ReadsBack(enc, dec, blank, xs[..n])
    ensures DecodeList(kind, dec, blank, [], UpTo(kind, enc, xs, n, 0)).ok
  {
    var body := EncodeAll(enc, xs[..n]) + [];
    assert enc(xs[n])[..0] == [];
    BehindHeader(kind, dec, blank, n, body);
    SlotsWhole(enc, dec, blank, xs[..n], []);
  }

  /**
   A list too long for its header can be cut without being noticed: right behind the elements
   that the header counts.
   */
  lemma LongListCutUnnoticed(bps: seq<NATBitmapPair>, tail: seq<Token>, n: nat)
    requires !Fits(bps) && n == |bps| % TWO_TO_THE_32
    ensures DecodeBitmaps([], BitmapsTokens(bps, tail, 1 + 5 * n)).ok
  {
    hide EncodeBitmap, DecodeBitmapSlot, BitmapMeans, Take;
    var bs := Map(ToWireBitmap, bps);
    BitmapElements();
    ElementsReadBack(EncodeBitmap, DecodeBitmapSlot, None, ToWireBitmap, BitmapMeans, BitmapSurvives, bps[..n]);
    assert bs[..n] == Map(ToWireBitmap, bps[..n]);
    BitmapsUpTo(bps, tail, n, 0);
    LongListCut(AnyKind, EncodeBitmap, DecodeBitmapSlot, None, bs, n);
  }

  /** The addresses when `k` tokens are seen from their header on: those that are not seen are empty. */
  function AddressesLeft(ips: seq<string>, k: nat): seq<string> {
    if k == 0 then [] else if k - 1 >= |ips| then ips else ips[..k - 1] + Blank("", |ips| - (k - 1))
  }

  lemma AddressesReadAlike(ips: seq<string>)
    ensures ReadsBack(EncodeAddress, DecodeAddressSlot, "", ips)
  {
    forall x: string, t: seq<Token> | x in ips
      ensures DecodeAddressSlot("", EncodeAddress(x) + t) == Decoded(true, x, t)
    {
      assert (EncodeAddress(x) + t)[1..] == t;
    }
  }

  function AddressesTokens(ips: seq<string>, tail: seq<Token>, k: nat): seq<Token> {
    Take(EncodeList(StringKind, EncodeAddress, ips) + tail, k)
  }

  ghost predicate AddressesSeenAs(d: Decoded<seq<string>>, ips: seq<string>, tail: seq<Token>, k: nat) {
    && (d.value == ips <==> Fits(ips) && AddressesSurvive(ips, k))
    && (Fits(ips) ==> d.value == AddressesLeft(ips, k))
    && (Fits(ips) ==> (d.ok <==> k >= 1 + |ips|))
    && (Fits(ips) && d.ok ==> d.rest == Take(tail, Left(k, |ips|)))
  }

  lemma AddressesSeen(ips: seq<string>, tail: seq<Token>, k: nat)
    ensures AddressesSeenAs(DecodeAddresses([], AddressesTokens(ips, tail, k)), ips, tail, k)
  {
    if !Fits(ips) || k == 0 {
      NoMoreThanHeader(StringKind, EncodeAddress, DecodeAddressSlot, "", ips, tail, k);
    } else if k >= 1 + |ips| {
      AddressesWhole(ips, tail, k);
    } else {
      AddressesCut(ips, tail, k);
    }
  }

  lemma AddressesWhole(ips: seq<string>, tail: seq<Token>, k: nat)
    requires Fits(ips) && k >= 1 + |ips|
    ensures AddressesSeenAs(DecodeAddresses([], AddressesTokens(ips, tail, k)), ips, tail, k)
  {
    AddressesLength(ips);
    AddressesReadAlike(ips);
    ListWhole(StringKind, EncodeAddress, DecodeAddressSlot, "", ips, tail, k);
  }

  lemma SurvivingAddresses(ips: seq<string>, k: nat)
    requires 0 < k
    ensures AddressesLeft(ips, k) == ips <==> AddressesSurvive(ips, k)
  {
    var left := AddressesLeft(ips, k);
    assert AddressesSurvive(ips, k) ==> left == ips;
    if left == ips {
      forall i | k - 1 <= i < |ips|
        ensures ips[i] == ""
      {
        assert left[i] == "";
      }
    }
  }

  lemma AddressesCut(ips: seq<string>, tail: seq<Token>, k: nat)
    requires Fits(ips) && 0 < k < 1 + |ips|
    ensures AddressesSeenAs(DecodeAddresses([], AddressesTokens(ips, tail, k)), ips, tail, k)
  {
    AddressesCutAt(ips, tail, k - 1);
    SurvivingAddresses(ips, k);
  }

  lemma AddressesUpTo(ips: seq<string>, tail: seq<Token>, j: nat)
    requires j < |ips|
    ensures AddressesTokens(ips, tail, 1 + j) == UpTo(StringKind, EncodeAddress, ips, j, 0)
  {
    AddressesLength(ips[..j]);
    TakeUpTo(StringKind, EncodeAddress, ips, j, 0, tail);
  }

  lemma AddressesCutAt(ips: seq<string>, tail: seq<Token>, j: nat)
    requires Fits(ips) && j < |ips|
    ensures var d := DecodeAddresses([], AddressesTokens(ips, tail, 1 + j));
      !d.ok && d.value == AddressesLeft(ips, 1 + j)
  {
    AddressesReadAlike(ips);
    AddressesUpTo(ips, tail, j);
    ListCut(StringKind, EncodeAddress, DecodeAddressSlot, "", ips, j, 0);
    assert [""] + Blank("", |ips| - j - 1) == Blank("", |ips| - j);
  }
}
