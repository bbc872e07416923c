/**
 A reply of which only the first tokens are seen: what the decoder makes of it, and exactly when
 the secondary still gets what was meant.
 */
module CutReplies {
  import opened Wrappers
  import opened Polyglot
  import opened CodecLaws
  import opened CutLists
  import opened StructLayout
  import opened Replication
  import opened Wire

  // ---------------------------------------------------------------- what survives a cut

  // The lists of a state from each one onwards, when `k` of their tokens are seen. A list of which
  // nothing is seen survives when it is empty.

  predicate NatPortsSurvives(s: NATState, k: nat) {
    Fits(s.natPorts) && BitmapsSurvive(s.natPorts, k)
  }

  predicate UdpOutboundSurvives(s: NATState, k: nat) {
    && Fits(s.udpOutbound) && PairsSurvive(s.udpOutbound, k)
    && NatPortsSurvives(s, Left(k, 10 * |s.udpOutbound|))
  }

  predicate UdpInboundSurvives(s: NATState, k: nat) {
    && Fits(s.udpInbound) && PairsSurvive(s.udpInbound, k)
    && UdpOutboundSurvives(s, Left(k, 10 * |s.udpInbound|))
  }

  predicate TcpOutboundSurvives(s: NATState, k: nat) {
    && Fits(s.tcpOutbound) && PairsSurvive(s.tcpOutbound, k)
    && UdpInboundSurvives(s, Left(k, 10 * |s.tcpOutbound|))
  }

  predicate TcpInboundSurvives(s: NATState, k: nat) {
    && Fits(s.tcpInbound) && PairsSurvive(s.tcpInbound, k)
    && TcpOutboundSurvives(s, Left(k, 10 * |s.tcpInbound|))
  }

  predicate IpsSurvives(s: NATState, k: nat) {
    && Fits(s.ips) && AddressesSurvive(s.ips, k)
    && TcpInboundSurvives(s, Left(k, |s.ips|))
  }

  /**
   The reply's meaning survives when its first `k` tokens are seen: the four tokens in front of
   the state are among them, and nothing is lost of the state but what reads as lost anyway.
   */
  predicate ReplySurvives(local: LocalState, k: nat) {
    k >= 4 && (local.Loaded? ==> IpsSurvives(local.state, if k > 5 then k - 5 else 0))
  }

  /** A decoded state is converted to what was meant exactly when each of its lists means it. */
  lemma MeansExactly(v: State, s: NATState)
    ensures FromWire(v) == Converted(CanonicalState(s)) <==>
      && v.ips == s.ips
      && PairsMean(v.tcpInbound, s.tcpInbound) && PairsMean(v.tcpOutbound, s.tcpOutbound)
      && PairsMean(v.udpInbound, s.udpInbound) && PairsMean(v.udpOutbound, s.udpOutbound)
      && BitmapsMean(v.natPorts, s.natPorts)
  {
    var c := CanonicalState(s);
    if ReadableState(v) {
      assert BackPairs(v.tcpInbound) == c.tcpInbound <==> PairsMean(v.tcpInbound, s.tcpInbound);
      assert BackPairs(v.tcpOutbound) == c.tcpOutbound <==> PairsMean(v.tcpOutbound, s.tcpOutbound);
      assert BackPairs(v.udpInbound) == c.udpInbound <==> PairsMean(v.udpInbound, s.udpInbound);
      assert BackPairs(v.udpOutbound) == c.udpOutbound <==> PairsMean(v.udpOutbound, s.udpOutbound);
      assert BackBitmaps(v.natPorts) == c.natPorts <==> BitmapsMean(v.natPorts, s.natPorts);
    }
  }

  // ---------------------------------------------------------------- the lists of a state one after the other

  // What is meant by the lists from each one onwards, that they fit, and that nothing has been read of them.

  predicate NatPortsMean(v: State, s: NATState) {
    BitmapsMean(v.natPorts, s.natPorts)
  }

  predicate UdpOutboundMean(v: State, s: NATState) {
    PairsMean(v.udpOutbound, s.udpOutbound) && NatPortsMean(v, s)
  }

  predicate UdpInboundMean(v: State, s: NATState) {
    PairsMean(v.udpInbound, s.udpInbound) && UdpOutboundMean(v, s)
  }

  predicate TcpOutboundMean(v: State, s: NATState) {
    PairsMean(v.tcpOutbound, s.tcpOutbound) && UdpInboundMean(v, s)
  }

  predicate TcpInboundMean(v: State, s: NATState) {
    PairsMean(v.tcpInbound, s.tcpInbound) && TcpOutboundMean(v, s)
  }

  predicate NatPortsFit(s: NATState) { Fits(s.natPorts) }

  predicate UdpOutboundFit(s: NATState) { Fits(s.udpOutbound) && NatPortsFit(s) }

  predicate UdpInboundFit(s: NATState) { Fits(s.udpInbound) && UdpOutboundFit(s) }

  predicate TcpOutboundFit(s: NATState) { Fits(s.tcpOutbound) && UdpInboundFit(s) }

  predicate TcpInboundFit(s: NATState) { Fits(s.tcpInbound) && TcpOutboundFit(s) }

  predicate NatPortsUnread(x: State) { x.natPorts == [] }

  predicate UdpOutboundUnread(x: State) { x.udpOutbound == [] && NatPortsUnread(x) }

  predicate UdpInboundUnread(x: State) { x.udpInbound == [] && UdpOutboundUnread(x) }

  predicate TcpOutboundUnread(x: State) { x.tcpOutbound == [] && UdpInboundUnread(x) }

  predicate TcpInboundUnread(x: State) { x.tcpInbound == [] && TcpOutboundUnread(x) }

  /** What is known of a decode of the last lists when `k` of their `n` tokens are seen. */
  ghost predicate SeenAs(d: Decoded<State>, means: bool, survives: bool, fit: bool, k: nat, n: nat) {
    (means <==> survives) && (fit ==> (d.ok <==> k >= n))
  }

  lemma NatPortsSeen(x: State, s: NATState, k: nat)
    ensures var ts := NatPortsTokens(ToWire(s), []);
      var d := DecodeNatPortsOnwards(x, Take(ts, k));
      NatPortsUnread(x) ==> SeenAs(d, NatPortsMean(d.value, s), NatPortsSurvives(s, k), NatPortsFit(s), k, |ts|)
  {
    BitmapsSeen(s.natPorts, [], k);
    BitmapsLength(s.natPorts);
  }

  // Reading the later lists leaves the earlier ones as they are.

  lemma NatPortsOnly(x: State, ts: seq<Token>)
    ensures var v := DecodeNatPortsOnwards(x, ts).value; v == x.(natPorts := v.natPorts)
  {
  }

  lemma UdpOutboundOnly(x: State, ts: seq<Token>)
    ensures var v := DecodeUdpOutboundOnwards(x, ts).value;
      v == x.(udpOutbound := v.udpOutbound, natPorts := v.natPorts)
  {
    var d := DecodePairs(x.udpOutbound, ts);
    NatPortsOnly(x.(udpOutbound := d.value), d.rest);
  }

  lemma UdpInboundOnly(x: State, ts: seq<Token>)
    ensures var v := DecodeUdpInboundOnwards(x, ts).value;
      v == x.(udpInbound := v.udpInbound, udpOutbound := v.udpOutbound, natPorts := v.natPorts)
  {
    var d := DecodePairs(x.udpInbound, ts);
    UdpOutboundOnly(x.(udpInbound := d.value), d.rest);
  }

  lemma TcpOutboundOnly(x: State, ts: seq<Token>)
    ensures var v := DecodeTcpOutboundOnwards(x, ts).value; v.ips == x.ips && v.tcpInbound == x.tcpInbound
  {
    var d := DecodePairs(x.tcpOutbound, ts);
    UdpInboundOnly(x.(tcpOutbound := d.value), d.rest);
  }

  lemma TcpInboundOnly(x: State, ts: seq<Token>)
    ensures DecodeTcpInboundOnwards(x, ts).value.ips == x.ips
  {
    var d := DecodePairs(x.tcpInbound, ts);
    TcpOutboundOnly(x.(tcpInbound := d.value), d.rest);
  }

  lemma UdpOutboundSeen(x: State, s: NATState, k: nat)
    requires UdpOutboundUnread(x)
    ensures var ts := UdpOutboundTokens(ToWire(s), []);
      var d := DecodeUdpOutboundOnwards(x, Take(ts, k));
      SeenAs(d, UdpOutboundMean(d.value, s), UdpOutboundSurvives(s, k), UdpOutboundFit(s), k, |ts|)
  {
    var tail := NatPortsTokens(ToWire(s), []);
    var d := DecodePairs([], PairsTokens(s.udpOutbound, tail, k));
    var y := x.(udpOutbound := d.value);
    PairsSeen(s.udpOutbound, tail, k);
    PairsLength(s.udpOutbound);
    NatPortsOnly(y, d.rest);
    if Fits(s.udpOutbound) {
      NatPortsSeen(y, s, Left(k, 10 * |s.udpOutbound|));
    }
  }

  lemma UdpInboundSeen(x: State, s: NATState, k: nat)
    requires UdpInboundUnread(x)
    ensures var ts := UdpInboundTokens(ToWire(s), []);
      var d := DecodeUdpInboundOnwards(x, Take(ts, k));
      SeenAs(d, UdpInboundMean(d.value, s), UdpInboundSurvives(s, k), UdpInboundFit(s), k, |ts|)
  {
    var tail := UdpOutboundTokens(ToWire(s), []);
    var d := DecodePairs([], PairsTokens(s.udpInbound, tail, k));
    var y := x.(udpInbound := d.value);
    PairsSeen(s.udpInbound, tail, k);
    PairsLength(s.udpInbound);
    UdpOutboundOnly(y, d.rest);
    if Fits(s.udpInbound) {
      UdpOutboundSeen(y, s, Left(k, 10 * |s.udpInbound|));
    }
  }

  lemma TcpOutboundSeen(x: State, s: NATState, k: nat)
    requires TcpOutboundUnread(x)
    ensures var ts := TcpOutboundTokens(ToWire(s), []);
      var d := DecodeTcpOutboundOnwards(x, Take(ts, k));
      SeenAs(d, TcpOutboundMean(d.value, s), TcpOutboundSurvives(s, k), TcpOutboundFit(s), k, |ts|)
  {
    var tail := UdpInboundTokens(ToWire(s), []);
    var d := DecodePairs([], PairsTokens(s.tcpOutbound, tail, k));
    var y := x.(tcpOutbound := d.value);
    PairsSeen(s.tcpOutbound, tail, k);
    PairsLength(s.tcpOutbound);
    UdpInboundOnly(y, d.rest);
    if Fits(s.tcpOutbound) {
      UdpInboundSeen(y, s, Left(k, 10 * |s.tcpOutbound|));
    }
  }

  lemma TcpInboundSeen(x: State, s: NATState, k: nat)
    requires TcpInboundUnread(x)
    ensures var ts := TcpInboundTokens(ToWire(s), []);
      var d := DecodeTcpInboundOnwards(x, Take(ts, k));
      SeenAs(d, TcpInboundMean(d.value, s), TcpInboundSurvives(s, k), TcpInboundFit(s), k, |ts|)
  {
    var tail := TcpOutboundTokens(ToWire(s), []);
    var d := DecodePairs([], PairsTokens(s.tcpInbound, tail, k));
    var y := x.(tcpInbound := d.value);
    PairsSeen(s.tcpInbound, tail, k);
    PairsLength(s.tcpInbound);
    TcpOutboundOnly(y, d.rest);
    if Fits(s.tcpInbound) {
      TcpOutboundSeen(y, s, Left(k, 10 * |s.tcpInbound|));
    }
  }

  lemma IpsSeen(x: State, s: NATState, k: nat)
    requires x.ips == [] && TcpInboundUnread(x)
    ensures var ts := IpsTokens(ToWire(s), []);
      var d := DecodeIpsOnwards(x, Take(ts, k));
      && SeenAs(d, d.value.ips == s.ips && TcpInboundMean(d.value, s), IpsSurvives(s, k),
                Fits(s.ips) && TcpInboundFit(s), k, |ts|)
      && (Fits(s.ips) && k < 1 + |s.ips| ==> d.value == x.(ips := AddressesLeft(s.ips, k)))
  {
    var tail := TcpInboundTokens(ToWire(s), []);
    var d := DecodeAddresses([], AddressesTokens(s.ips, tail, k));
    var y := x.(ips := d.value);
    AddressesSeen(s.ips, tail, k);
    AddressesLength(s.ips);
    TcpInboundOnly(y, d.rest);
    if Fits(s.ips) {
      TcpInboundSeen(y, s, Left(k, |s.ips|));
    }
  }

  // ---------------------------------------------------------------- the reply

  function ReplyContent(requestId: string, local: LocalState): seq<Token> {
    EncodeResponse(Some(SyncStateResult(requestId, local)))
  }

  /** How the secondary's round should end. */
  function Expected(local: LocalState): SyncOutcome {
    var error := "primary returned error: ";
    match local
    case Unreachable(reason) => Refused(error + ("failed to get state: " + reason))
    case BadStatus(status) => Refused(error + ("API error: " + status))
    case NoBody => Refused(error + "empty state returned")
    case Loaded(state) => Apply(CanonicalState(state))
  }

  /** A response that is cut within the four tokens in front of its state. */
  lemma HeadCut(r: Response, k: nat)
    requires k < 4
    ensures var d := DecodeResponse(NEW_RESPONSE, ResponseHead(r)[..k]);
      && !d.ok && d.value.error.None? && d.value.state.None? && d.value.errorMessage == ""
      && d.value.requestId == (if k >= 2 then r.requestId else "")
      && d.value.success == (k >= 3 && r.success)
  {
    ResponseBreaksOff(NEW_RESPONSE, r.(error := None), k, []);
    assert ResponseHead(r)[..k] + [] == ResponseHead(r)[..k];
  }

  /** What is known of a state when `n` tokens of its lists are seen. */
  ghost predicate ListsSeenAs(v: State, s: NATState, n: nat) {
    && (FromWire(v) == Converted(CanonicalState(s)) <==> IpsSurvives(s, n))
    && (Fits(s.ips) && n < 1 + |s.ips| ==> v == NEW_STATE.(ips := AddressesLeft(s.ips, n)))
  }

  lemma ListsSeen(s: NATState, n: nat)
    ensures var ts := IpsTokens(ToWire(s), []);
      var d := DecodeIpsOnwards(NEW_STATE, Take(ts, n));
      ListsSeenAs(d.value, s, n) && (Transportable(s) ==> (d.ok <==> n >= |ts|))
  {
    hide DecodeIpsOnwards, IpsTokens, IpsSurvives, FromWire, CanonicalState, Take;
    IpsSeen(NEW_STATE, s, n);
    MeansExactly(DecodeIpsOnwards(NEW_STATE, Take(IpsTokens(ToWire(s), []), n)).value, s);
  }

  lemma NothingSeen()
    ensures DecodeStateField(None, []) == Decoded(false, Some(NEW_STATE), [])
    ensures DecodeIpsOnwards(NEW_STATE, []) == Decoded(false, NEW_STATE, [])
  {
  }

  lemma FlagsSeen(ts: seq<Token>)
    ensures var d := DecodeIpsOnwards(NEW_STATE, ts);
      DecodeStateField(None, [Uint8(0)] + ts) == Decoded(d.ok, Some(d.value), d.rest)
  {
    ListsFollow(NEW_STATE, 0, ts);
  }

  lemma TakeOne(t: Token, ts: seq<Token>, k: nat)
    ensures Take([t] + ts, k) == if k == 0 then [] else [t] + Take(ts, k - 1)
    ensures Take(ts, 0) == []
  {
  }

  lemma StateTaken(s: NATState, k: nat)
    ensures var ts, lists := EncodeState(Some(ToWire(s))), IpsTokens(ToWire(s), []);
      && |ts| == 1 + |lists|
      && Take(ts, k) == if k == 0 then [] else [Uint8(0)] + Take(lists, k - 1)
  {
    hide EncodeState, IpsTokens, Take;
    var ts := EncodeState(Some(ToWire(s)));
    StateTokens(ToWire(s), []);
    assert ts + [] == ts;
    TakeOne(Uint8(0), IpsTokens(ToWire(s), []), k);
  }

  /** The state of a response when `k` of its tokens are seen. */
  lemma StateSeen(s: NATState, k: nat)
    ensures var ts := EncodeState(Some(ToWire(s)));
      var d := DecodeStateField(None, Take(ts, k));
      && d.value.Some? && ListsSeenAs(d.value.value, s, if k > 1 then k - 1 else 0)
      && (Transportable(s) ==> (d.ok <==> k >= |ts|))
  {
    hide *;
    StateTaken(s, k);
    var lists := IpsTokens(ToWire(s), []);
    ListsSeen(s, if k > 1 then k - 1 else 0);
    if k == 0 {
      NothingSeen();
      TakeOne(Uint8(0), lists, 0);
    } else {
      FlagsSeen(Take(lists, k - 1));
    }
  }

  lemma HeadTaken(r: Response, k: nat)
    requires r.error.None?
    ensures var content := EncodeResponse(Some(r));
      Take(content, k) == if k < 4 then ResponseHead(r)[..k] else ResponseHead(r) + Take(EncodeState(r.state), k - 4)
    ensures |EncodeResponse(Some(r))| == 4 + |EncodeState(r.state)| > 4
  {
    ResponseTokens(r, []);
    var content := EncodeResponse(Some(r));
    assert content + [] == content && EncodeState(r.state) + [] == EncodeState(r.state);
    assert |EncodeState(r.state)| > 0;
  }

  /** What is known of a reply `d` when `k` of its `n` tokens are seen. */
  ghost predicate ReplySeenAs(d: Decoded<Response>, requestId: string, local: LocalState, k: nat, n: nat) {
    && (SyncResult(d.value) == Expected(local) <==> ReplySurvives(local, k))
    && ((local.Loaded? ==> Transportable(local.state)) ==> (d.ok <==> k >= n))
  }

  lemma HeadSeen(requestId: string, local: LocalState, k: nat)
    requires k < 4
    ensures var r := SyncStateResult(requestId, local);
      ReplySeenAs(DecodeResponse(NEW_RESPONSE, ResponseHead(r)[..k]), requestId, local, k, 5)
  {
    var r := SyncStateResult(requestId, local);
    HeadCut(r, k);
    if !local.Loaded? {
      assert |r.errorMessage| > 0;
      var prefix := "primary returned error: ";
      assert |prefix + r.errorMessage| > |prefix + ""|;
    }
  }

  lemma LoadedMeans(requestId: string, state: NATState, d: Decoded<Option<State>>, k: nat, n: nat)
    requires k >= 4 && d.value.Some? && ListsSeenAs(d.value.value, state, if k > 5 then k - 5 else 0)
    requires Transportable(state) ==> (d.ok <==> k >= n)
    ensures ReplySeenAs(Decoded(d.ok, Response(None, 0, requestId, true, "", d.value), d.rest),
                        requestId, Loaded(state), k, n)
  {
  }

  lemma LoadedReply(requestId: string, state: NATState)
    ensures SyncStateResult(requestId, Loaded(state)) == Response(None, 0, requestId, true, "", Some(ToWire(state)))
  {
  }

  lemma LoadedSeen(requestId: string, state: NATState, k: nat)
    requires k >= 4
    ensures var r := SyncStateResult(requestId, Loaded(state));
      ReplySeenAs(DecodeResponse(NEW_RESPONSE, ResponseHead(r) + Take(EncodeState(r.state), k - 4)),
                  requestId, Loaded(state), k, 4 + |EncodeState(r.state)|)
  {
    hide *;
    var r := SyncStateResult(requestId, Loaded(state));
    var body := Take(EncodeState(r.state), k - 4);
    LoadedReply(requestId, state);
    HeadReadBack(r, body);
    StateSeen(state, k - 4);
    LoadedMeans(requestId, state, DecodeStateField(None, body), k, 4 + |EncodeState(r.state)|);
  }

  lemma RefusalSeen(requestId: string, local: LocalState, k: nat)
    requires k >= 4 && !local.Loaded?
    ensures var r := SyncStateResult(requestId, local);
      ReplySeenAs(DecodeResponse(NEW_RESPONSE, ResponseHead(r) + Take(EncodeState(r.state), k - 4)),
                  requestId, local, k, 4 + |EncodeState(r.state)|)
  {
    var r := SyncStateResult(requestId, local);
    HeadReadBack(r, Take(EncodeState(r.state), k - 4));
  }

  /**
   What comes of a reply when its first `k` tokens are seen: it is decoded without an error
   exactly when that is all of them (of a state whose lists fit), and the round ends as it
   should exactly when the meaning survives.
   */
  lemma ReplySeen(requestId: string, local: LocalState, k: nat)
    ensures var content := ReplyContent(requestId, local);
      ReplySeenAs(DecodeResponse(NEW_RESPONSE, Take(content, k)), requestId, local, k, |content|)
  {
    HeadTaken(SyncStateResult(requestId, local), k);
    if k < 4 {
      HeadSeen(requestId, local, k);
    } else {
      match local
      case Loaded(state) => LoadedSeen(requestId, state, k);
      case _ => RefusalSeen(requestId, local, k);
    }
  }

  lemma AddressesOnly(requestId: string, ips: seq<string>)
    ensures SyncResult(Response(None, 0, requestId, true, "", Some(NEW_STATE.(ips := ips))))
         == Apply(NATState(ips, [], [], [], [], []))
  {
    var v := NEW_STATE.(ips := ips);
    assert FromWire(v) == Converted(NATState(v.ips, [], [], [], [], []));
  }

  /**
   A reply that is cut before the end of its addresses is applied, with every other address
   empty and no other table.
   */
  lemma AddressesApplied(requestId: string, s: NATState, k: nat)
    requires Fits(s.ips) && 4 <= k < 6 + |s.ips|
    ensures SyncResult(DecodeResponse(NEW_RESPONSE, Take(ReplyContent(requestId, Loaded(s)), k)).value)
         == Apply(NATState(AddressesLeft(s.ips, if k > 5 then k - 5 else 0), [], [], [], [], []))
  {
    hide DecodeResponse, EncodeResponse, DecodeStateField, EncodeState, SyncResult, ToWire, Take;
    var r := SyncStateResult(requestId, Loaded(s));
    var body := Take(EncodeState(r.state), k - 4);
    LoadedReply(requestId, s);
    HeadTaken(r, k);
    HeadReadBack(r, body);
    StateSeen(s, k - 4);
    AddressesOnly(requestId, AddressesLeft(s.ips, if k > 5 then k - 5 else 0));
  }
}
