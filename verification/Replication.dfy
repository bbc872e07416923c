/**
 The two ends of NAT replication: what the primary makes of its tables, what the secondary
 makes of a response, and what the whole path does to a state.
 */
module Replication {
  import opened Wrappers
  import opened Polyglot
  import opened CodecLaws
  import Wire

  // The tables as the local conduit API shows them.

  datatype NATKey = NATKey(destinationIP: string, destinationPort: uint16, sourceIP: string, sourcePort: uint16)

  datatype NATValue = NATValue(lastSeen: string, translateIP: string, translatePort: uint16)

  datatype NATKeyValuePair = NATKeyValuePair(key: NATKey, value: NATValue)

  datatype NATBitmapPair = NATBitmapPair(
    bitmap: string, destinationIP: Option<string>, lastChunk: uint16, natIP: string)

  datatype NATState = NATState(
    ips: seq<string>,
    tcpInbound: seq<NATKeyValuePair>, tcpOutbound: seq<NATKeyValuePair>,
    udpInbound: seq<NATKeyValuePair>, udpOutbound: seq<NATKeyValuePair>,
    natPorts: seq<NATBitmapPair>)

  // ---------------------------------------------------------------- primary to wire

  function ToWirePair(kv: NATKeyValuePair): Option<Wire.Pair> {
    Some(Wire.Pair(None, 0,
      Some(Wire.Key(None, 0, kv.key.destinationIP, kv.key.destinationPort, kv.key.sourceIP, kv.key.sourcePort)),
      Some(Wire.Value(None, 0, kv.value.lastSeen, kv.value.translateIP, kv.value.translatePort))))
  }

  function ToWireBitmap(bp: NATBitmapPair): Option<Wire.Bitmap> {
    Some(Wire.Bitmap(None, 0, bp.bitmap, bp.destinationIP.GetOr(""), bp.lastChunk, bp.natIP))
  }

  function ToWire(s: NATState): Wire.State {
    Wire.State(None, 0, s.ips,
      Map(ToWirePair, s.tcpInbound), Map(ToWirePair, s.tcpOutbound),
      Map(ToWirePair, s.udpInbound), Map(ToWirePair, s.udpOutbound),
      Map(ToWireBitmap, s.natPorts))
  }

  /** What asking the local API for its state can yield. */
  datatype LocalState =
    | Unreachable(reason: string)
    | BadStatus(status: string)
    | NoBody
    | Loaded(state: NATState)

  /** The wire pair says what the table entry says, field by field, and nothing of it is missing. */
  predicate Says(p: Option<Wire.Pair>, kv: NATKeyValuePair) {
    && p.Some? && p.value.error.None? && p.value.key.Some? && p.value.value.Some?
    && var k, v := p.value.key.value, p.value.value.value;
       && k.error.None? && v.error.None? && p.value.flags == k.flags == v.flags == 0
       && k.destinationIp == kv.key.destinationIP && k.destinationPort == kv.key.destinationPort
       && k.sourceIp == kv.key.sourceIP && k.sourcePort == kv.key.sourcePort
       && v.lastSeen == kv.value.lastSeen
       && v.translateIp == kv.value.translateIP && v.translatePort == kv.value.translatePort
  }

  /** The same for a bitmap; an absent destination is said by an empty one. */
  predicate SaysBitmap(b: Option<Wire.Bitmap>, bp: NATBitmapPair) {
    && b.Some? && b.value.error.None? && b.value.flags == 0
    && b.value.bitmap == bp.bitmap && b.value.lastChunk == bp.lastChunk && b.value.natip == bp.natIP
    && (if bp.destinationIP.Some? then b.value.destinationIp == bp.destinationIP.value else b.value.destinationIp == "")
  }

  predicate SaysAll(ps: seq<Option<Wire.Pair>>, kvs: seq<NATKeyValuePair>) {
    |ps| == |kvs| && forall i :: 0 <= i < |ps| ==> Says(ps[i], kvs[i])
  }

  predicate SaysAllBitmaps(bs: seq<Option<Wire.Bitmap>>, bps: seq<NATBitmapPair>) {
    |bs| == |bps| && forall i :: 0 <= i < |bs| ==> SaysBitmap(bs[i], bps[i])
  }

  /** The wire state says what the tables say, each in its own list. */
  predicate SaysState(w: Wire.State, s: NATState) {
    && w.error.None? && w.flags == 0 && w.ips == s.ips
    && SaysAll(w.tcpInbound, s.tcpInbound) && SaysAll(w.tcpOutbound, s.tcpOutbound)
    && SaysAll(w.udpInbound, s.udpInbound) && SaysAll(w.udpOutbound, s.udpOutbound)
    && SaysAllBitmaps(w.natPorts, s.natPorts)
  }

  method ConvertPairs(kvs: seq<NATKeyValuePair>) returns (out: seq<Option<Wire.Pair>>)
    ensures out == Map(ToWirePair, kvs) && SaysAll(out, kvs)
  {
    var pairs := new Option<Wire.Pair>[|kvs|](_ => None);
    for i := 0 to |kvs|
      invariant pairs[..i] == Map(ToWirePair, kvs)[..i]
    {
      var kv := kvs[i];
      pairs[i] := Some(Wire.Pair(None, 0,
        Some(Wire.Key(None, 0, kv.key.destinationIP, kv.key.destinationPort, kv.key.sourceIP, kv.key.sourcePort)),
        Some(Wire.Value(None, 0, kv.value.lastSeen, kv.value.translateIP, kv.value.translatePort))));
    }
    out := pairs[..];
  }

  method ConvertBitmaps(bps: seq<NATBitmapPair>) returns (out: seq<Option<Wire.Bitmap>>)
    ensures out == Map(ToWireBitmap, bps) && SaysAllBitmaps(out, bps)
  {
    var pairs := new Option<Wire.Bitmap>[|bps|](_ => None);
    for i := 0 to |bps|
      invariant pairs[..i] == Map(ToWireBitmap, bps)[..i]
    {
      var bp := bps[i];
      var destIP := "";
      if bp.destinationIP.Some? {
        destIP := bp.destinationIP.value;
      }
      pairs[i] := Some(Wire.Bitmap(None, 0, bp.bitmap, destIP, bp.lastChunk, bp.natIP));
    }
    out := pairs[..];
  }

  function Failed(requestId: string, reason: string): Wire.Response {
    Wire.NEW_RESPONSE.(requestId := requestId, errorMessage := reason)
  }

  function SyncStateResult(requestId: string, local: LocalState): (r: Wire.Response)
    ensures r.requestId == requestId && r.error.None?
    ensures r.success <==> r.state.Some?
  {
    match local
    case Unreachable(reason) => Failed(requestId, "failed to get state: " + reason)
    case BadStatus(status) => Failed(requestId, "API error: " + status)
    case NoBody => Failed(requestId, "empty state returned")
    case Loaded(s) => Wire.NEW_RESPONSE.(requestId := requestId, success := true, state := Some(ToWire(s)))
  }

  /** The RPC method of the primary: four ways to return, all carrying the caller's request id. */
  method SyncState(req: Wire.Request, local: LocalState) returns (res: Wire.Response)
    ensures res == SyncStateResult(req.requestId, local)
    ensures local.Loaded? ==> res.success && res.state.Some? && SaysState(res.state.value, local.state)
  {
    match local
    case Unreachable(reason) =>
      return Wire.NEW_RESPONSE.(
        requestId := req.requestId, success := false, errorMessage := "failed to get state: " + reason);
    case BadStatus(status) =>
      return Wire.NEW_RESPONSE.(requestId := req.requestId, success := false, errorMessage := "API error: " + status);
    case NoBody =>
      return Wire.NEW_RESPONSE.(requestId := req.requestId, success := false, errorMessage := "empty state returned");
    case Loaded(natState) =>
      var tcpInbound := ConvertPairs(natState.tcpInbound);
      var tcpOutbound := ConvertPairs(natState.tcpOutbound);
      var udpInbound := ConvertPairs(natState.udpInbound);
      var udpOutbound := ConvertPairs(natState.udpOutbound);
      var natPorts := ConvertBitmaps(natState.natPorts);
      var frpcState := Wire.State(None, 0, natState.ips, tcpInbound, tcpOutbound, udpInbound, udpOutbound, natPorts);
      return Wire.NEW_RESPONSE.(requestId := req.requestId, success := true, state := Some(frpcState));
  }

  // ---------------------------------------------------------------- wire to secondary

  /** Clamps a port to 16 bits. */
  function PortUint32ToUint16(port: uint32): (r: uint16)
    ensures port < 0x1_0000 ==> r == port
    ensures port >= 0x1_0000 ==> r == 65535
  {
    if port > 65535 then 65535 else port
  }

  /** Following a nil pair, key or value panics. */
  predicate Readable(p: Option<Wire.Pair>) {
    p.Some? && p.value.key.Some? && p.value.value.Some?
  }

  function FromWirePair(p: Option<Wire.Pair>): NATKeyValuePair
    requires Readable(p)
  {
    var k, v := p.value.key.value, p.value.value.value;
    NATKeyValuePair(
      NATKey(k.destinationIp, PortUint32ToUint16(k.destinationPort), k.sourceIp, PortUint32ToUint16(k.sourcePort)),
      NATValue(v.lastSeen, v.translateIp, PortUint32ToUint16(v.translatePort)))
  }

  function FromWireBitmap(b: Option<Wire.Bitmap>): NATBitmapPair
    requires b.Some?
  {
    var bp := b.value;
    NATBitmapPair(bp.bitmap, if bp.destinationIp == "" then None else Some(bp.destinationIp),
                  PortUint32ToUint16(bp.lastChunk), bp.natip)
  }

  predicate ReadableState(s: Wire.State) {
    && (forall i :: 0 <= i < |s.tcpInbound| ==> Readable(s.tcpInbound[i]))
    && (forall i :: 0 <= i < |s.tcpOutbound| ==> Readable(s.tcpOutbound[i]))
    && (forall i :: 0 <= i < |s.udpInbound| ==> Readable(s.udpInbound[i]))
    && (forall i :: 0 <= i < |s.udpOutbound| ==> Readable(s.udpOutbound[i]))
    && (forall i :: 0 <= i < |s.natPorts| ==> s.natPorts[i].Some?)
  }

  /** The converted state, or nothing when the conversion panics. */
  datatype Conversion<+T> = Panicked | Converted(value: T)

  method ConvertBackPairs(ps: seq<Option<Wire.Pair>>) returns (out: Conversion<seq<NATKeyValuePair>>)
    ensures out.Converted? <==> forall i :: 0 <= i < |ps| ==> Readable(ps[i])
    ensures out.Converted? ==> |out.value| == |ps| && forall i :: 0 <= i < |ps| ==> out.value[i] == FromWirePair(ps[i])
  {
    var kvs := new NATKeyValuePair[|ps|](_ => NATKeyValuePair(NATKey("", 0, "", 0), NATValue("", "", 0)));
    for i := 0 to |ps|
      invariant forall j :: 0 <= j < i ==> Readable(ps[j]) && kvs[j] == FromWirePair(ps[j])
    {
      if ps[i].None? || ps[i].value.key.None? || ps[i].value.value.None? {
        return Panicked;
      }
      var k, v := ps[i].value.key.value, ps[i].value.value.value;
      kvs[i] := NATKeyValuePair(
        NATKey(k.destinationIp, PortUint32ToUint16(k.destinationPort), k.sourceIp, PortUint32ToUint16(k.sourcePort)),
        NATValue(v.lastSeen, v.translateIp, PortUint32ToUint16(v.translatePort)));
    }
    out := Converted(kvs[..]);
  }

  method ConvertBackBitmaps(bs: seq<Option<Wire.Bitmap>>) returns (out: Conversion<seq<NATBitmapPair>>)
    ensures out.Converted? <==> forall i :: 0 <= i < |bs| ==> bs[i].Some?
    ensures out.Converted? ==>
      |out.value| == |bs| && forall i :: 0 <= i < |bs| ==> out.value[i] == FromWireBitmap(bs[i])
  {
    var bps := new NATBitmapPair[|bs|](_ => NATBitmapPair("", None, 0, ""));
    for i := 0 to |bs|
      invariant forall j :: 0 <= j < i ==> bs[j].Some? && bps[j] == FromWireBitmap(bs[j])
    {
      if bs[i].None? {
        return Panicked;
      }
      var bp := bs[i].value;
      var destIP := None;
      if bp.destinationIp != "" {
        destIP := Some(bp.destinationIp);
      }
      bps[i] := NATBitmapPair(bp.bitmap, destIP, PortUint32ToUint16(bp.lastChunk), bp.natip);
    }
    out := Converted(bps[..]);
  }

  function BackPairs(ps: seq<Option<Wire.Pair>>): (r: seq<NATKeyValuePair>)
    requires forall i :: 0 <= i < |ps| ==> Readable(ps[i])
    ensures |r| == |ps| && forall i :: 0 <= i < |ps| ==> r[i] == FromWirePair(ps[i])
  {
    seq(|ps|, i requires 0 <= i < |ps| => FromWirePair(ps[i]))
  }

  function BackBitmaps(bs: seq<Option<Wire.Bitmap>>): (r: seq<NATBitmapPair>)
    requires forall i :: 0 <= i < |bs| ==> bs[i].Some?
    ensures |r| == |bs| && forall i :: 0 <= i < |bs| ==> r[i] == FromWireBitmap(bs[i])
  {
    seq(|bs|, i requires 0 <= i < |bs| => FromWireBitmap(bs[i]))
  }

  function FromWire(s: Wire.State): Conversion<NATState> {
    if ReadableState(s) then
      Converted(NATState(s.ips, BackPairs(s.tcpInbound), BackPairs(s.tcpOutbound),
                         BackPairs(s.udpInbound), BackPairs(s.udpOutbound), BackBitmaps(s.natPorts)))
    else Panicked
  }

  /** How a sync round ends on the secondary. */
  datatype SyncOutcome =
    | Refused(reason: string)
    | Crashed
    | Apply(state: NATState)

  function SyncResult(response: Wire.Response): SyncOutcome {
    if !response.success then Refused("primary returned error: " + response.errorMessage)
    else if response.state.None? then Refused("primary returned empty state")
    else
      match FromWire(response.state.value)
      case Panicked => Crashed
      case Converted(s) => Apply(s)
  }

  /** What the secondary makes of a pair is what it says: the same fields, with ports clamped to 16 bits. */
  predicate Heard(kv: NATKeyValuePair, p: Option<Wire.Pair>) {
    && Readable(p)
    && var k, v := p.value.key.value, p.value.value.value;
       && kv.key.destinationIP == k.destinationIp && kv.key.sourceIP == k.sourceIp
       && kv.key.destinationPort == Min(k.destinationPort, 65535) && kv.key.sourcePort == Min(k.sourcePort, 65535)
       && kv.value.lastSeen == v.lastSeen && kv.value.translateIP == v.translateIp
       && kv.value.translatePort == Min(v.translatePort, 65535)
  }

  predicate HeardBitmap(bp: NATBitmapPair, b: Option<Wire.Bitmap>) {
    && b.Some? && bp.bitmap == b.value.bitmap && bp.natIP == b.value.natip
    && bp.lastChunk == Min(b.value.lastChunk, 65535)
    && (bp.destinationIP == None <==> b.value.destinationIp == "")
    && (bp.destinationIP.Some? ==> bp.destinationIP.value == b.value.destinationIp)
  }

  predicate HeardAll(kvs: seq<NATKeyValuePair>, ps: seq<Option<Wire.Pair>>) {
    |kvs| == |ps| && forall i :: 0 <= i < |ps| ==> Heard(kvs[i], ps[i])
  }

  predicate HeardState(s: NATState, w: Wire.State) {
    && s.ips == w.ips
    && HeardAll(s.tcpInbound, w.tcpInbound) && HeardAll(s.tcpOutbound, w.tcpOutbound)
    && HeardAll(s.udpInbound, w.udpInbound) && HeardAll(s.udpOutbound, w.udpOutbound)
    && |s.natPorts| == |w.natPorts|
    && forall i :: 0 <= i < |w.natPorts| ==> HeardBitmap(s.natPorts[i], w.natPorts[i])
  }

  function Min(a: nat, b: nat): nat { if a < b then a else b }

  /** What the secondary does with a response it received without an RPC error. */
  method SyncFromPrimary(response: Wire.Response) returns (out: SyncOutcome)
    ensures out == SyncResult(response)
    ensures !response.success ==> out == Refused("primary returned error: " + response.errorMessage)
    ensures response.success && response.state.None? ==> out == Refused("primary returned empty state")
    ensures response.success && response.state.Some? ==>
      if ReadableState(response.state.value) then out.Apply? && HeardState(out.state, response.state.value)
      else out == Crashed
  {
    if !response.success {
      return Refused("primary returned error: " + response.errorMessage);
    }
    if response.state.None? {
      return Refused("primary returned empty state");
    }
    var s := response.state.value;
    var tcpInbound := ConvertBackPairs(s.tcpInbound);
    var tcpOutbound := ConvertBackPairs(s.tcpOutbound);
    var udpInbound := ConvertBackPairs(s.udpInbound);
    var udpOutbound := ConvertBackPairs(s.udpOutbound);
    var natPorts := ConvertBackBitmaps(s.natPorts);
    var panicked := tcpInbound.Panicked? || tcpOutbound.Panicked? || udpInbound.Panicked? || udpOutbound.Panicked?;
    if panicked || natPorts.Panicked? {
      return Crashed;
    }
    assert tcpInbound.value == BackPairs(s.tcpInbound);
    assert tcpOutbound.value == BackPairs(s.tcpOutbound);
    assert udpInbound.value == BackPairs(s.udpInbound);
    assert udpOutbound.value == BackPairs(s.udpOutbound);
    assert natPorts.value == BackBitmaps(s.natPorts);
    out := Apply(NATState(s.ips, tcpInbound.value, tcpOutbound.value,
                          udpInbound.value, udpOutbound.value, natPorts.value));
  }

  // ---------------------------------------------------------------- the whole path

  /** The one thing replication changes: a present but empty destination becomes absent. */
  function Canonical(bp: NATBitmapPair): NATBitmapPair {
    if bp.destinationIP == Some("") then bp.(destinationIP := None) else bp
  }

  function CanonicalState(s: NATState): NATState {
    s.(natPorts := Map(Canonical, s.natPorts))
  }

  predicate NoEmptyDestination(s: NATState) {
    forall i :: 0 <= i < |s.natPorts| ==> s.natPorts[i].destinationIP != Some("")
  }

  predicate Transportable(s: NATState) {
    && |s.ips| < TWO_TO_THE_32
    && |s.tcpInbound| < TWO_TO_THE_32 && |s.tcpOutbound| < TWO_TO_THE_32
    && |s.udpInbound| < TWO_TO_THE_32 && |s.udpOutbound| < TWO_TO_THE_32
    && |s.natPorts| < TWO_TO_THE_32
  }

  /** Convert, encode, decode into a new response (whatever the decoder reports), convert back. */
  function Replicate(requestId: string, s: NATState, tail: seq<Token>): SyncOutcome {
    var sent := SyncStateResult(requestId, Loaded(s));
    SyncResult(Wire.DecodeResponse(Wire.NEW_RESPONSE, Wire.EncodeResponse(Some(sent)) + tail).value)
  }

  lemma ConversionsInvert(s: NATState)
    ensures FromWire(ToWire(s)) == Converted(CanonicalState(s))
  {
    var back := FromWire(ToWire(s)).value;
    assert back.tcpInbound == s.tcpInbound;
    assert back.tcpOutbound == s.tcpOutbound;
    assert back.udpInbound == s.udpInbound;
    assert back.udpOutbound == s.udpOutbound;
    assert back.natPorts == CanonicalState(s).natPorts;
  }

  /** What the conversion produces is already in normal form, so the wire does not change it. */
  lemma ToWireIsNormal(s: NATState)
    ensures NormState(ToWire(s)) == ToWire(s)
  {
    var w := ToWire(s);
    assert Map(NormPairSlot, w.tcpInbound) == w.tcpInbound;
    assert Map(NormPairSlot, w.tcpOutbound) == w.tcpOutbound;
    assert Map(NormPairSlot, w.udpInbound) == w.udpInbound;
    assert Map(NormPairSlot, w.udpOutbound) == w.udpOutbound;
    assert Map(NormBitmapSlot, w.natPorts) == w.natPorts;
  }

  lemma SentIsNormal(requestId: string, s: NATState)
    ensures var sent := SyncStateResult(requestId, Loaded(s));
      NormResponse(sent) == sent && (Transportable(s) ==> StateFits(sent.state))
  {
    ToWireIsNormal(s);
  }

  /** A response with a state that fits arrives as it was sent. */
  lemma ArrivesAsSent(requestId: string, s: NATState, tail: seq<Token>)
    requires Transportable(s)
    ensures var sent := SyncStateResult(requestId, Loaded(s));
      Wire.DecodeResponse(Wire.NEW_RESPONSE, Wire.EncodeResponse(Some(sent)) + tail) == Decoded(true, sent, tail)
  {
    SentIsNormal(requestId, s);
    ResponseRoundTrip(Some(SyncStateResult(requestId, Loaded(s))), tail);
  }

  lemma ReadAsMeant(requestId: string, s: NATState)
    ensures SyncResult(SyncStateResult(requestId, Loaded(s))) == Apply(CanonicalState(s))
  {
    ConversionsInvert(s);
  }

  /**
   Replication preserves meaning. A state whose lists all fit their 32-bit headers arrives
   with the same addresses, keys, values, ports, lengths and order, except that a present but
   empty destination becomes absent.
   */
  lemma ReplicationPreserves(requestId: string, s: NATState, tail: seq<Token>)
    requires Transportable(s)
    ensures Replicate(requestId, s, tail) == Apply(CanonicalState(s))
  {
    ArrivesAsSent(requestId, s, tail);
    ReadAsMeant(requestId, s);
  }

  /** Of a state that does not fit, some list arrives with another length. */
  lemma LostExactly(requestId: string, s: NATState, tail: seq<Token>)
    requires !Transportable(s)
    ensures Replicate(requestId, s, tail) != Apply(s)
  {
    hide Wire.EncodeResponse, Wire.DecodeResponse, Wire.EncodeState;
    ResponseRoundTrip(Some(SyncStateResult(requestId, Loaded(s))), tail);
  }

  /** Exactly when a state arrives unchanged. */
  lemma ReplicationExact(requestId: string, s: NATState, tail: seq<Token>)
    ensures Replicate(requestId, s, tail) == Apply(s) <==> Transportable(s) && NoEmptyDestination(s)
  {
    if Transportable(s) {
      ReplicationPreserves(requestId, s, tail);
      if NoEmptyDestination(s) {
        assert Map(Canonical, s.natPorts) == s.natPorts;
      } else {
        var i :| 0 <= i < |s.natPorts| && s.natPorts[i].destinationIP == Some("");
        assert Map(Canonical, s.natPorts)[i] != s.natPorts[i];
      }
    } else {
      LostExactly(requestId, s, tail);
    }
  }

  /** A pair with nothing to read at the other end: nil, an error, or missing its key or value. */
  predicate Hole(p: Option<Wire.Pair>) {
    p.None? || p.value.error.Some? || p.value.key.None? || p.value.value.None?
  }

  /** A state that carries an error is sent without its lists. */
  predicate HasHole(s: Wire.State) {
    && s.error.None?
    && exists p :: p in s.tcpInbound + s.tcpOutbound + s.udpInbound + s.udpOutbound && Hole(p)
  }

  lemma HolesStayHoles(ps: seq<Option<Wire.Pair>>)
    ensures (forall i :: 0 <= i < |ps| ==> Readable(Map(NormPairSlot, ps)[i])) <==> forall p :: p in ps ==> !Hole(p)
  {
    forall i | 0 <= i < |ps|
      ensures Readable(Map(NormPairSlot, ps)[i]) <==> !Hole(ps[i])
    {
    }
  }

  lemma ReadableExactly(s: Wire.State)
    ensures ReadableState(NormState(s)) <==> !HasHole(s)
  {
    if s.error.None? {
      HolesStayHoles(s.tcpInbound);
      HolesStayHoles(s.tcpOutbound);
      HolesStayHoles(s.udpInbound);
      HolesStayHoles(s.udpOutbound);
      assert ReadableState(NormState(s)) <==> forall p ::
        p in s.tcpInbound || p in s.tcpOutbound || p in s.udpInbound || p in s.udpOutbound ==> !Hole(p);
    }
  }

  /**
   For any response, not only one the primary makes: the secondary that receives it crashes if
   and only if it reports success and some pair of the state that arrives is a hole. Nil or
   failed bitmaps do no harm.
   */
  lemma CrashExactlyOnHoles(r: Wire.Response, tail: seq<Token>)
    ensures SyncResult(Wire.DecodeResponse(Wire.NEW_RESPONSE, Wire.EncodeResponse(Some(r)) + tail).value) == Crashed
       <==> r.error.None? && r.success && r.state.Some? && HasHole(Arriving(r.state.value))
  {
    ResponseRoundTrip(Some(r), tail);
    if r.error.None? && r.state.Some? {
      ReadableExactly(Arriving(r.state.value));
    }
  }
}
