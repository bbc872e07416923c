/** The packet handlers on the two sides of the SyncState call. */
module SyncService {
  import opened Wrappers
  import opened Polyglot
  import opened CodecLaws
  import opened CutLists
  import opened CutReplies
  import opened Packets
  import opened Replication
  import Messages
  import Rpc
  import Wire

  // ---------------------------------------------------------------- the handlers

  /** What the server makes of a request: nothing when the request does not decode. */
  function ServerReply(size: Token -> Bytes, incoming: Packet, local: LocalState): Option<Packet> {
    var req := Wire.DecodeRequest(Wire.NEW_REQUEST, Seen(size, incoming));
    if req.ok then Some(Packed(size, incoming.id, ReplyContent(req.value.requestId, local))) else None
  }

  /** The server's handler: the incoming packet, with its id, becomes the outgoing one. */
  method HandleRequest(size: Token -> Bytes, incoming: Packet, local: LocalState) returns (outgoing: Option<Packet>)
    ensures outgoing == ServerReply(size, incoming, local)
  {
    hide Wire.DecodeRequest, Wire.EncodeResponse, ByteLength, Within;
    outgoing := None;
    var req := new Messages.FailoverSyncStateRequest();
    var decoder := new BufferDecoder(Seen(size, incoming));
    var ok := req.Decode(decoder);
    if ok {
      var content := new Buffer();
      var res := SyncState(req.Contents(), local);
      Messages.EncodeResponse(Some(res), content);
      assert content.tokens == Wire.EncodeResponse(Some(res));
      var length := ByteLength(size, content.tokens) % TWO_TO_THE_32;
      outgoing := Some(incoming.(content := content.tokens, length := length));
    }
  }

  /** What the client hands to the waiting caller: the receiver, whether or not decoding succeeded. */
  function Received(size: Token -> Bytes, incoming: Packet): Wire.Response {
    Wire.DecodeResponse(Wire.NEW_RESPONSE, Seen(size, incoming)).value
  }

  /** The client's handler ignores the decoder's error. */
  method HandleReply(size: Token -> Bytes, incoming: Packet) returns (res: Wire.Response)
    ensures res == Received(size, incoming)
  {
    var r := new Messages.FailoverSyncStateResponse();
    var decoder := new BufferDecoder(Seen(size, incoming));
    var _ := r.Decode(decoder);
    res := r.Contents();
  }

  function RequestContent(requestId: string): seq<Token> {
    Wire.EncodeRequest(Some(Wire.NEW_REQUEST.(requestId := requestId)))
  }

  /** The request packet of a call. */
  function RequestPacket(size: Token -> Bytes, id: uint16, requestId: string): Packet {
    Packed(size, id, RequestContent(requestId))
  }

  method WriteRequest(size: Token -> Bytes, id: uint16, requestId: string) returns (p: Packet)
    ensures p == RequestPacket(size, id, requestId)
  {
    var content := new Buffer();
    Messages.EncodeRequest(Some(Wire.NEW_REQUEST.(requestId := requestId)), content);
    assert content.tokens == RequestContent(requestId);
    p := Packet(id, ByteLength(size, content.tokens) % TWO_TO_THE_32, content.tokens);
  }

  /** The packet of a reply to a call. */
  function ReplyPacket(size: Token -> Bytes, id: uint16, requestId: string, local: LocalState): Packet {
    Packed(size, id, ReplyContent(requestId, local))
  }

  // ---------------------------------------------------------------- when request and reply agree

  /** A request and the front of its reply: flags and request id. */
  function IdBytes(size: Token -> Bytes, requestId: string): nat {
    ByteLength(size, RequestContent(requestId))
  }

  predicate RequestFits(size: Token -> Bytes, requestId: string) {
    IdBytes(size, requestId) < TWO_TO_THE_32
  }

  predicate ReplyFits(size: Token -> Bytes, requestId: string, local: LocalState) {
    ByteLength(size, ReplyContent(requestId, local)) < TWO_TO_THE_32
  }

  /** The truncated length of the reply still covers its request id, or there is none to cover. */
  predicate IdCovered(size: Token -> Bytes, requestId: string, local: LocalState) {
    requestId == "" || IdBytes(size, requestId) <= ByteLength(size, ReplyContent(requestId, local)) % TWO_TO_THE_32
  }

  /** A packet that starts with flags and a request id: what of that front is within the first bytes. */
  lemma FrontWithin(size: Token -> Bytes, requestId: string, rest: seq<Token>, n: nat)
    ensures var front := [Uint8(0), String(requestId)];
      var seen := Within(size, front + rest, n);
      && ByteLength(size, front) == size(Uint8(0)) + size(String(requestId))
      && (if n < size(Uint8(0)) then seen == []
          else if n < ByteLength(size, front) then seen == [Uint8(0)]
          else seen == front + Within(size, rest, n - ByteLength(size, front)))
  {
    var front := [Uint8(0), String(requestId)];
    var id := [String(requestId)];
    assert front[1..] == id && id[1..] == [];
    assert ByteLength(size, id) == size(id[0]) + ByteLength(size, id[1..]);
    assert (front + rest)[1..] == [String(requestId)] + rest;
    if n >= ByteLength(size, front) {
      WithinConcat(size, front, rest, n);
    }
  }

  lemma RequestHeard(size: Token -> Bytes, id: uint16, requestId: string)
    ensures var req := Wire.DecodeRequest(Wire.NEW_REQUEST, Seen(size, RequestPacket(size, id, requestId)));
      req.ok <==> RequestFits(size, requestId)
    ensures var req := Wire.DecodeRequest(Wire.NEW_REQUEST, Seen(size, RequestPacket(size, id, requestId)));
      req.ok ==> req.value.requestId == requestId
  {
    var content := RequestContent(requestId);
    if RequestFits(size, requestId) {
      SeenWhole(size, id, content);
      RequestRoundTrip(Some(Wire.NEW_REQUEST.(requestId := requestId)), []);
      assert content + [] == content;
    } else {
      FrontWithin(size, requestId, [], ByteLength(size, content) % TWO_TO_THE_32);
      assert [Uint8(0), String(requestId)] + [] == content;
    }
  }

  lemma ReplyFront(requestId: string, local: LocalState)
    ensures |ReplyContent(requestId, local)| >= 2
    ensures ReplyContent(requestId, local) == RequestContent(requestId) + ReplyContent(requestId, local)[2..]
  {
    hide Wire.EncodeState;
    ResponseTokens(SyncStateResult(requestId, local), []);
  }

  /** What the caller gets of a response of which only the first tokens arrive. */
  lemma FrontRead(requestId: string, rest: seq<Token>)
    ensures Wire.DecodeResponse(Wire.NEW_RESPONSE, []).value == Wire.NEW_RESPONSE
    ensures Wire.DecodeResponse(Wire.NEW_RESPONSE, [Uint8(0)]).value == Wire.NEW_RESPONSE
    ensures var r := Wire.DecodeResponse(Wire.NEW_RESPONSE, [Uint8(0), String(requestId)] + rest).value;
      r.requestId == requestId && r.error.None?
  {
    var ts := [Uint8(0), String(requestId)] + rest;
    assert [Uint8(0)][1..] == [];
    assert ts[1..] == [String(requestId)] + rest && ts[1..][1..] == rest;
  }

  lemma FrontReceived(size: Token -> Bytes, requestId: string, rest: seq<Token>, n: nat)
    ensures var r := Wire.DecodeResponse(Wire.NEW_RESPONSE, Within(size, RequestContent(requestId) + rest, n)).value;
      r.error.None? && (r.requestId == requestId <==> requestId == "" || IdBytes(size, requestId) <= n)
  {
    var bytes := IdBytes(size, requestId);
    assert RequestContent(requestId) == [Uint8(0), String(requestId)];
    FrontWithin(size, requestId, rest, n);
    FrontRead(requestId, if n < bytes then [] else Within(size, rest, n - bytes));
  }

  /** A reply has no error, and its own request id if and only if its truncated length covers that. */
  lemma ReplyAnswersExactly(size: Token -> Bytes, id: uint16, requestId: string, local: LocalState)
    ensures var response := Received(size, ReplyPacket(size, id, requestId, local));
      response.error.None? && (response.requestId == requestId <==> IdCovered(size, requestId, local))
  {
    ReplyFront(requestId, local);
    var content := ReplyContent(requestId, local);
    FrontReceived(size, requestId, content[2..], ByteLength(size, content) % TWO_TO_THE_32);
  }

  /**
   A request is answered if and only if it fits its length field. The answer has the request's
   packet id and no error, and it has the request's own id if and only if that is covered by
   the length of the reply modulo 2^32.
   */
  lemma ReplyMatchesExactly(size: Token -> Bytes, id: uint16, requestId: string, local: LocalState)
    ensures var reply := ServerReply(size, RequestPacket(size, id, requestId), local);
      && (reply.Some? <==> RequestFits(size, requestId))
      && (reply.Some? ==>
            && reply.value == ReplyPacket(size, id, requestId, local)
            && Received(size, reply.value).error.None?
            && (Received(size, reply.value).requestId == requestId <==> IdCovered(size, requestId, local)))
  {
    RequestHeard(size, id, requestId);
    ReplyAnswersExactly(size, id, requestId, local);
  }

  /** A reply that fits its length field covers the request id. */
  lemma FittingReplyCovers(size: Token -> Bytes, requestId: string, local: LocalState)
    requires ReplyFits(size, requestId, local)
    ensures IdCovered(size, requestId, local)
  {
    ReplyFront(requestId, local);
    LengthConcat(size, RequestContent(requestId), ReplyContent(requestId, local)[2..]);
  }

  // ---------------------------------------------------------------- a sync round

  /** How many tokens of the reply its truncated length covers. */
  function TokensSeen(size: Token -> Bytes, requestId: string, local: LocalState): nat {
    var content := ReplyContent(requestId, local);
    |Within(size, content, ByteLength(size, content) % TWO_TO_THE_32)|
  }

  /** The receiver sees the first tokens of a reply, and all of them exactly when it fits. */
  lemma SeenIsFront(size: Token -> Bytes, id: uint16, requestId: string, local: LocalState)
    ensures var content, k := ReplyContent(requestId, local), TokensSeen(size, requestId, local);
      && k <= |content|
      && Seen(size, ReplyPacket(size, id, requestId, local)) == Take(content, k)
      && (k == |content| <==> ReplyFits(size, requestId, local))
  {
    hide ByteLength, Within, ReplyContent;
    var content := ReplyContent(requestId, local);
    WithinIsFront(size, content, ByteLength(size, content) % TWO_TO_THE_32);
  }

  /** The decoder's error, which the client drops, is set exactly when the reply does not fit. */
  lemma DecodesExactly(size: Token -> Bytes, id: uint16, requestId: string, local: LocalState)
    requires local.Loaded? ==> Transportable(local.state)
    ensures Wire.DecodeResponse(Wire.NEW_RESPONSE, Seen(size, ReplyPacket(size, id, requestId, local))).ok
       <==> ReplyFits(size, requestId, local)
  {
    SeenIsFront(size, id, requestId, local);
    ReplySeen(requestId, local, TokensSeen(size, requestId, local));
  }

  /** The caller gets a blank response exactly when the truncated length does not cover the request id. */
  lemma BlankExactly(size: Token -> Bytes, id: uint16, requestId: string, local: LocalState)
    requires requestId != ""
    ensures Received(size, ReplyPacket(size, id, requestId, local)) == Wire.NEW_RESPONSE
       <==> !IdCovered(size, requestId, local)
  {
    var content := ReplyContent(requestId, local);
    var n := ByteLength(size, content) % TWO_TO_THE_32;
    ReplyFront(requestId, local);
    FrontReceived(size, requestId, content[2..], n);
    FrontWithin(size, requestId, content[2..], n);
    FrontRead(requestId, []);
  }

  /**
   The round ends as it should exactly when the reply's meaning survives in the tokens that its
   truncated length covers.
   */
  lemma OutcomeExactly(size: Token -> Bytes, id: uint16, requestId: string, local: LocalState)
    ensures SyncResult(Received(size, ReplyPacket(size, id, requestId, local))) == Expected(local)
       <==> ReplySurvives(local, TokensSeen(size, requestId, local))
  {
    SeenIsFront(size, id, requestId, local);
    ReplySeen(requestId, local, TokensSeen(size, requestId, local));
  }

  /**
   A reply whose length ends before the end of its addresses is applied all the same: the
   addresses seen so far come back, the others are empty, and so are the other tables.
   */
  lemma PartialStateApplied(size: Token -> Bytes, id: uint16, requestId: string, s: NATState)
    requires Fits(s.ips) && 4 <= TokensSeen(size, requestId, Loaded(s)) < 6 + |s.ips|
    ensures var k := TokensSeen(size, requestId, Loaded(s));
      SyncResult(Received(size, ReplyPacket(size, id, requestId, Loaded(s))))
      == Apply(NATState(AddressesLeft(s.ips, if k > 5 then k - 5 else 0), [], [], [], [], []))
  {
    SeenIsFront(size, id, requestId, Loaded(s));
    AddressesApplied(requestId, s, TokensSeen(size, requestId, Loaded(s)));
  }

  /** A reply that fits survives. */
  lemma FittingReplySurvives(size: Token -> Bytes, requestId: string, local: LocalState)
    requires ReplyFits(size, requestId, local)
    ensures ReplySurvives(local, TokensSeen(size, requestId, local))
  {
    hide Wire.EncodeResponse, Wire.DecodeResponse, ByteLength, Within, ReplySurvives;
    var content := ReplyContent(requestId, local);
    SeenIsFront(size, 0, requestId, local);
    OutcomeExactly(size, 0, requestId, local);
    assert Take(content, |content|) == content && content + [] == content;
    if local.Loaded? {
      FittingReplyTransports(size, requestId, local.state);
      ReplicationPreserves(requestId, local.state, []);
    } else {
      ResponseRoundTrip(Some(SyncStateResult(requestId, local)), []);
    }
  }

  lemma {:induction false} ElementsTakeTokens<S>(enc: S -> seq<Token>, xs: seq<S>)
    requires forall x :: x in xs ==> enc(x) != []
    ensures |xs| <= |Wire.EncodeAll(enc, xs)|
  {
    if xs != [] {
      ElementsTakeTokens(enc, xs[1..]);
    }
  }

  lemma ListsTakeTokens(s: Wire.State)
    requires s.error.None?
    ensures var n := |Wire.EncodeState(Some(s))|;
      && |s.ips| < n && |s.tcpInbound| < n && |s.tcpOutbound| < n
      && |s.udpInbound| < n && |s.udpOutbound| < n && |s.natPorts| < n
  {
    ElementsTakeTokens(Wire.EncodeAddress, s.ips);
    ElementsTakeTokens(Wire.EncodePair, s.tcpInbound);
    ElementsTakeTokens(Wire.EncodePair, s.tcpOutbound);
    ElementsTakeTokens(Wire.EncodePair, s.udpInbound);
    ElementsTakeTokens(Wire.EncodePair, s.udpOutbound);
    ElementsTakeTokens(Wire.EncodeBitmap, s.natPorts);
  }

  /** The lists of a state whose reply fits the length field fit their headers. */
  lemma FittingReplyTransports(size: Token -> Bytes, requestId: string, s: NATState)
    requires ReplyFits(size, requestId, Loaded(s))
    ensures Transportable(s)
  {
    hide Wire.EncodeState, Wire.EncodeResponse, ByteLength;
    TokensTakeBytes(size, ReplyContent(requestId, Loaded(s)));
    HeadTaken(SyncStateResult(requestId, Loaded(s)), 0);
    ListsTakeTokens(ToWire(s));
  }

  /**
   One sync round, run through both handlers. There is an answer if and only if the request
   fits its length field, and it ends as it should, with the primary's state up to empty
   destinations or with the primary's reason, if and only if what the reply means survives in
   the tokens that its truncated length covers; a reply that fits survives.
   */
  method SyncRound(size: Token -> Bytes, id: uint16, requestId: string, local: LocalState)
    returns (out: Option<SyncOutcome>)
    ensures out.Some? <==> RequestFits(size, requestId)
    ensures out.Some? ==>
      (out.value == Expected(local) <==> ReplySurvives(local, TokensSeen(size, requestId, local)))
    ensures out.Some? && ReplyFits(size, requestId, local) ==> out.value == Expected(local)
  {
    ReplyMatchesExactly(size, id, requestId, local);
    var request := WriteRequest(size, id, requestId);
    var reply := HandleRequest(size, request, local);
    if reply.None? {
      return None;
    }
    var response := HandleReply(size, reply.value);
    var outcome := SyncFromPrimary(response);
    OutcomeExactly(size, id, requestId, local);
    if ReplyFits(size, requestId, local) {
      FittingReplySurvives(size, requestId, local);
    }
    return Some(outcome);
  }

  // ---------------------------------------------------------------- composition with the call table

  /** What the call table sees of the reply this server sends to a request. */
  function Delivered(size: Token -> Bytes, r: Rpc.Request, local: LocalState): Option<Rpc.Delivery> {
    match ServerReply(size, RequestPacket(size, r.id, r.requestId), local)
    case Some(p) => Some(Rpc.Delivery(p.id, Received(size, p)))
    case None => None
  }

  /** The server that finds local state `locals(k)` when it handles the request of call `k`. */
  function ServedFrom(size: Token -> Bytes, locals: nat -> LocalState): (nat, Rpc.Request, Rpc.Delivery) -> bool {
    (k: nat, r: Rpc.Request, d: Rpc.Delivery) =>
      d.response == Received(size, ReplyPacket(size, r.id, r.requestId, locals(k)))
  }

  /** The step keeps the windows, and if it serves a request, this server does. */
  predicate Genuine(size: Token -> Bytes, locals: nat -> LocalState, c: Rpc.Terms, s: Rpc.System, e: Rpc.Event) {
    if e.Serve? then Rpc.IsOutgoing(s, e.call) ==> e.back == Delivered(size, s.packets[e.call].request, locals(e.call))
    else Rpc.InWindow(c, s, e)
  }

  predicate AlwaysGenuine(size: Token -> Bytes, locals: nat -> LocalState, c: Rpc.Terms, es: seq<Rpc.Event>) {
    es != [] ==>
      && AlwaysGenuine(size, locals, c, es[..|es| - 1])
      && Genuine(size, locals, c, Rpc.Run(Rpc.START, es[..|es| - 1]), es[|es| - 1])
  }

  lemma {:induction false} GenuineInWindow(
    size: Token -> Bytes, locals: nat -> LocalState, c: Rpc.Terms, es: seq<Rpc.Event>)
    requires c.serves == ServedFrom(size, locals) && AlwaysGenuine(size, locals, c, es)
    ensures Rpc.AlwaysInWindow(c, es)
  {
    if es != [] {
      GenuineInWindow(size, locals, c, es[..|es| - 1]);
      var s, e := Rpc.Run(Rpc.START, es[..|es| - 1]), es[|es| - 1];
      if e.Serve? && Rpc.IsOutgoing(s, e.call) {
        var r := s.packets[e.call].request;
        ReplyMatchesExactly(size, r.id, r.requestId, locals(e.call));
      }
    }
  }

  /**
   The call and the sync round together. With the server's handler at the other end, over every
   interleaving within the windows, each call that returns an answer returns the one to its own
   request, made of the local state that the server found for it, without an error; it has the
   call's request id exactly when the reply's truncated length covers it, and the round ends as
   it should for that state exactly when the reply's meaning survives, as it does in a reply
   that fits.
   */
  lemma SyncCallsAgree(
    size: Token -> Bytes, locals: nat -> LocalState, c: Rpc.Terms, es: seq<Rpc.Event>, k: nat)
    requires Rpc.Narrow(c) && c.serves == ServedFrom(size, locals) && AlwaysGenuine(size, locals, c, es)
    requires Rpc.IsAnswered(Rpc.Run(Rpc.START, es), k)
    ensures var call := Rpc.Run(Rpc.START, es).calls[k];
      var response := call.phase.outcome.response;
      && call.phase.outcome.origin == k
      && response == Received(size, ReplyPacket(size, call.id, call.requestId, locals(k)))
      && response.error.None?
      && (response.requestId == call.requestId <==> IdCovered(size, call.requestId, locals(k)))
      && (SyncResult(response) == Expected(locals(k))
          <==> ReplySurvives(locals(k), TokensSeen(size, call.requestId, locals(k))))
      && (ReplyFits(size, call.requestId, locals(k)) ==> SyncResult(response) == Expected(locals(k)))
  {
    GenuineInWindow(size, locals, c, es);
    Rpc.RepliesReachTheirCallers(c, es, k);
    var call := Rpc.Run(Rpc.START, es).calls[k];
    ReplyAnswersExactly(size, call.id, call.requestId, locals(k));
    OutcomeExactly(size, call.id, call.requestId, locals(k));
    if ReplyFits(size, call.requestId, locals(k)) {
      FittingReplySurvives(size, call.requestId, locals(k));
    }
  }
}
