/**
 The client side of the SyncState call under arbitrary interleaving. Each step below is one
 critical section or one channel operation of the generated code. Calls are numbered in the
 order in which they take their id; a call's one-slot channel is named by its number.
 */
module Rpc {
  import opened Wrappers
  import opened Polyglot
  import Wire

  const IDS: int := 0x1_0000

  /** The fields of the generated client that its critical sections read and write. */
  datatype Table = Table(next: uint16, inflight: map<uint16, nat>)

  function Find(t: Table, id: uint16): Option<nat> {
    if id in t.inflight then Some(t.inflight[id]) else None
  }

  // ---------------------------------------------------------------- the step system

  /** How a call ends. An answer remembers which call its packet was a reply to. */
  datatype Outcome =
    | Answered(origin: nat, response: Wire.Response)
    | Cancelled
    | WriteFailed

  datatype Phase =
    | Allocated
    | Registered
    | Waiting
    | Leaving(outcome: Outcome)
    | Finished(outcome: Outcome)

  datatype Call = Call(id: uint16, requestId: string, phase: Phase)

  /** A request packet: its 16-bit id and the request it encodes. */
  datatype Request = Request(id: uint16, requestId: string)

  /** A reply packet: its 16-bit id and the response that the client makes of it. */
  datatype Delivery = Delivery(id: uint16, response: Wire.Response)

  /** A reply packet; `origin` is the call whose request it answers and is not on the wire. */
  datatype Reply = Reply(origin: nat, delivery: Delivery)

  /** Where the one exchange of a call has got to: request, reply, or a reply handler that holds a channel. */
  datatype Place =
    | Outgoing(request: Request)
    | Returning(reply: Reply)
    | Held(channel: nat, reply: Reply)

  datatype System = System(
    table: Table,
    calls: seq<Call>,            // every call that has taken an id, in that order
    packets: map<nat, Place>,    // the exchanges under way, by call
    channels: map<nat, Reply>)   // the filled channels

  datatype Event =
    | Take(requestId: string)
    | Register(call: nat)
    | WriteOk(call: nat)
    | WriteError(call: nat)
    | Serve(call: nat, back: Option<Delivery>)
    | Arrive(call: nat)
    | Deliver(call: nat)
    | Receive(call: nat)
    | Cancel(call: nat)
    | Unregister(call: nat)

  const START: System := System(Table(0, map[]), [], map[], map[])

  predicate InPhase(s: System, k: nat, p: Phase) {
    k < |s.calls| && s.calls[k].phase == p
  }

  function WithPhase(s: System, k: nat, p: Phase): System
    requires k < |s.calls|
  {
    s.(calls := s.calls[k := s.calls[k].(phase := p)])
  }

  predicate IsOutgoing(s: System, k: nat) { k in s.packets && s.packets[k].Outgoing? }

  predicate IsReturning(s: System, k: nat) { k in s.packets && s.packets[k].Returning? }

  predicate IsHeld(s: System, k: nat) { k in s.packets && s.packets[k].Held? }

  /** The exchange of a call moves on, or is over. */
  function Move(s: System, k: nat, to: Option<Place>): System {
    s.(packets := if to.Some? then s.packets[k := to.value] else s.packets - {k})
  }

  /** One step. An event whose moment has not come changes nothing. */
  function Next(s: System, e: Event): System {
    match e
    case Take(requestId) =>
      var id := (s.table.next + 1) % IDS;
      s.(table := s.table.(next := id), calls := s.calls + [Call(id, requestId, Allocated)])
    case Register(k) =>
      if InPhase(s, k, Allocated) then
        WithPhase(s, k, Registered).(table := s.table.(inflight := s.table.inflight[s.calls[k].id := k]))
      else s
    case WriteOk(k) =>
      if InPhase(s, k, Registered) then
        Move(WithPhase(s, k, Waiting), k, Some(Outgoing(Request(s.calls[k].id, s.calls[k].requestId))))
      else s
    case WriteError(k) =>
      // the call returns without removing its entry from the in-flight map
      if InPhase(s, k, Registered) then WithPhase(s, k, Finished(WriteFailed)) else s
    case Serve(k, back) =>
      if IsOutgoing(s, k) then
        Move(s, k, if back.Some? then Some(Returning(Reply(k, back.value))) else None)
      else s
    case Arrive(k) =>
      // a reply whose id is not in the in-flight map is dropped
      if IsReturning(s, k) then
        var r := s.packets[k].reply;
        var ch := Find(s.table, r.delivery.id);
        Move(s, k, if ch.Some? then Some(Held(ch.value, r)) else None)
      else s
    case Deliver(k) =>
      // a send on a full channel blocks
      if IsHeld(s, k) && s.packets[k].channel !in s.channels then
        Move(s, k, None).(channels := s.channels[s.packets[k].channel := s.packets[k].reply])
      else s
    case Receive(k) =>
      if InPhase(s, k, Waiting) && k in s.channels then
        var r := s.channels[k];
        var answer := Answered(r.origin, r.delivery.response);
        WithPhase(s, k, Leaving(answer)).(channels := s.channels - {k})
      else s
    case Cancel(k) =>
      if InPhase(s, k, Waiting) then WithPhase(s, k, Leaving(Cancelled)) else s
    case Unregister(k) =>
      if k < |s.calls| && s.calls[k].phase.Leaving? then
        var left := s.table.(inflight := s.table.inflight - {s.calls[k].id});
        WithPhase(s, k, Finished(s.calls[k].phase.outcome)).(table := left)
      else s
  }

  // ---------------------------------------------------------------- the client's critical sections

  /** The client's object: each method is the part of one step that works on its fields. */
  class SubFailoverServiceClient {
    var nextSyncState: uint16
    var inflightSyncState: map<uint16, nat>

    function View(): Table reads this {
      Table(nextSyncState, inflightSyncState)
    }

    constructor ()
      ensures View() == START.table
    {
      nextSyncState, inflightSyncState := 0, map[];
    }

    /** Takes the id of a new call; the counter wraps around. */
    method TakeId(ghost s: System, ghost requestId: string) returns (id: uint16)
      requires s.table == View()
      modifies this
      ensures var t := Next(s, Take(requestId));
        View() == t.table && |t.calls| == |s.calls| + 1 && t.calls[|s.calls|] == Call(id, requestId, Allocated)
      ensures id == (old(nextSyncState) + 1) % IDS && nextSyncState == id && inflightSyncState == old(inflightSyncState)
    {
      nextSyncState := if nextSyncState == 65535 then 0 else nextSyncState + 1;
      id := nextSyncState;
    }

    /** Enters the channel of a call under the call's id. */
    method Enter(id: uint16, ch: nat, ghost s: System)
      requires s.table == View() && InPhase(s, ch, Allocated) && s.calls[ch].id == id
      modifies this
      ensures View() == Next(s, Register(ch)).table
      ensures inflightSyncState == old(inflightSyncState)[id := ch] && nextSyncState == old(nextSyncState)
    {
      inflightSyncState := inflightSyncState[id := ch];
    }

    /** Removes what is entered under the id of a call that returns. */
    method Remove(id: uint16, ghost s: System, ghost k: nat)
      requires s.table == View() && k < |s.calls| && s.calls[k].phase.Leaving? && s.calls[k].id == id
      modifies this
      ensures View() == Next(s, Unregister(k)).table
      ensures inflightSyncState == old(inflightSyncState) - {id} && nextSyncState == old(nextSyncState)
    {
      inflightSyncState := inflightSyncState - {id};
    }

    /** The lookup of the reply handler: it goes on with the channel it finds, or drops the reply. */
    method Lookup(id: uint16, ghost s: System, ghost k: nat) returns (ch: Option<nat>)
      requires s.table == View() && IsReturning(s, k) && s.packets[k].reply.delivery.id == id
      ensures var t := Next(s, Arrive(k));
        && t.table == View()
        && (ch.Some? <==> k in t.packets)
        && (ch.Some? ==> t.packets[k] == Held(ch.value, s.packets[k].reply))
      ensures ch == if id in inflightSyncState then Some(inflightSyncState[id]) else None
    {
      if id in inflightSyncState {
        return Some(inflightSyncState[id]);
      }
      return None;
    }
  }

  // ---------------------------------------------------------------- runs

  function Run(s: System, es: seq<Event>): System {
    if es == [] then s else Next(Run(s, es[..|es| - 1]), es[|es| - 1])
  }

  /**
   What the routing relies on. When a call takes its id, every call that started `ids` or more
   calls earlier has returned; a reply is looked up before more than `lookups` later calls
   have started; and a reply has the packet id of its request and is one that the server of
   call `k` may make of it.
   */
  datatype Terms = Terms(ids: nat, lookups: nat, serves: (nat, Request, Delivery) -> bool)

  predicate InWindow(c: Terms, s: System, e: Event) {
    match e
    case Take(_) => forall k :: 0 <= k < |s.calls| && k + c.ids <= |s.calls| ==> s.calls[k].phase.Finished?
    case Arrive(k) => IsReturning(s, k) ==> |s.calls| <= k + c.lookups
    case Serve(k, back) => IsOutgoing(s, k) && back.Some? ==> Serves(c, k, s.packets[k].request, back.value)
    case _ => true
  }

  predicate Serves(c: Terms, k: nat, r: Request, d: Delivery) {
    d.id == r.id && c.serves(k, r, d)
  }

  predicate AlwaysInWindow(c: Terms, es: seq<Event>) {
    es != [] ==>
      && AlwaysInWindow(c, es[..|es| - 1])
      && InWindow(c, Run(START, es[..|es| - 1]), es[|es| - 1])
  }

  /** The windows are no wider than there are ids. */
  predicate Narrow(c: Terms) {
    c.ids <= IDS && c.lookups <= IDS
  }

  // ---------------------------------------------------------------- the invariant

  function IdOf(k: nat): uint16 { (k + 1) % IDS }

  predicate Active(s: System, k: nat) {
    k < |s.calls| && !s.calls[k].phase.Finished?
  }

  /** The call has put its channel into the in-flight map. */
  predicate Entered(s: System, k: nat) {
    k < |s.calls| && !s.calls[k].phase.Allocated?
  }

  /** Fewer than 65536 calls have started after this one. */
  predicate Recent(s: System, k: nat) {
    |s.calls| <= k + IDS
  }

  /** The call has written its request, or failed to. */
  predicate Written(s: System, k: nat) {
    Entered(s, k) && !s.calls[k].phase.Registered?
  }

  /** The packet answers this call's own request. */
  predicate Answers(c: Terms, s: System, k: nat, r: Reply) {
    && Written(s, k)
    && r.origin == k
    && Serves(c, k, Request(IdOf(k), s.calls[k].requestId), r.delivery)
  }

  ghost predicate IdsInOrder(s: System) {
    && s.table.next == |s.calls| % IDS
    && (forall k: nat :: k < |s.calls| ==> s.calls[k].id == IdOf(k))
    && (forall k: nat :: Active(s, k) ==> Recent(s, k))
  }

  /** Every entry belongs to a call with that id. */
  ghost predicate EntriesInOrder(s: System) {
    forall id: uint16 :: id in s.table.inflight ==>
      Entered(s, s.table.inflight[id]) && IdOf(s.table.inflight[id]) == id
  }

  /** A waiting call has its entry; the entry of a recent call's id is its own or missing. */
  ghost predicate CallsInOrder(s: System) {
    forall k: nat :: Entered(s, k) && Recent(s, k) ==>
      && (IdOf(k) in s.table.inflight ==> s.table.inflight[IdOf(k)] == k)
      && (Active(s, k) ==> IdOf(k) in s.table.inflight)
  }

  predicate PlaceInOrder(c: Terms, s: System, k: nat, p: Place) {
    match p
    case Outgoing(r) => Written(s, k) && r == Request(IdOf(k), s.calls[k].requestId)
    case Returning(r) => Answers(c, s, k, r)
    case Held(ch, r) => ch == k && Answers(c, s, k, r)
  }

  /** The exchange under way belongs to its call, and while it is under way the call's channel is empty. */
  ghost predicate PacketsInOrder(c: Terms, s: System) {
    forall k: nat :: k in s.packets ==> PlaceInOrder(c, s, k, s.packets[k]) && k !in s.channels
  }

  ghost predicate ChannelsInOrder(c: Terms, s: System) {
    forall k: nat :: k in s.channels ==> Answers(c, s, k, s.channels[k])
  }

  /** An answer is one to the call's own request. */
  predicate Right(c: Terms, call: Call, k: nat, o: Outcome) {
    o.Answered? ==>
      o.origin == k && Serves(c, k, Request(call.id, call.requestId), Delivery(call.id, o.response))
  }

  predicate RightlyAnswered(c: Terms, call: Call, k: nat) {
    match call.phase
    case Leaving(o) => Right(c, call, k, o)
    case Finished(o) => Right(c, call, k, o)
    case _ => true
  }

  ghost predicate AnswersInOrder(c: Terms, s: System) {
    forall k: nat :: k < |s.calls| ==> RightlyAnswered(c, s.calls[k], k)
  }

  ghost predicate Inv(c: Terms, s: System) {
    && IdsInOrder(s) && EntriesInOrder(s) && CallsInOrder(s)
    && PacketsInOrder(c, s) && ChannelsInOrder(c, s) && AnswersInOrder(c, s)
  }

  /** Two recent calls never share an id. */
  lemma RecentIdsDiffer(s: System, j: nat, k: nat)
    requires j < |s.calls| && k < |s.calls| && Recent(s, j) && Recent(s, k) && IdOf(j) == IdOf(k)
    ensures j == k
  {
  }

  /** Nothing but the phase of a call, and that only forwards, separates the two lists of calls. */
  ghost predicate Forwards(s: System, t: System) {
    && |t.calls| == |s.calls|
    && forall k: nat :: k < |s.calls| ==>
      && t.calls[k].id == s.calls[k].id && t.calls[k].requestId == s.calls[k].requestId
      && (Active(t, k) ==> Active(s, k))
      && (Entered(s, k) ==> Entered(t, k))
      && (Written(s, k) ==> Written(t, k))
  }

  lemma NextForwards(s: System, e: Event)
    requires !e.Take?
    ensures Forwards(s, Next(s, e))
  {
    match e
    case Register(_) =>
    case WriteOk(_) =>
    case WriteError(_) =>
    case Serve(_, _) =>
    case Arrive(_) =>
    case Deliver(_) =>
    case Receive(_) =>
    case Cancel(_) =>
    case Unregister(_) =>
  }

  lemma TakeStep(c: Terms, s: System, e: Event)
    requires Narrow(c) && Inv(c, s) && InWindow(c, s, e) && e.Take?
    ensures Inv(c, Next(s, e))
  {
    hide Serves;
    var t := Next(s, e);
    var n := |s.calls|;
    assert forall k: nat :: k < n ==> t.calls[k] == s.calls[k];
    assert forall k: nat :: Entered(t, k) <==> Entered(s, k);
    assert forall k: nat :: Written(t, k) <==> Written(s, k);
    assert forall k: nat, r: Reply :: Answers(c, s, k, r) ==> Answers(c, t, k, r);
    assert IdsInOrder(t);
  }

  lemma RegisterStep(c: Terms, s: System, k: nat)
    requires Inv(c, s)
    ensures Inv(c, Next(s, Register(k)))
  {
    if InPhase(s, k, Allocated) {
      var t := Next(s, Register(k));
      assert Active(s, k);
      NextForwards(s, Register(k));
      assert IdsInOrder(t);
      forall j: nat | Entered(t, j) && Recent(t, j)
        ensures IdOf(j) in t.table.inflight ==> t.table.inflight[IdOf(j)] == j
        ensures Active(t, j) ==> IdOf(j) in t.table.inflight
      {
        if j != k {
          if IdOf(j) == IdOf(k) {
            RecentIdsDiffer(s, j, k);
          }
        }
      }
      assert PacketsInOrder(c, t);
    }
  }

  lemma UnregisterStep(c: Terms, s: System, k: nat)
    requires Inv(c, s)
    ensures Inv(c, Next(s, Unregister(k)))
  {
    if k < |s.calls| && s.calls[k].phase.Leaving? {
      var t := Next(s, Unregister(k));
      assert Active(s, k);
      NextForwards(s, Unregister(k));
      forall j: nat | Entered(t, j) && Recent(t, j)
        ensures IdOf(j) in t.table.inflight ==> t.table.inflight[IdOf(j)] == j
        ensures Active(t, j) ==> IdOf(j) in t.table.inflight
      {
        if j != k && IdOf(j) == IdOf(k) {
          RecentIdsDiffer(s, j, k);
        }
      }
      assert PacketsInOrder(c, t);
    }
  }

  /** What holds of ids, entries and packets survives when phases move forwards and packets only go away. */
  lemma ForwardsKeepsOrder(s: System, t: System)
    requires IdsInOrder(s) && EntriesInOrder(s) && CallsInOrder(s)
    requires Forwards(s, t) && t.table == s.table
    requires forall k: nat :: Entered(t, k) ==> Entered(s, k)
    ensures IdsInOrder(t) && EntriesInOrder(t) && CallsInOrder(t)
  {
  }

  lemma ForwardsKeepsPackets(c: Terms, s: System, t: System)
    requires PacketsInOrder(c, s) && ChannelsInOrder(c, s) && Forwards(s, t)
    requires t.packets == s.packets && t.channels.Keys <= s.channels.Keys
    requires forall k: nat :: k in t.channels ==> t.channels[k] == s.channels[k]
    ensures PacketsInOrder(c, t) && ChannelsInOrder(c, t)
  {
  }

  /** One call changes its phase, to one that is rightly answered. */
  lemma PhaseKeepsAnswers(c: Terms, s: System, k: nat, p: Phase)
    requires AnswersInOrder(c, s) && k < |s.calls| && RightlyAnswered(c, s.calls[k].(phase := p), k)
    ensures AnswersInOrder(c, WithPhase(s, k, p))
  {
  }

  /** Putting an exchange where it belongs. */
  lemma MoveKeepsInv(c: Terms, s: System, k: nat, p: Place)
    requires Inv(c, s) && k !in s.channels && PlaceInOrder(c, s, k, p)
    ensures Inv(c, Move(s, k, Some(p)))
  {
    ForwardsKeepsOrder(s, Move(s, k, Some(p)));
  }

  lemma WriteOkStep(c: Terms, s: System, k: nat)
    requires Inv(c, s)
    ensures Inv(c, Next(s, WriteOk(k)))
  {
    if InPhase(s, k, Registered) {
      var t := WithPhase(s, k, Waiting);
      ForwardsKeepsOrder(s, t);
      ForwardsKeepsPackets(c, s, t);
      PhaseKeepsAnswers(c, s, k, Waiting);
      MoveKeepsInv(c, t, k, Outgoing(Request(s.calls[k].id, s.calls[k].requestId)));
    }
  }

  lemma WriteErrorStep(c: Terms, s: System, k: nat)
    requires Inv(c, s)
    ensures Inv(c, Next(s, WriteError(k)))
  {
    if InPhase(s, k, Registered) {
      var t := WithPhase(s, k, Finished(WriteFailed));
      ForwardsKeepsOrder(s, t);
      ForwardsKeepsPackets(c, s, t);
      PhaseKeepsAnswers(c, s, k, Finished(WriteFailed));
    }
  }

  lemma ReceiveStep(c: Terms, s: System, k: nat)
    requires Inv(c, s)
    ensures Inv(c, Next(s, Receive(k)))
  {
    var t := Next(s, Receive(k));
    NextForwards(s, Receive(k));
    ForwardsKeepsOrder(s, t);
    ForwardsKeepsPackets(c, s, t);
  }

  lemma CancelStep(c: Terms, s: System, k: nat)
    requires Inv(c, s)
    ensures Inv(c, Next(s, Cancel(k)))
  {
    if InPhase(s, k, Waiting) {
      var t := WithPhase(s, k, Leaving(Cancelled));
      ForwardsKeepsOrder(s, t);
      ForwardsKeepsPackets(c, s, t);
      PhaseKeepsAnswers(c, s, k, Leaving(Cancelled));
    }
  }

  lemma ServeStep(c: Terms, s: System, k: nat, back: Option<Delivery>)
    requires Inv(c, s) && InWindow(c, s, Serve(k, back)) && IsOutgoing(s, k)
    ensures Inv(c, Next(s, Serve(k, back)))
  {
    if back.Some? {
      MoveKeepsInv(c, s, k, Returning(Reply(k, back.value)));
    } else {
      ForwardsKeepsOrder(s, Next(s, Serve(k, back)));
    }
  }

  lemma ArriveStep(c: Terms, s: System, k: nat)
    requires Narrow(c) && Inv(c, s) && InWindow(c, s, Arrive(k)) && IsReturning(s, k)
    ensures Inv(c, Next(s, Arrive(k)))
  {
    assert Find(s.table, s.packets[k].reply.delivery.id) in {None, Some(k)};
    ForwardsKeepsOrder(s, Next(s, Arrive(k)));
  }

  lemma DeliverStep(c: Terms, s: System, k: nat)
    requires Inv(c, s)
    ensures Inv(c, Next(s, Deliver(k)))
  {
    ForwardsKeepsOrder(s, Next(s, Deliver(k)));
  }

  lemma InvStep(c: Terms, s: System, e: Event)
    requires Narrow(c) && Inv(c, s) && InWindow(c, s, e)
    ensures Inv(c, Next(s, e))
  {
    match e
    case Take(_) => TakeStep(c, s, e);
    case Register(k) => RegisterStep(c, s, k);
    case Unregister(k) => UnregisterStep(c, s, k);
    case WriteOk(k) => WriteOkStep(c, s, k);
    case WriteError(k) => WriteErrorStep(c, s, k);
    case Receive(k) => ReceiveStep(c, s, k);
    case Cancel(k) => CancelStep(c, s, k);
    case Serve(k, back) =>
      if IsOutgoing(s, k) {
        ServeStep(c, s, k, back);
      }
    case Arrive(k) =>
      if IsReturning(s, k) {
        ArriveStep(c, s, k);
      }
    case Deliver(k) => DeliverStep(c, s, k);
  }

  lemma {:induction false} InvAlways(c: Terms, es: seq<Event>)
    requires Narrow(c) && AlwaysInWindow(c, es)
    ensures Inv(c, Run(START, es))
  {
    if es != [] {
      InvAlways(c, es[..|es| - 1]);
      InvStep(c, Run(START, es[..|es| - 1]), es[|es| - 1]);
    }
  }

  // ---------------------------------------------------------------- main results

  /** The call has returned an answer. */
  predicate IsAnswered(s: System, k: nat) {
    k < |s.calls| && s.calls[k].phase.Finished? && s.calls[k].phase.outcome.Answered?
  }

  /**
   Reply routing. Over every interleaving within windows of at most 65536 calls, a call that
   returns an answer returns the reply to its own request, as the server made it: a late reply
   to another call never reaches it.
   */
  lemma RepliesReachTheirCallers(c: Terms, es: seq<Event>, k: nat)
    requires Narrow(c) && AlwaysInWindow(c, es) && IsAnswered(Run(START, es), k)
    ensures var call := Run(START, es).calls[k];
      && call.phase.outcome.origin == k
      && c.serves(k, Request(call.id, call.requestId), Delivery(call.id, call.phase.outcome.response))
  {
    InvAlways(c, es);
  }

  /** The call has returned, and not because its write failed. */
  predicate Returned(s: System, k: nat) {
    k < |s.calls| && s.calls[k].phase.Finished? && s.calls[k].phase.outcome != WriteFailed
  }

  /** A recent call has its entry from the time it is made until the call returns, and for good when its write fails. */
  ghost predicate EntriesExact(s: System) {
    && (forall k: nat :: Entered(s, k) && Recent(s, k) ==>
         (Find(s.table, IdOf(k)) == Some(k) <==> !Returned(s, k)) && (Returned(s, k) ==> IdOf(k) !in s.table.inflight))
    && (forall k: nat :: k < |s.calls| && s.calls[k].phase.Leaving? ==> s.calls[k].phase.outcome != WriteFailed)
  }

  /** Steps that leave the table and the returned calls alone. */
  lemma SameEntries(s: System, t: System)
    requires EntriesExact(s) && t.table == s.table && |t.calls| == |s.calls|
    requires forall k: nat :: (Entered(t, k) <==> Entered(s, k)) && (Returned(t, k) <==> Returned(s, k))
    requires forall k: nat :: k < |t.calls| && t.calls[k].phase.Leaving? ==> t.calls[k].phase.outcome != WriteFailed
    ensures EntriesExact(t)
  {
  }

  lemma EnteringExact(c: Terms, s: System, n: nat)
    requires Inv(c, s) && EntriesExact(s) && InPhase(s, n, Allocated)
    ensures EntriesExact(Next(s, Register(n)))
  {
    var t := Next(s, Register(n));
    assert Active(s, n);
    forall k: nat | Entered(t, k) && Recent(t, k)
      ensures Find(t.table, IdOf(k)) == Some(k) <==> !Returned(t, k)
      ensures Returned(t, k) ==> IdOf(k) !in t.table.inflight
    {
      if k != n && IdOf(k) == IdOf(n) {
        RecentIdsDiffer(s, k, n);
      }
      assert k != n ==> t.calls[k] == s.calls[k];
    }
  }

  lemma ReturningExact(c: Terms, s: System, n: nat)
    requires Inv(c, s) && EntriesExact(s) && n < |s.calls| && s.calls[n].phase.Leaving?
    ensures EntriesExact(Next(s, Unregister(n)))
  {
    var t := Next(s, Unregister(n));
    assert Active(s, n);
    forall k: nat | Entered(t, k) && Recent(t, k)
      ensures Find(t.table, IdOf(k)) == Some(k) <==> !Returned(t, k)
      ensures Returned(t, k) ==> IdOf(k) !in t.table.inflight
    {
      if k != n && IdOf(k) == IdOf(n) {
        RecentIdsDiffer(s, k, n);
      }
      assert k != n ==> t.calls[k] == s.calls[k];
    }
  }

  lemma TakingExact(s: System, requestId: string)
    requires EntriesExact(s)
    ensures EntriesExact(Next(s, Take(requestId)))
  {
    var t := Next(s, Take(requestId));
    assert forall k: nat :: k < |s.calls| ==> t.calls[k] == s.calls[k];
    assert forall k: nat :: Entered(t, k) <==> Entered(s, k);
    assert forall k: nat :: Returned(t, k) <==> Returned(s, k);
  }

  lemma PassingExact(s: System, e: Event)
    requires EntriesExact(s) && !e.Take? && !e.Register? && !e.Unregister?
    ensures EntriesExact(Next(s, e))
  {
    var t := Next(s, e);
    assert t.table == s.table && |t.calls| == |s.calls|;
    forall k: nat
      ensures Entered(t, k) <==> Entered(s, k)
      ensures Returned(t, k) <==> Returned(s, k)
    {
    }
    SameEntries(s, t);
  }

  lemma ExactStep(c: Terms, s: System, e: Event)
    requires Inv(c, s) && EntriesExact(s)
    ensures EntriesExact(Next(s, e))
  {
    hide EntriesExact, Inv;
    match e
    case Take(requestId) => TakingExact(s, requestId);
    case Register(n) =>
      if InPhase(s, n, Allocated) {
        EnteringExact(c, s, n);
      }
    case Unregister(n) =>
      if n < |s.calls| && s.calls[n].phase.Leaving? {
        ReturningExact(c, s, n);
      }
    case _ => PassingExact(s, e);
  }

  lemma {:induction false} ExactAlways(c: Terms, es: seq<Event>)
    requires Narrow(c) && AlwaysInWindow(c, es)
    ensures EntriesExact(Run(START, es))
  {
    if es != [] {
      ExactAlways(c, es[..|es| - 1]);
      InvAlways(c, es[..|es| - 1]);
      ExactStep(c, Run(START, es[..|es| - 1]), es[|es| - 1]);
    }
  }

  /**
   The in-flight map. Within the windows, the id of a recent call that has entered its channel leads
   to that channel until the call returns, and to none afterwards; but a call whose write fails
   leaves its entry behind.
   */
  lemma EntriesExactly(c: Terms, es: seq<Event>, k: nat)
    requires Narrow(c) && AlwaysInWindow(c, es)
    requires Entered(Run(START, es), k) && Recent(Run(START, es), k)
    ensures var s := Run(START, es);
      && (IdOf(k) in s.table.inflight <==> !Returned(s, k))
      && (IdOf(k) in s.table.inflight ==> s.table.inflight[IdOf(k)] == k)
  {
    ExactAlways(c, es);
  }

  /** A reply that comes when its call has returned is dropped, and changes nothing else. */
  lemma LateReplyDropped(c: Terms, es: seq<Event>, k: nat)
    requires Narrow(c) && AlwaysInWindow(c, es)
    requires var s := Run(START, es);
      IsReturning(s, k) && InWindow(c, s, Arrive(k)) && Returned(s, k)
    ensures var s := Run(START, es);
      Next(s, Arrive(k)) == s.(packets := s.packets - {k})
  {
    InvAlways(c, es);
    ExactAlways(c, es);
  }

  /** A server that keeps request ids and reports no error. */
  function KeepsIds(): (nat, Request, Delivery) -> bool {
    (_: nat, r: Request, d: Delivery) => d.response.requestId == r.requestId && d.response.error.None?
  }

  /**
   Request id agreement. With a server that keeps request ids, the response of every call that
   returns without an error carries the caller's request id, which the secondary never compares.
   */
  lemma RequestIdsAgree(c: Terms, es: seq<Event>, k: nat)
    requires Narrow(c) && c.serves == KeepsIds() && AlwaysInWindow(c, es) && IsAnswered(Run(START, es), k)
    ensures var call := Run(START, es).calls[k];
      call.phase.outcome.response.error.None? && call.phase.outcome.response.requestId == call.requestId
  {
    RepliesReachTheirCallers(c, es, k);
  }

  // ---------------------------------------------------------------- the windows are tight

  function PlainReply(requestId: string): Wire.Response {
    Wire.NEW_RESPONSE.(requestId := requestId)
  }

  lemma RunSnoc(c: Terms, es: seq<Event>, e: Event)
    ensures Run(START, es + [e]) == Next(Run(START, es), e)
    ensures AlwaysInWindow(c, es + [e]) <==> AlwaysInWindow(c, es) && InWindow(c, Run(START, es), e)
  {
    assert (es + [e])[..|es + [e]| - 1] == es;
  }

  /** Two more events within the windows. */
  lemma TwoMore(c: Terms, es: seq<Event>, e: Event, f: Event)
    requires AlwaysInWindow(c, es) && InWindow(c, Run(START, es), e) && InWindow(c, Next(Run(START, es), e), f)
    ensures AlwaysInWindow(c, es + [e] + [f]) && Run(START, es + [e] + [f]) == Next(Next(Run(START, es), e), f)
  {
    RunSnoc(c, es, e);
    RunSnoc(c, es + [e], f);
  }

  /** A first call, and after it calls 1 to `n - 1` that fail to write. */
  function Quiet(first: seq<Event>, n: nat): seq<Event>
    requires n > 0
  {
    if n == 1 then first
    else Quiet(first, n - 1) + [Take("")] + [Register(n - 1)] + [WriteError(n - 1)]
  }

  /** `n` calls have started, all but the first have returned; that one and the exchanges under way are as given. */
  ghost predicate QuietState(s: System, n: nat, first: Call, packets: map<nat, Place>) {
    && 0 < n == |s.calls|
    && s.table.next == n % IDS
    && s.calls[0] == first
    && (forall k :: 0 < k < n ==> s.calls[k].phase.Finished?)
    && s.packets == packets
    && s.channels == map[]
  }

  lemma QuietSteps(c: Terms, s: System, n: nat, first: Call, packets: map<nat, Place>)
    requires QuietState(s, n, first, packets) && n < IDS && (first.phase.Finished? || IDS < c.ids)
    ensures QuietState(Next(Next(Next(s, Take("")), Register(n)), WriteError(n)), n + 1, first, packets)
    ensures InWindow(c, s, Take("")) && InWindow(c, Next(s, Take("")), Register(n))
    ensures InWindow(c, Next(Next(s, Take("")), Register(n)), WriteError(n))
  {
  }

  lemma {:induction false} QuietRun(c: Terms, es: seq<Event>, n: nat, first: Call, packets: map<nat, Place>)
    requires 0 < n <= IDS && (first.phase.Finished? || IDS < c.ids)
    requires AlwaysInWindow(c, es) && QuietState(Run(START, es), 1, first, packets)
    ensures AlwaysInWindow(c, Quiet(es, n)) && QuietState(Run(START, Quiet(es, n)), n, first, packets)
  {
    hide Next, Run, QuietState, InWindow, AlwaysInWindow;
    if n > 1 {
      QuietRun(c, es, n - 1, first, packets);
      var fs := Quiet(es, n - 1);
      QuietSteps(c, Run(START, fs), n - 1, first, packets);
      TwoMore(c, fs, Take(""), Register(n - 1));
      RunSnoc(c, fs + [Take("")] + [Register(n - 1)], WriteError(n - 1));
    }
  }

  /** Call `k` has returned the answer to call `j`, with the wrong request id. */
  predicate Misrouted(s: System, j: nat, k: nat) {
    && j != k && IsAnswered(s, k)
    && s.calls[k].phase.outcome.origin == j
    && s.calls[k].phase.outcome.response.requestId != s.calls[k].requestId
  }

  // A late lookup: call 0 is answered too late for its caller.

  const LATE: Reply := Reply(0, Delivery(1, PlainReply("a")))

  const GIVEN_UP: Call := Call(1, "a", Finished(Cancelled))

  /** The first call is waiting, and nothing else has happened. */
  ghost predicate FirstWaits(s: System) {
    && s.table == Table(1, map[1 := 0])
    && s.calls == [Call(1, "a", Waiting)]
    && s.packets == map[0 := Outgoing(Request(1, "a"))]
    && s.channels == map[]
  }

  lemma GivingUpSteps(c: Terms, s: System)
    requires FirstWaits(s) && c.serves == KeepsIds()
    ensures InWindow(c, s, Serve(0, Some(LATE.delivery)))
    ensures QuietState(Next(Next(Next(s, Serve(0, Some(LATE.delivery))), Cancel(0)), Unregister(0)),
                       1, GIVEN_UP, map[0 := Returning(LATE)])
  {
  }

  lemma FirstSteps()
    ensures FirstWaits(Next(Next(Next(START, Take("a")), Register(0)), WriteOk(0)))
  {
  }

  lemma GivesUp(c: Terms) returns (es: seq<Event>)
    requires c.serves == KeepsIds()
    ensures AlwaysInWindow(c, es) && QuietState(Run(START, es), 1, GIVEN_UP, map[0 := Returning(LATE)])
  {
    FirstSteps();
    TwoMore(c, [], Take("a"), Register(0));
    es := [] + [Take("a")] + [Register(0)];
    RunSnoc(c, es, WriteOk(0));
    es := es + [WriteOk(0)];
    GivingUpSteps(c, Run(START, es));
    TwoMore(c, es, Serve(0, Some(LATE.delivery)), Cancel(0));
    es := es + [Serve(0, Some(LATE.delivery))] + [Cancel(0)];
    RunSnoc(c, es, Unregister(0));
    es := es + [Unregister(0)];
  }

  /** The last call is waiting under the id of call 0, and the reply to call 0 is still on its way. */
  ghost predicate Crossed(s: System) {
    && |s.calls| == IDS + 1
    && s.calls[IDS] == Call(1, "b", Waiting)
    && IsOutgoing(s, IDS) && s.packets[IDS].request == Request(1, "b")
    && IsReturning(s, 0) && s.packets[0] == Returning(LATE)
    && s.channels == map[]
    && Find(s.table, 1) == Some(IDS)
  }

  lemma CrossingSteps(c: Terms, s: System)
    requires QuietState(s, IDS, GIVEN_UP, map[0 := Returning(LATE)])
    ensures Crossed(Next(Next(Next(s, Take("b")), Register(IDS)), WriteOk(IDS)))
    ensures InWindow(c, s, Take("b"))
  {
  }

  lemma LateSteps(s: System)
    requires Crossed(s)
    ensures Misrouted(Next(Next(Next(Next(s, Arrive(0)), Deliver(0)), Receive(IDS)), Unregister(IDS)), 0, IDS)
  {
    var t := Next(s, Arrive(0));
    assert t.packets[0] == Held(IDS, LATE) && t.calls == s.calls;
    var u := Next(t, Deliver(0));
    assert u.channels == map[IDS := LATE] && u.calls == s.calls;
  }

  lemma Crosses(c: Terms) returns (es: seq<Event>)
    requires c.serves == KeepsIds()
    ensures AlwaysInWindow(c, es) && Crossed(Run(START, es))
  {
    es := GivesUp(c);
    QuietRun(c, es, IDS, GIVEN_UP, map[0 := Returning(LATE)]);
    es := Quiet(es, IDS);
    CrossingSteps(c, Run(START, es));
    TwoMore(c, es, Take("b"), Register(IDS));
    es := es + [Take("b")] + [Register(IDS)];
    RunSnoc(c, es, WriteOk(IDS));
    es := es + [WriteOk(IDS)];
  }

  /**
   The window for lookups cannot be widened by a single call, however narrow the one for ids:
   the reply to call 0 is looked up when 65536 later calls have started, and is handed to the
   caller of the last of them.
   */
  lemma LateReplyMisrouted(c: Terms) returns (es: seq<Event>)
    requires c.lookups > IDS && c.serves == KeepsIds()
    ensures AlwaysInWindow(c, es) && Misrouted(Run(START, es), 0, IDS)
  {
    es := Crosses(c);
    LateSteps(Run(START, es));
    TwoMore(c, es, Arrive(0), Deliver(0));
    es := es + [Arrive(0)] + [Deliver(0)];
    TwoMore(c, es, Receive(IDS), Unregister(IDS));
    es := es + [Receive(IDS)] + [Unregister(IDS)];
  }

  // An id taken again: call 0 has its id and has not yet entered its channel.

  const SLOW: Call := Call(1, "a", Allocated)

  const PROMPT: Reply := Reply(IDS, Delivery(1, PlainReply("b")))

  /** Call 65536 has entered its channel, and call 0 has entered its own over it. */
  ghost predicate Overwritten(s: System) {
    && |s.calls| == IDS + 1
    && s.calls[0] == Call(1, "a", Waiting) && s.calls[IDS] == Call(1, "b", Waiting)
    && Find(s.table, 1) == Some(0)
    && IsOutgoing(s, IDS) && s.packets[IDS].request == Request(1, "b")
    && s.channels == map[]
  }

  lemma OverwritingSteps(c: Terms, s: System)
    requires QuietState(s, IDS, SLOW, map[]) && c.ids > IDS
    ensures var t := Next(Next(Next(s, Take("b")), Register(IDS)), WriteOk(IDS));
      Overwritten(Next(Next(t, Register(0)), WriteOk(0)))
    ensures InWindow(c, s, Take("b"))
  {
  }

  lemma PromptSteps(c: Terms, s: System)
    requires Overwritten(s) && c.lookups > 0 && c.serves == KeepsIds()
    ensures var t := Next(s, Serve(IDS, Some(PROMPT.delivery)));
      && InWindow(c, s, Serve(IDS, Some(PROMPT.delivery))) && InWindow(c, t, Arrive(IDS))
      && Misrouted(Next(Next(Next(Next(t, Arrive(IDS)), Deliver(IDS)), Receive(0)), Unregister(0)), IDS, 0)
  {
    var t := Next(s, Serve(IDS, Some(PROMPT.delivery)));
    assert t.packets[IDS] == Returning(PROMPT) && t.calls == s.calls;
    var u := Next(t, Arrive(IDS));
    assert u.packets[IDS] == Held(0, PROMPT) && u.calls == s.calls;
    var v := Next(u, Deliver(IDS));
    assert v.channels == map[0 := PROMPT] && v.calls == s.calls;
  }

  lemma Overwrites(c: Terms) returns (es: seq<Event>)
    requires c.ids > IDS
    ensures AlwaysInWindow(c, es) && Overwritten(Run(START, es))
  {
    RunSnoc(c, [], Take("a"));
    es := [] + [Take("a")];
    QuietRun(c, es, IDS, SLOW, map[]);
    es := Quiet(es, IDS);
    OverwritingSteps(c, Run(START, es));
    TwoMore(c, es, Take("b"), Register(IDS));
    es := es + [Take("b")] + [Register(IDS)];
    TwoMore(c, es, WriteOk(IDS), Register(0));
    es := es + [WriteOk(IDS)] + [Register(0)];
    RunSnoc(c, es, WriteOk(0));
    es := es + [WriteOk(0)];
  }

  /**
   The window for ids cannot be widened by a single call either, as long as any reply is looked
   up at all: the id of call 0 is taken again while call 0 has not returned, and the prompt
   reply to the new call is handed to the caller of call 0.
   */
  lemma RetakenIdMisroutes(c: Terms) returns (es: seq<Event>)
    requires c.ids > IDS && c.lookups > 0 && c.serves == KeepsIds()
    ensures AlwaysInWindow(c, es) && Misrouted(Run(START, es), IDS, 0)
  {
    es := Overwrites(c);
    PromptSteps(c, Run(START, es));
    TwoMore(c, es, Serve(IDS, Some(PROMPT.delivery)), Arrive(IDS));
    es := es + [Serve(IDS, Some(PROMPT.delivery))] + [Arrive(IDS)];
    TwoMore(c, es, Deliver(IDS), Receive(0));
    es := es + [Deliver(IDS)] + [Receive(0)];
    RunSnoc(c, es, Unregister(0));
    es := es + [Unregister(0)];
  }

  // Without lookups there are no answers.

  ghost predicate Unanswered(s: System) {
    && (forall k: nat :: k in s.packets ==> k < |s.calls| && !s.packets[k].Held?)
    && s.channels == map[]
    && (forall k: nat :: k < |s.calls| ==> !HasAnswer(s.calls[k].phase))
  }

  predicate HasAnswer(p: Phase) {
    (p.Leaving? || p.Finished?) && p.outcome.Answered?
  }

  lemma UnansweredStep(c: Terms, s: System, e: Event)
    requires c.lookups == 0 && Unanswered(s) && InWindow(c, s, e)
    ensures Unanswered(Next(s, e))
  {
    match e
    case Take(_) =>
    case Register(_) =>
    case WriteOk(_) =>
    case WriteError(_) =>
    case Serve(_, _) =>
    case Arrive(k) => assert !IsReturning(s, k);
    case Deliver(_) =>
    case Receive(_) =>
    case Cancel(_) =>
    case Unregister(_) =>
  }

  lemma {:induction false} NoLookupNoAnswer(c: Terms, es: seq<Event>)
    requires c.lookups == 0 && AlwaysInWindow(c, es)
    ensures Unanswered(Run(START, es))
  {
    if es != [] {
      NoLookupNoAnswer(c, es[..|es| - 1]);
      UnansweredStep(c, Run(START, es[..|es| - 1]), es[|es| - 1]);
    }
  }

  /** In every run within the windows, each answer goes to the call whose request it answers. */
  ghost predicate RoutesRightly(c: Terms) {
    forall es, k: nat :: AlwaysInWindow(c, es) && IsAnswered(Run(START, es), k) ==>
      Run(START, es).calls[k].phase.outcome.origin == k
  }

  /**
   Routing is right in every run exactly when both windows are at most 65536 calls wide, or no
   reply is ever looked up.
   */
  lemma RoutingExactly(c: Terms)
    requires c.serves == KeepsIds()
    ensures RoutesRightly(c) <==> Narrow(c) || c.lookups == 0
  {
    if Narrow(c) {
      forall es, k: nat | AlwaysInWindow(c, es) && IsAnswered(Run(START, es), k)
        ensures Run(START, es).calls[k].phase.outcome.origin == k
      {
        RepliesReachTheirCallers(c, es, k);
      }
    } else if c.lookups == 0 {
      forall es, k: nat
        ensures !(AlwaysInWindow(c, es) && IsAnswered(Run(START, es), k))
      {
        if AlwaysInWindow(c, es) {
          NoLookupNoAnswer(c, es);
        }
      }
    } else if c.lookups > IDS {
      var es := LateReplyMisrouted(c);
      assert AlwaysInWindow(c, es) && IsAnswered(Run(START, es), IDS);
    } else {
      var es := RetakenIdMisroutes(c);
      assert AlwaysInWindow(c, es) && IsAnswered(Run(START, es), 0);
    }
  }
}
