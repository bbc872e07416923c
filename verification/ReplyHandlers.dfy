/**
 When a reply handler of the SyncState call finds the channel it sends to full: exactly how late
 a reply may be looked up.
 */
module ReplyHandlers {
  import opened Wrappers
  import opened Polyglot
  import opened Rpc

  // ---------------------------------------------------------------- what keeps channels free

  /** Once a call later than `k` has entered its channel under the same id, that id no longer leads to channel `j`. */
  ghost predicate NoLaterFinds(s: System, j: nat, k: nat) {
    forall m: nat :: k < m && Entered(s, m) && IdOf(m) == IdOf(k) ==> Find(s.table, IdOf(j)) != Some(j)
  }

  /** Channel `j` has been handed to the handler of the reply to call `k`, and will not be handed to another. */
  ghost predicate Claimed(s: System, j: nat, k: nat) {
    j <= k && Entered(s, j) && Written(s, k) && IdOf(j) == IdOf(k) && NoLaterFinds(s, j, k)
  }

  ghost predicate IdsGiven(s: System) {
    s.table.next == |s.calls| % IDS && forall k: nat :: k < |s.calls| ==> s.calls[k].id == IdOf(k)
  }

  ghost predicate PlaceKept(s: System, k: nat, p: Place) {
    match p
    case Outgoing(r) => r.id == IdOf(k)
    case Returning(r) => r.origin == k && r.delivery.id == IdOf(k)
    case Held(j, r) => r.origin == k && j !in s.channels && Claimed(s, j, k)
  }

  ghost predicate PacketsKept(s: System) {
    forall k: nat :: k in s.packets ==> Written(s, k) && PlaceKept(s, k, s.packets[k])
  }

  ghost predicate ChannelsKept(s: System) {
    forall j: nat :: j in s.channels ==> s.channels[j].origin !in s.packets && Claimed(s, j, s.channels[j].origin)
  }

  /** No two handlers hold the same channel. */
  ghost predicate OneHolder(s: System) {
    forall k: nat, m: nat :: IsHeld(s, k) && IsHeld(s, m) && s.packets[k].channel == s.packets[m].channel ==> k == m
  }

  /** What every run keeps while replies are looked up in time, whatever the window for ids. */
  ghost predicate Free(s: System) {
    IdsGiven(s) && EntriesInOrder(s) && PacketsKept(s) && ChannelsKept(s) && OneHolder(s)
  }

  /** Claims outlive steps that enter no channel. */
  lemma ClaimsKept(s: System, t: System, j: nat, k: nat)
    requires Claimed(s, j, k) && Forwards(s, t)
    requires forall m: nat :: Entered(t, m) ==> Entered(s, m)
    requires Find(t.table, IdOf(j)) == Some(j) ==> Find(s.table, IdOf(j)) == Some(j)
    ensures Claimed(t, j, k)
  {
  }

  /** A call moves forwards, and its entry and what is in its channel may go. */
  lemma ForwardsKeepsFree(s: System, t: System)
    requires Free(s) && Forwards(s, t) && t.packets == s.packets && t.table.next == s.table.next
    requires forall m: nat :: Entered(t, m) ==> Entered(s, m)
    requires forall id: uint16 :: id in t.table.inflight ==>
      id in s.table.inflight && t.table.inflight[id] == s.table.inflight[id]
    requires forall j: nat :: j in t.channels ==> j in s.channels && t.channels[j] == s.channels[j]
    ensures Free(t)
  {
    hide NoLaterFinds, IdOf;
    forall j: nat, k: nat | Claimed(s, j, k)
      ensures Claimed(t, j, k)
    {
      ClaimsKept(s, t, j, k);
    }
  }

  lemma TakeKeepsFree(s: System, requestId: string)
    requires Free(s)
    ensures Free(Next(s, Take(requestId)))
  {
    var t := Next(s, Take(requestId));
    assert forall k: nat :: k < |s.calls| ==> t.calls[k] == s.calls[k];
    assert forall k: nat :: Entered(t, k) <==> Entered(s, k);
    assert forall k: nat :: Written(t, k) <==> Written(s, k);
    assert forall j: nat, k: nat :: Claimed(s, j, k) ==> Claimed(t, j, k);
  }

  lemma RegisterKeepsFree(s: System, n: nat)
    requires Free(s) && InPhase(s, n, Allocated)
    ensures Free(Next(s, Register(n)))
  {
    var t := Next(s, Register(n));
    NextForwards(s, Register(n));
    assert forall m: nat :: Entered(t, m) <==> Entered(s, m) || m == n;
    forall j: nat, k: nat | Claimed(s, j, k)
      ensures Claimed(t, j, k)
    {
      assert j != n;
    }
  }

  /** Claims depend on the calls and the table alone. */
  lemma SameClaims(s: System, t: System)
    requires t.calls == s.calls && t.table == s.table
    ensures forall j: nat, k: nat :: Claimed(s, j, k) ==> Claimed(t, j, k)
  {
    assert forall m: nat :: Entered(t, m) <==> Entered(s, m);
  }

  /** An exchange moves to a place without a channel. */
  lemma MoveKeepsFree(s: System, n: nat, p: Place)
    requires Free(s) && !p.Held? && Written(s, n) && PlaceKept(s, n, p)
    requires forall j: nat :: j in s.channels ==> s.channels[j].origin != n
    ensures Free(Move(s, n, Some(p)))
  {
    hide IdOf, NoLaterFinds;
    SameClaims(s, Move(s, n, Some(p)));
  }

  /** An exchange is over. */
  lemma DropKeepsFree(s: System, n: nat)
    requires Free(s)
    ensures Free(Move(s, n, None))
  {
    hide IdOf, NoLaterFinds;
    SameClaims(s, Move(s, n, None));
  }

  lemma WriteOkKeepsFree(s: System, n: nat)
    requires Free(s) && InPhase(s, n, Registered)
    ensures Free(Next(s, WriteOk(n)))
  {
    var t := WithPhase(s, n, Waiting);
    ForwardsKeepsFree(s, t);
    assert !Written(s, n);
    MoveKeepsFree(t, n, Outgoing(Request(s.calls[n].id, s.calls[n].requestId)));
  }

  lemma ServeKeepsFree(c: Terms, s: System, n: nat, back: Option<Delivery>)
    requires Free(s) && InWindow(c, s, Serve(n, back))
    ensures Free(Next(s, Serve(n, back)))
  {
    if IsOutgoing(s, n) {
      if back.Some? {
        MoveKeepsFree(s, n, Returning(Reply(n, back.value)));
      } else {
        DropKeepsFree(s, n);
      }
    }
  }

  lemma SameIdApart(j: nat, k: nat)
    requires IdOf(j) == IdOf(k) && j < k
    ensures j + IDS <= k
  {
  }

  /** A channel that the lookup of a reply finds has not been handed to any other handler. */
  lemma FoundIsUnclaimed(c: Terms, s: System, n: nat, j: nat, k: nat)
    requires c.lookups <= IDS && Free(s) && IsReturning(s, n) && InWindow(c, s, Arrive(n))
    requires Find(s.table, IdOf(n)) == Some(j) && Claimed(s, j, k)
    ensures k == n
  {
    hide IdOf;
    assert Entered(s, n);
    if n < k {
      SameIdApart(n, k);
    }
  }

  lemma FoundIsClaimed(c: Terms, s: System, n: nat, j: nat)
    requires c.lookups <= IDS && Free(s) && IsReturning(s, n) && InWindow(c, s, Arrive(n))
    requires Find(s.table, IdOf(n)) == Some(j)
    ensures Claimed(s, j, n)
  {
    hide IdOf;
    if n < j {
      SameIdApart(n, j);
    }
    forall m: nat | n < m && Entered(s, m) && IdOf(m) == IdOf(n)
      ensures false
    {
      SameIdApart(n, m);
    }
  }

  lemma HandOver(c: Terms, s: System, n: nat, j: nat)
    requires c.lookups <= IDS && Free(s) && IsReturning(s, n) && InWindow(c, s, Arrive(n))
    requires Find(s.table, IdOf(n)) == Some(j)
    ensures Free(Move(s, n, Some(Held(j, s.packets[n].reply))))
  {
    hide IdOf, NoLaterFinds;
    FoundIsClaimed(c, s, n, j);
    forall k: nat | Claimed(s, j, k)
      ensures k == n
    {
      FoundIsUnclaimed(c, s, n, j, k);
    }
    SameClaims(s, Move(s, n, Some(Held(j, s.packets[n].reply))));
    assert forall k: nat :: IsHeld(s, k) ==> Claimed(s, s.packets[k].channel, k);
  }

  lemma ArriveKeepsFree(c: Terms, s: System, n: nat)
    requires c.lookups <= IDS && Free(s) && InWindow(c, s, Arrive(n)) && IsReturning(s, n)
    ensures Free(Next(s, Arrive(n)))
  {
    var r := s.packets[n].reply;
    var ch := Find(s.table, IdOf(n));
    if ch.Some? {
      HandOver(c, s, n, ch.value);
    } else {
      DropKeepsFree(s, n);
    }
  }

  lemma DeliverKeepsFree(s: System, n: nat)
    requires Free(s)
    ensures Free(Next(s, Deliver(n)))
  {
    hide IdOf, NoLaterFinds;
    if IsHeld(s, n) && s.packets[n].channel !in s.channels {
      var t := Next(s, Deliver(n));
      SameClaims(s, t);
    }
  }

  lemma LeavingKeepsFree(s: System, e: Event)
    requires Free(s) && (e.WriteError? || e.Receive? || e.Cancel? || e.Unregister?)
    ensures Free(Next(s, e))
  {
    hide Free;
    NextForwards(s, e);
    ForwardsKeepsFree(s, Next(s, e));
  }

  lemma FreeStep(c: Terms, s: System, e: Event)
    requires c.lookups <= IDS && Free(s) && InWindow(c, s, e)
    ensures Free(Next(s, e))
  {
    hide Free;
    match e
    case Take(requestId) => TakeKeepsFree(s, requestId);
    case Register(n) =>
      if InPhase(s, n, Allocated) {
        RegisterKeepsFree(s, n);
      }
    case WriteOk(n) =>
      if InPhase(s, n, Registered) {
        WriteOkKeepsFree(s, n);
      }
    case Serve(n, back) => ServeKeepsFree(c, s, n, back);
    case Arrive(n) =>
      if IsReturning(s, n) {
        ArriveKeepsFree(c, s, n);
      }
    case Deliver(n) => DeliverKeepsFree(s, n);
    case _ => LeavingKeepsFree(s, e);
  }

  lemma {:induction false} FreeAlways(c: Terms, es: seq<Event>)
    requires c.lookups <= IDS && AlwaysInWindow(c, es)
    ensures Free(Run(START, es))
  {
    if es != [] {
      FreeAlways(c, es[..|es| - 1]);
      FreeStep(c, Run(START, es[..|es| - 1]), es[|es| - 1]);
    }
  }

  // ---------------------------------------------------------------- main results

  /** A handler holds a full channel and cannot send. */
  predicate Blocked(s: System, k: nat) {
    IsHeld(s, k) && s.packets[k].channel in s.channels
  }

  /** No reply handler finds its channel full while replies are looked up in time, whatever the window for ids. */
  lemma HandlersNeverBlock(c: Terms, es: seq<Event>, k: nat)
    requires c.lookups <= IDS && AlwaysInWindow(c, es)
    ensures !Blocked(Run(START, es), k)
  {
    FreeAlways(c, es);
  }

  /** The call whose channel it is has returned, or is about to, and will not receive. */
  predicate Stuck(s: System, k: nat) {
    && Written(s, k) && Blocked(s, k) && s.packets[k].channel < |s.calls|
    && var p := s.calls[s.packets[k].channel].phase;
       p.Leaving? || p.Finished?
  }

  lemma StuckStep(s: System, k: nat, e: Event)
    requires Stuck(s, k)
    ensures Stuck(Next(s, e), k)
  {
    match e
    case Take(_) =>
    case Register(_) =>
    case WriteOk(_) =>
    case WriteError(_) =>
    case Serve(_, _) =>
    case Arrive(_) =>
    case Deliver(_) =>
    case Receive(_) =>
    case Cancel(_) =>
    case Unregister(_) =>
  }

  /** A handler that is stuck stays so, whatever happens next. */
  lemma {:induction false} StuckForever(s: System, k: nat, es: seq<Event>)
    requires Stuck(s, k)
    ensures Stuck(Run(s, es), k)
  {
    if es != [] {
      StuckForever(s, k, es[..|es| - 1]);
      StuckStep(Run(s, es[..|es| - 1]), k, es[|es| - 1]);
    }
  }

  lemma BlockingSteps(c: Terms, s: System)
    requires Crossed(s) && c.lookups > IDS && c.serves == KeepsIds()
    ensures var t := Next(s, Serve(IDS, Some(PROMPT.delivery)));
      var u := Next(t, Arrive(0));
      && InWindow(c, s, Serve(IDS, Some(PROMPT.delivery))) && InWindow(c, t, Arrive(0))
      && InWindow(c, u, Arrive(IDS))
      && Stuck(Next(Next(Next(u, Arrive(IDS)), Deliver(0)), Cancel(IDS)), IDS)
  {
    var t := Next(s, Serve(IDS, Some(PROMPT.delivery)));
    assert t.packets[IDS] == Returning(PROMPT) && t.packets[0] == Returning(LATE) && t.calls == s.calls;
    var u := Next(t, Arrive(0));
    assert u.packets[0] == Held(IDS, LATE) && u.calls == s.calls;
    var v := Next(u, Arrive(IDS));
    assert v.packets[IDS] == Held(IDS, PROMPT) && v.calls == s.calls;
    var w := Next(v, Deliver(0));
    assert w.channels == map[IDS := LATE] && w.packets[IDS] == Held(IDS, PROMPT) && w.calls == s.calls;
  }

  /**
   With a window for lookups that is wider by a single call, a handler gets stuck: a late reply
   and the prompt one are handed the same channel, and the caller gives up before it receives.
   */
  lemma HandlerStuck(c: Terms) returns (es: seq<Event>)
    requires c.lookups > IDS && c.serves == KeepsIds()
    ensures AlwaysInWindow(c, es) && Stuck(Run(START, es), IDS)
  {
    es := Crosses(c);
    BlockingSteps(c, Run(START, es));
    TwoMore(c, es, Serve(IDS, Some(PROMPT.delivery)), Arrive(0));
    es := es + [Serve(IDS, Some(PROMPT.delivery))] + [Arrive(0)];
    TwoMore(c, es, Arrive(IDS), Deliver(0));
    es := es + [Arrive(IDS)] + [Deliver(0)];
    RunSnoc(c, es, Cancel(IDS));
    es := es + [Cancel(IDS)];
  }

  /** In every run within the windows, no handler blocks. */
  ghost predicate NeverBlocks(c: Terms) {
    forall es, k: nat :: AlwaysInWindow(c, es) ==> !Blocked(Run(START, es), k)
  }

  /** In every run within the windows, no handler blocks for good. */
  ghost predicate NeverSticks(c: Terms) {
    forall es, k: nat :: AlwaysInWindow(c, es) ==> !Stuck(Run(START, es), k)
  }

  /**
   No handler ever blocks exactly when the window for lookups is at most 65536 calls wide,
   whatever the one for ids; with a wider one, some handler blocks for good.
   */
  lemma NeverBlockExactly(c: Terms)
    requires c.serves == KeepsIds()
    ensures NeverBlocks(c) <==> c.lookups <= IDS
    ensures NeverSticks(c) <==> c.lookups <= IDS
  {
    hide Run, AlwaysInWindow, Blocked;
    if c.lookups <= IDS {
      forall es, k: nat | AlwaysInWindow(c, es)
        ensures !Blocked(Run(START, es), k) && !Stuck(Run(START, es), k)
      {
        HandlersNeverBlock(c, es, k);
      }
    } else {
      var es := HandlerStuck(c);
      assert Stuck(Run(START, es), IDS) && Blocked(Run(START, es), IDS);
    }
  }
}
