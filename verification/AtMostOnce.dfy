/**
 Every exchange of the SyncState call moves one way, from request to reply to caller, and each
 reply is handed to at most one call, once: over every interleaving, with no window at all.
 */
module AtMostOnce {
  import opened Wrappers
  import opened Polyglot
  import opened Rpc

  // ---------------------------------------------------------------- where a reply is

  /** The call has, or has returned, the answer to the request of call `k`. */
  predicate AnsweredWith(s: System, j: nat, k: nat) {
    j < |s.calls| && HasAnswer(s.calls[j].phase) && s.calls[j].phase.outcome.origin == k
  }

  /** The reply to call `k` waits in the channel of call `j`. */
  predicate WaitsIn(s: System, j: nat, k: nat) {
    j in s.channels && s.channels[j].origin == k
  }

  /** The exchange of call `k` is still under way, so its reply is nowhere else. */
  ghost predicate UnderWay(s: System, k: nat)
    requires k in s.packets
  {
    && Written(s, k)
    && (s.packets[k].Returning? || s.packets[k].Held? ==> s.packets[k].reply.origin == k)
    && (forall j: nat :: !WaitsIn(s, j, k) && !AnsweredWith(s, j, k))
  }

  ghost predicate PacketsOnce(s: System) {
    forall k: nat :: k in s.packets ==> UnderWay(s, k)
  }

  ghost predicate ChannelsOnce(s: System) {
    && (forall j: nat :: j in s.channels ==> Written(s, s.channels[j].origin))
    && (forall i: nat, j: nat :: i in s.channels && j in s.channels && s.channels[i].origin == s.channels[j].origin ==>
         i == j)
    && (forall i: nat, j: nat :: i in s.channels ==> !AnsweredWith(s, j, s.channels[i].origin))
  }

  ghost predicate AnswersOnce(s: System) {
    && (forall j: nat, k: nat :: AnsweredWith(s, j, k) ==> Written(s, k))
    && (forall i: nat, j: nat, k: nat :: AnsweredWith(s, i, k) && AnsweredWith(s, j, k) ==> i == j)
  }

  ghost predicate Once(s: System) {
    PacketsOnce(s) && ChannelsOnce(s) && AnswersOnce(s)
  }

  // ---------------------------------------------------------------- what every step keeps

  /** Calls move forwards without new answers; exchanges and channels are as they were. */
  lemma ForwardsKeepsOnce(s: System, t: System)
    requires Once(s) && t.packets == s.packets && t.channels == s.channels
    requires forall k: nat :: Written(s, k) ==> Written(t, k)
    requires forall j: nat, k: nat :: AnsweredWith(t, j, k) ==> AnsweredWith(s, j, k)
    ensures Once(t)
  {
    assert forall j: nat, k: nat :: WaitsIn(t, j, k) <==> WaitsIn(s, j, k);
    forall k: nat | k in t.packets
      ensures UnderWay(t, k)
    {
      assert UnderWay(s, k);
    }
  }

  lemma CallsKeepOnce(s: System, e: Event)
    requires Once(s) && (e.Take? || e.Register? || e.WriteError? || e.Cancel? || e.Unregister?)
    ensures Once(Next(s, e))
  {
    hide Once, IdOf;
    var t := Next(s, e);
    assert t.packets == s.packets && t.channels == s.channels;
    forall j: nat, k: nat | AnsweredWith(t, j, k)
      ensures AnsweredWith(s, j, k)
    {
    }
    forall k: nat | Written(s, k)
      ensures Written(t, k)
    {
    }
    ForwardsKeepsOnce(s, t);
  }

  lemma WriteOkKeepsOnce(s: System, n: nat)
    requires Once(s) && InPhase(s, n, Registered)
    ensures Once(Next(s, WriteOk(n)))
  {
    var t := Next(s, WriteOk(n));
    assert !Written(s, n);
    assert forall k: nat :: Written(t, k) <==> Written(s, k) || k == n;
    assert forall j: nat, k: nat :: AnsweredWith(t, j, k) <==> AnsweredWith(s, j, k);
    assert forall j: nat, k: nat :: WaitsIn(t, j, k) <==> WaitsIn(s, j, k);
  }

  /** An exchange that is under way moves on, or is over, without reaching a channel. */
  lemma MoveKeepsOnce(s: System, n: nat, to: Option<Place>)
    requires Once(s) && n in s.packets
    requires to.Some? && !to.value.Outgoing? ==> to.value.reply.origin == n
    ensures Once(Move(s, n, to))
  {
    var t := Move(s, n, to);
    assert forall k: nat :: Written(t, k) <==> Written(s, k);
    assert forall j: nat, k: nat :: AnsweredWith(t, j, k) <==> AnsweredWith(s, j, k);
    assert forall j: nat, k: nat :: WaitsIn(t, j, k) <==> WaitsIn(s, j, k);
  }

  lemma DeliverKeepsOnce(s: System, n: nat)
    requires Once(s)
    ensures Once(Next(s, Deliver(n)))
  {
    if IsHeld(s, n) && s.packets[n].channel !in s.channels {
      var t := Next(s, Deliver(n));
      assert UnderWay(s, n);
      assert forall k: nat :: Written(t, k) <==> Written(s, k);
      assert forall j: nat, k: nat :: AnsweredWith(t, j, k) <==> AnsweredWith(s, j, k);
      assert forall j: nat, k: nat :: WaitsIn(t, j, k) ==> WaitsIn(s, j, k) || k == n;
      assert forall j: nat :: j in s.channels ==> s.channels[j].origin != n by {
        assert forall j: nat :: j in s.channels ==> WaitsIn(s, j, s.channels[j].origin);
      }
    }
  }

  lemma ReceiveKeepsOnce(s: System, n: nat)
    requires Once(s)
    ensures Once(Next(s, Receive(n)))
  {
    if InPhase(s, n, Waiting) && n in s.channels {
      var t, o := Next(s, Receive(n)), s.channels[n].origin;
      assert forall k: nat :: Written(s, k) ==> Written(t, k);
      assert forall j: nat, k: nat :: AnsweredWith(t, j, k) <==> AnsweredWith(s, j, k) || (j == n && k == o);
      assert forall j: nat, k: nat :: WaitsIn(t, j, k) ==> WaitsIn(s, j, k) && k != o;
      assert WaitsIn(s, n, o);
      assert o !in s.packets;
    }
  }

  lemma OnceStep(s: System, e: Event)
    requires Once(s)
    ensures Once(Next(s, e))
  {
    hide Once;
    match e
    case WriteOk(n) =>
      if InPhase(s, n, Registered) {
        WriteOkKeepsOnce(s, n);
      }
    case Serve(n, back) =>
      if IsOutgoing(s, n) {
        MoveKeepsOnce(s, n, if back.Some? then Some(Returning(Reply(n, back.value))) else None);
      }
    case Arrive(n) =>
      if IsReturning(s, n) {
        OriginKnown(s, n);
        var r := s.packets[n].reply;
        var ch := Find(s.table, r.delivery.id);
        MoveKeepsOnce(s, n, if ch.Some? then Some(Held(ch.value, r)) else None);
      }
    case Deliver(n) => DeliverKeepsOnce(s, n);
    case Receive(n) => ReceiveKeepsOnce(s, n);
    case _ => CallsKeepOnce(s, e);
  }

  lemma OriginKnown(s: System, n: nat)
    requires Once(s) && IsReturning(s, n)
    ensures s.packets[n].reply.origin == n
  {
    assert UnderWay(s, n);
  }

  lemma {:induction false} OnceAlways(es: seq<Event>)
    ensures Once(Run(START, es))
  {
    if es != [] {
      OnceAlways(es[..|es| - 1]);
      OnceStep(Run(START, es[..|es| - 1]), es[|es| - 1]);
    }
  }

  // ---------------------------------------------------------------- main results

  /**
   At most once. In every run the reply to a request is in at most one place: on its way, in one
   call's channel, or with one call that has received it; in particular no two calls ever get it.
   */
  lemma ReplyInOnePlace(es: seq<Event>, k: nat)
    ensures var s := Run(START, es);
      && (forall i: nat, j: nat :: AnsweredWith(s, i, k) && AnsweredWith(s, j, k) ==> i == j)
      && (forall i: nat, j: nat :: WaitsIn(s, i, k) && WaitsIn(s, j, k) ==> i == j)
      && (forall i: nat, j: nat :: !(WaitsIn(s, i, k) && AnsweredWith(s, j, k)))
      && (k in s.packets ==> forall j: nat :: !WaitsIn(s, j, k) && !AnsweredWith(s, j, k))
  {
    OnceAlways(es);
    var s := Run(START, es);
    assert k in s.packets ==> UnderWay(s, k);
  }

  /** How far an exchange has come: not sent, with the server, on its way back, with a handler. */
  function Stage(s: System, k: nat): nat {
    if k !in s.packets then 0
    else
      match s.packets[k]
      case Outgoing(_) => 1
      case Returning(_) => 2
      case Held(_, _) => 3
  }

  /**
   An exchange never goes back: a request is handled once, a reply is looked up once and delivered
   once, and only its own step moves it on or ends it.
   */
  lemma ExchangeMovesOn(s: System, e: Event, k: nat)
    requires k in s.packets && Written(s, k)
    ensures var t, moved := Next(s, e), Stage(Next(s, e), k);
      match e
      case Serve(n, back) =>
        if n == k && Stage(s, k) == 1 then moved == if back.Some? then 2 else 0
        else moved == Stage(s, k)
      case Arrive(n) =>
        if n == k && Stage(s, k) == 2 then moved == if Find(s.table, s.packets[k].reply.delivery.id).Some? then 3 else 0
        else moved == Stage(s, k)
      case Deliver(n) =>
        if n == k && Stage(s, k) == 3 && s.packets[k].channel !in s.channels then moved == 0
        else moved == Stage(s, k)
      case _ => moved == Stage(s, k)
  {
    match e
    case Take(_) =>
    case Register(_) =>
    case WriteOk(_) =>
    case WriteError(_) =>
    case Serve(_, _) =>
    case Arrive(_) =>
    case Deliver(_) =>
    case Receive(_) =>
    case Cancel(_) =>
    case Unregister(_) =>
  }
}
