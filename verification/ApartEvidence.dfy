/**
 Promotions and their timing with goroutines interleaved, in runs in which election checks and
 role transitions keep out of each other's way.
 */
module ApartEvidence {
  import opened Wrappers
  import opened Heartbeat
  import opened Leader
  import opened Interleaving
  import opened ApartRuns

  type Event = Interleaving.Event

  // ---------------------------------------------------------------- promotion needs evidence

  /** The step writes the heartbeat counters anew: a heartbeat, or the start of a role. */
  predicate Resets(s: System, e: Event) {
    (e.BeatWrites? && s.beats > 0) || (e.Turn? && (s.loop.ClientUp? || s.loop.StopCleared?))
  }

  predicate LateTick(c: Config, s: System, e: Event) {
    e.Ticks? && Live(s.node, e.i) && Late(s.node.watch, e.now, c.limits)
  }

  /** How many late ticks some monitor has handled since the counters were last written anew. */
  function LateTicks(c: Config, es: seq<Event>): nat {
    if es == [] then 0
    else
      var before, e := es[..|es| - 1], es[|es| - 1];
      var s := Run(c, START, before);
      if Resets(s, e) then 0
      else if LateTick(c, s, e) then LateTicks(c, before) + 1
      else LateTicks(c, before)
  }

  /** A monitor that has not fired, or is about to be started. */
  predicate Counting(s: System) {
    || (s.node.monitors != [] && !s.node.monitors[0].Firing?)
    || s.loop.WatchReset? || s.loop.StopMade?
  }

  lemma CountingTurn(c: Config, s: System, e: Event)
    requires Inv(c, s) && Order(s) && e.Turn? && Counting(Interleaving.Next(c, s, e)) && !Resets(s, e)
    ensures Counting(s) && Interleaving.Next(c, s, e).node.watch == s.node.watch
  {
    match s.loop
    case Idle =>
    case CleaningServer(_) =>
    case CleaningClient(_) =>
    case Entering(_) =>
    case ServerUp =>
    case StopClosed =>
    case WatchReset =>
    case StopMade =>
    case Writing(_) =>
  }

  lemma CountingStep(c: Config, s: System, e: Event)
    requires Inv(c, s) && Order(s) && Counting(Interleaving.Next(c, s, e)) && !Resets(s, e)
    ensures Counting(s)
    ensures Interleaving.Next(c, s, e).node.watch.missed
         == if LateTick(c, s, e) then s.node.watch.missed + 1 else s.node.watch.missed
  {
    hide LoopStep;
    if e.Turn? {
      CountingTurn(c, s, e);
    }
  }

  /** While a monitor counts, its counter is that number. */
  lemma {:induction false} CounterIsEvidence(c: Config, es: seq<Event>)
    requires c.limits.Valid() && Apart(c, es) && Counting(Run(c, START, es))
    ensures Run(c, START, es).node.watch.missed == LateTicks(c, es)
  {
    if es != [] {
      var before, e := es[..|es| - 1], es[|es| - 1];
      OrderAlways(c, before);
      if !Resets(Run(c, START, before), e) {
        CountingStep(c, Run(c, START, before), e);
        CounterIsEvidence(c, before);
      }
    }
  }

  /** A monitor handles a tick and goes on to ask for promotion. */
  predicate Fires(c: Config, s: System, e: Event) {
    e.Ticks? && Live(s.node, e.i) && OnTick(s.node.watch, e.now, c.limits).1
  }

  /** A promotion has been decided on: the monitor is about to ask, the request is queued, or the loop is on its way. */
  predicate Decided(s: System) {
    || (|s.node.monitors| == 1 && s.node.monitors[0].Firing?)
    || ((s.node.role == Secondary || s.loop == Writing(Secondary)) && s.node.queue == Some(Primary))
    || (s.node.role == Secondary && TowardsPrimary(s.loop))
  }

  lemma DecidedTurn(c: Config, s: System, e: Event)
    requires Order(s) && e.Turn? && Decided(Interleaving.Next(c, s, e))
    ensures Decided(s)
  {
    match s.loop
    case Idle =>
    case CleaningServer(_) =>
    case CleaningClient(_) =>
    case Entering(_) =>
    case ServerUp =>
    case StopClosed =>
    case StopCleared =>
    case ClientUp =>
    case WatchReset =>
    case StopMade =>
    case Writing(_) =>
  }

  lemma DecidedStep(c: Config, s: System, e: Event)
    requires Inv(c, s) && Order(s) && Decided(Interleaving.Next(c, s, e)) && !Fires(c, s, e)
    ensures Decided(s)
  {
    hide LoopStep, OnTick;
    if e.Turn? {
      DecidedTurn(c, s, e);
    } else if e.Asks? || e.Stops? {
      assert |s.node.monitors| <= 1;
    }
  }

  /**
   Event `j` was a tick on which a monitor fired, after exactly `threshold` late ticks, and the
   promotion was decided ever since.
   */
  ghost predicate Evidence(c: Config, es: seq<Event>, j: nat) {
    && j < |es|
    && Fires(c, Run(c, START, es[..j]), es[j])
    && LateTicks(c, es[..j + 1]) == c.limits.threshold
    && forall i :: j < i <= |es| ==> Decided(Run(c, START, es[..i]))
  }

  lemma FiringCounts(c: Config, s: System, e: Event)
    requires Inv(c, s) && Order(s) && Fires(c, s, e)
    ensures Counting(s) && LateTick(c, s, e) && !Resets(s, e) && s.node.watch.missed + 1 == c.limits.threshold
  {
  }

  lemma FiringIsEvidence(c: Config, es: seq<Event>)
    requires c.limits.Valid() && es != [] && Apart(c, es) && Decided(Run(c, START, es))
    requires Fires(c, Run(c, START, es[..|es| - 1]), es[|es| - 1])
    ensures Evidence(c, es, |es| - 1)
  {
    var before := es[..|es| - 1];
    OrderAlways(c, before);
    FiringCounts(c, Run(c, START, before), es[|es| - 1]);
    CounterIsEvidence(c, before);
    assert es[..|es|] == es;
  }

  lemma EvidenceLasts(c: Config, es: seq<Event>, j: nat)
    requires es != [] && Evidence(c, es[..|es| - 1], j) && Decided(Run(c, START, es))
    ensures Evidence(c, es, j)
  {
    hide Run, Decided, Fires, LateTicks;
    var before := es[..|es| - 1];
    assert before[..j] == es[..j] && before[..j + 1] == es[..j + 1];
    forall i | j < i <= |es|
      ensures Decided(Run(c, START, es[..i]))
    {
      if i < |es| {
        assert es[..i] == before[..i];
      } else {
        assert es[..i] == es;
      }
    }
  }

  lemma {:induction false} DecidedWithEvidence(c: Config, es: seq<Event>)
    requires c.limits.Valid() && Apart(c, es) && Decided(Run(c, START, es))
    ensures exists j :: Evidence(c, es, j)
  {
    assert es != [];
    var before, e := es[..|es| - 1], es[|es| - 1];
    var s := Run(c, START, before);
    OrderAlways(c, before);
    if Fires(c, s, e) {
      FiringIsEvidence(c, es);
    } else {
      DecidedStep(c, s, e);
      DecidedWithEvidence(c, before);
      var j :| Evidence(c, before, j);
      EvidenceLasts(c, es, j);
    }
  }

  lemma PromotionIsDecided(c: Config, s: System, e: Event)
    requires Order(s) && s.node.role == Secondary && Interleaving.Next(c, s, e).node.role == Primary
    ensures Decided(s)
  {
    assert e.Turn? && s.loop == Writing(Primary);
  }

  /**
   Promotion needs evidence. Every step that writes the role of a secondary to Primary goes back
   to a tick on which its monitor fired, after exactly `threshold` late ticks since the counters
   were last written anew, and no step in between went back on it.
   */
  lemma PromotionNeedsEvidence(c: Config, es: seq<Event>, e: Event)
    requires c.limits.Valid() && Apart(c, es) && Run(c, START, es).node.role == Secondary
    requires Interleaving.Next(c, Run(c, START, es), e).node.role == Primary
    ensures exists j :: Evidence(c, es, j)
  {
    OrderAlways(c, es);
    PromotionIsDecided(c, Run(c, START, es), e);
    DecidedWithEvidence(c, es);
  }

  // ---------------------------------------------------------------- the timing of the monitor

  /** An idle secondary whose monitor watches. */
  predicate Watching(s: System) {
    s.loop.Idle? && s.node.role == Secondary && |s.node.monitors| == 1 && !s.node.monitors[0].Firing?
  }

  /** The ticks the monitor handles and the heartbeats that are written. */
  function Handled(c: Config, s: System, es: seq<Event>): seq<Pulse>
    decreases |es|
  {
    if es == [] then []
    else
      var rest := Handled(c, Interleaving.Next(c, s, es[0]), es[1..]);
      match es[0]
      case Ticks(i, t) => if Live(s.node, i) then [Tick(t)] + rest else rest
      case BeatWrites(t) => if s.beats > 0 then [Beat(t)] + rest else rest
      case _ => rest
  }

  function Follow(c: Config, s: System, es: seq<Event>): System
    decreases |es|
  {
    if es == [] then s else Follow(c, Interleaving.Next(c, s, es[0]), es[1..])
  }

  /** The run up to event `j` keeps watching, and that event is the tick on which the monitor fires. */
  predicate FiresAt(c: Config, s: System, es: seq<Event>, j: nat, at: int) {
    && j < |es| && es[j].Ticks? && es[j].now == at
    && Watching(Follow(c, s, es[..j])) && Fires(c, Follow(c, s, es[..j]), es[j])
  }

  /** Every step while the node watches keeps checks and transitions apart. */
  predicate StaysApart(c: Config, s: System, es: seq<Event>)
    decreases |es|
  {
    es != [] ==>
      CheckKeepsOut(s, es[0]) && TurnKeepsOut(s, es[0]) && StaysApart(c, Interleaving.Next(c, s, es[0]), es[1..])
  }

  lemma WatchingStep(c: Config, s: System, e: Event)
    requires Inv(c, s) && Order(s) && Watching(s)
    ensures var t := Interleaving.Next(c, s, e);
      && (Fires(c, s, e) || Watching(t))
      && (!Fires(c, s, e) && e.Ticks? && Live(s.node, e.i) ==> t.node.watch == OnTick(s.node.watch, e.now, c.limits).0)
      && (e.BeatWrites? && s.beats > 0 ==> t.node.watch == OnBeat(e.now))
      && (!(e.Ticks? && Live(s.node, e.i)) && !(e.BeatWrites? && s.beats > 0) ==> t.node.watch == s.node.watch)
  {
  }

  lemma FiresLater(c: Config, s: System, es: seq<Event>, j: nat, at: int)
    requires es != [] && FiresAt(c, Interleaving.Next(c, s, es[0]), es[1..], j, at)
    ensures FiresAt(c, s, es, j + 1, at)
  {
    assert es[..j + 1][1..] == es[1..][..j];
  }

  /**
   Whatever else is interleaved, the monitor of a watching node fires at exactly the tick at
   which the timing model requests promotion on the ticks handled and the heartbeats written.
   */
  lemma {:induction false} NodeFollowsMonitor(c: Config, s: System, es: seq<Event>)
    requires c.limits.Valid() && Inv(c, s) && Order(s) && Watching(s) && StaysApart(c, s, es)
    ensures var r := FirstRequest(s.node.watch, Handled(c, s, es), c.limits);
      if r.Some? then exists j :: FiresAt(c, s, es, j, r.value.at) else Watching(Follow(c, s, es))
    decreases |es|
  {
    if es != [] {
      var e, t := es[0], Interleaving.Next(c, s, es[0]);
      WatchingStep(c, s, e);
      OrderStep(c, s, e);
      if Fires(c, s, e) {
        assert es[..0] == [];
        assert FiresAt(c, s, es, 0, e.now);
      } else {
        NodeFollowsMonitor(c, t, es[1..]);
        var r := FirstRequest(s.node.watch, Handled(c, s, es), c.limits);
        assert r == FirstRequest(t.node.watch, Handled(c, t, es[1..]), c.limits);
        if r.Some? {
          var j :| FiresAt(c, t, es[1..], j, r.value.at);
          FiresLater(c, s, es, j, r.value.at);
        }
      }
    }
  }

  /**
   In time: take any further steps among which the monitor handles `k` ticks one interval apart,
   and no heartbeat is written. If these go on past the deadline, the monitor fires in
   (start + N*I, start + (N+1)*I]; otherwise it goes on watching.
   */
  lemma FiresInTime(c: Config, es: seq<Event>, more: seq<Event>, start: int, tick: int, k: nat)
    requires c.limits.Valid() && Apart(c, es)
    requires var s := Run(c, START, es); Watching(s) && s.node.watch == OnBeat(start) && StaysApart(c, s, more)
    requires Starts(start, tick, c.limits)
    requires Handled(c, Run(c, START, es), more) == Silence(tick, k, c.limits)
    ensures if PastDeadline(start, tick, k, c.limits) then
        exists j, at ::
          && FiresAt(c, Run(c, START, es), more, j, at)
          && start + c.limits.threshold * c.limits.interval < at
          && at <= start + (c.limits.threshold + 1) * c.limits.interval
      else Watching(Follow(c, Run(c, START, es), more))
  {
    hide Run, Follow, FiresAt, Handled, Silence, FirstRequest, PastDeadline;
    OrderAlways(c, es);
    FailoverWindow(start, tick, k, c.limits);
    NodeFollowsMonitor(c, Run(c, START, es), more);
  }

  /** Not before: with heartbeats written at most N*I apart, on the same ticks, the monitor goes on watching. */
  lemma WatchesWhileHeard(c: Config, es: seq<Event>, more: seq<Event>, start: int, tick: int)
    requires c.limits.Valid() && Apart(c, es)
    requires var s := Run(c, START, es); Watching(s) && s.node.watch == OnBeat(start) && StaysApart(c, s, more)
    requires var ps := Handled(c, Run(c, START, es), more);
      Starts(start, tick, c.limits) && OnGrid(tick, start, ps, c.limits)
      && GapsWithin(start, start, ps, c.limits.threshold * c.limits.interval)
    ensures Watching(Follow(c, Run(c, START, es), more))
  {
    OrderAlways(c, es);
    NoFalseFailover(start, tick, Handled(c, Run(c, START, es), more), c.limits);
    NodeFollowsMonitor(c, Run(c, START, es), more);
  }
}
