/** What every run of a node keeps, when each transition and each election check is one step. */
module LeaderRuns {
  import opened Wrappers
  import opened Heartbeat
  import opened Leader

  /** What every run keeps. */
  ghost predicate Inv(c: Config, n: Node) {
    && (n.queue.Some? ==> n.queue.value != n.role && n.queue.value != Unknown)
    && |n.monitors| <= 1
    && (|n.monitors| == 1 ==>
         n.role == Secondary && n.queue == None && n.stop.Some? && n.monitors[0] == Selecting(n.stop))
    && n.watch.missed < c.limits.threshold
    && (n.stop.Some? ==> n.stop.value < n.made && n.stop.value !in n.closed)
    && (forall ch :: ch in n.closed ==> ch < n.made)
    && !n.panicked
  }

  lemma TransitionKeepsInv(c: Config, n: Node, created: bool, now: int)
    requires c.limits.Valid() && Inv(c, n)
    ensures Inv(c, TransitionStep(n, created, now))
  {
    if n.queue.Some? {
      match n.queue.value
      case Primary =>
      case Secondary =>
      case Unknown =>
    }
  }

  lemma InvStep(c: Config, n: Node, e: Event)
    requires c.limits.Valid() && Inv(c, n)
    ensures Inv(c, Next(c, n, e))
  {
    match e
    case Election(_) =>
    case Transition(created, now) => TransitionKeepsInv(c, n, created, now);
    case MonitorTick(_, _) =>
    case MonitorStop(_) =>
    case BeatArrives(_) =>
  }

  lemma {:induction false} InvAlways(c: Config, es: seq<Event>)
    requires c.limits.Valid()
    ensures Inv(c, After(c, es))
  {
    if es != [] {
      InvAlways(c, es[..|es| - 1]);
      InvStep(c, After(c, es[..|es| - 1]), es[|es| - 1]);
    }
  }

  lemma OneMore(c: Config, es: seq<Event>, e: Event)
    ensures After(c, es + [e]) == Next(c, After(c, es), e)
  {
    assert (es + [e])[..|es + [e]| - 1] == es;
  }

  /** There is never more than one monitor, a queued role differs from the current one, nothing is closed twice. */
  lemma MonitorsAndQueue(c: Config, es: seq<Event>)
    requires c.limits.Valid()
    ensures var n := After(c, es);
      && |n.monitors| <= 1
      && (n.queue.Some? ==> n.queue.value != n.role && n.queue.value != Unknown)
      && n.watch.missed < c.limits.threshold
      && !n.panicked
  {
    InvAlways(c, es);
  }

  /** Monitor `i` requests promotion at this tick. */
  predicate Fires(c: Config, n: Node, e: Event) {
    e.MonitorTick? && Live(n, e.i) && OnTick(n.watch, e.now, c.limits).1
  }

  /** A monitor's request for promotion is never dropped. */
  lemma RequestNeverDropped(c: Config, es: seq<Event>, e: Event)
    requires c.limits.Valid() && Fires(c, After(c, es), e)
    ensures After(c, es).queue == None && After(c, es + [e]).queue == Some(Primary)
  {
    InvAlways(c, es);
    OneMore(c, es, e);
  }

  // ---------------------------------------------------------------- a secondary is always watched

  /**
   A secondary is watched in exactly one of two ways: a live monitor and an empty role
   channel, or no monitor and its request for promotion in the channel.
   */
  predicate Watched(n: Node) {
    n.role == Secondary ==>
      (|n.monitors| == 1 && n.queue == None) != (|n.monitors| == 0 && n.queue == Some(Primary))
  }

  predicate AlwaysWatched(c: Config, es: seq<Event>) {
    Watched(After(c, es)) && (es != [] ==> AlwaysWatched(c, es[..|es| - 1]))
  }

  /** The step is a promotion of a secondary whose server cannot be created. */
  predicate FailsPromotion(n: Node, e: Event) {
    e.Transition? && !e.created && n.role == Secondary && n.queue == Some(Primary)
  }

  predicate NeverFailsPromotion(c: Config, es: seq<Event>) {
    es != [] ==>
      && NeverFailsPromotion(c, es[..|es| - 1])
      && !FailsPromotion(After(c, es[..|es| - 1]), es[|es| - 1])
  }

  /** A secondary with nobody left to ask for its promotion. */
  predicate Stranded(n: Node) {
    n.role == Secondary && n.monitors == [] && n.queue == None
  }

  /** A secondary is stranded exactly when, some time before, a promotion failed to create its server. */
  lemma {:induction false} StrandedExactly(c: Config, es: seq<Event>)
    requires c.limits.Valid()
    ensures Stranded(After(c, es)) <==> !NeverFailsPromotion(c, es)
  {
    if es != [] {
      StrandedExactly(c, es[..|es| - 1]);
      InvAlways(c, es[..|es| - 1]);
    }
  }

  /**
   In a run, the secondary is watched in every state if and only if no promotion of a
   secondary fails to create its server.
   */
  lemma {:induction false} AlwaysWatchedExactly(c: Config, es: seq<Event>)
    requires c.limits.Valid()
    ensures AlwaysWatched(c, es) <==> NeverFailsPromotion(c, es)
  {
    StrandedExactly(c, es);
    InvAlways(c, es);
    if es != [] {
      AlwaysWatchedExactly(c, es[..|es| - 1]);
    }
  }

  /** A stranded secondary stays stranded, whatever happens next. */
  lemma {:induction false} StrandedForever(c: Config, es: seq<Event>, more: seq<Event>)
    requires Stranded(After(c, es))
    ensures Stranded(After(c, es + more))
  {
    if more == [] {
      assert es + more == es;
    } else {
      StrandedForever(c, es, more[..|more| - 1]);
      assert (es + more)[..|es + more| - 1] == es + more[..|more| - 1];
    }
  }

  // ---------------------------------------------------------------- promotion needs evidence

  predicate Accepted(n: Node, e: Event) {
    e.BeatArrives? && n.role == Secondary
  }

  predicate StartsSecondary(n: Node, e: Event) {
    e.Transition? && e.created && n.queue == Some(Secondary)
  }

  predicate LateTick(c: Config, n: Node, e: Event) {
    e.MonitorTick? && Live(n, e.i) && Late(n.watch, e.now, c.limits)
  }

  /** How many late monitor ticks there were since the last accepted heartbeat or secondary start. */
  function LateTicks(c: Config, es: seq<Event>): nat {
    if es == [] then 0
    else
      var prefix, e := es[..|es| - 1], es[|es| - 1];
      var n := After(c, prefix);
      if Accepted(n, e) || StartsSecondary(n, e) then 0
      else if LateTick(c, n, e) then LateTicks(c, prefix) + 1
      else LateTicks(c, prefix)
  }

  /** While a monitor is live, its counter is that number. */
  lemma {:induction false} CounterIsEvidence(c: Config, es: seq<Event>)
    requires c.limits.Valid() && After(c, es).monitors != []
    ensures After(c, es).watch.missed == LateTicks(c, es)
  {
    if es != [] {
      var prefix, e := es[..|es| - 1], es[|es| - 1];
      InvAlways(c, prefix);
      if After(c, prefix).monitors != [] {
        CounterIsEvidence(c, prefix);
      }
    }
  }

  /**
   Event `j` was a monitor's request for promotion, backed by exactly `threshold` late ticks,
   and the node has been a secondary without monitor ever since.
   */
  ghost predicate Evidence(c: Config, es: seq<Event>, j: nat) {
    && j < |es|
    && Fires(c, After(c, es[..j]), es[j])
    && LateTicks(c, es[..j + 1]) == c.limits.threshold
    && forall i :: j < i <= |es| ==> After(c, es[..i]).role == Secondary && After(c, es[..i]).monitors == []
  }

  lemma FiringIsEvidence(c: Config, es: seq<Event>)
    requires c.limits.Valid() && es != []
    requires Fires(c, After(c, es[..|es| - 1]), es[|es| - 1])
    ensures Evidence(c, es, |es| - 1)
  {
    var prefix := es[..|es| - 1];
    InvAlways(c, prefix);
    CounterIsEvidence(c, prefix);
    assert es[..|es| - 1 + 1] == es;
  }

  lemma EvidenceLasts(c: Config, es: seq<Event>, j: nat)
    requires es != [] && Evidence(c, es[..|es| - 1], j)
    requires After(c, es).role == Secondary && After(c, es).monitors == []
    ensures Evidence(c, es, j)
  {
    hide Next, After, Fires, LateTicks;
    var prefix := es[..|es| - 1];
    forall i | 0 <= i < |es| ensures es[..i] == prefix[..i] {
    }
    assert es[..|es|] == es;
    forall i | j < i <= |es|
      ensures After(c, es[..i]).role == Secondary && After(c, es[..i]).monitors == []
    {
      if i < |es| {
        assert es[..i] == prefix[..i];
      }
    }
  }

  /** A secondary with a promotion queued has the evidence for it. */
  lemma {:induction false} QueuedWithEvidence(c: Config, es: seq<Event>)
    requires c.limits.Valid()
    requires After(c, es).role == Secondary && After(c, es).queue == Some(Primary)
    ensures exists j :: Evidence(c, es, j)
  {
    assert es != [];
    var prefix, e := es[..|es| - 1], es[|es| - 1];
    var n := After(c, prefix);
    InvAlways(c, prefix);
    InvAlways(c, es);
    if Fires(c, n, e) {
      FiringIsEvidence(c, es);
    } else {
      QueuedWithEvidence(c, prefix);
      var j :| Evidence(c, prefix, j);
      EvidenceLasts(c, es, j);
    }
  }

  /**
   Promotion needs evidence. Every step from Secondary to Primary was preceded by a request
   that its monitor made on exactly `threshold` late ticks since the last accepted heartbeat
   or secondary start, and the node was a secondary without monitor from that request on.
   */
  lemma PromotionNeedsEvidence(c: Config, es: seq<Event>, e: Event)
    requires c.limits.Valid()
    requires After(c, es).role == Secondary && After(c, es + [e]).role == Primary
    ensures exists j :: Evidence(c, es, j)
  {
    OneMore(c, es, e);
    QueuedWithEvidence(c, es);
  }

  /** A heartbeat accepted after the request comes too late: the count is back to zero, the promotion stays queued. */
  lemma LateBeatDoesNotCancel(c: Config, es: seq<Event>, now: int)
    requires c.limits.Valid()
    requires After(c, es).role == Secondary && After(c, es).queue == Some(Primary)
    ensures var fs := es + [BeatArrives(now)];
      && LateTicks(c, fs) == 0
      && After(c, fs).queue == Some(Primary)
      && After(c, fs + [Transition(true, now)]).role == Primary
  {
    var fs := es + [BeatArrives(now)];
    OneMore(c, es, BeatArrives(now));
    OneMore(c, fs, Transition(true, now));
  }

  // ---------------------------------------------------------------- the timing results, on the node

  /** The ticks of the node's one monitor and the heartbeats, among all that happens. */
  function Pulses(es: seq<Event>): seq<Pulse> {
    if es == [] then []
    else
      match es[0]
      case MonitorTick(0, t) => [Tick(t)] + Pulses(es[1..])
      case BeatArrives(t) => [Beat(t)] + Pulses(es[1..])
      case _ => Pulses(es[1..])
  }

  function Follow(c: Config, n: Node, es: seq<Event>): Node
    decreases |es|
  {
    if es == [] then n else Follow(c, Next(c, n, es[0]), es[1..])
  }

  lemma {:induction false} FollowContinues(c: Config, es: seq<Event>, more: seq<Event>)
    ensures Follow(c, After(c, es), more) == After(c, es + more)
    decreases |more|
  {
    if more == [] {
      assert es + more == es;
    } else {
      OneMore(c, es, more[0]);
      FollowContinues(c, es + [more[0]], more[1..]);
      assert es + [more[0]] + more[1..] == es + more;
    }
  }

  /** A secondary whose one monitor is live. */
  predicate Watching(n: Node) {
    n.role == Secondary && n.queue == None && |n.monitors| == 1 && n.monitors[0].Selecting?
  }

  /** A secondary whose monitor has made its request. */
  predicate Requested(n: Node) {
    n.role == Secondary && n.queue == Some(Primary) && n.monitors == []
  }

  /** The node watches up to event `j`, and that event is the tick at which its monitor makes the request. */
  predicate RequestsWith(c: Config, n: Node, es: seq<Event>, j: nat, at: int) {
    && j < |es| && es[j] == MonitorTick(0, at)
    && Watching(Follow(c, n, es[..j]))
    && Requested(Follow(c, n, es[..j + 1]))
  }

  lemma RequestsLater(c: Config, n: Node, es: seq<Event>, j: nat, at: int)
    requires es != [] && RequestsWith(c, Next(c, n, es[0]), es[1..], j, at)
    ensures RequestsWith(c, n, es, j + 1, at)
  {
    assert es[..j + 1][1..] == es[1..][..j];
    assert es[..j + 2][1..] == es[1..][..j + 1];
  }

  /** A request made waits for the role loop, whose next turn makes the node primary if the server can be created. */
  lemma RequestWaits(c: Config, n: Node, e: Event)
    requires Requested(n)
    ensures !e.Transition? ==> Requested(Next(c, n, e))
    ensures e.Transition? && e.created ==> Next(c, n, e).role == Primary
  {
  }

  /**
   Whatever else happens to the node, it requests its promotion exactly when the monitor of
   the timing model does on the ticks and heartbeats among the events.
   */
  lemma {:induction false} NodeFollowsMonitor(c: Config, n: Node, es: seq<Event>)
    requires c.limits.Valid() && Inv(c, n) && Watching(n)
    ensures var r := FirstRequest(n.watch, Pulses(es), c.limits);
      if r.Some? then exists j :: RequestsWith(c, n, es, j, r.value.at) else Watching(Follow(c, n, es))
    decreases |es|
  {
    if es != [] {
      var e, m := es[0], Next(c, n, es[0]);
      var r := FirstRequest(n.watch, Pulses(es), c.limits);
      InvStep(c, n, e);
      if Fires(c, n, e) {
        assert es[..0] == [] && es[..1] == [e] && [e][1..] == [];
        assert Follow(c, n, [e]) == Follow(c, m, []);
        assert RequestsWith(c, n, es, 0, e.now);
      } else {
        NodeFollowsMonitor(c, m, es[1..]);
        assert FirstRequest(m.watch, Pulses(es[1..]), c.limits) == r;
        if r.Some? {
          var j :| RequestsWith(c, m, es[1..], j, r.value.at);
          RequestsLater(c, n, es, j, r.value.at);
        }
      }
    }
  }

  /** Becoming secondary starts the watch at that time, and an accepted heartbeat restarts it. */
  lemma WatchStarts(c: Config, es: seq<Event>, now: int)
    requires c.limits.Valid()
    ensures After(c, es).queue == Some(Secondary) ==>
      var m := After(c, es + [Transition(true, now)]); Watching(m) && m.watch == OnBeat(now)
    ensures Watching(After(c, es)) ==>
      var m := After(c, es + [BeatArrives(now)]); Watching(m) && m.watch == OnBeat(now)
  {
    InvAlways(c, es);
    OneMore(c, es, Transition(true, now));
    OneMore(c, es, BeatArrives(now));
  }

  /**
   Failover in time. After any run, take a watching secondary whose last accepted heartbeat (or
   start) was at `start`, and any further events whose ticks and heartbeats are just `k` ticks,
   one interval apart. If they go on past the deadline, as threshold + 2 ticks always do, then
   among them is a tick in (start + N*I, start + (N+1)*I] at which the node requests its
   promotion; otherwise it goes on watching.
   */
  lemma SecondaryFailsOverInTime(c: Config, es: seq<Event>, more: seq<Event>, start: int, tick: int, k: nat)
    requires c.limits.Valid() && Watching(After(c, es)) && After(c, es).watch == OnBeat(start)
    requires Starts(start, tick, c.limits) && Pulses(more) == Silence(tick, k, c.limits)
    ensures k >= c.limits.threshold + 2 ==> PastDeadline(start, tick, k, c.limits)
    ensures if PastDeadline(start, tick, k, c.limits) then
        exists j, at ::
          && RequestsWith(c, After(c, es), more, j, at)
          && start + c.limits.threshold * c.limits.interval < at
          && at <= start + (c.limits.threshold + 1) * c.limits.interval
      else Watching(After(c, es + more))
  {
    hide After, Next, Follow, RequestsWith, Pulses, Silence, FirstRequest, PastDeadline;
    InvAlways(c, es);
    FailoverWindow(start, tick, k, c.limits);
    if k >= c.limits.threshold + 2 {
      EnoughTicks(start, tick, k, c.limits);
    }
    NodeFollowsMonitor(c, After(c, es), more);
    FollowContinues(c, es, more);
  }

  /**
   A watching secondary that hears a heartbeat at least every N*I, on ticks one interval apart,
   keeps watching, whatever else happens.
   */
  lemma SecondaryStaysWhileHeard(c: Config, es: seq<Event>, more: seq<Event>, start: int, tick: int)
    requires c.limits.Valid() && Watching(After(c, es)) && After(c, es).watch == OnBeat(start)
    requires Starts(start, tick, c.limits) && OnGrid(tick, start, Pulses(more), c.limits)
    requires GapsWithin(start, start, Pulses(more), c.limits.threshold * c.limits.interval)
    ensures Watching(After(c, es + more))
  {
    InvAlways(c, es);
    NoFalseFailover(start, tick, Pulses(more), c.limits);
    NodeFollowsMonitor(c, After(c, es), more);
    FollowContinues(c, es, more);
  }
}
