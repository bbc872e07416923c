/**
 What election checks come to, and what a promotion does to the stop channels of the monitors,
 with transitions as one step and with goroutines interleaved.
 */
module RoleChanges {
  import opened Wrappers
  import opened Heartbeat
  import opened Leader
  import opened Interleaving
  import opened ApartRuns

  type Atomic = Leader.Event

  type Event = Interleaving.Event

  // ---------------------------------------------------------------- election checks

  /** A check and a transition after it give the role that AWS says, to a node that is not secondary. */
  lemma OwnershipDecides(c: Config, n: Node, owns: bool, now: int)
    requires !c.disableENICheck && n.role != Secondary && n.queue.None?
    ensures Leader.Next(c, Leader.Next(c, n, Election(Owns(owns))), Transition(true, now)).role
         == if owns then Primary else Secondary
  {
  }

  /** Without the check, the configured role is taken, whatever AWS would say. */
  lemma ConfigurationDecides(c: Config, n: Node, probe: Probe, now: int)
    requires c.disableENICheck && n.role != Secondary && n.queue.None?
    ensures Leader.Next(c, Leader.Next(c, n, Election(probe)), Transition(true, now)).role
         == if c.forceRole == "primary" then Primary else Secondary
  {
  }

  /**
   A check changes nothing on a secondary, when it fails, when a role is queued, and when it finds
   the role there is.
   */
  lemma CheckChangesNothing(c: Config, n: Node, probe: Probe)
    ensures n.role == Secondary || n.queue.Some? ==> Leader.Next(c, n, Election(probe)) == n
    ensures !c.disableENICheck && probe.ProbeError? ==> Leader.Next(c, n, Election(probe)) == n
    ensures !c.disableENICheck && probe == Owns(true) && n.role == Primary ==> Leader.Next(c, n, Election(probe)) == n
  {
  }

  /** Only a check or a monitor queues a role, and only a check queues Secondary. */
  lemma WhoQueues(c: Config, s: System, e: Event)
    ensures var t := Interleaving.Next(c, s, e);
      t.node.queue.Some? && t.node.queue != s.node.queue ==>
        && s.node.queue.None?
        && ((e.Send? && s.check == Sending(t.node.queue.value)) || (e.Asks? && t.node.queue == Some(Primary)))
  {
    hide LoopStep;
    if e.Turn? {
      TurnQueuesNothing(s, e.created, e.now);
    }
  }

  lemma TurnQueuesNothing(s: System, created: bool, now: int)
    ensures LoopStep(s, created, now).node.queue in {None, s.node.queue}
  {
  }

  lemma OwnerStep(c: Config, n: Node, e: Atomic)
    requires !c.disableENICheck && e != Election(Owns(false))
    requires n.role != Secondary && n.queue != Some(Secondary)
    ensures var m := Leader.Next(c, n, e);
      m.role != Secondary && m.queue != Some(Secondary)
  {
    match e
    case Election(_) =>
    case Transition(_, _) =>
    case MonitorTick(_, _) =>
    case MonitorStop(_) =>
    case BeatArrives(_) =>
  }

  /** In runs of the atomic machine: an owner of the address is never made secondary. */
  lemma {:induction false} OwnerNeverDemoted(c: Config, es: seq<Atomic>)
    requires !c.disableENICheck && Election(Owns(false)) !in es
    ensures After(c, es).role != Secondary && After(c, es).queue != Some(Secondary)
  {
    hide Leader.Next;
    if es != [] {
      assert es[|es| - 1] in es;
      OwnerNeverDemoted(c, es[..|es| - 1]);
      OwnerStep(c, After(c, es[..|es| - 1]), es[|es| - 1]);
    }
  }

  // ---------------------------------------------------------------- heartbeats

  /**
   A heartbeat is accepted exactly while the role is Secondary, in the middle of a promotion too;
   one that passed that check restarts the watch whatever the role has become since.
   */
  lemma HeartbeatAcceptedExactly(c: Config, s: System, now: int)
    ensures var t := Interleaving.Next(c, Interleaving.Next(c, s, BeatChecks), BeatWrites(now));
      t == if s.node.role == Secondary then s.(node := s.node.(watch := OnBeat(now)))
           else if s.beats > 0 then s.(node := s.node.(watch := OnBeat(now)), beats := s.beats - 1)
           else s
  {
  }

  // ---------------------------------------------------------------- stop channels, one step at a time

  /** A promotion closes the stop channel of the secondary and forgets it. */
  lemma PromotionClosesStop(c: Config, n: Node, now: int)
    requires n.queue == Some(Primary) && n.stop.Some?
    ensures var m := Leader.Next(c, n, Transition(true, now));
      m.stop == None && n.stop.value in m.closed
  {
  }

  /** A monitor that selects on the stop channel returns once the role loop has closed it. */
  lemma ClosingStopsMonitor(c: Config, s: System, created: bool, now: int, i: nat)
    requires s.loop.ServerUp? && s.node.stop.Some?
    requires i < |s.node.monitors| && s.node.monitors[i] == Selecting(s.node.stop)
    ensures var t := Interleaving.Next(c, s, Turn(created, now));
      Interleaving.Next(c, t, Stops(i)).node.monitors == s.node.monitors[..i] + s.node.monitors[i + 1..]
  {
  }

  /** A monitor returns on no other channel: not on an open one, nor on none. */
  lemma OnlyClosingStops(c: Config, s: System, i: nat)
    requires i < |s.node.monitors|
    requires var m := s.node.monitors[i];
      m.Selecting? ==> m.stop.None? || m.stop.value !in s.node.closed
    ensures Interleaving.Next(c, s, Stops(i)) == s
  {
  }

  /**
   The select of a monitor that was busy with a tick looks at the stop channel there is now: when
   a promotion has cleared it in the meantime, the monitor misses the close and no stop reaches it.
   */
  lemma BusyMonitorMissesClose(c: Config, s: System, i: nat)
    requires i < |s.node.monitors| && s.node.monitors[i].PastTick? && s.node.stop.None?
    ensures var t := Interleaving.Next(c, s, Selects(i));
      Live(t.node, i) && Interleaving.Next(c, t, Stops(i)) == t
  {
  }

  // ---------------------------------------------------------------- stop channels, over whole runs

  /** Every stop channel that has been made is closed, but for the one the node holds. */
  ghost predicate OthersClosed(n: Node) {
    forall ch: nat :: ch < n.made && ch !in n.closed ==> n.stop == Some(ch)
  }

  /** A stop channel is held by a secondary, or by a node about to be one. */
  predicate StopBelongs(s: System) {
    && (s.node.stop.Some? ==> s.node.role == Secondary || s.loop.StopMade? || s.loop == Writing(Secondary))
    && (s.loop.StopClosed? && s.node.stop.Some? ==> s.node.stop.value in s.node.closed)
    && (s.loop.StopCleared? || s.loop == Writing(Primary) ==> s.node.stop.None?)
  }

  lemma TurnKeepsStops(c: Config, s: System, e: Event)
    requires Order(s) && OthersClosed(s.node) && StopBelongs(s) && e.Turn?
    ensures OthersClosed(Interleaving.Next(c, s, e).node) && StopBelongs(Interleaving.Next(c, s, e))
  {
    match s.loop
    case Idle =>
    case CleaningServer(_) =>
    case CleaningClient(_) =>
    case Entering(_) =>
    case ServerUp =>
    case StopClosed =>
    case StopCleared =>
    case ClientUp =>
    case WatchReset =>
    case StopMade =>
    case Writing(_) =>
  }

  /** Only the role loop writes the role and works on stop channels. */
  lemma OthersKeepFields(c: Config, s: System, e: Event)
    requires !e.Turn?
    ensures var n, t := s.node, Interleaving.Next(c, s, e);
      && t.node.stop == n.stop && t.node.made == n.made && t.node.closed == n.closed
      && t.loop == s.loop && t.node.role == n.role && t.node.server == n.server && t.node.client == n.client
  {
    hide LoopStep, OnTick;
    match e
    case CheckRole =>
    case Probed(_) =>
    case Compare =>
    case Send =>
    case Ticks(_, _) =>
    case Selects(_) =>
    case Asks(_) =>
    case Stops(_) =>
    case BeatChecks =>
    case BeatWrites(_) =>
  }

  lemma SameStops(s: System, t: System)
    requires OthersClosed(s.node) && StopBelongs(s)
    requires t.node.stop == s.node.stop && t.node.made == s.node.made && t.node.closed == s.node.closed
    requires t.loop == s.loop && t.node.role == s.node.role
    ensures OthersClosed(t.node) && StopBelongs(t)
  {
  }

  lemma OthersKeepStops(c: Config, s: System, e: Event)
    requires OthersClosed(s.node) && StopBelongs(s) && !e.Turn?
    ensures OthersClosed(Interleaving.Next(c, s, e).node) && StopBelongs(Interleaving.Next(c, s, e))
  {
    hide LoopStep, OnTick, OthersClosed, StopBelongs;
    OthersKeepFields(c, s, e);
    SameStops(s, Interleaving.Next(c, s, e));
  }

  lemma {:induction false} StopsAlways(c: Config, es: seq<Event>)
    requires c.limits.Valid() && Apart(c, es)
    ensures OthersClosed(Run(c, START, es).node) && StopBelongs(Run(c, START, es))
  {
    if es != [] {
      var before, e := es[..|es| - 1], es[|es| - 1];
      StopsAlways(c, before);
      OrderAlways(c, before);
      if e.Turn? {
        TurnKeepsStops(c, Run(c, START, before), e);
      } else {
        OthersKeepStops(c, Run(c, START, before), e);
      }
    }
  }

  /**
   While election checks and transitions keep apart, a node that is idle and not a secondary has
   closed every stop channel it ever made, so that no monitor is left waiting on one; a secondary
   has closed all but its own.
   */
  lemma StopsAreClosed(c: Config, es: seq<Event>, ch: nat)
    requires c.limits.Valid() && Apart(c, es)
    requires ch < Run(c, START, es).node.made && Run(c, START, es).loop.Idle?
    ensures var n := Run(c, START, es).node;
      if n.role != Secondary then n.stop.None? && ch in n.closed else ch in n.closed || n.stop == Some(ch)
  {
    StopsAlways(c, es);
  }

  // ---------------------------------------------------------------- checks that a transition overtakes

  /** A check that finds the address with this node, up to its comparison. */
  const OURS: seq<Event> := [CheckRole, Probed(Owns(true))]

  const ASK: seq<Event> := [Compare, Send]

  lemma OursFound(c: Config, s: System)
    requires !c.disableENICheck && s.check.Resting? && s.node.role == Unknown
    ensures Run(c, s, OURS) == s.(check := Comparing(Primary))
  {
    RunTwo(c, s, CheckRole, Probed(Owns(true)));
  }

  /** The comparison is with the role the node has by then, and Primary is asked for although it is secondary. */
  lemma OursAsked(c: Config, s: System)
    requires s.check == Comparing(Primary) && s.node.role != Primary && s.node.queue.None?
    ensures Run(c, s, ASK) == s.(check := Resting, node := s.node.(queue := Some(Primary)))
  {
    RunTwo(c, s, Compare, Send);
  }

  /** A new secondary that finds Primary queued already. */
  const UNPROVOKED: System := START.(node := Became(INITIAL).(queue := Some(Primary)))

  lemma CheckDuringTransition(c: Config) returns (es: seq<Event>)
    requires !c.disableENICheck
    ensures Keeps(c, START, es, false, true) && Run(c, START, es) == UNPROVOKED
    ensures forall e :: e in es ==> !e.Ticks?
  {
    hide Run, Keeps, CheckKeepsOut, TurnKeepsOut;
    es := THREE_CHECKS + [Send];
    CheckRound(c, START);
    ChecksKeep(c, START, es, false, true);
    var s1 := START.(node := INITIAL.(queue := Some(Secondary)));
    Continue(c, es, [TURN], s1, false, true);
    RunOne(c, s1, TURN);
    var s2 := START.(loop := CleaningServer(Secondary));
    ContinueChecks(c, es + [TURN], OURS, s2, false, true);
    OursFound(c, s2);
    var s3 := s2.(check := Comparing(Primary));
    ContinueChecks(c, es + [TURN] + OURS, ASK, s3, false, true);
    OursAsked(c, s3);
    var s4 := s2.(node := INITIAL.(queue := Some(Primary)));
    Continue(c, es + [TURN] + OURS + ASK, SEVEN_TURNS, s4, false, true);
    SevenTurns(c, s4);
    es := es + [TURN] + OURS + ASK + SEVEN_TURNS;
  }

  lemma TransitionDuringCheck(c: Config) returns (es: seq<Event>)
    requires !c.disableENICheck
    ensures Keeps(c, START, es, true, false) && Run(c, START, es) == UNPROVOKED
    ensures forall e :: e in es ==> !e.Ticks?
  {
    hide Run, Keeps, LoopStep, CheckKeepsOut, TurnKeepsOut;
    var round := [TURN] + SEVEN_TURNS;
    es := THREE_CHECKS + [Send];
    CheckRound(c, START);
    ChecksKeep(c, START, es, true, false);
    var s1 := START.(node := INITIAL.(queue := Some(Secondary)));
    ContinueChecks(c, es, OURS, s1, true, false);
    OursFound(c, s1);
    var s2 := s1.(check := Comparing(Primary));
    Continue(c, es + OURS, round, s2, true, false);
    TransitionRound(c, s2);
    var s3 := s2.(node := Became(INITIAL));
    ContinueChecks(c, es + OURS + round, ASK, s3, true, false);
    OursAsked(c, s3);
    es := es + OURS + round + ASK;
  }

  /** The first four turns of a promotion: the role is taken up, the client goes, the server comes. */
  lemma PromotionBegins(c: Config)
    ensures Run(c, UNPROVOKED, [TURN, TURN, TURN, TURN])
         == START.(node := CleanedUp(Became(INITIAL)).(server := true), loop := ServerUp)
  {
    RunFour(c, UNPROVOKED, TURN, TURN, TURN, TURN);
  }

  lemma PromotionEnds(c: Config, s: System)
    requires s.loop.ServerUp? && s.node.stop.Some? && s.node.role == Secondary
    ensures var t := Run(c, s, [TURN, TURN] + [TURN]);
      t.node.role == Secondary && Interleaving.Next(c, t, TURN).node.role == Primary
  {
    RunConcat(c, s, [TURN, TURN], [TURN]);
    RunTwo(c, s, TURN, TURN);
    RunOne(c, Run(c, s, [TURN, TURN]), TURN);
  }

  lemma PromotionUnderWay(c: Config)
    ensures var s := Run(c, UNPROVOKED, SEVEN_TURNS);
      && s.node.role == Secondary && Interleaving.Next(c, s, TURN).node.role == Primary
  {
    hide Run, Interleaving.Next;
    PromotionBegins(c);
    RunConcat(c, UNPROVOKED, [TURN, TURN, TURN, TURN], [TURN, TURN] + [TURN]);
    PromotionEnds(c, Run(c, UNPROVOKED, [TURN, TURN, TURN, TURN]));
    assert [TURN, TURN, TURN, TURN] + ([TURN, TURN] + [TURN]) == SEVEN_TURNS;
  }

  /**
   If only one of the two conditions is kept, a secondary can be promoted although no monitor has
   handled a single tick: a check that began before the node became secondary still asks for the
   role that AWS gave it then.
   */
  lemma PromotionWithoutTicks(c: Config, checks: bool, turns: bool) returns (es: seq<Event>)
    requires !c.disableENICheck && !(checks && turns)
    ensures Keeps(c, START, es, checks, turns) && forall e :: e in es ==> !e.Ticks?
    ensures Run(c, START, es).node.role == Secondary
    ensures Interleaving.Next(c, Run(c, START, es), TURN).node.role == Primary
  {
    hide Run, Keeps, LoopStep;
    if checks {
      es := TransitionDuringCheck(c);
    } else {
      es := CheckDuringTransition(c);
      KeepsLess(c, START, es, false, true);
    }
    Continue(c, es, SEVEN_TURNS, UNPROVOKED, checks, turns);
    PromotionUnderWay(c);
    es := es + SEVEN_TURNS;
  }
}
