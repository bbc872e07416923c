/**
 When a secondary has one monitor, with goroutines interleaved: exactly when election checks and
 role transitions keep out of each other's way.
 */
module ApartRuns {
  import opened Wrappers
  import opened Heartbeat
  import opened Leader
  import opened Interleaving

  type Event = Interleaving.Event

  // ---------------------------------------------------------------- keeping apart

  predicate ChecksElection(e: Event) {
    e.CheckRole? || e.Probed? || e.Compare? || e.Send?
  }

  /** An election check takes its steps only while no transition is under way. */
  predicate CheckKeepsOut(s: System, e: Event) {
    ChecksElection(e) ==> s.loop.Idle?
  }

  /** The role loop takes up a role only while no election check is under way. */
  predicate TurnKeepsOut(s: System, e: Event) {
    e.Turn? && s.loop.Idle? && s.node.queue.Some? ==> s.check.Resting?
  }

  /** The run keeps the first condition if `checks`, and the second if `turns`. */
  predicate Keeps(c: Config, s: System, es: seq<Event>, checks: bool, turns: bool) {
    es != [] ==>
      var before := Run(c, s, es[..|es| - 1]);
      && Keeps(c, s, es[..|es| - 1], checks, turns)
      && (checks ==> CheckKeepsOut(before, es[|es| - 1]))
      && (turns ==> TurnKeepsOut(before, es[|es| - 1]))
  }

  /** Checks and transitions keep apart; heartbeats, monitors and failed creations interleave freely. */
  predicate Apart(c: Config, es: seq<Event>) {
    Keeps(c, START, es, true, true)
  }

  // ---------------------------------------------------------------- what runs that keep apart keep

  /** A transition is under way and has not yet started the monitor of a new secondary. */
  predicate Under(l: Loop) {
    !l.Idle? && l != Writing(Secondary)
  }

  /** The loop is on its way to Primary, or may still fail to get there. */
  predicate TowardsPrimary(l: Loop) {
    match l
    case CleaningServer(r) => r == Primary
    case CleaningClient(r) => r == Primary
    case Entering(r) => r == Primary
    case Writing(r) => r == Primary
    case ServerUp => true
    case StopClosed => true
    case StopCleared => true
    case _ => false
  }

  ghost predicate Order(s: System) {
    var n := s.node;
    && |n.monitors| <= 1
    && (!s.check.Resting? ==> s.loop.Idle? && n.role != Secondary)
    && (s.check.Sending? ==> s.check.found != n.role)
    && (Under(s.loop) ==> n.monitors == [] && n.queue == None)
    && (n.role == Secondary && !s.loop.Idle? ==> TowardsPrimary(s.loop))
    && (s.loop.Idle? && n.queue.Some? ==> n.queue.value != n.role)
    && (s.loop.StopMade? ==> n.stop.Some?)
    && (s.loop == Writing(Secondary) && n.queue.Some? ==> n.queue == Some(Primary))
    && (n.monitors != [] ==>
         && n.queue == None
         && (s.loop.Idle? ==> n.role == Secondary)
         && n.stop.Some?
         && (n.monitors[0].Selecting? ==> n.monitors[0].stop == n.stop))
  }

  lemma TurnKeepsOrder(c: Config, s: System, e: Event)
    requires Inv(c, s) && Order(s) && e.Turn? && TurnKeepsOut(s, e)
    ensures Order(Interleaving.Next(c, s, e))
  {
    match s.loop
    case Idle =>
    case CleaningServer(_) =>
    case CleaningClient(_) =>
    case Entering(_) =>
    case ServerUp =>
    case StopClosed =>
    case StopCleared =>
    case ClientUp =>
    case WatchReset =>
    case StopMade =>
    case Writing(_) =>
  }

  lemma CheckKeepsOrder(c: Config, s: System, e: Event)
    requires Inv(c, s) && Order(s) && ChecksElection(e) && CheckKeepsOut(s, e)
    ensures Order(Interleaving.Next(c, s, e))
  {
  }

  lemma OthersKeepOrder(c: Config, s: System, e: Event)
    requires Inv(c, s) && Order(s) && !e.Turn? && !ChecksElection(e)
    ensures Order(Interleaving.Next(c, s, e))
  {
  }

  lemma OrderStep(c: Config, s: System, e: Event)
    requires c.limits.Valid() && Inv(c, s) && Order(s) && CheckKeepsOut(s, e) && TurnKeepsOut(s, e)
    ensures Inv(c, Interleaving.Next(c, s, e)) && Order(Interleaving.Next(c, s, e))
  {
    InvStep(c, s, e);
    if e.Turn? {
      TurnKeepsOrder(c, s, e);
    } else if ChecksElection(e) {
      CheckKeepsOrder(c, s, e);
    } else {
      OthersKeepOrder(c, s, e);
    }
  }

  lemma {:induction false} OrderAlways(c: Config, es: seq<Event>)
    requires c.limits.Valid() && Apart(c, es)
    ensures Inv(c, Run(c, START, es)) && Order(Run(c, START, es))
  {
    if es == [] {
      InvAlways(c, es);
    } else {
      OrderAlways(c, es[..|es| - 1]);
      OrderStep(c, Run(c, START, es[..|es| - 1]), es[|es| - 1]);
    }
  }

  /**
   While checks and transitions keep apart there is at most one monitor, and nothing stands in the
   way of its request.
   */
  lemma OneMonitor(c: Config, es: seq<Event>)
    requires c.limits.Valid() && Apart(c, es)
    ensures var n := Run(c, START, es).node;
      && |n.monitors| <= 1
      && (n.monitors != [] ==> n.queue == None)
  {
    OrderAlways(c, es);
  }

  // ---------------------------------------------------------------- a secondary is always watched

  /** An idle secondary has one monitor and an empty role channel, or no monitor and its promotion queued. */
  predicate Watched(s: System) {
    var n := s.node;
    s.loop.Idle? && n.role == Secondary ==>
      (|n.monitors| == 1 && n.queue == None) != (|n.monitors| == 0 && n.queue == Some(Primary))
  }

  predicate AlwaysWatched(c: Config, es: seq<Event>) {
    Watched(Run(c, START, es)) && (es != [] ==> AlwaysWatched(c, es[..|es| - 1]))
  }

  /** The server of a secondary that is to be primary cannot be created. */
  predicate FailsPromotion(s: System, e: Event) {
    e.Turn? && !e.created && s.loop == Entering(Primary) && s.node.role == Secondary
  }

  predicate NeverFailsPromotion(c: Config, es: seq<Event>) {
    es != [] ==>
      && NeverFailsPromotion(c, es[..|es| - 1])
      && !FailsPromotion(Run(c, START, es[..|es| - 1]), es[|es| - 1])
  }

  /** There is a monitor, or its request, wherever the loop is about to be idle as secondary. */
  predicate Manned(s: System) {
    var n := s.node;
    (s.loop.Idle? && n.role == Secondary) || s.loop == Writing(Secondary) ==>
      n.monitors != [] || n.queue == Some(Primary)
  }

  lemma MannedStep(c: Config, s: System, e: Event)
    requires Inv(c, s) && Order(s) && Manned(s) && !FailsPromotion(s, e)
    ensures Manned(Interleaving.Next(c, s, e))
  {
  }

  /**
   While checks and transitions keep apart, an idle secondary is watched in every state of a
   run if and only if no promotion of a secondary fails to create its server.
   */
  lemma {:induction false} AlwaysWatchedExactly(c: Config, es: seq<Event>)
    requires c.limits.Valid() && Apart(c, es)
    ensures AlwaysWatched(c, es) <==> NeverFailsPromotion(c, es)
    ensures NeverFailsPromotion(c, es) ==> Manned(Run(c, START, es))
  {
    OrderAlways(c, es);
    if es != [] {
      var before, e := es[..|es| - 1], es[|es| - 1];
      AlwaysWatchedExactly(c, before);
      OrderAlways(c, before);
      if NeverFailsPromotion(c, es) {
        MannedStep(c, Run(c, START, before), e);
      }
    }
  }

  // ---------------------------------------------------------------- both conditions are needed

  /** The configuration never makes the node a secondary. */
  predicate AlwaysPrimary(c: Config) {
    c.disableENICheck && c.forceRole == "primary"
  }

  predicate NoSecondary(s: System) {
    && s.node.role != Secondary
    && s.node.monitors == []
    && s.node.queue != Some(Secondary)
    && s.check != Comparing(Secondary) && s.check != Sending(Secondary)
    && match s.loop
       case CleaningServer(r) => r != Secondary
       case CleaningClient(r) => r != Secondary
       case Entering(r) => r != Secondary
       case ClientUp => false
       case WatchReset => false
       case StopMade => false
       case Writing(r) => r != Secondary
       case _ => true
  }

  lemma TurnKeepsNoSecondary(c: Config, s: System, e: Event)
    requires NoSecondary(s) && e.Turn?
    ensures NoSecondary(Interleaving.Next(c, s, e))
  {
  }

  /**
   No check finds reason to make the node a secondary: it is forced to be primary, or AWS never
   names another owner.
   */
  predicate NeverElsewhere(c: Config, es: seq<Event>) {
    AlwaysPrimary(c) || (!c.disableENICheck && Probed(Owns(false)) !in es)
  }

  lemma OthersKeepNoSecondary(c: Config, s: System, e: Event)
    requires NeverElsewhere(c, [e]) && NoSecondary(s) && !e.Turn?
    ensures NoSecondary(Interleaving.Next(c, s, e))
  {
  }

  /**
   While no check finds reason to, a node is never a secondary, over every interleaving: it has no
   monitor, and the role is neither taken, nor under way, nor queued.
   */
  lemma {:induction false} OwnerNeverSecondary(c: Config, es: seq<Event>)
    requires NeverElsewhere(c, es)
    ensures NoSecondary(Run(c, START, es))
  {
    if es != [] {
      var before, e := es[..|es| - 1], es[|es| - 1];
      OwnerNeverSecondary(c, before);
      if e.Turn? {
        TurnKeepsNoSecondary(c, Run(c, START, before), e);
      } else {
        OthersKeepNoSecondary(c, Run(c, START, before), e);
      }
    }
  }

  lemma {:induction false} KeepsConcat(c: Config, s: System, es: seq<Event>, fs: seq<Event>, checks: bool, turns: bool)
    requires Keeps(c, s, es, checks, turns) && Keeps(c, Run(c, s, es), fs, checks, turns)
    ensures Keeps(c, s, es + fs, checks, turns)
  {
    hide Interleaving.Next, CheckKeepsOut, TurnKeepsOut;
    if fs == [] {
      assert es + fs == es;
    } else {
      assert (es + fs)[..|es + fs| - 1] == es + fs[..|fs| - 1];
      KeepsConcat(c, s, es, fs[..|fs| - 1], checks, turns);
      RunConcat(c, s, es, fs[..|fs| - 1]);
    }
  }

  lemma {:induction false} TurnsKeep(c: Config, s: System, es: seq<Event>, checks: bool, turns: bool)
    requires (forall e :: e in es ==> e.Turn?) && (turns ==> s.check.Resting?)
    ensures Keeps(c, s, es, checks, turns) && Run(c, s, es).check == s.check
  {
    if es != [] {
      assert es[|es| - 1].Turn?;
      TurnsKeep(c, s, es[..|es| - 1], checks, turns);
    }
  }

  lemma {:induction false} ChecksKeep(c: Config, s: System, es: seq<Event>, checks: bool, turns: bool)
    requires (forall e :: e in es ==> ChecksElection(e)) && (checks ==> s.loop.Idle?)
    ensures Keeps(c, s, es, checks, turns) && Run(c, s, es).loop == s.loop
  {
    if es != [] {
      assert ChecksElection(es[|es| - 1]);
      ChecksKeep(c, s, es[..|es| - 1], checks, turns);
    }
  }

  const THREE_CHECKS: seq<Event> := [CheckRole, Probed(Owns(false)), Compare]

  /** A check that finds the ENI address elsewhere, up to the point where it sends. */
  lemma CheckUpToSend(c: Config, s: System)
    requires !AlwaysPrimary(c) && s.check.Resting? && s.node.role == Unknown
    ensures Run(c, s, THREE_CHECKS) == s.(check := Sending(Secondary))
  {
    RunConcat(c, s, [CheckRole, Probed(Owns(false))], [Compare]);
    RunTwo(c, s, CheckRole, Probed(Owns(false)));
    RunOne(c, s.(check := Comparing(Secondary)), Compare);
    assert [CheckRole, Probed(Owns(false))] + [Compare] == THREE_CHECKS;
  }

  /** A whole check. */
  lemma CheckRound(c: Config, s: System)
    requires !AlwaysPrimary(c) && s.check.Resting? && s.node.role == Unknown && s.node.queue.None?
    ensures Run(c, s, THREE_CHECKS + [Send]) == s.(node := s.node.(queue := Some(Secondary)))
  {
    CheckUpToSend(c, s);
    RunConcat(c, s, THREE_CHECKS, [Send]);
    RunOne(c, s.(check := Sending(Secondary)), Send);
  }

  const TURN: Event := Turn(true, 0)

  const SEVEN_TURNS: seq<Event> := [TURN, TURN, TURN, TURN] + [TURN, TURN] + [TURN]

  /** The node once it has become secondary. */
  function Became(n: Node): Node {
    AsSecondary(CleanedUp(n), true, 0).(role := Secondary, monitors := n.monitors + [PastTick])
  }

  /** The first four turns of a transition to secondary: the old resources go, the client and the fresh watch come. */
  lemma FirstTurns(c: Config, s: System)
    requires s.loop == CleaningServer(Secondary)
    ensures Run(c, s, [TURN, TURN, TURN, TURN])
         == s.(node := CleanedUp(s.node).(client := true, watch := OnBeat(0)), loop := WatchReset)
  {
    RunFour(c, s, TURN, TURN, TURN, TURN);
    var s2 := s.(node := CleanedUp(s.node), loop := Entering(Secondary));
    assert LoopStep(LoopStep(s, true, 0), true, 0) == s2;
  }

  /** The last three: the stop channel, the monitor and the role. */
  lemma LastTurns(c: Config, s: System)
    requires s.loop.WatchReset?
    ensures var n := s.node;
      Run(c, s, [TURN, TURN] + [TURN]) == s.(loop := Idle,
        node := n.(stop := Some(n.made), made := n.made + 1, monitors := n.monitors + [PastTick], role := Secondary))
  {
    RunConcat(c, s, [TURN, TURN], [TURN]);
    RunTwo(c, s, TURN, TURN);
    RunOne(c, Run(c, s, [TURN, TURN]), TURN);
  }

  /** A transition to secondary, from its first write to its last. */
  lemma SevenTurns(c: Config, s: System)
    requires s.loop == CleaningServer(Secondary)
    ensures Run(c, s, SEVEN_TURNS) == s.(node := Became(s.node), loop := Idle)
  {
    FirstTurns(c, s);
    LastTurns(c, Run(c, s, [TURN, TURN, TURN, TURN]));
    RunConcat(c, s, [TURN, TURN, TURN, TURN], [TURN, TURN] + [TURN]);
    assert [TURN, TURN, TURN, TURN] + ([TURN, TURN] + [TURN]) == SEVEN_TURNS;
  }

  /** A whole transition to secondary. */
  lemma TransitionRound(c: Config, s: System)
    requires s.loop.Idle? && s.node.queue == Some(Secondary)
    ensures Run(c, s, [TURN] + SEVEN_TURNS) == s.(node := Became(s.node.(queue := None)))
  {
    RunConcat(c, s, [TURN], SEVEN_TURNS);
    RunOne(c, s, TURN);
    SevenTurns(c, s.(node := s.node.(queue := None), loop := CleaningServer(Secondary)));
  }

  /** Whatever is to be created can be. */
  predicate Succeeding(es: seq<Event>) {
    forall e :: e in es ==> e.Turn? ==> e.created
  }

  lemma {:induction false} CreationsSucceed(c: Config, es: seq<Event>)
    requires Succeeding(es)
    ensures NeverFailsPromotion(c, es)
  {
    if es != [] {
      assert es[|es| - 1] in es;
      CreationsSucceed(c, es[..|es| - 1]);
    }
  }

  /** Turns that follow a run. */
  lemma Continue(c: Config, es: seq<Event>, fs: seq<Event>, s: System, checks: bool, turns: bool)
    requires Keeps(c, START, es, checks, turns) && Run(c, START, es) == s
    requires (forall e :: e in fs ==> e.Turn?) && (turns ==> s.check.Resting?)
    ensures Keeps(c, START, es + fs, checks, turns) && Run(c, START, es + fs) == Run(c, s, fs)
  {
    TurnsKeep(c, s, fs, checks, turns);
    KeepsConcat(c, START, es, fs, checks, turns);
    RunConcat(c, START, es, fs);
  }

  /** Steps of a check that follow a run. */
  lemma ContinueChecks(c: Config, es: seq<Event>, fs: seq<Event>, s: System, checks: bool, turns: bool)
    requires Keeps(c, START, es, checks, turns) && Run(c, START, es) == s
    requires (forall e :: e in fs ==> ChecksElection(e)) && (checks ==> s.loop.Idle?)
    ensures Keeps(c, START, es + fs, checks, turns) && Run(c, START, es + fs) == Run(c, s, fs)
  {
    ChecksKeep(c, s, fs, checks, turns);
    KeepsConcat(c, START, es, fs, checks, turns);
    RunConcat(c, START, es, fs);
  }

  /** A new secondary that finds a second request to become one in the channel. */
  const STALE: System := START.(node := Became(INITIAL.(queue := Some(Secondary))))

  /** A check that runs inside the transition that it asked for asks for it again. */
  lemma CheckInsideTransition(c: Config) returns (es: seq<Event>)
    requires !AlwaysPrimary(c)
    ensures Keeps(c, START, es, false, true) && Run(c, START, es) == STALE && Succeeding(es)
  {
    hide Run, Keeps, CheckKeepsOut, TurnKeepsOut;
    var check := THREE_CHECKS + [Send];
    CheckRound(c, START);
    ChecksKeep(c, START, check, false, true);
    var s1 := START.(node := INITIAL.(queue := Some(Secondary)));
    Continue(c, check, [TURN], s1, false, true);
    RunOne(c, s1, TURN);
    var s2 := START.(loop := CleaningServer(Secondary));
    ChecksKeep(c, s2, check, false, true);
    ContinueChecks(c, check + [TURN], check, s2, false, true);
    CheckRound(c, s2);
    var s3 := s2.(node := s1.node);
    Continue(c, check + [TURN] + check, SEVEN_TURNS, s3, false, true);
    SevenTurns(c, s3);
    es := check + [TURN] + check + SEVEN_TURNS;
  }

  /** So does a check that is about to send when the transition that the one before asked for begins and ends. */
  lemma TransitionInsideCheck(c: Config) returns (es: seq<Event>)
    requires !AlwaysPrimary(c)
    ensures Keeps(c, START, es, true, false) && Run(c, START, es) == STALE && Succeeding(es)
  {
    hide Run, Keeps, LoopStep, CheckKeepsOut, TurnKeepsOut;
    var check, round := THREE_CHECKS + [Send], [TURN] + SEVEN_TURNS;
    CheckRound(c, START);
    ChecksKeep(c, START, check, true, false);
    var s1 := START.(node := INITIAL.(queue := Some(Secondary)));
    ContinueChecks(c, check, THREE_CHECKS, s1, true, false);
    CheckUpToSend(c, s1);
    var s2 := s1.(check := Sending(Secondary));
    Continue(c, check + THREE_CHECKS, round, s2, true, false);
    TransitionRound(c, s2);
    var s3 := s2.(node := Became(INITIAL));
    ContinueChecks(c, check + THREE_CHECKS + round, [Send], s3, true, false);
    RunOne(c, s3, Send);
    es := check + THREE_CHECKS + round + [Send];
  }

  lemma {:induction false} KeepsLess(c: Config, s: System, es: seq<Event>, checks: bool, turns: bool)
    requires Keeps(c, s, es, checks, turns)
    ensures Keeps(c, s, es, false, turns) && Keeps(c, s, es, checks, false)
  {
    if es != [] {
      KeepsLess(c, s, es[..|es| - 1], checks, turns);
    }
  }

  lemma StaleRequest(c: Config, checks: bool, turns: bool) returns (es: seq<Event>)
    requires !AlwaysPrimary(c) && !(checks && turns)
    ensures Keeps(c, START, es, checks, turns) && Run(c, START, es) == STALE && Succeeding(es)
  {
    if checks {
      es := TransitionInsideCheck(c);
    } else {
      es := CheckInsideTransition(c);
      KeepsLess(c, START, es, false, true);
    }
  }

  /** A run that keeps the given conditions and ends with an idle secondary that has two monitors. */
  predicate Twice(c: Config, es: seq<Event>, checks: bool, turns: bool) {
    var s := Run(c, START, es);
    Keeps(c, START, es, checks, turns) && s.loop.Idle? && s.node.role == Secondary && |s.node.monitors| == 2
  }

  /** The second request is granted as well, and the secondary has two monitors. */
  lemma SecondMonitor(c: Config, checks: bool, turns: bool) returns (es: seq<Event>)
    requires !AlwaysPrimary(c) && !(checks && turns)
    ensures Twice(c, es, checks, turns)
  {
    hide Run, Keeps, LoopStep;
    es := StaleRequest(c, checks, turns);
    Continue(c, es, [TURN] + SEVEN_TURNS, STALE, checks, turns);
    TransitionRound(c, STALE);
    es := es + ([TURN] + SEVEN_TURNS);
  }

  /**
   Which of the two conditions rule out a second monitor: both together do, and neither alone
   does, unless the configuration forces the node to be primary.
   */
  lemma OneMonitorExactly(c: Config, checks: bool, turns: bool)
    requires c.limits.Valid()
    ensures (forall es :: Keeps(c, START, es, checks, turns) ==> |Run(c, START, es).node.monitors| <= 1)
       <==> (checks && turns) || AlwaysPrimary(c)
  {
    if checks && turns {
      forall es | Keeps(c, START, es, checks, turns)
        ensures |Run(c, START, es).node.monitors| <= 1
      {
        OneMonitor(c, es);
      }
    } else if AlwaysPrimary(c) {
      forall es
        ensures |Run(c, START, es).node.monitors| <= 1
      {
        OwnerNeverSecondary(c, es);
      }
    } else {
      var es := SecondMonitor(c, checks, turns);
      assert Keeps(c, START, es, checks, turns) && |Run(c, START, es).node.monitors| == 2;
    }
  }
}
