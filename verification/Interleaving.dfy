/**
 The same node with its goroutines interleaved: every write of the role loop is a step of its
 own, and election checks, heartbeats and monitors can run between any two of them, up to
 shutdown.
 */
module Interleaving {
  import opened Wrappers
  import opened Heartbeat
  import opened Leader

  /** Where the role management loop is. */
  datatype Loop =
    | Idle
    | CleaningServer(target: Role)
    | CleaningClient(target: Role)
    | Entering(target: Role)      // about to create the server or the client
    | ServerUp
    | StopClosed
    | StopCleared
    | ClientUp
    | WatchReset
    | StopMade
    | Writing(target: Role)       // about to write the role

  /** Where the election loop is. */
  datatype Check = Resting | Probing | Comparing(found: Role) | Sending(found: Role)

  datatype System = System(
    node: Node,
    loop: Loop,
    check: Check,
    beats: nat,      // heartbeat handlers that have passed the role check
    failed: bool)    // some transition has failed

  const START: System := System(INITIAL, Idle, Resting, 0, false)

  datatype Event =
    | Turn(created: bool, now: int)
    | CheckRole
    | Probed(probe: Probe)
    | Compare
    | Send
    | Ticks(i: nat, now: int)
    | Selects(i: nat)
    | Asks(i: nat)
    | Stops(i: nat)
    | BeatChecks
    | BeatWrites(now: int)

  /** One step of the role management loop. */
  function LoopStep(s: System, created: bool, now: int): System {
    var n := s.node;
    match s.loop
    case Idle =>
      if n.queue.None? then s else s.(node := n.(queue := None), loop := CleaningServer(n.queue.value))
    case CleaningServer(r) => s.(node := n.(server := false), loop := CleaningClient(r))
    case CleaningClient(r) => s.(node := n.(client := false), loop := Entering(r))
    case Entering(r) =>
      if !Succeeds(r, created) then s.(loop := Idle, failed := true)
      else if r == Primary then s.(node := n.(server := true), loop := ServerUp)
      else s.(node := n.(client := true), loop := ClientUp)
    case ServerUp =>
      if n.stop.None? then s.(loop := StopCleared)
      else s.(node := CloseStop(n).(stop := n.stop), loop := StopClosed)
    case StopClosed => s.(node := n.(stop := None), loop := StopCleared)
    case StopCleared => s.(node := n.(watch := Watch(ZERO_TIME, 0)), loop := Writing(Primary))
    case ClientUp => s.(node := n.(watch := OnBeat(now)), loop := WatchReset)
    case WatchReset => s.(node := n.(stop := Some(n.made), made := n.made + 1), loop := StopMade)
    case StopMade => s.(node := n.(monitors := n.monitors + [PastTick]), loop := Writing(Secondary))
    case Writing(r) => s.(node := n.(role := r), loop := Idle)
  }

  function SetMonitor(n: Node, i: nat, m: Monitor): Node
    requires i < |n.monitors|
  {
    n.(monitors := n.monitors[i := m])
  }

  function Next(c: Config, s: System, e: Event): System {
    var n := s.node;
    match e
    case Turn(created, now) => LoopStep(s, created, now)
    case CheckRole =>
      if s.check.Resting? && n.role != Secondary then s.(check := Probing) else s
    case Probed(probe) =>
      if s.check.Probing? then
        s.(check := if Elected(c, probe).Some? then Comparing(Elected(c, probe).value) else Resting)
      else s
    case Compare =>
      if s.check.Comparing? then s.(check := if s.check.found != n.role then Sending(s.check.found) else Resting) else s
    case Send =>
      if s.check.Sending? then s.(node := Offer(n, s.check.found), check := Resting) else s
    case Ticks(i, now) =>
      if Live(n, i) then
        var (w, fire) := OnTick(n.watch, now, c.limits);
        s.(node := SetMonitor(n, i, if fire then Firing else PastTick).(watch := w))
      else s
    case Selects(i) =>
      if i < |n.monitors| && n.monitors[i].PastTick? then s.(node := SetMonitor(n, i, Selecting(n.stop))) else s
    case Asks(i) =>
      if i < |n.monitors| && n.monitors[i].Firing? then s.(node := Offer(WithoutMonitor(n, i), Primary)) else s
    case Stops(i) => s.(node := StopStep(n, i))
    case BeatChecks => if n.role == Secondary then s.(beats := s.beats + 1) else s
    case BeatWrites(now) => if s.beats > 0 then s.(node := n.(watch := OnBeat(now)), beats := s.beats - 1) else s
  }

  function Run(c: Config, s: System, es: seq<Event>): System {
    if es == [] then s else Next(c, Run(c, s, es[..|es| - 1]), es[|es| - 1])
  }

  // ---------------------------------------------------------------- what every interleaving keeps

  /** The role the loop is working towards. */
  predicate TargetKnown(l: Loop) {
    match l
    case CleaningServer(r) => r != Unknown
    case CleaningClient(r) => r != Unknown
    case Entering(r) => r != Unknown
    case Writing(r) => r != Unknown
    case _ => true
  }

  /** Server and client agree with the role between transitions, and with the progress of a transition within one. */
  predicate Agrees(s: System) {
    var n := s.node;
    match s.loop
    case Idle => (n.server <==> n.role == Primary) && (n.client <==> n.role == Secondary)
    case CleaningServer(_) => (n.server <==> n.role == Primary) && (n.client <==> n.role == Secondary)
    case CleaningClient(_) => !n.server
    case Entering(_) => !n.server && !n.client
    case ServerUp => n.server && !n.client
    case StopClosed => n.server && !n.client
    case StopCleared => n.server && !n.client
    case ClientUp => n.client && !n.server
    case WatchReset => n.client && !n.server
    case StopMade => n.client && !n.server
    case Writing(r) => (n.server <==> r == Primary) && (n.client <==> r == Secondary)
  }

  /** The same when some transition may have failed: then an idle node may have neither. */
  predicate Exclusive(s: System) {
    var n := s.node;
    match s.loop
    case Idle => !(n.server && n.client)
    case CleaningServer(_) => !(n.server && n.client)
    case CleaningClient(_) => !n.server
    case Entering(_) => !n.server && !n.client
    case ServerUp => !n.client
    case StopClosed => !n.client
    case StopCleared => !n.client
    case ClientUp => !n.server
    case WatchReset => !n.server
    case StopMade => !n.server
    case Writing(_) => !(n.server && n.client)
  }

  ghost predicate Inv(c: Config, s: System) {
    && Exclusive(s)
    && (!s.failed ==> Agrees(s))
    && TargetKnown(s.loop)
    && s.node.queue != Some(Unknown)
    && s.check != Comparing(Unknown) && s.check != Sending(Unknown)
    && s.node.watch.missed < c.limits.threshold
    && (forall ch :: ch in s.node.closed ==> ch < s.node.made)
    && (s.node.stop.Some? ==>
         s.node.stop.value < s.node.made && (s.node.stop.value in s.node.closed ==> s.loop.StopClosed?))
    && !s.node.panicked
  }

  lemma LoopKeepsInv(c: Config, s: System, created: bool, now: int)
    requires c.limits.Valid() && Inv(c, s)
    ensures Inv(c, LoopStep(s, created, now))
    ensures s.node.role != Unknown ==> LoopStep(s, created, now).node.role != Unknown
  {
    match s.loop
    case Idle =>
    case CleaningServer(_) =>
    case CleaningClient(_) =>
    case Entering(_) =>
    case ServerUp =>
    case StopClosed =>
    case StopCleared =>
    case ClientUp =>
    case WatchReset =>
    case StopMade =>
    case Writing(_) =>
  }

  lemma OthersKeepInv(c: Config, s: System, e: Event)
    requires c.limits.Valid() && Inv(c, s) && !e.Turn?
    ensures Inv(c, Next(c, s, e)) && Next(c, s, e).node.role == s.node.role
  {
    hide LoopStep;
    match e
    case CheckRole =>
    case Probed(_) =>
    case Compare =>
    case Send =>
    case Ticks(_, _) =>
    case Selects(_) =>
    case Asks(_) =>
    case Stops(_) =>
    case BeatChecks =>
    case BeatWrites(_) =>
  }

  lemma InvStep(c: Config, s: System, e: Event)
    requires c.limits.Valid() && Inv(c, s)
    ensures Inv(c, Next(c, s, e))
    ensures s.node.role != Unknown ==> Next(c, s, e).node.role != Unknown
  {
    if e.Turn? {
      LoopKeepsInv(c, s, e.created, e.now);
    } else {
      OthersKeepInv(c, s, e);
    }
  }

  lemma {:induction false} InvAlways(c: Config, es: seq<Event>)
    requires c.limits.Valid()
    ensures Inv(c, Run(c, START, es))
  {
    if es != [] {
      InvAlways(c, es[..|es| - 1]);
      InvStep(c, Run(c, START, es[..|es| - 1]), es[|es| - 1]);
    }
  }

  /**
   Role and resources, over every interleaving: server and client are never both set; while no
   transition has failed, an idle role loop has the server exactly as primary and the client
   exactly as secondary; the channel never holds Unknown; no stop channel is closed twice; and
   the miss counter is below the threshold.
   */
  lemma RoleAndResources(c: Config, es: seq<Event>)
    requires c.limits.Valid()
    ensures var s := Run(c, START, es);
      && !(s.node.server && s.node.client)
      && (!s.failed && s.loop.Idle? ==>
           (s.node.role == Primary <==> s.node.server) && (s.node.role == Secondary <==> s.node.client))
      && s.node.queue != Some(Unknown)
      && !s.node.panicked
      && s.node.watch.missed < c.limits.threshold
  {
    InvAlways(c, es);
  }

  /** Once a node has a role it never goes back to having none. */
  lemma {:induction false} RoleNeverUnknownAgain(c: Config, es: seq<Event>, more: seq<Event>)
    requires c.limits.Valid() && Run(c, START, es).node.role != Unknown
    ensures Run(c, START, es + more).node.role != Unknown
  {
    if more == [] {
      assert es + more == es;
    } else {
      RoleNeverUnknownAgain(c, es, more[..|more| - 1]);
      assert (es + more)[..|es + more| - 1] == es + more[..|more| - 1];
      InvAlways(c, es + more[..|more| - 1]);
      InvStep(c, Run(c, START, es + more[..|more| - 1]), more[|more| - 1]);
    }
  }

  // ---------------------------------------------------------------- the atomic steps are sequences of these

  lemma {:induction false} RunConcat(c: Config, s: System, es: seq<Event>, fs: seq<Event>)
    ensures Run(c, s, es + fs) == Run(c, Run(c, s, es), fs)
  {
    if fs == [] {
      assert es + fs == es;
    } else {
      assert (es + fs)[..|es + fs| - 1] == es + fs[..|fs| - 1];
      RunConcat(c, s, es, fs[..|fs| - 1]);
    }
  }

  lemma RunOne(c: Config, s: System, e: Event)
    ensures Run(c, s, [e]) == Next(c, s, e)
  {
    assert [e][..0] == [];
  }

  lemma RunTwo(c: Config, s: System, e: Event, f: Event)
    ensures Run(c, s, [e, f]) == Next(c, Next(c, s, e), f)
  {
    RunConcat(c, s, [e], [f]);
    RunOne(c, s, e);
    RunOne(c, Next(c, s, e), f);
    assert [e] + [f] == [e, f];
  }

  lemma RunFour(c: Config, s: System, e: Event, f: Event, g: Event, h: Event)
    ensures Run(c, s, [e, f, g, h]) == Next(c, Next(c, Next(c, Next(c, s, e), f), g), h)
  {
    RunConcat(c, s, [e, f], [g, h]);
    RunTwo(c, s, e, f);
    RunTwo(c, Next(c, Next(c, s, e), f), g, h);
    assert [e, f] + [g, h] == [e, f, g, h];
  }

  /** Four turns of the role management loop. */
  function FourTurns(created: bool, now: int): seq<Event> {
    [Turn(created, now), Turn(created, now), Turn(created, now), Turn(created, now)]
  }

  /** No goroutine is in the middle of anything. */
  function AtRest(n: Node, failed: bool): System {
    System(n, Idle, Resting, 0, failed)
  }

  predicate AllSelecting(n: Node) {
    forall i :: 0 <= i < |n.monitors| ==> n.monitors[i].Selecting?
  }

  /** An atomic step, taken apart. */
  function Expand(n: Node, e: Leader.Event): seq<Event> {
    match e
    case Election(probe) => [CheckRole, Probed(probe), Compare, Send]
    case Transition(created, now) => FourTurns(created, now) + FourTurns(created, now) + [Selects(|n.monitors|)]
    case MonitorTick(i, now) => [Ticks(i, now), Asks(i)] + [Selects(i)]
    case MonitorStop(i) => [Stops(i)]
    case BeatArrives(now) => [BeatChecks, BeatWrites(now)]
  }

  predicate Refused(n: Node, e: Leader.Event) {
    e.Transition? && n.queue.Some? && !Succeeds(n.queue.value, e.created)
  }

  lemma TransitionExpands(c: Config, n: Node, failed: bool, created: bool, now: int)
    requires AllSelecting(n)
    ensures var e := Transition(created, now);
      Run(c, AtRest(n, failed), Expand(n, e)) == AtRest(Leader.Next(c, n, e), failed || Refused(n, e))
  {
    var s := AtRest(n, failed);
    var t := Turn(created, now);
    RunFour(c, s, t, t, t, t);
    var s4 := Run(c, s, FourTurns(created, now));
    RunFour(c, s4, t, t, t, t);
    RunConcat(c, s, FourTurns(created, now), FourTurns(created, now));
    var s8 := Run(c, s4, FourTurns(created, now));
    RunOne(c, s8, Selects(|n.monitors|));
    RunConcat(c, s, FourTurns(created, now) + FourTurns(created, now), [Selects(|n.monitors|)]);
    AfterFourTurns(c, n, failed, created, now);
    AfterEightTurns(c, n, failed, created, now);
  }

  /** Half way through a transition: the old role's resources are gone, and the new one's first is there. */
  function Halfway(n: Node, failed: bool, created: bool): System {
    if n.queue.None? then AtRest(n, failed)
    else
      var r, m := n.queue.value, CleanedUp(n.(queue := None));
      if !Succeeds(r, created) then AtRest(m, true)
      else if r == Primary then AtRest(m.(server := true), failed).(loop := ServerUp)
      else AtRest(m.(client := true), failed).(loop := ClientUp)
  }

  lemma AfterFourTurns(c: Config, n: Node, failed: bool, created: bool, now: int)
    ensures var t := Turn(created, now);
      Next(c, Next(c, Next(c, Next(c, AtRest(n, failed), t), t), t), t) == Halfway(n, failed, created)
  {
  }

  lemma RestingTurns(n: Node, failed: bool, created: bool, now: int)
    requires n.queue.None?
    ensures var s := AtRest(n, failed);
      LoopStep(s, created, now) == s
  {
  }

  lemma PrimaryTurns(n: Node, failed: bool, now: int)
    requires n.queue.None?
    ensures var s := AtRest(n.(server := true), failed).(loop := ServerUp);
      var t := LoopStep(LoopStep(LoopStep(LoopStep(s, true, now), true, now), true, now), true, now);
      t == AtRest(AsPrimary(n, true).(role := Primary), failed)
  {
  }

  lemma SecondaryTurns(n: Node, failed: bool, now: int)
    ensures var s := AtRest(n.(client := true), failed).(loop := ClientUp);
      var t := LoopStep(LoopStep(LoopStep(LoopStep(s, true, now), true, now), true, now), true, now);
      t == AtRest(AsSecondary(n, true, now).(role := Secondary, monitors := n.monitors + [PastTick]), failed)
  {
  }

  lemma AfterEightTurns(c: Config, n: Node, failed: bool, created: bool, now: int)
    requires AllSelecting(n)
    ensures var t, e := Turn(created, now), Transition(created, now);
      var s8 := Next(c, Next(c, Next(c, Next(c, Halfway(n, failed, created), t), t), t), t);
      Next(c, s8, Selects(|n.monitors|)) == AtRest(Leader.Next(c, n, e), failed || Refused(n, e))
  {
    if n.queue.None? {
      RestingTurns(n, failed, created, now);
    } else {
      var r, m := n.queue.value, CleanedUp(n.(queue := None));
      if !Succeeds(r, created) {
        RestingTurns(m, true, created, now);
      } else if r == Primary {
        PrimaryTurns(m, failed, now);
      } else {
        SecondaryTurns(m, failed, now);
        assert (n.monitors + [PastTick])[|n.monitors| := Selecting(Some(n.made))]
            == n.monitors + [Selecting(Some(n.made))];
      }
    }
  }

  lemma AllSelectingKept(c: Config, n: Node, e: Leader.Event)
    requires AllSelecting(n)
    ensures AllSelecting(Leader.Next(c, n, e))
  {
    if e.MonitorTick? || e.MonitorStop? {
      var i := e.i;
      if i < |n.monitors| {
        forall j | 0 <= j < |n.monitors| - 1
          ensures WithoutMonitor(n, i).monitors[j].Selecting?
        {
          assert WithoutMonitor(n, i).monitors[j] == n.monitors[if j < i then j else j + 1];
        }
      }
    }
  }

  /** A tick, the request if the monitor fires, and the way back to its select. */
  lemma TickTakenApart(c: Config, n: Node, failed: bool, i: nat, now: int)
    requires AllSelecting(n)
    ensures Next(c, Next(c, Next(c, AtRest(n, failed), Ticks(i, now)), Asks(i)), Selects(i))
         == AtRest(Leader.Next(c, n, MonitorTick(i, now)), failed)
  {
    if Live(n, i) {
      var (w, fire) := OnTick(n.watch, now, c.limits);
      var m := SetMonitor(n, i, if fire then Firing else PastTick);
      if fire {
        assert WithoutMonitor(m, i).monitors == WithoutMonitor(n, i).monitors;
        AllSelectingKept(c, n, MonitorTick(i, now));
      } else {
        assert m.monitors[i := Selecting(n.stop)] == n.monitors[i := Selecting(n.stop)];
      }
    }
  }

  lemma TickExpands(c: Config, n: Node, failed: bool, i: nat, now: int)
    requires AllSelecting(n)
    ensures Run(c, AtRest(n, failed), Expand(n, MonitorTick(i, now)))
         == AtRest(Leader.Next(c, n, MonitorTick(i, now)), failed)
  {
    hide Next, Leader.Next, Run, AtRest, AllSelecting;
    var s := AtRest(n, failed);
    RunTwo(c, s, Ticks(i, now), Asks(i));
    RunConcat(c, s, [Ticks(i, now), Asks(i)], [Selects(i)]);
    RunOne(c, Run(c, s, [Ticks(i, now), Asks(i)]), Selects(i));
    TickTakenApart(c, n, failed, i, now);
  }

  lemma ElectionExpands(c: Config, n: Node, failed: bool, probe: Probe)
    ensures Run(c, AtRest(n, failed), Expand(n, Election(probe))) == AtRest(Leader.Next(c, n, Election(probe)), failed)
  {
    RunFour(c, AtRest(n, failed), CheckRole, Probed(probe), Compare, Send);
  }

  lemma BeatExpands(c: Config, n: Node, failed: bool, now: int)
    ensures Run(c, AtRest(n, failed), Expand(n, BeatArrives(now)))
         == AtRest(Leader.Next(c, n, BeatArrives(now)), failed)
  {
    RunTwo(c, AtRest(n, failed), BeatChecks, BeatWrites(now));
  }

  /** Every step of the atomic machine is a sequence of interleaved steps from rest to rest. */
  lemma StepExpands(c: Config, n: Node, failed: bool, e: Leader.Event)
    requires AllSelecting(n)
    ensures Run(c, AtRest(n, failed), Expand(n, e)) == AtRest(Leader.Next(c, n, e), failed || Refused(n, e))
  {
    match e
    case Election(probe) => ElectionExpands(c, n, failed, probe);
    case Transition(created, now) => TransitionExpands(c, n, failed, created, now);
    case MonitorTick(i, now) => TickExpands(c, n, failed, i, now);
    case MonitorStop(i) => RunOne(c, AtRest(n, failed), Stops(i));
    case BeatArrives(now) => BeatExpands(c, n, failed, now);
  }

  /** Every run of the atomic machine is a run of the interleaved one, so what the latter keeps the former keeps too. */
  lemma {:induction false} AtomicRunsInterleave(c: Config, es: seq<Leader.Event>)
    ensures AllSelecting(After(c, es))
    ensures exists fs, failed :: Run(c, START, fs) == AtRest(After(c, es), failed)
  {
    if es == [] {
      assert Run(c, START, []) == AtRest(After(c, es), false);
    } else {
      var prefix, e := es[..|es| - 1], es[|es| - 1];
      AtomicRunsInterleave(c, prefix);
      var fs, failed :| Run(c, START, fs) == AtRest(After(c, prefix), failed);
      var n := After(c, prefix);
      StepExpands(c, n, failed, e);
      AllSelectingKept(c, n, e);
      RunConcat(c, START, fs, Expand(n, e));
    }
  }
}
