/**
 The role state machine of one node: election checks, role transitions, the heartbeat monitor
 and the Heartbeat handler, each as one step. `Interleaving` splits these steps further.
 */
module Leader {
  import opened Wrappers
  import opened Heartbeat

  datatype Role = Unknown | Primary | Secondary

  /**
   Where a monitor goroutine is: blocked in its select on a stop channel, past a tick, or about to
   ask for promotion.
   */
  datatype Monitor =
    | Selecting(stop: Option<nat>)
    | PastTick
    | Firing

  /**
   The shared state of a node. Stop channels are numbered in the order they are made; closing
   a closed one panics.
   */
  datatype Node = Node(
    role: Role,
    queue: Option<Role>,       // the one-slot role channel
    server: bool,
    client: bool,
    watch: Watch,
    stop: Option<nat>,         // the heartbeat stop channel
    made: nat,                 // stop channels made so far
    closed: set<nat>,
    monitors: seq<Monitor>,
    panicked: bool)

  /** The zero time, long before any heartbeat. */
  const ZERO_TIME: int := -62_135_596_800_000_000_000

  const INITIAL: Node := Node(Unknown, None, false, false, Watch(ZERO_TIME, 0), None, 0, {}, [], false)

  // ---------------------------------------------------------------- configuration

  const SECOND: int := 1_000_000_000

  class LeaderConfig {
    var eniIP: string
    var port: int
    var leaderCheckInterval: int
    var syncInterval: int
    var heartbeatInterval: int
    var heartbeatMissThreshold: int
    var localSocket: string
    var disableENICheck: bool
    var forceRole: string

    constructor (eniIP: string, port: int, leaderCheckInterval: int, syncInterval: int, heartbeatInterval: int,
                 heartbeatMissThreshold: int, localSocket: string, disableENICheck: bool, forceRole: string)
      ensures this.eniIP == eniIP && this.localSocket == localSocket && this.disableENICheck == disableENICheck
      ensures this.heartbeatInterval == heartbeatInterval && this.heartbeatMissThreshold == heartbeatMissThreshold
      ensures this.forceRole == forceRole && this.port == port
      ensures this.leaderCheckInterval == leaderCheckInterval && this.syncInterval == syncInterval
    {
      this.eniIP, this.port, this.leaderCheckInterval := eniIP, port, leaderCheckInterval;
      this.syncInterval, this.heartbeatInterval := syncInterval, heartbeatInterval;
      this.heartbeatMissThreshold, this.localSocket := heartbeatMissThreshold, localSocket;
      this.disableENICheck, this.forceRole := disableENICheck, forceRole;
    }

    function Limits(): Limits reads this { Heartbeat.Limits(heartbeatInterval, heartbeatMissThreshold) }

    /** The defaults of the timing fields. */
    method FillTimings()
      modifies `leaderCheckInterval, `syncInterval, `heartbeatInterval, `heartbeatMissThreshold
      ensures leaderCheckInterval == if old(leaderCheckInterval) > 0 then old(leaderCheckInterval) else 30 * SECOND
      ensures syncInterval == if old(syncInterval) > 0 then old(syncInterval) else 10 * SECOND
      ensures heartbeatInterval == if old(heartbeatInterval) > 0 then old(heartbeatInterval) else SECOND / 25
      ensures heartbeatMissThreshold == if old(heartbeatMissThreshold) > 0 then old(heartbeatMissThreshold) else 3
    {
      if leaderCheckInterval <= 0 {
        leaderCheckInterval := 30 * SECOND;
      }
      if syncInterval <= 0 {
        syncInterval := 10 * SECOND;
      }
      if heartbeatInterval <= 0 {
        heartbeatInterval := 40 * (SECOND / 1000);
      }
      if heartbeatMissThreshold <= 0 {
        heartbeatMissThreshold := 3;
      }
    }

    /** Fills in defaults; `parses` tells whether the ENI address is a valid IP address. */
    method Validate(parses: bool) returns (ok: bool)
      modifies this
      ensures ok <==>
        && old(eniIP) != "" && (old(disableENICheck) || parses) && old(localSocket) != ""
        && (old(forceRole) == "" || old(forceRole) == "primary" || old(forceRole) == "secondary")
      ensures ok ==> Limits().Valid() && port == (if old(port) == 0 then 1022 else old(port))
      ensures ok ==>
        leaderCheckInterval == (if old(leaderCheckInterval) > 0 then old(leaderCheckInterval) else 30 * SECOND)
      ensures ok ==> syncInterval == (if old(syncInterval) > 0 then old(syncInterval) else 10 * SECOND)
      ensures ok ==> heartbeatInterval == (if old(heartbeatInterval) > 0 then old(heartbeatInterval) else SECOND / 25)
      ensures ok ==>
        heartbeatMissThreshold == (if old(heartbeatMissThreshold) > 0 then old(heartbeatMissThreshold) else 3)
      ensures eniIP == old(eniIP) && localSocket == old(localSocket)
      ensures disableENICheck == old(disableENICheck) && forceRole == old(forceRole)
    {
      if eniIP == "" {
        return false;
      }
      if !disableENICheck {
        if !parses {
          return false;
        }
      }
      if port == 0 {
        port := 1022;
      }
      if localSocket == "" {
        return false;
      }
      FillTimings();
      if forceRole != "" && forceRole != "primary" && forceRole != "secondary" {
        return false;
      }
      return true;
    }
  }

  /** What the steps need to know of a validated configuration. */
  datatype Config = Config(limits: Limits, disableENICheck: bool, forceRole: string)

  // ---------------------------------------------------------------- steps

  /** The outcome of asking AWS who owns the ENI address. */
  datatype Probe = ProbeError | Owns(owns: bool)

  datatype Event =
    | Election(probe: Probe)
    | Transition(created: bool, now: int)   // created: the server or client could be created
    | MonitorTick(i: nat, now: int)
    | MonitorStop(i: nat)
    | BeatArrives(now: int)

  /** The role an election check arrives at, if any. */
  function Elected(c: Config, probe: Probe): Option<Role> {
    if c.disableENICheck then Some(if c.forceRole == "primary" then Primary else Secondary)
    else if probe.ProbeError? then None
    else Some(if probe.owns then Primary else Secondary)
  }

  /** A send that gives up when the role channel is full. */
  function Offer(n: Node, r: Role): Node {
    if n.queue.None? then n.(queue := Some(r)) else n
  }

  function ElectionCheck(c: Config, n: Node, probe: Probe): Node {
    if n.role == Secondary then n
    else
      match Elected(c, probe)
      case None => n
      case Some(r) => if r != n.role then Offer(n, r) else n
  }

  function CleanedUp(n: Node): Node {
    n.(server := false, client := false)
  }

  /** `close` and clear the stop channel, if there is one. */
  function CloseStop(n: Node): Node {
    match n.stop
    case None => n
    case Some(ch) => n.(stop := None, closed := n.closed + {ch}, panicked := n.panicked || ch in n.closed)
  }

  function AsPrimary(n: Node, created: bool): Node {
    if created then CloseStop(n.(server := true)).(watch := Watch(ZERO_TIME, 0)) else n
  }

  function AsSecondary(n: Node, created: bool, now: int): Node {
    if created then
      n.(client := true, watch := OnBeat(now), stop := Some(n.made), made := n.made + 1,
         monitors := n.monitors + [Selecting(Some(n.made))])
    else n
  }

  /** Whether a transition to the role succeeds. */
  predicate Succeeds(r: Role, created: bool) { created && r != Unknown }

  function TransitionTo(n: Node, r: Role, created: bool, now: int): Node {
    match r
    case Primary => AsPrimary(CleanedUp(n), created)
    case Secondary => AsSecondary(CleanedUp(n), created, now)
    case Unknown => CleanedUp(n)
  }

  /** Receives a role from the channel, makes the transition, and writes the role if it succeeded. */
  function TransitionStep(n: Node, created: bool, now: int): Node {
    match n.queue
    case None => n
    case Some(r) =>
      var m := TransitionTo(n.(queue := None), r, created, now);
      if Succeeds(r, created) then m.(role := r) else m
  }

  function WithoutMonitor(n: Node, i: nat): Node
    requires i < |n.monitors|
  {
    n.(monitors := n.monitors[..i] + n.monitors[i + 1..])
  }

  predicate Live(n: Node, i: nat) {
    i < |n.monitors| && n.monitors[i].Selecting?
  }

  /** One tick of monitor `i`: it goes on selecting on the current stop channel, or asks for promotion and returns. */
  function TickStep(c: Config, n: Node, i: nat, now: int): Node {
    if !Live(n, i) then n
    else
      var (w, fire) := OnTick(n.watch, now, c.limits);
      if fire then Offer(WithoutMonitor(n, i).(watch := w), Primary)
      else n.(watch := w, monitors := n.monitors[i := Selecting(n.stop)])
  }

  /** A monitor returns when the channel it selects on is closed. */
  function StopStep(n: Node, i: nat): Node {
    if Live(n, i) && n.monitors[i].stop.Some? && n.monitors[i].stop.value in n.closed then WithoutMonitor(n, i) else n
  }

  /** The Heartbeat handler accepts heartbeats on a secondary only. */
  function BeatStep(n: Node, now: int): Node {
    if n.role == Secondary then n.(watch := OnBeat(now)) else n
  }

  function Next(c: Config, n: Node, e: Event): Node {
    match e
    case Election(probe) => ElectionCheck(c, n, probe)
    case Transition(created, now) => TransitionStep(n, created, now)
    case MonitorTick(i, now) => TickStep(c, n, i, now)
    case MonitorStop(i) => StopStep(n, i)
    case BeatArrives(now) => BeatStep(n, now)
  }

  function After(c: Config, es: seq<Event>): Node {
    if es == [] then INITIAL else Next(c, After(c, es[..|es| - 1]), es[|es| - 1])
  }

  // ---------------------------------------------------------------- the node as it runs

  class LeaderFailover {
    const config: Config
    var currentRole: Role
    var roleCh: Option<Role>
    var frpcServer: bool
    var frpcClient: bool
    var lastHeartbeat: int
    var missedHeartbeats: nat
    var heartbeatStopCh: Option<nat>
    var channelsMade: nat
    var channelsClosed: set<nat>
    var monitors: seq<Monitor>
    var panicked: bool

    function View(): Node reads this {
      Node(currentRole, roleCh, frpcServer, frpcClient, Watch(lastHeartbeat, missedHeartbeats),
           heartbeatStopCh, channelsMade, channelsClosed, monitors, panicked)
    }

    constructor (config: Config)
      ensures View() == INITIAL && this.config == config
    {
      this.config := config;
      currentRole, roleCh, frpcServer, frpcClient := Unknown, None, false, false;
      lastHeartbeat, missedHeartbeats := ZERO_TIME, 0;
      heartbeatStopCh, channelsMade, channelsClosed, monitors, panicked := None, 0, {}, [], false;
    }

    method TrySend(r: Role)
      modifies this`roleCh
      ensures View() == Offer(old(View()), r)
      ensures roleCh == if old(roleCh).None? then Some(r) else old(roleCh)
    {
      if roleCh == None {
        roleCh := Some(r);
      }
    }

    /** One tick of the election loop. */
    method LeaderElectionTick(probe: Probe)
      modifies this
      ensures View() == Next(config, old(View()), Election(probe))
      ensures View() == old(View()).(queue := roleCh)
      ensures old(currentRole) == Secondary || old(roleCh).Some? ==> roleCh == old(roleCh)
      ensures !config.disableENICheck && probe.ProbeError? ==> roleCh == old(roleCh)
      ensures old(currentRole) != Secondary && old(roleCh).None? && !config.disableENICheck && probe.Owns? ==>
        roleCh == if !probe.owns then Some(Secondary) else if currentRole == Primary then None else Some(Primary)
      ensures old(currentRole) != Secondary && old(roleCh).None? && config.disableENICheck ==>
        roleCh == if config.forceRole != "primary" then Some(Secondary)
                  else if currentRole == Primary then None else Some(Primary)
    {
      if currentRole == Secondary {
        return;
      }
      var newRole;
      if config.disableENICheck {
        if config.forceRole == "primary" {
          newRole := Primary;
        } else {
          newRole := Secondary;
        }
      } else {
        if probe.ProbeError? {
          return;
        }
        newRole := Secondary;
        if probe.owns {
          newRole := Primary;
        }
      }
      if newRole != currentRole {
        TrySend(newRole);
      }
    }

    method Cleanup()
      modifies this
      ensures View() == CleanedUp(old(View()))
      ensures View() == old(View()).(server := false, client := false)
    {
      if frpcServer {
        frpcServer := false;
      }
      if frpcClient {
        frpcClient := false;
      }
    }

    method BecomePrimary(created: bool) returns (ok: bool)
      modifies this
      ensures ok == created
      ensures View() == AsPrimary(old(View()), created)
      ensures !ok ==> View() == old(View())
      ensures ok ==> frpcServer && heartbeatStopCh == None && lastHeartbeat == ZERO_TIME && missedHeartbeats == 0
      ensures ok && old(heartbeatStopCh).None? ==>
        channelsClosed == old(channelsClosed) && panicked == old(panicked)
      ensures ok && old(heartbeatStopCh).Some? ==>
        var ch := old(heartbeatStopCh).value;
        channelsClosed == old(channelsClosed) + {ch} && panicked == (old(panicked) || ch in old(channelsClosed))
      ensures currentRole == old(currentRole) && roleCh == old(roleCh) && frpcClient == old(frpcClient)
      ensures channelsMade == old(channelsMade) && monitors == old(monitors)
    {
      if !created {
        return false;
      }
      frpcServer := true;
      if heartbeatStopCh.Some? {
        if heartbeatStopCh.value in channelsClosed {
          panicked := true;
        }
        channelsClosed := channelsClosed + {heartbeatStopCh.value};
        heartbeatStopCh := None;
      }
      lastHeartbeat := ZERO_TIME;
      missedHeartbeats := 0;
      return true;
    }

    method BecomeSecondary(created: bool, now: int) returns (ok: bool)
      modifies this
      ensures ok == created
      ensures View() == AsSecondary(old(View()), created, now)
      ensures !ok ==> View() == old(View())
      ensures ok ==> frpcClient && lastHeartbeat == now && missedHeartbeats == 0
      ensures ok ==> heartbeatStopCh == Some(old(channelsMade)) && channelsMade == old(channelsMade) + 1
      ensures ok ==> monitors == old(monitors) + [Selecting(heartbeatStopCh)]
      ensures currentRole == old(currentRole) && roleCh == old(roleCh) && frpcServer == old(frpcServer)
      ensures channelsClosed == old(channelsClosed) && panicked == old(panicked)
    {
      if !created {
        return false;
      }
      frpcClient := true;
      lastHeartbeat := now;
      missedHeartbeats := 0;
      heartbeatStopCh := Some(channelsMade);
      channelsMade := channelsMade + 1;
      monitors := monitors + [Selecting(heartbeatStopCh)];
      return true;
    }

    method TransitionToRole(newRole: Role, created: bool, now: int) returns (ok: bool)
      modifies this
      ensures ok == Succeeds(newRole, created)
      ensures View() == TransitionTo(old(View()), newRole, created, now)
      ensures ok <==> created && newRole != Unknown
      ensures !ok ==> View() == old(View()).(server := false, client := false)
      ensures ok ==> (frpcServer <==> newRole == Primary) && (frpcClient <==> newRole == Secondary)
    {
      Cleanup();
      match newRole
      case Primary => ok := BecomePrimary(created);
      case Secondary => ok := BecomeSecondary(created, now);
      case Unknown => ok := false;
    }

    /** One turn of the role management loop. */
    method RoleManagementStep(created: bool, now: int)
      modifies this
      ensures View() == Next(config, old(View()), Transition(created, now))
      ensures roleCh == None && (old(roleCh).None? ==> View() == old(View()))
      ensures var goes := old(roleCh).Some? && old(roleCh).value != Unknown && created;
        currentRole == if goes then old(roleCh).value else old(currentRole)
    {
      if roleCh.Some? {
        var newRole := roleCh.value;
        roleCh := None;
        var ok := TransitionToRole(newRole, created, now);
        if ok {
          currentRole := newRole;
        }
      }
    }

    /** One tick of monitor `i`. */
    method HeartbeatMonitorTick(i: nat, now: int)
      modifies this
      ensures View() == Next(config, old(View()), MonitorTick(i, now))
      ensures !(i < |old(monitors)| && old(monitors)[i].Selecting?) ==> View() == old(View())
      ensures i < |old(monitors)| && old(monitors)[i].Selecting? ==>
        var late := now - lastHeartbeat > config.limits.interval;
        var fires := late && old(missedHeartbeats) + 1 >= config.limits.threshold;
        && missedHeartbeats == (if fires then 0 else if late then old(missedHeartbeats) + 1 else old(missedHeartbeats))
        && monitors == (if fires then old(monitors)[..i] + old(monitors)[i + 1..]
                        else old(monitors)[i := Selecting(heartbeatStopCh)])
        && roleCh == (if fires && old(roleCh).None? then Some(Primary) else old(roleCh))
      ensures View() == old(View()).(queue := roleCh, watch := View().watch, monitors := monitors)
      ensures lastHeartbeat == old(lastHeartbeat)
    {
      if !(i < |monitors| && monitors[i].Selecting?) {
        return;
      }
      var timeSinceLastHeartbeat := now - lastHeartbeat;
      if timeSinceLastHeartbeat > config.limits.interval {
        missedHeartbeats := missedHeartbeats + 1;
        if missedHeartbeats >= config.limits.threshold {
          missedHeartbeats := 0;
          monitors := monitors[..i] + monitors[i + 1..];
          TrySend(Primary);
          return;
        }
      }
      monitors := monitors[i := Selecting(heartbeatStopCh)];
    }

    /** The Heartbeat RPC. */
    method HeartbeatRpc(now: int) returns (success: bool)
      modifies this
      ensures success == (old(currentRole) == Secondary)
      ensures View() == Next(config, old(View()), BeatArrives(now))
      ensures View() == old(View()).(watch := if success then Watch(now, 0) else old(View().watch))
    {
      if currentRole != Secondary {
        return false;
      }
      lastHeartbeat := now;
      missedHeartbeats := 0;
      return true;
    }
  }
}
