/**
 The timing of the heartbeat monitor: a counter of late ticks, compared with the deadline it
 stands for. Times and durations are nanoseconds.
 */
module Heartbeat {
  import opened Wrappers

  /** The two counters that the monitor and the Heartbeat handler share. */
  datatype Watch = Watch(last: int, missed: nat)

  /** The monitor's settings after validation. */
  datatype Limits = Limits(interval: int, threshold: int)
  {
    predicate Valid() { interval > 0 && threshold >= 1 }

    function Patience(): int { threshold * interval }
  }

  /** A tick is late when more than one interval has passed since the last heartbeat. */
  predicate Late(w: Watch, now: int, c: Limits) {
    now - w.last > c.interval
  }

  /** The monitor's work on one tick: the counters it leaves, and whether it requests promotion. */
  function OnTick(w: Watch, now: int, c: Limits): (Watch, bool) {
    if !Late(w, now, c) then (w, false)
    else if w.missed + 1 >= c.threshold then (w.(missed := 0), true)
    else (w.(missed := w.missed + 1), false)
  }

  /** An accepted heartbeat. */
  function OnBeat(now: int): Watch {
    Watch(now, 0)
  }

  datatype Pulse = Tick(at: int) | Beat(at: int)

  /** A request for promotion, and the heartbeat (or secondary start) it counted from. */
  datatype Request = Request(at: int, since: int)

  /** What the monitor does on a series of events; it returns after its first request. */
  function FirstRequest(w: Watch, es: seq<Pulse>, c: Limits): Option<Request>
    decreases |es|
  {
    if es == [] then None
    else
      match es[0]
      case Beat(t) => FirstRequest(OnBeat(t), es[1..], c)
      case Tick(t) =>
        var (next, fire) := OnTick(w, t, c);
        if fire then Some(Request(t, w.last)) else FirstRequest(next, es[1..], c)
  }

  /** The monitor's loop: it waits for ticks and heartbeats in turn and returns with its first request. */
  method MonitorLoop(start: Watch, es: seq<Pulse>, c: Limits) returns (r: Option<Request>)
    ensures r == FirstRequest(start, es, c)
  {
    var lastHeartbeat, missedHeartbeats := start.last, start.missed;
    for i := 0 to |es|
      invariant FirstRequest(Watch(lastHeartbeat, missedHeartbeats), es[i..], c) == FirstRequest(start, es, c)
    {
      match es[i]
      case Beat(t) =>
        lastHeartbeat, missedHeartbeats := t, 0;
      case Tick(t) =>
        var timeSinceLastHeartbeat := t - lastHeartbeat;
        if timeSinceLastHeartbeat > c.interval {
          missedHeartbeats := missedHeartbeats + 1;
          if missedHeartbeats >= c.threshold {
            missedHeartbeats := 0;
            return Some(Request(t, lastHeartbeat));
          }
        }
    }
    return None;
  }

  /** The reference: request at the first tick more than `threshold` intervals after the last heartbeat. */
  function Deadline(last: int, es: seq<Pulse>, c: Limits): Option<Request>
    decreases |es|
  {
    if es == [] then None
    else
      match es[0]
      case Beat(t) => Deadline(t, es[1..], c)
      case Tick(t) => if t - last > c.Patience() then Some(Request(t, last)) else Deadline(last, es[1..], c)
  }

  /**
   Events in time order with ticks exactly one interval apart. `tick` is the grid point before
   the first event (it need not have fired: the monitor starts at any phase of the grid), `now`
   the time reached.
   */
  predicate OnGrid(tick: int, now: int, es: seq<Pulse>, c: Limits)
    decreases |es|
  {
    es == [] ||
    match es[0]
    case Beat(t) => now <= t && OnGrid(tick, t, es[1..], c)
    case Tick(t) => now <= t && t == tick + c.interval && OnGrid(t, t, es[1..], c)
  }

  /**
   The counter never exceeds, and while positive equals, the number of whole intervals of silence
   at the last tick.
   */
  predicate Counts(w: Watch, tick: int, c: Limits) {
    && w.missed < c.threshold
    && tick - w.last <= (w.missed + 1) * c.interval
    && (w.missed > 0 ==> w.missed * c.interval < tick - w.last)
  }

  lemma TickCounts(w: Watch, tick: int, c: Limits)
    requires c.Valid() && Counts(w, tick, c)
    ensures var t := tick + c.interval;
      && (OnTick(w, t, c).1 <==> t - w.last > c.Patience())
      && (OnTick(w, t, c).1 ==> t - w.last <= c.Patience() + c.interval)
      && (!OnTick(w, t, c).1 ==> Counts(OnTick(w, t, c).0, t, c) && OnTick(w, t, c).0.last == w.last)
  {
    var t, m, i, n := tick + c.interval, w.missed, c.interval, c.threshold;
    assert (m + 1) * i == m * i + i && (m + 2) * i == m * i + 2 * i;
    if m + 1 >= n {
      assert m + 1 == n;
    } else {
      assert (m + 2) * i <= n * i by {
        MulMonotone(m + 2, n, i);
      }
    }
  }

  lemma MulMonotone(a: int, b: int, i: int)
    requires a <= b && 0 < i
    ensures a * i <= b * i
  {
    assert (b - a) * i >= 0;
  }

  /**
   Counting late ticks is a deadline. On ticks one interval apart the monitor requests
   promotion exactly at the first tick later than `threshold` intervals after the last
   accepted heartbeat, whenever heartbeats come and however long the run is.
   */
  lemma {:induction false} CounterIsDeadline(w: Watch, tick: int, now: int, es: seq<Pulse>, c: Limits)
    requires c.Valid() && Counts(w, tick, c) && OnGrid(tick, now, es, c) && tick <= now + c.interval
    ensures FirstRequest(w, es, c) == Deadline(w.last, es, c)
    decreases |es|
  {
    if es != [] {
      match es[0]
      case Beat(t) =>
        CounterIsDeadline(OnBeat(t), tick, t, es[1..], c);
      case Tick(t) =>
        TickCounts(w, tick, c);
        if !OnTick(w, t, c).1 {
          CounterIsDeadline(OnTick(w, t, c).0, t, t, es[1..], c);
        }
    }
  }

  /** A secondary starts (or a heartbeat is accepted) at `start`; the grid has a point within one interval of it. */
  predicate Starts(start: int, tick: int, c: Limits) {
    start - c.interval <= tick <= start + c.interval
  }

  lemma StartCounts(start: int, tick: int, c: Limits)
    requires c.Valid() && Starts(start, tick, c)
    ensures Counts(OnBeat(start), tick, c)
  {
  }

  /** Every request, in every run, falls in the window (N, N+1] intervals after the heartbeat it counted from. */
  lemma {:induction false} RequestInWindow(w: Watch, tick: int, now: int, es: seq<Pulse>, c: Limits)
    requires c.Valid() && Counts(w, tick, c) && OnGrid(tick, now, es, c) && tick <= now + c.interval
    ensures var r := FirstRequest(w, es, c);
      r.Some? ==> c.Patience() < r.value.at - r.value.since <= c.Patience() + c.interval
    decreases |es|
  {
    if es != [] {
      match es[0]
      case Beat(t) =>
        RequestInWindow(OnBeat(t), tick, t, es[1..], c);
      case Tick(t) =>
        TickCounts(w, tick, c);
        if !OnTick(w, t, c).1 {
          RequestInWindow(OnTick(w, t, c).0, t, t, es[1..], c);
        }
    }
  }

  /** `n` ticks of the grid and nothing else. */
  function Silence(tick: int, n: nat, c: Limits): seq<Pulse>
    decreases n
  {
    if n == 0 then [] else [Tick(tick + c.interval)] + Silence(tick + c.interval, n - 1, c)
  }

  lemma {:induction false} SilenceOnGrid(tick: int, n: nat, now: int, c: Limits)
    requires c.interval > 0 && now <= tick + c.interval
    ensures OnGrid(tick, now, Silence(tick, n, c), c)
    decreases n
  {
    if n > 0 {
      SilenceOnGrid(tick + c.interval, n - 1, tick + c.interval, c);
    }
  }

  /** Ticks alone are overdue exactly when the last of them is. */
  lemma {:induction false} SilenceOverdue(last: int, tick: int, n: nat, c: Limits)
    requires c.Valid() && tick - last <= c.Patience()
    ensures var r := Deadline(last, Silence(tick, n, c), c);
      && (r.Some? <==> tick + n * c.interval - last > c.Patience())
      && (r.Some? ==> r.value.since == last && c.Patience() < r.value.at - last <= c.Patience() + c.interval)
    decreases n
  {
    var t := tick + c.interval;
    if n > 0 {
      assert Silence(tick, n, c)[1..] == Silence(t, n - 1, c);
      assert t + (n - 1) * c.interval == tick + n * c.interval;
      if t - last <= c.Patience() {
        SilenceOverdue(last, t, n - 1, c);
      } else {
        MulMonotone(0, n - 1, c.interval);
      }
    }
  }

  /** The ticks go on past the deadline: the last of `n` comes later than N*I after the start. */
  predicate PastDeadline(start: int, tick: int, n: nat, c: Limits) {
    tick + n * c.interval > start + c.threshold * c.interval
  }

  /**
   Failover timing window. If the last heartbeat was accepted (or the secondary started) at
   `start` and none follows, the monitor requests promotion exactly when its ticks go on past
   the deadline, and then at a time in (start + N*I, start + (N+1)*I], whatever their phase.
   */
  lemma FailoverWindow(start: int, tick: int, n: nat, c: Limits)
    requires c.Valid() && Starts(start, tick, c)
    ensures var r := FirstRequest(OnBeat(start), Silence(tick, n, c), c);
      && (r.Some? <==> PastDeadline(start, tick, n, c))
      && (r.Some? ==> r.value.since == start)
      && (r.Some? ==> start + c.threshold * c.interval < r.value.at <= start + (c.threshold + 1) * c.interval)
  {
    StartCounts(start, tick, c);
    SilenceOnGrid(tick, n, start, c);
    CounterIsDeadline(OnBeat(start), tick, start, Silence(tick, n, c), c);
    MulMonotone(1, c.threshold, c.interval);
    assert (c.threshold + 1) * c.interval == c.Patience() + c.interval;
    SilenceOverdue(start, tick, n, c);
  }

  /** However late the last heartbeat, N+2 ticks are enough. */
  lemma EnoughTicks(start: int, tick: int, n: nat, c: Limits)
    requires c.Valid() && Starts(start, tick, c) && n >= c.threshold + 2
    ensures PastDeadline(start, tick, n, c)
  {
    MulMonotone(c.threshold + 2, n, c.interval);
    assert (c.threshold + 2) * c.interval == c.Patience() + 2 * c.interval;
  }

  /**
   No two consecutive accepted heartbeats, counting `last` as the first and the end of the run as
   the last, are further apart than `gap`.
   */
  predicate GapsWithin(last: int, now: int, es: seq<Pulse>, gap: int)
    decreases |es|
  {
    if es == [] then now - last <= gap
    else
      match es[0]
      case Beat(t) => t - last <= gap && GapsWithin(t, t, es[1..], gap)
      case Tick(t) => GapsWithin(last, t, es[1..], gap)
  }

  lemma {:induction false} GapBound(tick: int, now: int, last: int, es: seq<Pulse>, gap: int, c: Limits)
    requires OnGrid(tick, now, es, c) && GapsWithin(last, now, es, gap) && c.interval > 0
    ensures now - last <= gap
    decreases |es|
  {
    if es != [] && es[0].Tick? {
      GapBound(es[0].at, es[0].at, last, es[1..], gap, c);
    }
  }

  lemma {:induction false} NeverOverdue(tick: int, now: int, last: int, es: seq<Pulse>, c: Limits)
    requires c.Valid() && OnGrid(tick, now, es, c) && GapsWithin(last, now, es, c.Patience())
    ensures Deadline(last, es, c) == None
    decreases |es|
  {
    if es != [] {
      match es[0]
      case Beat(t) => NeverOverdue(tick, t, t, es[1..], c);
      case Tick(t) =>
        GapBound(t, t, last, es[1..], c.Patience(), c);
        NeverOverdue(t, t, last, es[1..], c);
    }
  }

  /**
   No false failover. While accepted heartbeats are never more than N*I apart, counting the
   secondary's start as the first, the monitor never requests promotion.
   */
  lemma NoFalseFailover(start: int, tick: int, es: seq<Pulse>, c: Limits)
    requires c.Valid() && Starts(start, tick, c) && OnGrid(tick, start, es, c)
    requires GapsWithin(start, start, es, c.threshold * c.interval)
    ensures FirstRequest(OnBeat(start), es, c) == None
  {
    StartCounts(start, tick, c);
    CounterIsDeadline(OnBeat(start), tick, start, es, c);
    NeverOverdue(tick, start, start, es, c);
  }
}
