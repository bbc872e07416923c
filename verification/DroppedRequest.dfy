/**
 Without keeping checks and transitions apart: how a secondary loses its monitor although no
 promotion fails.
 */
module DroppedRequest {
  import opened Wrappers
  import opened Heartbeat
  import opened Leader
  import opened Interleaving
  import opened ApartRuns

  type Event = Interleaving.Event

  /** An idle secondary with nobody left to ask for its promotion. */
  predicate Unattended(s: System) {
    && s.loop.Idle? && s.check.Resting?
    && s.node.role == Secondary && s.node.monitors == [] && s.node.queue == None
  }

  /** Nothing that can happen leads out of that state. */
  lemma {:induction false} UnattendedForever(c: Config, s: System, es: seq<Event>)
    requires Unattended(s)
    ensures Unattended(Run(c, s, es))
  {
    if es != [] {
      UnattendedForever(c, s, es[..|es| - 1]);
    }
  }

  /** The monitor goes back to its select and finds itself late, `n` times. */
  function LateRounds(c: Config, n: nat): seq<Event> {
    if n == 0 then [] else LateRounds(c, n - 1) + [Selects(0), Ticks(0, c.limits.interval + 1)]
  }

  /** A stale secondary whose monitor has counted `missed` late ticks. */
  function Counted(missed: nat): System {
    STALE.(node := STALE.node.(watch := Watch(0, missed)))
  }

  lemma RoundStep(c: Config, n: nat)
    requires n < c.limits.threshold
    ensures var s := Run(c, Counted(n), [Selects(0), Ticks(0, c.limits.interval + 1)]);
      s == if n + 1 < c.limits.threshold then Counted(n + 1)
           else Counted(0).(node := Counted(0).node.(monitors := [Firing]))
  {
    RunTwo(c, Counted(n), Selects(0), Ticks(0, c.limits.interval + 1));
  }

  lemma NoRounds(c: Config)
    ensures Run(c, STALE, LateRounds(c, 0)) == Counted(0)
  {
    assert STALE.node.watch == Watch(0, 0);
  }

  lemma {:induction false} RoundsCount(c: Config, n: nat)
    requires n < c.limits.threshold
    ensures Run(c, STALE, LateRounds(c, n)) == Counted(n)
  {
    hide Interleaving.Next, Run, Counted;
    if n == 0 {
      NoRounds(c);
    } else {
      RoundsCount(c, n - 1);
      RunConcat(c, STALE, LateRounds(c, n - 1), [Selects(0), Ticks(0, c.limits.interval + 1)]);
      RoundStep(c, n - 1);
    }
  }

  /** Steps of neither loop keep both conditions. */
  lemma {:induction false} OthersKeep(c: Config, s: System, es: seq<Event>, checks: bool, turns: bool)
    requires forall e :: e in es ==> !e.Turn? && !ChecksElection(e)
    ensures Keeps(c, s, es, checks, turns)
  {
    if es != [] {
      assert es[|es| - 1] in es;
      OthersKeep(c, s, es[..|es| - 1], checks, turns);
    }
  }

  lemma {:induction false} RoundsAreOthers(c: Config, n: nat)
    ensures forall e :: e in LateRounds(c, n) ==> !e.Turn? && !ChecksElection(e)
  {
    if n > 0 {
      RoundsAreOthers(c, n - 1);
    }
  }

  /** The monitor fires and returns, but its request finds the channel full and is dropped. */
  lemma RequestDropped(c: Config)
    requires c.limits.Valid()
    ensures Run(c, STALE, LateRounds(c, c.limits.threshold) + [Asks(0)])
         == STALE.(node := STALE.node.(monitors := []))
  {
    hide Run;
    var n := c.limits.threshold - 1;
    RoundsCount(c, n);
    RoundStep(c, n);
    RunConcat(c, STALE, LateRounds(c, n), [Selects(0), Ticks(0, c.limits.interval + 1)]);
    var fired := Counted(0).(node := Counted(0).node.(monitors := [Firing]));
    RunConcat(c, STALE, LateRounds(c, n + 1), [Asks(0)]);
    RunOne(c, fired, Asks(0));
  }

  /** The stale role is taken up, and its client cannot be created. */
  lemma StaleTurnFails(c: Config, s: System)
    requires s == STALE.(node := STALE.node.(monitors := []))
    ensures Run(c, s, [TURN, TURN] + [TURN]).loop == Entering(Secondary)
    ensures Unattended(Interleaving.Next(c, Run(c, s, [TURN, TURN] + [TURN]), Turn(false, 0)))
  {
    RunTwo(c, s, TURN, TURN);
    RunConcat(c, s, [TURN, TURN], [TURN]);
    RunOne(c, Run(c, s, [TURN, TURN]), TURN);
  }

  /**
   A secondary can be left unattended for good without a failed promotion, if only one of the two
   conditions is kept: a second request to become secondary is still queued, the monitor's request
   finds it in its way, and the second transition fails.
   */
  lemma UnattendedWithoutFailedPromotion(c: Config, checks: bool, turns: bool) returns (es: seq<Event>)
    requires c.limits.Valid() && !AlwaysPrimary(c) && !(checks && turns)
    ensures Keeps(c, START, es, checks, turns)
    ensures NeverFailsPromotion(c, es) && Unattended(Run(c, START, es))
  {
    var stale := StaleRequest(c, checks, turns);
    var fire := LateRounds(c, c.limits.threshold) + [Asks(0)];
    RequestDropped(c);
    RunConcat(c, START, stale, fire);
    RoundsAreOthers(c, c.limits.threshold);
    OthersKeep(c, STALE, fire, checks, turns);
    KeepsConcat(c, START, stale, fire, checks, turns);
    var s := STALE.(node := STALE.node.(monitors := []));
    StaleTurnFails(c, s);
    Continue(c, stale + fire, [TURN, TURN] + [TURN], s, checks, turns);
    var before := stale + fire + ([TURN, TURN] + [TURN]);
    CreationsSucceed(c, before);
    es := before + [Turn(false, 0)];
    assert es[..|es| - 1] == before;
  }

  /** In every run that keeps the given conditions and fails no promotion, no secondary is left unattended. */
  ghost predicate AttendedUnlessFailed(c: Config, checks: bool, turns: bool) {
    forall es :: Keeps(c, START, es, checks, turns) && NeverFailsPromotion(c, es) ==> !Unattended(Run(c, START, es))
  }

  /**
   A failed promotion is the only way to an unattended secondary exactly when both conditions are
   kept, unless the configuration forces the node to be primary.
   */
  lemma AttendedExactly(c: Config, checks: bool, turns: bool)
    requires c.limits.Valid()
    ensures AttendedUnlessFailed(c, checks, turns) <==> (checks && turns) || AlwaysPrimary(c)
  {
    if checks && turns {
      forall es | Keeps(c, START, es, checks, turns) && NeverFailsPromotion(c, es)
        ensures !Unattended(Run(c, START, es))
      {
        AlwaysWatchedExactly(c, es);
      }
    } else if AlwaysPrimary(c) {
      forall es
        ensures !Unattended(Run(c, START, es))
      {
        OwnerNeverSecondary(c, es);
      }
    } else {
      var es := UnattendedWithoutFailedPromotion(c, checks, turns);
    }
  }

  /** The same of an idle secondary that has exactly one monitor, or none and its request queued. */
  ghost predicate WatchedUnlessFailed(c: Config, checks: bool, turns: bool) {
    forall es :: Keeps(c, START, es, checks, turns) ==> (AlwaysWatched(c, es) <==> NeverFailsPromotion(c, es))
  }

  lemma {:induction false} ForcedPrimaryIsWatched(c: Config, es: seq<Event>)
    requires AlwaysPrimary(c)
    ensures AlwaysWatched(c, es) && NeverFailsPromotion(c, es)
  {
    OwnerNeverSecondary(c, es);
    if es != [] {
      OwnerNeverSecondary(c, es[..|es| - 1]);
      ForcedPrimaryIsWatched(c, es[..|es| - 1]);
    }
  }

  /** Being watched in that sense depends on the same two conditions. */
  lemma WatchedExactly(c: Config, checks: bool, turns: bool)
    requires c.limits.Valid()
    ensures WatchedUnlessFailed(c, checks, turns) <==> (checks && turns) || AlwaysPrimary(c)
  {
    if checks && turns {
      forall es | Keeps(c, START, es, checks, turns)
        ensures AlwaysWatched(c, es) <==> NeverFailsPromotion(c, es)
      {
        AlwaysWatchedExactly(c, es);
      }
    } else if AlwaysPrimary(c) {
      forall es
        ensures AlwaysWatched(c, es) <==> NeverFailsPromotion(c, es)
      {
        ForcedPrimaryIsWatched(c, es);
      }
    } else {
      var es := StaleRequest(c, checks, turns);
      CreationsSucceed(c, es);
      assert !Watched(STALE);
    }
  }
}
