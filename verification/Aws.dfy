/** The AWS client: taking over the ENI address, moving floating addresses, updating routes. */
module Aws {
  import opened Wrappers
  import opened Ec2
  import opened Parallel

  // ---------------------------------------------------------------- kinds of calls

  /** The call takes one of the addresses from the interface. */
  predicate Takes(c: Call, e: Eni, ips: set<Ip>) {
    c.Unassign? && c.e == e && c.ip in ips
  }

  /** The call gives one of the addresses to the interface. */
  predicate Gives(c: Call, e: Eni, ips: set<Ip>) {
    c.Assign? && c.e == e && c.ip in ips
  }

  /** The call is about one of the addresses. */
  predicate About(c: Call, ips: set<Ip>) {
    !c.Replace? && c.ip in ips
  }

  /** The call points a route to the block at the interface. */
  predicate Points(c: Call, cidr: string, e: Eni) {
    c.Replace? && c.cidr == cidr && c.e == e
  }

  // ---------------------------------------------------------------- batches

  function Elements(ips: seq<Ip>): set<Ip> {
    set i | 0 <= i < |ips| :: ips[i]
  }

  /** The addresses whose call was made and did not fail. */
  ghost function Moved(ips: seq<Ip>, tasks: seq<Task>, failed: seq<bool>): set<Ip>
    requires |ips| == |tasks| == |failed|
  {
    set i | 0 <= i < |ips| && tasks[i] != Ready && !failed[i] :: ips[i]
  }

  /** The addresses whose call did not fail, once all have been made. */
  ghost function Succeeded(ips: seq<Ip>, failed: seq<bool>): set<Ip>
    requires |ips| == |failed|
  {
    set i | 0 <= i < |ips| && !failed[i] :: ips[i]
  }

  ghost predicate AllOn(w: World, e: Eni, ips: seq<Ip>) {
    e in w.enis && forall i :: 0 <= i < |ips| ==> ips[i] in w.enis[e].secondaries
  }

  /** What a goroutine's state says of its call and its error. */
  predicate Settled(t: Task, failed: bool, sent: bool) {
    match t
    case Ready => !failed && !sent
    case Erring => failed && !sent
    case Done => failed == sent
  }

  /** The bookkeeping of a batch: which calls failed, which errors have been sent. */
  ghost predicate Ledger(tasks: seq<Task>, failed: seq<bool>, sent: seq<bool>) {
    && |tasks| == |failed| == |sent|
    && forall i :: 0 <= i < |tasks| ==> Settled(tasks[i], failed[i], sent[i])
  }

  lemma LedgerStep(tasks: seq<Task>, failed: seq<bool>, sent: seq<bool>, i: nat, ok: bool)
    requires Ledger(tasks, failed, sent) && i < |tasks| && tasks[i] != Done
    ensures tasks[i] == Ready ==>
      && WorkLeft(tasks[i := if ok then Done else Erring]) < WorkLeft(tasks)
      && Ledger(tasks[i := if ok then Done else Erring], failed[i := !ok], sent)
    ensures tasks[i] == Erring ==>
      && WorkLeft(tasks[i := Done]) < WorkLeft(tasks)
      && Ledger(tasks[i := Done], failed, sent[i := true])
      && Count(sent[i := true]) == Count(sent) + 1 <= |tasks|
  {
    WorkAt(tasks, i, if ok then Done else Erring);
    WorkAt(tasks, i, Done);
    if tasks[i] == Erring {
      CountAt(sent, i);
      CountBounded(sent[i := true]);
    }
  }

  /** A goroutine's call enters its address among the moved ones exactly when it succeeds; sending an error does not. */
  lemma MovedStep(ips: seq<Ip>, tasks: seq<Task>, failed: seq<bool>, i: nat, ok: bool)
    requires |ips| == |tasks| == |failed| && i < |ips|
    ensures tasks[i] == Ready ==>
      Moved(ips, tasks[i := if ok then Done else Erring], failed[i := !ok])
      == if ok then Moved(ips, tasks, failed) + {ips[i]} else Moved(ips, tasks, failed)
    ensures tasks[i] == Erring ==> Moved(ips, tasks[i := Done], failed) == Moved(ips, tasks, failed)
  {
    if tasks[i] == Ready {
      var t, f := tasks[i := if ok then Done else Erring], failed[i := !ok];
      assert forall j :: 0 <= j < |ips| && j != i ==> t[j] == tasks[j] && f[j] == failed[j];
    }
  }

  /** An address whose goroutine has not made its call is still where it was. */
  lemma NotYetMoved(ips: seq<Ip>, tasks: seq<Task>, failed: seq<bool>, i: nat)
    requires |ips| == |tasks| == |failed| && i < |ips| && tasks[i] == Ready && Distinct(ips)
    ensures ips[i] !in Moved(ips, tasks, failed)
  {
  }

  lemma BatchOver(ips: seq<Ip>, tasks: seq<Task>, failed: seq<bool>, sent: seq<bool>)
    requires Ledger(tasks, failed, sent) && |ips| == |tasks| && forall i :: 0 <= i < |tasks| ==> tasks[i] == Done
    ensures failed == sent && Moved(ips, tasks, failed) == Succeeded(ips, failed)
  {
    assert forall i :: 0 <= i < |tasks| ==> Settled(tasks[i], failed[i], sent[i]) && failed[i] == sent[i];
  }

  /** How many goroutines have made their call. */
  function Begun(ts: seq<Task>): nat {
    if ts == [] then 0 else (if ts[0] == Ready then 0 else 1) + Begun(ts[1..])
  }

  lemma {:induction false} BegunAt(ts: seq<Task>, i: nat, t: Task)
    requires i < |ts| && t != Ready
    ensures Begun(ts[i := t]) == Begun(ts) + if ts[i] == Ready then 1 else 0
  {
    if i > 0 {
      assert ts[i := t][1..] == ts[1..][i - 1 := t];
      BegunAt(ts[1..], i - 1, t);
    } else {
      assert ts[i := t][1..] == ts[1..];
    }
  }

  lemma {:induction false} NoneBegun(n: nat)
    ensures Begun(AllReady(n)) == 0
  {
    if n > 0 {
      assert AllReady(n)[1..] == AllReady(n - 1);
      NoneBegun(n - 1);
    }
  }

  lemma {:induction false} AllBegun(ts: seq<Task>)
    requires forall i :: 0 <= i < |ts| ==> ts[i] == Done
    ensures Begun(ts) == |ts|
  {
    if ts != [] {
      AllBegun(ts[1..]);
    }
  }

  /** The calls of a batch so far: how many there are, what they are about, and how many of them failed. */
  ghost predicate Tallied(xs: seq<string>, tasks: seq<Task>, failed: seq<bool>, calls: seq<Call>) {
    && |xs| == |tasks| == |failed|
    && |calls| == Begun(tasks)
    && FailedCalls(calls) == Count(failed)
    && Asked(calls) == set i | 0 <= i < |xs| && tasks[i] != Ready :: xs[i]
  }

  lemma TallyStarts(xs: seq<string>)
    ensures Tallied(xs, AllReady(|xs|), NoFlags(|xs|), [])
  {
    CountBounded(NoFlags(|xs|));
    NoneBegun(|xs|);
  }

  lemma TallyStep(xs: seq<string>, tasks: seq<Task>, failed: seq<bool>, calls: seq<Call>, i: nat, c: Call)
    requires Tallied(xs, tasks, failed, calls) && i < |tasks| && tasks[i] == Ready && !failed[i]
    requires Subject(c) == xs[i]
    ensures Tallied(xs, tasks[i := if c.ok then Done else Erring], failed[i := !c.ok], calls + [c])
  {
    FailedOne(calls, c);
    CountAt(failed, i);
    BegunAt(tasks, i, if c.ok then Done else Erring);
    assert failed[i := false] == failed;
    var t := tasks[i := if c.ok then Done else Erring];
    assert forall j :: 0 <= j < |xs| ==> (t[j] != Ready <==> tasks[j] != Ready || j == i);
  }

  /** Sending an error is not a call. */
  lemma TallyKept(xs: seq<string>, tasks: seq<Task>, failed: seq<bool>, calls: seq<Call>, i: nat)
    requires Tallied(xs, tasks, failed, calls) && i < |tasks| && tasks[i] == Erring
    ensures Tallied(xs, tasks[i := Done], failed, calls)
  {
    BegunAt(tasks, i, Done);
    var t := tasks[i := Done];
    assert forall j :: 0 <= j < |xs| ==> (t[j] != Ready <==> tasks[j] != Ready);
  }

  /** The calls of a whole batch: one for each of the listed, and as many failed as there are flags. */
  ghost predicate OneCallEach(xs: seq<string>, calls: seq<Call>) {
    Asked(calls) == Elements(xs) && |calls| == |xs|
  }

  lemma TallyEnds(xs: seq<string>, tasks: seq<Task>, failed: seq<bool>, calls: seq<Call>)
    requires Tallied(xs, tasks, failed, calls) && forall i :: 0 <= i < |tasks| ==> tasks[i] == Done
    ensures FailedCalls(calls) == Count(failed) && OneCallEach(xs, calls)
  {
    AllBegun(tasks);
    assert forall i :: 0 <= i < |xs| ==> tasks[i] != Ready;
  }

  /** All the books of a batch. */
  ghost predicate Books(xs: seq<string>, tasks: seq<Task>, failed: seq<bool>, sent: seq<bool>, calls: seq<Call>) {
    Ledger(tasks, failed, sent) && Tallied(xs, tasks, failed, calls)
  }

  lemma BooksOpen(xs: seq<string>)
    ensures Books(xs, AllReady(|xs|), NoFlags(|xs|), NoFlags(|xs|), [])
    ensures Count(NoFlags(|xs|)) == 0 && Moved(xs, AllReady(|xs|), NoFlags(|xs|)) == {}
  {
    TallyStarts(xs);
    CountBounded(NoFlags(|xs|));
  }

  /** A goroutine makes its call. */
  lemma CallBooked(
    xs: seq<string>, tasks: seq<Task>, failed: seq<bool>, sent: seq<bool>, calls: seq<Call>, i: nat, c: Call)
    requires |tasks| == |failed| == |sent| == |xs| && Books(xs, tasks, failed, sent, calls)
    requires i < |tasks| && tasks[i] == Ready && Subject(c) == xs[i]
    ensures var t, f := tasks[i := if c.ok then Done else Erring], failed[i := !c.ok];
      && Books(xs, t, f, sent, calls + [c]) && WorkLeft(t) < WorkLeft(tasks)
      && Moved(xs, t, f) == if c.ok then Moved(xs, tasks, failed) + {xs[i]} else Moved(xs, tasks, failed)
  {
    assert Settled(tasks[i], failed[i], sent[i]);
    LedgerStep(tasks, failed, sent, i, c.ok);
    MovedStep(xs, tasks, failed, i, c.ok);
    TallyStep(xs, tasks, failed, calls, i, c);
  }

  /** A goroutine whose call failed sends its error. */
  lemma ErrorBooked(xs: seq<string>, tasks: seq<Task>, failed: seq<bool>, sent: seq<bool>, calls: seq<Call>, i: nat)
    requires |tasks| == |failed| == |sent| == |xs| && Books(xs, tasks, failed, sent, calls)
    requires i < |tasks| && tasks[i] == Erring
    ensures var t := tasks[i := Done];
      && Books(xs, t, failed, sent[i := true], calls) && WorkLeft(t) < WorkLeft(tasks)
      && Count(sent[i := true]) == Count(sent) + 1 <= |tasks|
      && Moved(xs, t, failed) == Moved(xs, tasks, failed)
  {
    LedgerStep(tasks, failed, sent, i, true);
    MovedStep(xs, tasks, failed, i, true);
    TallyKept(xs, tasks, failed, calls, i);
  }

  lemma BooksClose(xs: seq<string>, tasks: seq<Task>, failed: seq<bool>, sent: seq<bool>, calls: seq<Call>)
    requires |tasks| == |failed| == |sent| == |xs| && Books(xs, tasks, failed, sent, calls)
    requires forall i :: 0 <= i < |tasks| ==> tasks[i] == Done
    ensures failed == sent && Moved(xs, tasks, failed) == Succeeded(xs, failed)
    ensures FailedCalls(calls) == Count(failed) && OneCallEach(xs, calls)
  {
    BatchOver(xs, tasks, failed, sent);
    TallyEnds(xs, tasks, failed, calls);
  }

  /** The world without the listed addresses on interface `e`. */
  ghost function Without(w: World, e: Eni, ips: set<Ip>): World {
    if e in w.enis then WithSecondaries(w, e, w.enis[e].secondaries - ips) else w
  }

  /** The world with the listed addresses on interface `e`. */
  ghost function With(w: World, e: Eni, ips: set<Ip>): World {
    if e in w.enis then WithSecondaries(w, e, w.enis[e].secondaries + ips) else w
  }

  lemma WithoutOneMore(w: World, e: Eni, ips: set<Ip>, ip: Ip)
    ensures Without(w, e, {}) == w
    ensures e in w.enis ==> Unassigned(Without(w, e, ips), e, ip) == Without(w, e, ips + {ip})
  {
    if e in w.enis {
      assert w.enis[e].secondaries - {} == w.enis[e].secondaries;
      assert Without(w, e, {}).enis == w.enis;
      assert w.enis[e].secondaries - ips - {ip} == w.enis[e].secondaries - (ips + {ip});
    }
  }

  lemma WithOneMore(w: World, e: Eni, ips: set<Ip>, ip: Ip)
    ensures With(w, e, {}) == w
    ensures e in w.enis ==> Assigned(With(w, e, ips), e, ip) == With(w, e, ips + {ip})
  {
    if e in w.enis {
      assert w.enis[e].secondaries + {} == w.enis[e].secondaries;
      assert With(w, e, {}).enis == w.enis;
      assert w.enis[e].secondaries + ips + {ip} == w.enis[e].secondaries + (ips + {ip});
    }
  }

  // ---------------------------------------------------------------- moving a batch of addresses

  /**
   Between the two worlds the listed addresses may have moved between two interfaces, and nothing
   else has changed.
   */
  ghost predicate MovedBetween(w0: World, w: World, source: Eni, dest: Eni, ips: set<Ip>) {
    && w.routes == w0.routes
    && w.enis.Keys == w0.enis.Keys
    && (forall f :: f in w.enis && f != source && f != dest ==> w.enis[f] == w0.enis[f])
    && (forall f :: f in w.enis ==>
         && w.enis[f].primary == w0.enis[f].primary
         && w.enis[f].instance == w0.enis[f].instance
         && w.enis[f].secondaries - ips == w0.enis[f].secondaries - ips)
    && (WellFormed(w0) ==> WellFormed(w))
  }

  lemma OneMoveBetween(w0: World, w: World, c: Call, source: Eni, dest: Eni, ips: set<Ip>)
    requires MovedBetween(w0, w, source, dest, ips) && (Takes(c, source, ips) || Gives(c, dest, ips))
    requires WellFormed(w) ==> WellFormed(After(w, c))
    ensures MovedBetween(w0, After(w, c), source, dest, ips)
  {
    hide WellFormed, Holds;
  }

  /** Calls that take from the source and give to the destination only move addresses between the two. */
  lemma {:induction false} MovesBetween(w0: World, calls: seq<Call>, source: Eni, dest: Eni, ips: set<Ip>)
    requires forall c :: c in calls ==> Takes(c, source, ips) || Gives(c, dest, ips)
    ensures MovedBetween(w0, WorldAfter(w0, calls), source, dest, ips)
  {
    if calls != [] {
      var before, last := calls[..|calls| - 1], calls[|calls| - 1];
      assert last in calls;
      MovesBetween(w0, before, source, dest, ips);
      CallKeepsWellFormed(WorldAfter(w0, before), last);
      OneMoveBetween(w0, WorldAfter(w0, before), last, source, dest, ips);
    }
  }

  lemma CallKeepsWellFormed(w: World, c: Call)
    ensures WellFormed(w) ==> WellFormed(After(w, c))
  {
    if WellFormed(w) {
      match c
      case Replace(table, cidr, e, _) => CallsKeepWellFormed(w, e, "", table, cidr);
      case _ => CallsKeepWellFormed(w, c.e, c.ip, "", "");
    }
  }

  /** The case the failover relies on: distinct addresses, all on the source. */
  ghost predicate Batch(w: World, source: Eni, dest: Eni, ips: seq<Ip>) {
    WellFormed(w) && source != dest && dest in w.enis && Distinct(ips) && AllOn(w, source, ips)
  }

  predicate OnEni(w: World, e: Eni, ip: Ip) {
    e in w.enis && ip in w.enis[e].secondaries
  }

  predicate Nowhere(w: World, ip: Ip) {
    forall e :: e in w.enis ==> !Holds(w, e, ip)
  }

  function CountOn(w: World, e: Eni, ips: seq<Ip>): nat {
    if ips == [] then 0 else (if OnEni(w, e, ips[0]) then 1 else 0) + CountOn(w, e, ips[1..])
  }

  function CountNowhere(w: World, ips: seq<Ip>): nat {
    if ips == [] then 0 else (if Nowhere(w, ips[0]) then 1 else 0) + CountNowhere(w, ips[1..])
  }

  /**
   A failed unassign leaves its address on the source and fails its assign; a failed assign alone
   leaves it nowhere.
   */
  ghost predicate Explains(w: World, source: Eni, ips: seq<Ip>, kept: seq<bool>, lost: seq<bool>) {
    && |kept| == |lost| == |ips|
    && forall i :: 0 <= i < |ips| ==>
         && (OnEni(w, source, ips[i]) <==> kept[i])
         && (kept[i] ==> lost[i])
         && (Nowhere(w, ips[i]) <==> !kept[i] && lost[i])
  }

  lemma {:induction false} ErrorsAddUp(w: World, source: Eni, ips: seq<Ip>, kept: seq<bool>, lost: seq<bool>)
    requires Explains(w, source, ips, kept, lost)
    ensures Count(kept) + Count(lost) == 2 * CountOn(w, source, ips) + CountNowhere(w, ips)
  {
    if ips != [] {
      ErrorsAddUp(w, source, ips[1..], kept[1..], lost[1..]);
    }
  }

  /** Where the two phases leave the addresses of a batch. */
  lemma BatchOutcome(w0: World, source: Eni, dest: Eni, ips: seq<Ip>, kept: seq<bool>, lost: seq<bool>)
    requires Batch(w0, source, dest, ips) && |kept| == |lost| == |ips|
    requires var mid := Without(w0, source, Succeeded(ips, kept));
      forall i :: 0 <= i < |ips| && !lost[i] ==> CanAssign(mid, dest, ips[i])
    ensures var w := With(Without(w0, source, Succeeded(ips, kept)), dest, Succeeded(ips, lost));
      && Explains(w, source, ips, kept, lost)
      && forall i :: 0 <= i < |ips| ==> (OnEni(w, dest, ips[i]) <==> !lost[i])
  {
    var mid := Without(w0, source, Succeeded(ips, kept));
    var w := With(mid, dest, Succeeded(ips, lost));
    forall i | 0 <= i < |ips|
      ensures OnEni(w, source, ips[i]) <==> kept[i]
      ensures kept[i] ==> lost[i]
      ensures OnEni(w, dest, ips[i]) <==> !lost[i]
      ensures Nowhere(w, ips[i]) <==> !kept[i] && lost[i]
    {
      AddressOutcome(w0, source, dest, ips, kept, lost, i);
    }
  }

  lemma AddressOutcome(w0: World, source: Eni, dest: Eni, ips: seq<Ip>, kept: seq<bool>, lost: seq<bool>, i: nat)
    requires Batch(w0, source, dest, ips) && |kept| == |lost| == |ips| && i < |ips|
    requires !lost[i] ==> CanAssign(Without(w0, source, Succeeded(ips, kept)), dest, ips[i])
    ensures var w := With(Without(w0, source, Succeeded(ips, kept)), dest, Succeeded(ips, lost));
      && (OnEni(w, source, ips[i]) <==> kept[i])
      && (kept[i] ==> lost[i])
      && (OnEni(w, dest, ips[i]) <==> !lost[i])
      && (Nowhere(w, ips[i]) <==> !kept[i] && lost[i])
  {
    var mid := Without(w0, source, Succeeded(ips, kept));
    var w := With(mid, dest, Succeeded(ips, lost));
    var ip := ips[i];
    assert Holds(w0, source, ip);
    assert ip in Succeeded(ips, kept) <==> !kept[i];
    assert ip in Succeeded(ips, lost) <==> !lost[i];
    assert forall e :: e in w0.enis && e != source ==> !Holds(w0, e, ip);
    if kept[i] {
      assert Holds(mid, source, ip) && Holds(w, source, ip);
    }
    if !lost[i] {
      assert Holds(w, dest, ip);
    }
  }

  /** An address that has left the source can be assigned to the destination. */
  lemma FreedIsAssignable(w0: World, source: Eni, dest: Eni, ips: seq<Ip>, kept: seq<bool>, i: nat)
    requires Batch(w0, source, dest, ips) && |kept| == |ips| && i < |ips| && !kept[i]
    ensures CanAssign(Without(w0, source, Succeeded(ips, kept)), dest, ips[i])
  {
    var mid := Without(w0, source, Succeeded(ips, kept));
    assert Holds(w0, source, ips[i]) && ips[i] in Succeeded(ips, kept);
    assert Holds(w0, dest, w0.enis[dest].primary);
    assert forall f :: f in w0.enis && f != source ==> !Holds(w0, f, ips[i]);
  }

  /** The accounts of a batch: one error per failed call, and what the calls leave behind. */
  lemma BatchAccounts(w0: World, source: Eni, dest: Eni, ips: seq<Ip>, kept: seq<bool>, lost: seq<bool>, reliable: bool)
    requires Batch(w0, source, dest, ips) && |kept| == |lost| == |ips|
    requires var mid := Without(w0, source, Succeeded(ips, kept));
      forall i :: 0 <= i < |ips| ==> Judged(reliable, mid, dest, ips[i], lost[i])
    requires reliable ==> forall i :: 0 <= i < |ips| ==> !kept[i]
    ensures var w := With(Without(w0, source, Succeeded(ips, kept)), dest, Succeeded(ips, lost));
      && Count(kept) + Count(lost) == 2 * CountOn(w, source, ips) + CountNowhere(w, ips)
      && (forall i :: 0 <= i < |ips| ==> OnEni(w, source, ips[i]) || OnEni(w, dest, ips[i]) || Nowhere(w, ips[i]))
      && (Count(kept) + Count(lost) == 0 ==> w == With(Without(w0, source, Elements(ips)), dest, Elements(ips)))
      && (reliable ==> Count(kept) + Count(lost) == 0)
  {
    var w := With(Without(w0, source, Succeeded(ips, kept)), dest, Succeeded(ips, lost));
    BatchOutcome(w0, source, dest, ips, kept, lost);
    ErrorsAddUp(w, source, ips, kept, lost);
    CountBounded(kept);
    CountBounded(lost);
    if Count(kept) + Count(lost) == 0 {
      assert Succeeded(ips, kept) == Elements(ips) && Succeeded(ips, lost) == Elements(ips);
    }
    if reliable {
      forall i | 0 <= i < |ips|
        ensures !lost[i]
      {
        FreedIsAssignable(w0, source, dest, ips, kept, i);
      }
    }
  }

  /** At every point of the calls, addresses have only moved between the two interfaces. */
  ghost predicate AlwaysBetween(w0: World, calls: seq<Call>, source: Eni, dest: Eni, ips: set<Ip>) {
    forall k :: 0 <= k <= |calls| ==> MovedBetween(w0, WorldAfter(w0, calls[..k]), source, dest, ips)
  }

  /** The record of a batch: the kind of calls it makes, where it started, and the calls so far. */
  datatype Log = Log(allowed: Call -> bool, start: World, before: seq<Call>, calls: seq<Call>)
  {
    ghost predicate Of(ec2: EC2) reads ec2 {
      ec2.calls == before + calls && Recorded(allowed, start, calls, ec2.world, ec2.reliable)
    }

    ghost predicate Extends(log: Log) {
      allowed == log.allowed && start == log.start && before == log.before
    }
  }

  // ---------------------------------------------------------------- scripts

  /**
   The second half of a takeover as the calls and look-ups it makes: each step is made only after
   the one before it has succeeded, and it succeeds when the address is seen on our interface
   after both calls. `base` is the number of calls made before.
   */
  predicate MoveScript(ip: Ip, owner: Eni, mine: Eni, base: nat, looks: seq<Look>, calls: seq<Call>, ok: bool) {
    && calls != [] && calls[0] == Unassign(owner, ip, calls[0].ok)
    && if !calls[0].ok then !ok && |calls| == 1 && looks == []
       else
         && |calls| == 2 && calls[1] == Assign(mine, ip, calls[1].ok)
         && if !calls[1].ok then !ok && looks == []
            else
              && |looks| == 1 && looks[0] == Interfaces(WithAddress(ip), looks[0].found, base + 2)
              && (ok <==> First(looks[0].found) == Some(mine))
  }

  /** A whole takeover: the owner is looked up, then our interface, and nothing more is done if they are the same. */
  predicate TakeOverScript(ip: Ip, instance: string, base: nat, looks: seq<Look>, calls: seq<Call>, ok: bool) {
    && looks != [] && looks[0] == Interfaces(WithAddress(ip), looks[0].found, base)
    && if First(looks[0].found).None? then !ok && |looks| == 1 && calls == []
       else
         && |looks| > 1 && looks[1] == Interfaces(AttachedTo(instance), looks[1].found, base)
         && var owner, mine := First(looks[0].found), First(looks[1].found);
            if mine.None? then !ok && |looks| == 2 && calls == []
            else if owner == mine then ok && |looks| == 2 && calls == []
            else MoveScript(ip, owner.value, mine.value, base, looks[2..], calls, ok)
  }

  /** The errors of a route update: one if no table is found, otherwise one for each failed call. */
  function RouteErrors(found: Option<seq<string>>, calls: seq<Call>): nat {
    if First(found).None? then 1 else FailedCalls(calls)
  }

  /** A route update: one look-up, then one call for each table it found. */
  ghost predicate RouteScript(cidr: string, e: Eni, looks: seq<Look>, calls: seq<Call>, errors: nat) {
    && |looks| == 1 && looks[0] == Tables(cidr, looks[0].found, looks[0].made)
    && (forall c :: c in calls ==> Points(c, cidr, e))
    && (if First(looks[0].found).None? then calls == [] else OneCallEach(looks[0].found.value, calls))
    && errors == RouteErrors(looks[0].found, calls)
  }

  /**
   A reassignment: one call that takes each address, and when all of these are done one that
   gives it, whether or not it could be taken; one error for each failed call.
   */
  ghost predicate ReassignScript(source: Eni, dest: Eni, ips: seq<Ip>, calls: seq<Call>, errors: nat) {
    var n := |ips|;
    && |calls| == 2 * n
    && OneCallEach(ips, calls[..n]) && (forall c :: c in calls[..n] ==> Takes(c, source, Elements(ips)))
    && OneCallEach(ips, calls[n..]) && (forall c :: c in calls[n..] ==> Gives(c, dest, Elements(ips)))
    && errors == FailedCalls(calls)
  }

  class AWSClient {
    const ec2: EC2
    const instanceID: string

    constructor (ec2: EC2, instanceID: string)
      ensures this.ec2 == ec2 && this.instanceID == instanceID
    {
      this.ec2, this.instanceID := ec2, instanceID;
    }

    /** The call of one unassign goroutine. */
    method UnassignOne(source: Eni, ip: Ip, ghost log: Log) returns (ok: bool, ghost after: Log)
      requires log.Of(ec2) && forall ok :: log.allowed(Unassign(source, ip, ok))
      modifies ec2`world, ec2`calls
      ensures after.Of(ec2) && after.Extends(log)
      ensures after.calls == log.calls + [Unassign(source, ip, ok)]
      ensures ok ==> CanUnassign(old(ec2.world), source, ip) && ec2.world == Unassigned(old(ec2.world), source, ip)
      ensures !ok ==> ec2.world == old(ec2.world) && !(ec2.reliable && CanUnassign(ec2.world, source, ip))
    {
      ghost var w := ec2.world;
      ok := ec2.UnassignPrivateIpAddresses(source, ip);
      RecordedOne(log.allowed, log.start, log.calls, w, Unassign(source, ip, ok), ec2.reliable);
      after := log.(calls := log.calls + [Unassign(source, ip, ok)]);
    }

    /** The unassign goroutines, up to the wait group's barrier. */
    method UnassignAll(source: Eni, ips: seq<Ip>, errCh: ErrorChannel)
      returns (ghost failed: seq<bool>, ghost calls: seq<Call>)
      requires !errCh.closed && |errCh.buffer| + |ips| <= errCh.capacity
      modifies ec2`world, ec2`calls, errCh
      ensures |failed| == |ips| && !errCh.closed && |errCh.buffer| == |old(errCh.buffer)| + Count(failed)
      ensures ec2.world == Without(old(ec2.world), source, Succeeded(ips, failed))
      ensures ec2.reliable && Distinct(ips) && AllOn(old(ec2.world), source, ips) ==>
        forall i :: 0 <= i < |ips| ==> !failed[i]
      ensures ec2.calls == old(ec2.calls) + calls && Leads(old(ec2.world), calls, ec2.world, ec2.reliable)
      ensures forall c :: c in calls ==> Takes(c, source, Elements(ips))
      ensures FailedCalls(calls) == Count(failed) && OneCallEach(ips, calls)
    {
      hide Books, Ledger, Tallied, FailedCalls, Count, OneCallEach, Moved, WorldAfter, CanHappen;
      ghost var w0 := ec2.world;
      var tasks := AllReady(|ips|);
      failed := NoFlags(|ips|);
      ghost var log0 := Log(c => Takes(c, source, Elements(ips)), w0, ec2.calls, []);
      ghost var log := log0;
      RecordedNone(log0.allowed, w0, ec2.reliable);
      ghost var sent := NoFlags(|ips|);
      BooksOpen(ips);
      WithoutOneMore(w0, source, {}, "");
      while exists i :: 0 <= i < |tasks| && tasks[i] != Done
        invariant |tasks| == |failed| == |sent| == |ips|
        invariant !errCh.closed && |errCh.buffer| == |old(errCh.buffer)| + Count(sent)
        invariant ec2.world == Without(w0, source, Moved(ips, tasks, failed))
        invariant ec2.reliable && Distinct(ips) && AllOn(w0, source, ips) ==> forall i :: 0 <= i < |ips| ==> !failed[i]
        invariant log.Of(ec2) && log.Extends(log0) && Books(ips, tasks, failed, sent, log.calls)
        decreases WorkLeft(tasks)
      {
        var i: nat :| i < |tasks| && tasks[i] != Done;
        if tasks[i] == Ready {
          ghost var moved := Moved(ips, tasks, failed);
          WithoutOneMore(w0, source, moved, ips[i]);
          if Distinct(ips) {
            NotYetMoved(ips, tasks, failed, i);
          }
          var ok;
          ghost var before := log.calls;
          ok, log := UnassignOne(source, ips[i], log);
          CallBooked(ips, tasks, failed, sent, before, i, Unassign(source, ips[i], ok));
          assert ec2.world == if ok then Without(w0, source, moved + {ips[i]}) else Without(w0, source, moved);
          tasks, failed := tasks[i := if ok then Done else Erring], failed[i := !ok];
        } else {
          ErrorBooked(ips, tasks, failed, sent, log.calls, i);
          errCh.Send("failed to unassign IP " + ips[i] + " from ENI " + source);
          tasks, sent := tasks[i := Done], sent[i := true];
        }
      }
      BooksClose(ips, tasks, failed, sent, log.calls);
      calls := log.calls;
    }

    /** The call of one assign goroutine. */
    method AssignOne(dest: Eni, ip: Ip, ghost log: Log) returns (ok: bool, ghost after: Log)
      requires log.Of(ec2) && forall ok :: log.allowed(Assign(dest, ip, ok))
      modifies ec2`world, ec2`calls
      ensures after.Of(ec2) && after.Extends(log)
      ensures after.calls == log.calls + [Assign(dest, ip, ok)]
      ensures ok ==> CanAssign(old(ec2.world), dest, ip) && ec2.world == Assigned(old(ec2.world), dest, ip)
      ensures !ok ==> ec2.world == old(ec2.world) && !(ec2.reliable && CanAssign(ec2.world, dest, ip))
    {
      ghost var w := ec2.world;
      ok := ec2.AssignPrivateIpAddresses(dest, ip);
      RecordedOne(log.allowed, log.start, log.calls, w, Assign(dest, ip, ok), ec2.reliable);
      after := log.(calls := log.calls + [Assign(dest, ip, ok)]);
    }

    /** The assign goroutines, up to the second barrier. */
    method AssignAll(dest: Eni, ips: seq<Ip>, errCh: ErrorChannel)
      returns (ghost failed: seq<bool>, ghost calls: seq<Call>)
      requires !errCh.closed && |errCh.buffer| + |ips| <= errCh.capacity
      modifies ec2`world, ec2`calls, errCh
      ensures |failed| == |ips| && !errCh.closed && |errCh.buffer| == |old(errCh.buffer)| + Count(failed)
      ensures ec2.world == With(old(ec2.world), dest, Succeeded(ips, failed))
      ensures forall i :: 0 <= i < |ips| ==> Judged(ec2.reliable, old(ec2.world), dest, ips[i], failed[i])
      ensures ec2.calls == old(ec2.calls) + calls && Leads(old(ec2.world), calls, ec2.world, ec2.reliable)
      ensures forall c :: c in calls ==> Gives(c, dest, Elements(ips))
      ensures FailedCalls(calls) == Count(failed) && OneCallEach(ips, calls)
    {
      hide Books, Ledger, Tallied, FailedCalls, Count, OneCallEach, Moved, WorldAfter, CanHappen;
      ghost var w0 := ec2.world;
      var tasks := AllReady(|ips|);
      failed := NoFlags(|ips|);
      ghost var log0 := Log(c => Gives(c, dest, Elements(ips)), w0, ec2.calls, []);
      ghost var log := log0;
      RecordedNone(log0.allowed, w0, ec2.reliable);
      ghost var sent := NoFlags(|ips|);
      BooksOpen(ips);
      WithOneMore(w0, dest, {}, "");
      while exists i :: 0 <= i < |tasks| && tasks[i] != Done
        invariant |tasks| == |failed| == |sent| == |ips|
        invariant !errCh.closed && |errCh.buffer| == |old(errCh.buffer)| + Count(sent)
        invariant ec2.world == With(w0, dest, Moved(ips, tasks, failed))
        invariant forall i :: 0 <= i < |ips| && tasks[i] != Ready ==> Judged(ec2.reliable, w0, dest, ips[i], failed[i])
        invariant log.Of(ec2) && log.Extends(log0) && Books(ips, tasks, failed, sent, log.calls)
        decreases WorkLeft(tasks)
      {
        var i: nat :| i < |tasks| && tasks[i] != Done;
        if tasks[i] == Ready {
          ghost var moved := Moved(ips, tasks, failed);
          WithOneMore(w0, dest, moved, ips[i]);
          AssignableThroughout(w0, dest, moved, ips[i]);
          var ok;
          ghost var before := log.calls;
          ok, log := AssignOne(dest, ips[i], log);
          CallBooked(ips, tasks, failed, sent, before, i, Assign(dest, ips[i], ok));
          assert ec2.world == if ok then With(w0, dest, moved + {ips[i]}) else With(w0, dest, moved);
          tasks, failed := tasks[i := if ok then Done else Erring], failed[i := !ok];
        } else {
          ErrorBooked(ips, tasks, failed, sent, log.calls, i);
          errCh.Send("failed to assign IP " + ips[i] + " to ENI " + dest);
          tasks, sent := tasks[i := Done], sent[i := true];
        }
      }
      BooksClose(ips, tasks, failed, sent, log.calls);
      calls := log.calls;
    }

    /**
     Moves addresses from one interface to another: unassign all, wait, assign all, wait,
     collect the errors. The result is empty exactly when the source returns no error.
     */
    method ReassignFloatingIPs(source: Eni, dest: Eni, ips: seq<Ip>) returns (errs: seq<string>, ghost calls: seq<Call>)
      modifies ec2`world, ec2`calls
      ensures ec2.calls == old(ec2.calls) + calls && Leads(old(ec2.world), calls, ec2.world, ec2.reliable)
      ensures ReassignScript(source, dest, ips, calls, |errs|)
      ensures forall c :: c in calls ==> About(c, Elements(ips))
      ensures AlwaysBetween(old(ec2.world), calls, source, dest, Elements(ips))
      ensures Batch(old(ec2.world), source, dest, ips) ==>
        Accounted(old(ec2.world), ec2.world, source, dest, ips, errs, ec2.reliable)
    {
      hide WorldAfter, CanHappen, FailedCalls, Asked, Elements, MovedBetween, CountOn, CountNowhere;
      if |ips| == 0 {
        LeadsNone(ec2.world, ec2.reliable);
        NothingToMove(ec2.world, source, dest, ips, ec2.reliable);
        return [], [];
      }
      var errCh := new ErrorChannel(|ips| * 2);
      ghost var w0 := ec2.world;
      ghost var kept, takes := UnassignAll(source, ips, errCh);
      ghost var w1 := ec2.world;
      CountBounded(kept);
      ghost var lost, gives := AssignAll(dest, ips, errCh);
      calls := takes + gives;
      FailedConcat(takes, gives);
      assert calls[..|ips|] == takes && calls[|ips|..] == gives;
      LeadsThen(w0, takes, w1, gives, ec2.world, ec2.reliable);
      forall k | 0 <= k <= |calls|
        ensures MovedBetween(w0, WorldAfter(w0, calls[..k]), source, dest, Elements(ips))
      {
        MovesBetween(w0, calls[..k], source, dest, Elements(ips));
      }
      if Batch(w0, source, dest, ips) {
        BatchAccounts(w0, source, dest, ips, kept, lost, ec2.reliable);
      }
      errCh.Close();
      errs := errCh.Collect();
    }

    /** The interface that has an address. */
    method GetENIByIP(ip: Ip) returns (eni: Option<Eni>, ghost found: Option<seq<Eni>>)
      modifies ec2`looks
      ensures ec2.looks == old(ec2.looks) + [Interfaces(WithAddress(ip), found, |ec2.calls|)]
      ensures eni == First(found)
      ensures eni.Some? ==> Holds(ec2.world, eni.value, ip)
      ensures eni.None? ==> !ec2.reliable || HoldersOf(ec2.world, ip) == {}
    {
      var result := ec2.DescribeNetworkInterfaces(WithAddress(ip));
      found := result;
      if result.None? || |result.value| == 0 {
        assert result.Some? ==> forall e :: e in HoldersOf(ec2.world, ip) ==> e in result.value;
        return None, result;
      }
      assert result.value[0] in result.value;
      return Some(result.value[0]), result;
    }

    /** The secondary addresses of an interface, in the order EC2 lists them. */
    method GetENIFloatingIPs(e: Eni) returns (ips: Option<seq<Ip>>, ghost found: Option<seq<Eni>>)
      modifies ec2`looks
      ensures ec2.looks == old(ec2.looks) + [Interfaces(WithId(e), found, |ec2.calls|)]
      ensures ips.Some? <==> First(found) == Some(e)
      ensures ips.Some? <==> found.Some? && e in ec2.world.enis
      ensures ips.None? ==> !ec2.reliable || e !in ec2.world.enis
      ensures ips.Some? ==> e in ec2.world.enis && Lists(ips.value, ec2.world.enis[e].secondaries)
    {
      var addresses;
      addresses, found := ec2.DescribeAddresses(e);
      if addresses.None? {
        return None, found;
      }
      var floatingIPs := [];
      for i := 0 to |addresses.value|
        invariant forall j :: 0 <= j < |floatingIPs| ==> Address(floatingIPs[j], false) in addresses.value[..i]
        invariant forall ip :: Address(ip, false) in addresses.value[..i] ==> ip in floatingIPs
        invariant forall j, k :: 0 <= j < k < |floatingIPs| ==> floatingIPs[j] != floatingIPs[k]
      {
        if addresses.value[i].primary {
          continue;
        }
        assert addresses.value[i] !in addresses.value[..i];
        floatingIPs := floatingIPs + [addresses.value[i].ip];
      }
      assert addresses.value[..|addresses.value|] == addresses.value;
      forall ip
        ensures ip in floatingIPs <==> ip in ec2.world.enis[e].secondaries
      {
        assert Address(ip, false) in addresses.value <==> Address(ip, false) in AddressesOf(ec2.world.enis[e]);
      }
      return Some(floatingIPs), found;
    }

    /** The rest of a takeover: unassign from the owner, assign to our interface, look again. */
    method MoveENI(currentENI: Eni, myENI: Eni, eniIP: Ip)
      returns (ok: bool, ghost calls: seq<Call>, ghost looks: seq<Look>)
      requires Holds(ec2.world, currentENI, eniIP)
      requires myENI in InterfacesOf(ec2.world, instanceID) && currentENI != myENI
      modifies ec2
      ensures ec2.calls == old(ec2.calls) + calls && ec2.looks == old(ec2.looks) + looks
      ensures MoveScript(eniIP, currentENI, myENI, |old(ec2.calls)|, looks, calls, ok)
      ensures Leads(old(ec2.world), calls, ec2.world, ec2.reliable)
      ensures forall c :: c in calls ==> About(c, {eniIP})
      ensures TakeOverLeaves(old(ec2.world), ec2.world, eniIP, instanceID)
      ensures ok && WellFormed(old(ec2.world)) ==>
        ec2.world == TakenOver(old(ec2.world), myENI, eniIP) && HoldersOf(ec2.world, eniIP) == {myENI}
      ensures ec2.reliable && CanTakeOver(old(ec2.world), eniIP, instanceID) ==> ok
    {
      ghost var w0 := ec2.world;
      looks := [];
      TakeOverSteps(w0, currentENI, myENI, eniIP, instanceID);
      ok := ec2.UnassignPrivateIpAddresses(currentENI, eniIP);
      calls := [Unassign(currentENI, eniIP, ok)];
      LeadsOne(w0, [], w0, calls[0], ec2.reliable);
      assert [] + calls == calls;
      if !ok {
        return;
      }
      ghost var w1 := ec2.world;
      ok := ec2.AssignPrivateIpAddresses(myENI, eniIP);
      LeadsOne(w0, calls, w1, Assign(myENI, eniIP, ok), ec2.reliable);
      calls := calls + [Assign(myENI, eniIP, ok)];
      if !ok {
        return;
      }
      var actual;
      ghost var found;
      actual, found := GetENIByIP(eniIP);
      looks := [Interfaces(WithAddress(eniIP), found, |ec2.calls|)];
      if actual.None? {
        ok := false;
        return;
      }
      assert actual.value in HoldersOf(ec2.world, eniIP);
      ok := actual.value == myENI;
    }

    /** The look-ups of a takeover: who has the address, and if someone does, which interface is ours. */
    method FindOwners(eniIP: Ip) returns (current: Option<Eni>, mine: Option<Eni>, ghost looks: seq<Look>)
      modifies ec2`looks
      ensures ec2.looks == old(ec2.looks) + looks
      ensures looks != [] && looks[0] == Interfaces(WithAddress(eniIP), looks[0].found, |ec2.calls|)
      ensures current == First(looks[0].found)
      ensures current.None? ==> |looks| == 1 && mine.None?
      ensures current.Some? ==>
        |looks| == 2 && looks[1] == Interfaces(AttachedTo(instanceID), looks[1].found, |ec2.calls|) &&
        mine == First(looks[1].found)
      ensures current.Some? ==> Holds(ec2.world, current.value, eniIP)
      ensures mine.Some? ==> mine.value in InterfacesOf(ec2.world, instanceID)
      ensures ec2.reliable ==>
        && (current.None? ==> HoldersOf(ec2.world, eniIP) == {})
        && (current.Some? && mine.None? ==> InterfacesOf(ec2.world, instanceID) == {})
    {
      ghost var found;
      current, found := GetENIByIP(eniIP);
      mine, looks := None, [Interfaces(WithAddress(eniIP), found, |ec2.calls|)];
      if current.None? {
        return;
      }
      var result := ec2.DescribeNetworkInterfaces(AttachedTo(instanceID));
      looks := looks + [Interfaces(AttachedTo(instanceID), result, |ec2.calls|)];
      if result.None? || |result.value| == 0 {
        assert result.Some? ==> forall e :: e in InterfacesOf(ec2.world, instanceID) ==> e in result.value;
        return;
      }
      assert result.value[0] in result.value;
      mine := Some(result.value[0]);
    }

    /**
     Brings the ENI address to an interface of this instance: nothing if it is there already,
     otherwise unassign, assign, look again.
     */
    method TakeOverENI(eniIP: Ip) returns (ok: bool, ghost calls: seq<Call>, ghost looks: seq<Look>)
      modifies ec2
      ensures ec2.calls == old(ec2.calls) + calls && ec2.looks == old(ec2.looks) + looks
      ensures TakeOverScript(eniIP, instanceID, |old(ec2.calls)|, looks, calls, ok)
      ensures Leads(old(ec2.world), calls, ec2.world, ec2.reliable)
      ensures forall c :: c in calls ==> About(c, {eniIP})
      ensures AlwaysMoves(old(ec2.world), calls, {eniIP})
      ensures TakeOverLeaves(old(ec2.world), ec2.world, eniIP, instanceID)
      ensures ok && WellFormed(old(ec2.world)) ==>
        exists e :: e in InterfacesOf(old(ec2.world), instanceID) &&
          ec2.world == TakenOver(old(ec2.world), e, eniIP) && HoldersOf(ec2.world, eniIP) == {e}
      ensures HoldersOf(old(ec2.world), eniIP) == {} ==> !ok && calls == []
      ensures ec2.reliable && CanTakeOver(old(ec2.world), eniIP, instanceID) ==> ok
    {
      hide MoveScript, TakenOver, WellFormed;
      calls := [];
      MovesOnly(ec2.world, [], {eniIP});
      var current, mine;
      current, mine, looks := FindOwners(eniIP);
      if current.None? || mine.None? {
        assert forall o :: Holds(ec2.world, o, eniIP) ==> o in HoldersOf(ec2.world, eniIP);
        return false, [], looks;
      }
      var currentENI, myENI := current.value, mine.value;
      assert currentENI in HoldersOf(ec2.world, eniIP);
      if currentENI == myENI {
        OursAlready(ec2.world, myENI, eniIP);
        return true, [], looks;
      }
      ghost var w0, rest := ec2.world, [];
      ok, calls, rest := MoveENI(currentENI, myENI, eniIP);
      assert (looks + rest)[2..] == rest;
      looks := looks + rest;
      forall k | 0 <= k <= |calls|
        ensures OnlyMoves(w0, WorldAfter(w0, calls[..k]), {eniIP})
      {
        MovesOnly(w0, calls[..k], {eniIP});
      }
    }

    /** The call of one replace goroutine. */
    method ReplaceOne(table: string, cidr: string, newENI: Eni, ghost log: Log) returns (ok: bool, ghost after: Log)
      requires log.Of(ec2) && forall ok :: log.allowed(Replace(table, cidr, newENI, ok))
      modifies ec2`world, ec2`calls
      ensures after.Of(ec2) && after.Extends(log)
      ensures after.calls == log.calls + [Replace(table, cidr, newENI, ok)]
      ensures ok ==> table in TablesTo(old(ec2.world), cidr) && ec2.world == Routed(old(ec2.world), table, cidr, newENI)
      ensures !ok ==> ec2.world == old(ec2.world) && !(ec2.reliable && table in TablesTo(ec2.world, cidr))
    {
      ghost var w := ec2.world;
      ok := ec2.ReplaceRoute(table, cidr, newENI);
      RecordedOne(log.allowed, log.start, log.calls, w, Replace(table, cidr, newENI, ok), ec2.reliable);
      after := log.(calls := log.calls + [Replace(table, cidr, newENI, ok)]);
    }

    /** The replace goroutines, up to the wait group's barrier. */
    method ReplaceAll(cidr: string, newENI: Eni, tables: seq<string>, errCh: ErrorChannel)
      returns (ghost failed: seq<bool>, ghost calls: seq<Call>)
      requires !errCh.closed && |errCh.buffer| + |tables| <= errCh.capacity
      modifies ec2`world, ec2`calls, errCh
      ensures |failed| == |tables| && !errCh.closed && |errCh.buffer| == |old(errCh.buffer)| + Count(failed)
      ensures ec2.world == RoutedTables(old(ec2.world), cidr, newENI, Succeeded(tables, failed))
      ensures Succeeded(tables, failed) <= TablesTo(old(ec2.world), cidr)
      ensures ec2.reliable && Elements(tables) <= TablesTo(old(ec2.world), cidr) ==>
        forall i :: 0 <= i < |tables| ==> !failed[i]
      ensures ec2.calls == old(ec2.calls) + calls && Leads(old(ec2.world), calls, ec2.world, ec2.reliable)
      ensures forall c :: c in calls ==> Points(c, cidr, newENI)
      ensures FailedCalls(calls) == Count(failed) && OneCallEach(tables, calls)
    {
      hide Books, Ledger, Tallied, FailedCalls, Count, OneCallEach, Moved, WorldAfter, CanHappen, RoutedTables;
      ghost var w0 := ec2.world;
      var tasks := AllReady(|tables|);
      failed := NoFlags(|tables|);
      ghost var log0 := Log(c => Points(c, cidr, newENI), w0, ec2.calls, []);
      ghost var log := log0;
      RecordedNone(log0.allowed, w0, ec2.reliable);
      ghost var sent := NoFlags(|tables|);
      BooksOpen(tables);
      RoutedNone(w0, cidr, newENI);
      while exists i :: 0 <= i < |tasks| && tasks[i] != Done
        invariant |tasks| == |failed| == |sent| == |tables|
        invariant !errCh.closed && |errCh.buffer| == |old(errCh.buffer)| + Count(sent)
        invariant ec2.world == RoutedTables(w0, cidr, newENI, Moved(tables, tasks, failed))
        invariant Moved(tables, tasks, failed) <= TablesTo(w0, cidr)
        invariant ec2.reliable && Elements(tables) <= TablesTo(w0, cidr) ==>
          forall i :: 0 <= i < |tables| ==> !failed[i]
        invariant log.Of(ec2) && log.Extends(log0) && Books(tables, tasks, failed, sent, log.calls)
        decreases WorkLeft(tasks)
      {
        var i: nat :| i < |tasks| && tasks[i] != Done;
        if tasks[i] == Ready {
          ghost var moved := Moved(tables, tasks, failed);
          RoutedOneMore(w0, cidr, newENI, moved, tables[i]);
          var ok;
          ghost var before := log.calls;
          ok, log := ReplaceOne(tables[i], cidr, newENI, log);
          CallBooked(tables, tasks, failed, sent, before, i, Replace(tables[i], cidr, newENI, ok));
          assert ec2.world == RoutedTables(w0, cidr, newENI, if ok then moved + {tables[i]} else moved);
          assert tables[i] in Elements(tables);
          tasks, failed := tasks[i := if ok then Done else Erring], failed[i := !ok];
        } else {
          ErrorBooked(tables, tasks, failed, sent, log.calls, i);
          errCh.Send("failed to update route in table " + tables[i]);
          tasks, sent := tasks[i := Done], sent[i := true];
        }
      }
      BooksClose(tables, tasks, failed, sent, log.calls);
      calls := log.calls;
    }

    /**
     Points every route to the block at an interface. The result is empty exactly when the source
     returns no error.
     */
    method UpdateRouteTables(cidr: string, newENI: Eni)
      returns (errs: seq<string>, ghost calls: seq<Call>, ghost looks: seq<Look>)
      modifies ec2
      ensures ec2.calls == old(ec2.calls) + calls && ec2.looks == old(ec2.looks) + looks
      ensures RouteScript(cidr, newENI, looks, calls, |errs|)
      ensures looks[0].found.Some? ==> Lists(looks[0].found.value, TablesTo(old(ec2.world), cidr))
      ensures Leads(old(ec2.world), calls, ec2.world, ec2.reliable)
      ensures forall c :: c in calls ==> Points(c, cidr, newENI)
      ensures AlwaysRoutes(old(ec2.world), calls, cidr, newENI)
      ensures errs == [] ==> ec2.world == RoutedTables(old(ec2.world), cidr, newENI, TablesTo(old(ec2.world), cidr))
      ensures TablesTo(old(ec2.world), cidr) == {} ==> errs != []
      ensures ec2.reliable && TablesTo(old(ec2.world), cidr) != {} ==> errs == []
    {
      calls := [];
      RoutesOnly(ec2.world, [], cidr, newENI);
      var routeTables := ec2.DescribeRouteTables(cidr);
      looks := [Tables(cidr, routeTables, |ec2.calls|)];
      if routeTables.None? {
        return ["failed to describe route tables"], [], looks;
      }
      var tables := routeTables.value;
      if |tables| == 0 {
        assert forall t :: t in TablesTo(ec2.world, cidr) ==> t in tables;
        return ["no route tables found with routes to " + cidr], [], looks;
      }
      assert tables[0] in tables;
      assert Elements(tables) == TablesTo(ec2.world, cidr) by {
        assert forall t :: t in Elements(tables) <==> t in tables;
      }
      var errCh := new ErrorChannel(|tables|);
      ghost var w0 := ec2.world;
      ghost var failed;
      failed, calls := ReplaceAll(cidr, newENI, tables, errCh);
      forall k | 0 <= k <= |calls|
        ensures OnlyRoutes(w0, WorldAfter(w0, calls[..k]), cidr, newENI)
      {
        RoutesOnly(w0, calls[..k], cidr, newENI);
      }
      CountBounded(failed);
      errCh.Close();
      errs := errCh.Collect();
      if errs == [] {
        assert Succeeded(tables, failed) == Elements(tables);
      }
    }
  }

  /**
   The accounts of a reassignment: two errors for each address left on the source, one for each
   that ends up nowhere, none for those that arrive; without errors all have arrived, and a
   reliable store gives no errors.
   */
  ghost predicate Accounted(
    w0: World, w: World, source: Eni, dest: Eni, ips: seq<Ip>, errs: seq<string>, reliable: bool)
  {
    && |errs| == 2 * CountOn(w, source, ips) + CountNowhere(w, ips)
    && (forall i :: 0 <= i < |ips| ==> OnEni(w, source, ips[i]) || OnEni(w, dest, ips[i]) || Nowhere(w, ips[i]))
    && (errs == [] ==> w == With(Without(w0, source, Elements(ips)), dest, Elements(ips)))
    && (reliable ==> errs == [])
  }

  lemma NothingToMove(w: World, source: Eni, dest: Eni, ips: seq<Ip>, reliable: bool)
    requires ips == []
    ensures AlwaysBetween(w, [], source, dest, Elements(ips))
    ensures Accounted(w, w, source, dest, ips, [], reliable)
    ensures ReassignScript(source, dest, ips, [], 0)
  {
    MovesBetween(w, [], source, dest, Elements(ips));
    WithoutOneMore(w, source, {}, "");
    WithOneMore(w, dest, {}, "");
    assert Elements(ips) == {};
  }

  /** A call that succeeded was possible; on a reliable store one that failed was not. */
  ghost predicate Judged(reliable: bool, w: World, dest: Eni, ip: Ip, failed: bool) {
    && (!failed ==> CanAssign(w, dest, ip))
    && (reliable && CanAssign(w, dest, ip) ==> !failed)
  }

  /** Whether an address can be assigned does not depend on what else the interface has been given. */
  lemma AssignableThroughout(w: World, dest: Eni, ips: set<Ip>, ip: Ip)
    ensures CanAssign(With(w, dest, ips), dest, ip) <==> CanAssign(w, dest, ip)
  {
    assert forall f :: f in w.enis && f != dest ==> (Holds(With(w, dest, ips), f, ip) <==> Holds(w, f, ip));
  }

  // ---------------------------------------------------------------- taking over the ENI address

  /** Nothing has changed but the place of the listed addresses, and each is still on one interface at most. */
  ghost predicate OnlyMoves(w0: World, w: World, ips: set<Ip>) {
    && w.routes == w0.routes
    && w.enis.Keys == w0.enis.Keys
    && (forall f :: f in w.enis ==>
         && w.enis[f].primary == w0.enis[f].primary
         && w.enis[f].instance == w0.enis[f].instance
         && w.enis[f].secondaries - ips == w0.enis[f].secondaries - ips)
    && (WellFormed(w0) ==> WellFormed(w))
  }

  lemma OneMoveOnly(w0: World, w: World, c: Call, ips: set<Ip>)
    requires OnlyMoves(w0, w, ips) && About(c, ips) && (WellFormed(w) ==> WellFormed(After(w, c)))
    ensures OnlyMoves(w0, After(w, c), ips)
  {
  }

  /** Calls about the addresses only move them. */
  lemma {:induction false} MovesOnly(w0: World, calls: seq<Call>, ips: set<Ip>)
    requires forall c :: c in calls ==> About(c, ips)
    ensures OnlyMoves(w0, WorldAfter(w0, calls), ips)
  {
    if calls != [] {
      var before, last := calls[..|calls| - 1], calls[|calls| - 1];
      assert last in calls;
      MovesOnly(w0, before, ips);
      CallKeepsWellFormed(WorldAfter(w0, before), last);
      OneMoveOnly(w0, WorldAfter(w0, before), last, ips);
    }
  }

  /** At every point of the calls nothing but the place of the listed addresses has changed. */
  ghost predicate AlwaysMoves(w0: World, calls: seq<Call>, ips: set<Ip>) {
    forall k :: 0 <= k <= |calls| ==> OnlyMoves(w0, WorldAfter(w0, calls[..k]), ips)
  }

  /** The four places a takeover can stop: nothing done, unassigned from its owner, or assigned to us. */
  ghost predicate TakeOverLeaves(w0: World, w: World, ip: Ip, instance: string) {
    || w == w0
    || exists owner :: CanUnassign(w0, owner, ip) &&
         (|| w == Unassigned(w0, owner, ip)
          || exists mine :: mine in InterfacesOf(w0, instance) && w == Assigned(Unassigned(w0, owner, ip), mine, ip))
  }

  /** Someone has the address: we do, or another interface has it as a secondary. */
  ghost predicate CanTakeOver(w: World, ip: Ip, instance: string) {
    && WellFormed(w)
    && InterfacesOf(w, instance) != {}
    && exists o :: Holds(w, o, ip) && (CanUnassign(w, o, ip) || InterfacesOf(w, instance) == {o})
  }

  /** The address on interface `mine`, and nowhere else. */
  ghost function TakenOver(w: World, mine: Eni, ip: Ip): World {
    if Holds(w, mine, ip) then w
    else w.(enis := map e | e in w.enis ::
      w.enis[e].(secondaries := if e == mine then w.enis[e].secondaries + {ip} else w.enis[e].secondaries - {ip}))
  }

  lemma OursAlready(w: World, mine: Eni, ip: Ip)
    requires Holds(w, mine, ip)
    ensures TakenOver(w, mine, ip) == w && (WellFormed(w) ==> HoldersOf(w, ip) == {mine})
  {
    assert WellFormed(w) ==> forall e :: e in HoldersOf(w, ip) <==> e == mine;
  }

  /** What the two calls of a takeover do between an owner and another interface of ours. */
  lemma TakeOverSteps(w0: World, owner: Eni, mine: Eni, ip: Ip, instance: string)
    requires Holds(w0, owner, ip) && mine in InterfacesOf(w0, instance) && owner != mine
    ensures CanUnassign(w0, owner, ip) && WellFormed(w0) ==>
      var u := Unassigned(w0, owner, ip);
      && CanAssign(u, mine, ip)
      && Assigned(u, mine, ip) == TakenOver(w0, mine, ip)
      && HoldersOf(Assigned(u, mine, ip), ip) == {mine}
    ensures WellFormed(w0) && !CanUnassign(w0, owner, ip) ==> !CanTakeOver(w0, ip, instance)
  {
    if CanUnassign(w0, owner, ip) && WellFormed(w0) {
      TakeOverArrives(w0, owner, mine, ip);
    }
  }

  lemma TakeOverArrives(w0: World, owner: Eni, mine: Eni, ip: Ip)
    requires WellFormed(w0) && CanUnassign(w0, owner, ip) && mine in w0.enis && owner != mine
    ensures var u := Unassigned(w0, owner, ip);
      && CanAssign(u, mine, ip)
      && Assigned(u, mine, ip) == TakenOver(w0, mine, ip)
      && HoldersOf(Assigned(u, mine, ip), ip) == {mine}
  {
    var u := Unassigned(w0, owner, ip);
    var a := Assigned(u, mine, ip);
    assert Holds(w0, owner, ip);
    assert forall e :: e in w0.enis && e != owner ==> !Holds(w0, e, ip);
    assert forall e :: e in w0.enis && e != owner ==> w0.enis[e].secondaries - {ip} == w0.enis[e].secondaries;
    assert a.enis == TakenOver(w0, mine, ip).enis;
    assert forall e :: e in a.enis ==> (Holds(a, e, ip) <==> e == mine);
  }

  /** A takeover that stops between its two calls leaves an address that no later takeover can find. */
  lemma InterruptedTakeOverIsFinal(w: World, owner: Eni, ip: Ip, instance: string)
    requires WellFormed(w) && CanUnassign(w, owner, ip)
    ensures var u := Unassigned(w, owner, ip);
      HoldersOf(u, ip) == {} && !CanTakeOver(u, ip, instance)
  {
    var u := Unassigned(w, owner, ip);
    assert Holds(w, owner, ip);
    assert forall e :: Holds(u, e, ip) ==> Holds(w, e, ip);
  }

  // ---------------------------------------------------------------- routes

  /** The listed tables' routes to the block lead to interface `e`. */
  ghost function RoutedTables(w: World, cidr: string, e: Eni, tables: set<string>): World {
    w.(routes := map t | t in w.routes :: if t in tables then w.routes[t][cidr := e] else w.routes[t])
  }

  /** Some routes to the block may lead to `e` now; nothing else has changed. */
  ghost predicate OnlyRoutes(w0: World, w: World, cidr: string, e: Eni) {
    && w.enis == w0.enis
    && w.routes.Keys == w0.routes.Keys
    && forall t :: t in w.routes ==>
         w.routes[t] == w0.routes[t] || (cidr in w0.routes[t] && w.routes[t] == w0.routes[t][cidr := e])
  }

  /** Calls that point routes to the block at the interface change nothing else. */
  lemma {:induction false} RoutesOnly(w0: World, calls: seq<Call>, cidr: string, e: Eni)
    requires forall c :: c in calls ==> Points(c, cidr, e)
    ensures OnlyRoutes(w0, WorldAfter(w0, calls), cidr, e)
  {
    if calls != [] {
      var before, last := calls[..|calls| - 1], calls[|calls| - 1];
      assert last in calls;
      RoutesOnly(w0, before, cidr, e);
    }
  }

  /** At every point of the calls, only routes to the block have changed, and only to the interface. */
  ghost predicate AlwaysRoutes(w0: World, calls: seq<Call>, cidr: string, e: Eni) {
    forall k :: 0 <= k <= |calls| ==> OnlyRoutes(w0, WorldAfter(w0, calls[..k]), cidr, e)
  }

  lemma RoutedNone(w: World, cidr: string, e: Eni)
    ensures RoutedTables(w, cidr, e, {}) == w
  {
    assert RoutedTables(w, cidr, e, {}).routes == w.routes;
  }

  lemma RoutedOneMore(w: World, cidr: string, e: Eni, tables: set<string>, t: string)
    requires tables <= TablesTo(w, cidr)
    ensures var r := RoutedTables(w, cidr, e, tables);
      && TablesTo(r, cidr) == TablesTo(w, cidr)
      && (t in TablesTo(w, cidr) ==> Routed(r, t, cidr, e) == RoutedTables(w, cidr, e, tables + {t}))
  {
    var r := RoutedTables(w, cidr, e, tables);
    if t in TablesTo(w, cidr) {
      assert w.routes[t][cidr := e][cidr := e] == w.routes[t][cidr := e];
      assert Routed(r, t, cidr, e).routes == RoutedTables(w, cidr, e, tables + {t}).routes;
    }
  }
}
