/** What a node does to EC2 when it becomes primary, as a whole. */
module FailoverActions {
  import opened Wrappers
  import opened Addresses
  import opened Ec2
  import opened Parallel
  import opened Aws
  import opened CallOrder

  // ---------------------------------------------------------------- what a failover may touch

  /** The ENI address, and the secondary addresses that the filter lets through. */
  predicate MayMove(ip: Ip, eniIP: Ip) {
    ip == eniIP || |Split(eniIP)| != 4 || Floating(ip, eniIP)
  }

  /**
   Between the two worlds only addresses that may move have moved, only routes to the block
   have new targets, and no address has come to be on two interfaces. Primary addresses in
   particular are where they were.
   */
  ghost predicate Touches(w0: World, w: World, eniIP: Ip, cidr: string) {
    && w.enis.Keys == w0.enis.Keys
    && (forall f :: f in w.enis ==>
         w.enis[f].primary == w0.enis[f].primary && w.enis[f].instance == w0.enis[f].instance)
    && (forall f, ip :: f in w.enis && !MayMove(ip, eniIP) ==>
         (ip in w.enis[f].secondaries <==> ip in w0.enis[f].secondaries))
    && w.routes.Keys == w0.routes.Keys
    && (forall t :: t in w.routes ==> SameButFor(w0.routes[t], w.routes[t], cidr))
    && (WellFormed(w0) ==> WellFormed(w))
  }

  ghost predicate SameButFor(r0: map<string, Eni>, r: map<string, Eni>, cidr: string) {
    r.Keys == r0.Keys && forall c :: c in r && c != cidr ==> r[c] == r0[c]
  }

  lemma TouchesTransitive(a: World, b: World, c: World, eniIP: Ip, cidr: string)
    requires Touches(a, b, eniIP, cidr) && Touches(b, c, eniIP, cidr)
    ensures Touches(a, c, eniIP, cidr)
  {
  }

  /** The call is about an address that may move, or a route to the block. */
  predicate MayCall(c: Call, eniIP: Ip, cidr: string) {
    if c.Replace? then c.cidr == cidr else MayMove(c.ip, eniIP)
  }

  lemma CallTouches(w: World, c: Call, eniIP: Ip, cidr: string)
    requires MayCall(c, eniIP, cidr)
    ensures Touches(w, After(w, c), eniIP, cidr)
  {
    CallKeepsWellFormed(w, c);
  }

  lemma {:induction false} CallsTouch(w: World, calls: seq<Call>, eniIP: Ip, cidr: string)
    requires forall c :: c in calls ==> MayCall(c, eniIP, cidr)
    ensures Touches(w, WorldAfter(w, calls), eniIP, cidr)
  {
    if calls != [] {
      var before, last := calls[..|calls| - 1], calls[|calls| - 1];
      assert last in calls;
      CallsTouch(w, before, eniIP, cidr);
      CallTouches(WorldAfter(w, before), last, eniIP, cidr);
      TouchesTransitive(w, WorldAfter(w, before), WorldAfter(w, calls), eniIP, cidr);
    }
  }

  /** The world at every point of the calls. */
  ghost predicate AlwaysTouches(w: World, calls: seq<Call>, eniIP: Ip, cidr: string) {
    forall k :: 0 <= k <= |calls| ==> Touches(w, WorldAfter(w, calls[..k]), eniIP, cidr)
  }

  /** Calls that may be made touch nothing else, at every point and in whatever order they come. */
  lemma CallsAlwaysTouch(w: World, calls: seq<Call>, eniIP: Ip, cidr: string)
    requires forall c :: c in calls ==> MayCall(c, eniIP, cidr)
    ensures AlwaysTouches(w, calls, eniIP, cidr)
  {
    forall k | 0 <= k <= |calls|
      ensures Touches(w, WorldAfter(w, calls[..k]), eniIP, cidr)
    {
      CallsTouch(w, calls[..k], eniIP, cidr);
    }
  }

  /**
   However the calls of `both` on routes and on addresses are interleaved after those of
   `first`: they can happen, lead to the same world, and touch nothing else at any point.
   */
  ghost predicate AnyInterleaving(
    w0: World, first: seq<Call>, both: seq<Call>, w: World, reliable: bool, eniIP: Ip, cidr: string)
  {
    forall mixed :: Interleaves(mixed, both) ==>
      Leads(w0, first + mixed, w, reliable) && AlwaysTouches(w0, first + mixed, eniIP, cidr)
  }

  lemma AnyInterleavingHolds(
    w0: World, first: seq<Call>, w1: World, both: seq<Call>, w: World, reliable: bool, eniIP: Ip, cidr: string)
    requires Leads(w0, first, w1, reliable) && Leads(w1, both, w, reliable)
    requires forall c :: c in first || c in both ==> MayCall(c, eniIP, cidr)
    ensures AnyInterleaving(w0, first, both, w, reliable, eniIP, cidr)
  {
    forall mixed | Interleaves(mixed, both)
      ensures Leads(w0, first + mixed, w, reliable) && AlwaysTouches(w0, first + mixed, eniIP, cidr)
    {
      InterleavingLeads(w1, both, mixed, w, reliable);
      LeadsThen(w0, first, w1, mixed, w, reliable);
      forall c | c in first + mixed
        ensures MayCall(c, eniIP, cidr)
      {
        InterleavingHas(both, mixed, c);
      }
      CallsAlwaysTouch(w0, first + mixed, eniIP, cidr);
    }
  }

  // ---------------------------------------------------------------- the old primary

  /** The floating secondaries of an interface. */
  function FloatingOn(w: World, e: Eni, eniIP: Ip): set<Ip>
    requires e in w.enis
  {
    set ip | ip in w.enis[e].secondaries && (|Split(eniIP)| != 4 || Floating(ip, eniIP))
  }

  lemma FilteredIsFloatingOn(w: World, e: Eni, eniIP: Ip, ips: seq<Ip>)
    requires e in w.enis && Lists(ips, w.enis[e].secondaries)
    ensures var fs := FloatingOnly(ips, eniIP);
      Elements(fs) == FloatingOn(w, e, eniIP) && Distinct(fs)
  {
    var fs := FloatingOnly(ips, eniIP);
    FilterDistinct(ips, eniIP);
    forall ip
      ensures ip in Elements(fs) <==> ip in FloatingOn(w, e, eniIP)
    {
      assert ip in Elements(fs) <==> ip in fs;
      if |Split(eniIP)| == 4 {
        FilterKeeps(ips, eniIP, ip);
      }
    }
  }

  /** No interface but one has floating addresses. */
  ghost predicate NoneBut(w: World, e: Eni, eniIP: Ip) {
    forall f :: f in w.enis && f != e ==> FloatingOn(w, f, eniIP) == {}
  }

  /**
   A search through the listed interfaces, with the look-ups it makes: each interface but the new
   one is looked up in turn, up to the first that can be read and has floating addresses.
   */
  ghost predicate Searched(
    w: World, listed: seq<Eni>, newENI: Eni, eniIP: Ip, base: nat, looks: seq<Look>, found: Option<Eni>)
    decreases |listed|
  {
    if listed == [] then looks == [] && found.None?
    else if listed[0] == newENI then Searched(w, listed[1..], newENI, eniIP, base, looks, found)
    else
      var e := listed[0];
      && looks != [] && looks[0] == Interfaces(WithId(e), looks[0].found, base)
      && if looks[0].found.Some? && e in w.enis && FloatingOn(w, e, eniIP) != {} then |looks| == 1 && found == Some(e)
         else Searched(w, listed[1..], newENI, eniIP, base, looks[1..], found)
  }

  /** The interfaces are listed, and if that succeeds they are searched. */
  ghost predicate SearchScript(w: World, newENI: Eni, eniIP: Ip, base: nat, looks: seq<Look>, found: Option<Eni>) {
    && looks != [] && looks[0] == Interfaces(Every, looks[0].found, base)
    && match looks[0].found
       case None => |looks| == 1 && found.None?
       case Some(listed) =>
         Lists(listed, w.enis.Keys) && Searched(w, listed, newENI, eniIP, base, looks[1..], found)
  }

  /** A search that has found nothing goes on with the interfaces that follow. */
  lemma {:induction false} SearchGoesOn(
    w: World, a: seq<Eni>, b: seq<Eni>, newENI: Eni, eniIP: Ip, base: nat, l: seq<Look>, m: seq<Look>,
    found: Option<Eni>)
    requires Searched(w, a, newENI, eniIP, base, l, None) && Searched(w, b, newENI, eniIP, base, m, found)
    ensures Searched(w, a + b, newENI, eniIP, base, l + m, found)
    decreases |a|
  {
    if a == [] {
      assert a + b == b && l + m == m;
    } else {
      assert (a + b)[1..] == a[1..] + b;
      if a[0] == newENI {
        SearchGoesOn(w, a[1..], b, newENI, eniIP, base, l, m, found);
      } else {
        assert (l + m)[1..] == l[1..] + m;
        SearchGoesOn(w, a[1..], b, newENI, eniIP, base, l[1..], m, found);
      }
    }
  }

  /** The interface was looked up, and that failed. */
  predicate Unread(looks: seq<Look>, e: Eni, base: nat) {
    Interfaces(WithId(e), None, base) in looks
  }

  /**
   What a search passes over: the new interface, those whose own look-up failed, and those without
   floating addresses.
   */
  ghost predicate PassedOver(w: World, es: seq<Eni>, newENI: Eni, looks: seq<Look>, eniIP: Ip, base: nat) {
    forall e :: e in es ==>
      e == newENI || Unread(looks, e, base) || (e in w.enis ==> FloatingOn(w, e, eniIP) == {})
  }

  /**
   What a search finds is the first listed interface with floating addresses, but for those that
   could not be read.
   */
  lemma {:induction false} SearchFindsFirst(
    w: World, listed: seq<Eni>, newENI: Eni, eniIP: Ip, base: nat, looks: seq<Look>, found: Option<Eni>)
    requires Searched(w, listed, newENI, eniIP, base, looks, found)
    ensures found.None? ==> PassedOver(w, listed, newENI, looks, eniIP, base)
    ensures found.Some? ==>
      && found.value in w.enis && found.value != newENI && FloatingOn(w, found.value, eniIP) != {}
      && exists i :: 0 <= i < |listed| && listed[i] == found.value &&
           PassedOver(w, listed[..i], newENI, looks, eniIP, base)
    decreases |listed|
  {
    if listed != [] {
      var e, rest := listed[0], listed[1..];
      if e != newENI && looks[0].found.Some? && e in w.enis && FloatingOn(w, e, eniIP) != {} {
        assert listed[..0] == [];
      } else {
        var later := if e == newENI then looks else looks[1..];
        SearchFindsFirst(w, rest, newENI, eniIP, base, later, found);
        assert forall l :: l in later ==> l in looks;
        assert e != newENI && looks[0].found.None? ==> Unread(looks, e, base);
        if found.Some? {
          var i :| 0 <= i < |rest| && rest[i] == found.value &&
            PassedOver(w, rest[..i], newENI, later, eniIP, base);
          assert listed[..i + 1] == [e] + rest[..i];
          assert listed[i + 1] == found.value;
        }
      }
    }
  }

  /** A search in which no look-up fails and that finds nothing has found that there is nothing. */
  lemma SearchFindsAll(
    w: World, listed: seq<Eni>, newENI: Eni, eniIP: Ip, base: nat, looks: seq<Look>)
    requires Searched(w, listed, newENI, eniIP, base, looks, None) && Lists(listed, w.enis.Keys)
    requires forall l :: l in looks ==> l.found.Some?
    ensures NoneBut(w, newENI, eniIP)
  {
    SearchFindsFirst(w, listed, newENI, eniIP, base, looks, None);
  }

  lemma SearchStarts(w: World, listed: seq<Eni>, newENI: Eni, eniIP: Ip, base: nat)
    ensures Searched(w, listed[..0], newENI, eniIP, base, [], None)
  {
  }

  /** A step of a search that goes on: the interface is the new one, or is looked up in vain. */
  lemma StepGoesOn(
    w: World, listed: seq<Eni>, i: nat, newENI: Eni, eniIP: Ip, base: nat, looks: seq<Look>, step: seq<Look>)
    requires i < |listed| && Searched(w, listed[..i], newENI, eniIP, base, looks, None)
    requires var e := listed[i];
      if e == newENI then step == []
      else
        && |step| == 1 && step[0] == Interfaces(WithId(e), step[0].found, base)
        && !(step[0].found.Some? && e in w.enis && FloatingOn(w, e, eniIP) != {})
    ensures Searched(w, listed[..i + 1], newENI, eniIP, base, looks + step, None)
  {
    assert listed[..i + 1] == listed[..i] + [listed[i]];
    assert Searched(w, [listed[i]], newENI, eniIP, base, step, None);
    SearchGoesOn(w, listed[..i], [listed[i]], newENI, eniIP, base, looks, step, None);
  }

  /**
   Looks through the interfaces other than the new one, as they are listed, for the first
   with floating addresses; an interface whose addresses cannot be read is skipped.
   */
  method FindOldPrimary(aws: AWSClient, newENI: Eni, eniIP: Ip)
    returns (oldENI: Option<Eni>, floatingIPs: seq<Ip>, ghost looks: seq<Look>)
    modifies aws.ec2`looks
    ensures aws.ec2.looks == old(aws.ec2.looks) + looks
    ensures SearchScript(aws.ec2.world, newENI, eniIP, |aws.ec2.calls|, looks, oldENI)
    ensures oldENI.Some? ==>
      && oldENI.value in aws.ec2.world.enis && oldENI.value != newENI
      && floatingIPs != [] && Distinct(floatingIPs)
      && Elements(floatingIPs) == FloatingOn(aws.ec2.world, oldENI.value, eniIP) != {}
    ensures oldENI.None? ==> floatingIPs == []
    ensures aws.ec2.reliable && oldENI.None? ==> NoneBut(aws.ec2.world, newENI, eniIP)
  {
    hide Searched, FloatingOnly, NoneBut;
    ghost var w, base := aws.ec2.world, |aws.ec2.calls|;
    oldENI, floatingIPs := None, [];
    var result := aws.ec2.DescribeNetworkInterfaces(Every);
    ghost var head := Interfaces(Every, result, base);
    looks := [head];
    if result.None? {
      return;
    }
    var listed := result.value;
    SearchStarts(w, listed, newENI, eniIP, base);
    ghost var tail: seq<Look> := [];
    for i := 0 to |listed|
      invariant aws.ec2.looks == old(aws.ec2.looks) + [head] + tail
      invariant Searched(w, listed[..i], newENI, eniIP, base, tail, None)
      invariant aws.ec2.reliable ==> forall l :: l in tail ==> l.found.Some?
    {
      var e := listed[i];
      assert e in listed;
      ghost var step: seq<Look> := [];
      if e != newENI {
        var ips;
        ghost var found;
        ips, found := aws.GetENIFloatingIPs(e);
        step := [Interfaces(WithId(e), found, base)];
        if ips.Some? {
          var filtered := FilterFloatingIPs(ips.value, eniIP);
          FilteredIsFloatingOn(w, e, eniIP, ips.value);
          if |filtered| > 0 {
            assert filtered[0] in Elements(filtered);
            oldENI, floatingIPs := Some(e), filtered;
            SearchEnds(w, listed, i, newENI, eniIP, base, tail, found);
            looks := [head] + (tail + step);
            assert looks[1..] == tail + step;
            return;
          }
          assert Elements(filtered) == {};
        }
      }
      StepGoesOn(w, listed, i, newENI, eniIP, base, tail, step);
      tail := tail + step;
    }
    assert listed[..|listed|] == listed;
    looks := [head] + tail;
    assert looks[1..] == tail;
    if aws.ec2.reliable {
      SearchFindsAll(w, listed, newENI, eniIP, base, tail);
    }
  }

  /** The search ends at the first interface with floating addresses. */
  lemma SearchEnds(
    w: World, listed: seq<Eni>, i: nat, newENI: Eni, eniIP: Ip, base: nat, looks: seq<Look>, found: Option<seq<Eni>>)
    requires i < |listed| && Searched(w, listed[..i], newENI, eniIP, base, looks, None)
    requires listed[i] != newENI && listed[i] in w.enis && FloatingOn(w, listed[i], eniIP) != {} && found.Some?
    ensures var look := Interfaces(WithId(listed[i]), found, base);
      Searched(w, listed, newENI, eniIP, base, looks + [look], Some(listed[i]))
  {
    SearchGoesOn(w, listed[..i], listed[i..], newENI, eniIP, base, looks,
                 [Interfaces(WithId(listed[i]), found, base)], Some(listed[i]));
    assert listed[..i] + listed[i..] == listed;
  }

  // ---------------------------------------------------------------- the two parallel tasks

  /** The route goroutine, its look-up and its calls; it succeeds when there is no block or no error. */
  ghost predicate RouteSide(cidr: string, e: Eni, looks: seq<Look>, calls: seq<Call>, ok: bool) {
    if cidr == "" then ok && looks == [] && calls == []
    else
      && |looks| == 1
      && var errors := RouteErrors(looks[0].found, calls);
         RouteScript(cidr, e, looks, calls, errors) && (ok <==> errors == 0)
  }

  /** The address goroutine and its calls; it succeeds when there is nothing to move or no error. */
  ghost predicate AddressSide(from: Option<Eni>, to: Eni, ips: seq<Ip>, calls: seq<Call>, ok: bool) {
    if from.None? || ips == [] then ok && calls == []
    else ReassignScript(from.value, to, ips, calls, FailedCalls(calls)) && (ok <==> FailedCalls(calls) == 0)
  }

  /** The route goroutine: sends one result, empty for success. */
  method UpdateRoutes(aws: AWSClient, cidr: string, newENI: Eni, results: ErrorChannel)
    returns (ghost calls: seq<Call>, ghost looks: seq<Look>)
    requires !results.closed && |results.buffer| < results.capacity
    modifies aws.ec2, results
    ensures !results.closed && |results.buffer| == |old(results.buffer)| + 1
    ensures results.buffer[..|old(results.buffer)|] == old(results.buffer)
    ensures aws.ec2.calls == old(aws.ec2.calls) + calls && aws.ec2.looks == old(aws.ec2.looks) + looks
    ensures RouteSide(cidr, newENI, looks, calls, results.buffer[|old(results.buffer)|] == "")
    ensures Leads(old(aws.ec2.world), calls, aws.ec2.world, aws.ec2.reliable)
    ensures forall c :: c in calls ==> Points(c, cidr, newENI)
    ensures results.buffer[|old(results.buffer)|] == "" ==>
      && aws.ec2.world == RoutesTaken(old(aws.ec2.world), cidr, newENI)
      && HasRoutes(old(aws.ec2.world), cidr)
    ensures aws.ec2.reliable && HasRoutes(old(aws.ec2.world), cidr) ==> results.buffer[|old(results.buffer)|] == ""
  {
    calls, looks := [], [];
    if cidr != "" {
      var errs;
      errs, calls, looks := aws.UpdateRouteTables(cidr, newENI);
      if errs != [] {
        results.Send("route table update failed");
      } else {
        results.Send("");
      }
    } else {
      results.Send("");
    }
  }

  /** There is no block to route, or some table has a route to it. */
  ghost predicate HasRoutes(w: World, cidr: string) {
    cidr == "" || TablesTo(w, cidr) != {}
  }

  ghost function RoutesTaken(w: World, cidr: string, e: Eni): World {
    if cidr == "" then w else RoutedTables(w, cidr, e, TablesTo(w, cidr))
  }

  /** The address goroutine: sends one result, empty for success. */
  method MoveAddresses(aws: AWSClient, oldENI: Option<Eni>, newENI: Eni, ips: seq<Ip>, results: ErrorChannel)
    returns (ghost calls: seq<Call>)
    requires !results.closed && |results.buffer| < results.capacity
    modifies aws.ec2`world, aws.ec2`calls, results
    ensures !results.closed && |results.buffer| == |old(results.buffer)| + 1
    ensures results.buffer[..|old(results.buffer)|] == old(results.buffer)
    ensures aws.ec2.calls == old(aws.ec2.calls) + calls
    ensures AddressSide(oldENI, newENI, ips, calls, results.buffer[|old(results.buffer)|] == "")
    ensures Leads(old(aws.ec2.world), calls, aws.ec2.world, aws.ec2.reliable)
    ensures forall c :: c in calls ==> About(c, Elements(ips))
    ensures oldENI.None? || ips == [] ==>
      aws.ec2.world == old(aws.ec2.world) && results.buffer[|old(results.buffer)|] == ""
    ensures Clear(old(aws.ec2.world), oldENI, newENI, ips) ==>
      && (results.buffer[|old(results.buffer)|] == "" ==>
            aws.ec2.world == AddressesTaken(old(aws.ec2.world), oldENI, newENI, ips))
      && (aws.ec2.reliable ==> results.buffer[|old(results.buffer)|] == "")
  {
    calls := [];
    if oldENI.Some? && |ips| > 0 {
      var errs;
      errs, calls := aws.ReassignFloatingIPs(oldENI.value, newENI, ips);
      if errs != [] {
        results.Send("floating IP reassignment failed");
      } else {
        results.Send("");
      }
    } else {
      if oldENI.Some? {
        NothingToMove(aws.ec2.world, oldENI.value, newENI, ips, true);
      }
      results.Send("");
    }
  }

  ghost function AddressesTaken(w: World, oldENI: Option<Eni>, newENI: Eni, ips: seq<Ip>): World {
    match oldENI
    case None => w
    case Some(e) => With(Without(w, e, Elements(ips)), newENI, Elements(ips))
  }

  /** The addresses to move, if any, are all on the old primary. */
  ghost predicate Clear(w: World, oldENI: Option<Eni>, newENI: Eni, ips: seq<Ip>) {
    if oldENI.None? then ips == [] else Batch(w, oldENI.value, newENI, ips)
  }

  /** Neither task sees what the other does, so they can be taken in either order. */
  lemma TasksCommute(w: World, cidr: string, oldENI: Option<Eni>, newENI: Eni, ips: seq<Ip>)
    ensures RoutesTaken(AddressesTaken(w, oldENI, newENI, ips), cidr, newENI)
         == AddressesTaken(RoutesTaken(w, cidr, newENI), oldENI, newENI, ips)
    ensures oldENI.Some? ==>
      (Batch(RoutesTaken(w, cidr, newENI), oldENI.value, newENI, ips) <==> Batch(w, oldENI.value, newENI, ips))
    ensures TablesTo(AddressesTaken(w, oldENI, newENI, ips), cidr) == TablesTo(w, cidr)
  {
    var r := RoutesTaken(w, cidr, newENI);
    assert forall e, ip :: Holds(r, e, ip) <==> Holds(w, e, ip);
  }

  /** The loop that waits for the two results. */
  method ReceiveBoth(errCh: ErrorChannel) returns (ok: bool)
    requires |errCh.buffer| == 2
    modifies errCh
    ensures ok <==> old(errCh.buffer)[0] == "" && old(errCh.buffer)[1] == ""
    ensures errCh.buffer == []
  {
    ok := true;
    ghost var results := errCh.buffer;
    for i := 0 to 2
      invariant errCh.buffer == results[i..]
      invariant ok <==> forall j :: 0 <= j < i ==> results[j] == ""
    {
      var err := errCh.Receive();
      if err != "" {
        ok := false;
      }
    }
  }

  /** Both goroutines, however their calls are interleaved: success is that of both sides. */
  ghost predicate BothSides(
    cidr: string, from: Option<Eni>, to: Eni, ips: seq<Ip>, looks: seq<Look>, calls: seq<Call>, ok: bool)
  {
    exists routes: bool, addresses: bool ::
      && RouteSide(cidr, to, looks, Only(true, calls), routes)
      && AddressSide(from, to, ips, Only(false, calls), addresses)
      && (ok <==> routes && addresses)
  }

  /** The calls of one side, when those of the other come before or after. */
  lemma SideOf(side: bool, routes: seq<Call>, addresses: seq<Call>)
    requires (forall c :: c in routes ==> c.Replace?) && (forall c :: c in addresses ==> !c.Replace?)
    ensures Only(side, routes + addresses) == Only(side, addresses + routes) == if side then routes else addresses
  {
    hide Only;
    OnlyOfConcat(side, routes, addresses);
    OnlyOfConcat(side, addresses, routes);
    OnlyOneSide(side, true, routes);
    OnlyOneSide(side, false, addresses);
  }

  /** The two goroutines, here one after the other in either order. */
  method RunTasks(aws: AWSClient, cidr: string, oldENI: Option<Eni>, newENI: Eni, ips: seq<Ip>, errCh: ErrorChannel)
    returns (ghost calls: seq<Call>, ghost looks: seq<Look>)
    requires errCh.buffer == [] && !errCh.closed && errCh.capacity == 2
    modifies aws.ec2, errCh
    ensures |errCh.buffer| == 2
    ensures aws.ec2.calls == old(aws.ec2.calls) + calls && aws.ec2.looks == old(aws.ec2.looks) + looks
    ensures BothSides(cidr, oldENI, newENI, ips, looks, calls, errCh.buffer[0] == "" && errCh.buffer[1] == "")
    ensures Leads(old(aws.ec2.world), calls, aws.ec2.world, aws.ec2.reliable)
    ensures forall c :: c in calls ==> Points(c, cidr, newENI) || About(c, Elements(ips))
    ensures Clear(old(aws.ec2.world), oldENI, newENI, ips) && errCh.buffer == ["", ""] ==>
      && HasRoutes(old(aws.ec2.world), cidr)
      && aws.ec2.world == RoutesTaken(AddressesTaken(old(aws.ec2.world), oldENI, newENI, ips), cidr, newENI)
    ensures
      && Clear(old(aws.ec2.world), oldENI, newENI, ips)
      && aws.ec2.reliable
      && HasRoutes(old(aws.ec2.world), cidr) ==>
        errCh.buffer == ["", ""]
  {
    hide RouteSide, AddressSide, Only, RoutesTaken, AddressesTaken, Clear, WorldAfter, CanHappen, TablesTo, Batch;
    ghost var w0, routes, addresses := aws.ec2.world, [], [];
    TasksCommute(w0, cidr, oldENI, newENI, ips);
    if * {
      routes, looks := UpdateRoutes(aws, cidr, newENI, errCh);
      ghost var w1 := aws.ec2.world;
      RoutesOnlyKeepClear(w0, routes, cidr, newENI, oldENI, ips);
      addresses := MoveAddresses(aws, oldENI, newENI, ips, errCh);
      calls := routes + addresses;
      LeadsThen(w0, routes, w1, addresses, aws.ec2.world, aws.ec2.reliable);
    } else {
      addresses := MoveAddresses(aws, oldENI, newENI, ips, errCh);
      ghost var w1 := aws.ec2.world;
      AddressesKeepRoutes(w0, addresses, Elements(ips), cidr);
      routes, looks := UpdateRoutes(aws, cidr, newENI, errCh);
      calls := addresses + routes;
      LeadsThen(w0, addresses, w1, routes, aws.ec2.world, aws.ec2.reliable);
    }
    SideOf(true, routes, addresses);
    SideOf(false, routes, addresses);
  }

  /**
   The two goroutines and the loop that receives their results. What is promised holds however
   their calls are interleaved. If the addresses are where they were found, success means that
   each side alone has done its work.
   */
  method RunBoth(aws: AWSClient, cidr: string, oldENI: Option<Eni>, newENI: Eni, ips: seq<Ip>, ghost eniIP: Ip)
    returns (ok: bool, ghost calls: seq<Call>, ghost looks: seq<Look>)
    requires forall ip :: ip in Elements(ips) ==> MayMove(ip, eniIP)
    modifies aws.ec2
    ensures aws.ec2.calls == old(aws.ec2.calls) + calls && aws.ec2.looks == old(aws.ec2.looks) + looks
    ensures BothSides(cidr, oldENI, newENI, ips, looks, calls, ok)
    ensures Leads(old(aws.ec2.world), calls, aws.ec2.world, aws.ec2.reliable)
    ensures forall c :: c in calls ==> MayCall(c, eniIP, cidr)
    ensures AnyInterleaving(old(aws.ec2.world), [], calls, aws.ec2.world, aws.ec2.reliable, eniIP, cidr)
    ensures Clear(old(aws.ec2.world), oldENI, newENI, ips) && ok ==>
      && HasRoutes(old(aws.ec2.world), cidr)
      && aws.ec2.world == RoutesTaken(AddressesTaken(old(aws.ec2.world), oldENI, newENI, ips), cidr, newENI)
      && WorldAfter(old(aws.ec2.world), Only(false, calls)) == AddressesTaken(old(aws.ec2.world), oldENI, newENI, ips)
      && WorldAfter(old(aws.ec2.world), Only(true, calls)) == RoutesTaken(old(aws.ec2.world), cidr, newENI)
    ensures
      && Clear(old(aws.ec2.world), oldENI, newENI, ips)
      && aws.ec2.reliable
      && HasRoutes(old(aws.ec2.world), cidr) ==>
        ok
  {
    var errCh := new ErrorChannel(2);
    ghost var w0 := aws.ec2.world;
    calls, looks := RunTasks(aws, cidr, oldENI, newENI, ips, errCh);
    assert errCh.buffer == [errCh.buffer[0], errCh.buffer[1]];
    AnyInterleavingHolds(w0, [], w0, calls, aws.ec2.world, aws.ec2.reliable, eniIP, cidr);
    ok := ReceiveBoth(errCh);
    SidesAlone(w0, calls, aws.ec2.reliable);
  }

  /** While the route goroutine runs, the addresses stay where they were found. */
  lemma RoutesOnlyKeepClear(w0: World, routes: seq<Call>, cidr: string, newENI: Eni, oldENI: Option<Eni>, ips: seq<Ip>)
    requires forall c :: c in routes ==> Points(c, cidr, newENI)
    ensures Clear(WorldAfter(w0, routes), oldENI, newENI, ips) <==> Clear(w0, oldENI, newENI, ips)
  {
    RoutesOnly(w0, routes, cidr, newENI);
    var w1 := WorldAfter(w0, routes);
    assert forall e, ip :: Holds(w1, e, ip) <==> Holds(w0, e, ip);
  }

  /** While the address goroutine runs, the tables stay what they were. */
  lemma AddressesKeepRoutes(w0: World, addresses: seq<Call>, ips: set<Ip>, cidr: string)
    requires forall c :: c in addresses ==> About(c, ips)
    ensures HasRoutes(WorldAfter(w0, addresses), cidr) <==> HasRoutes(w0, cidr)
  {
    MovesOnly(w0, addresses, ips);
  }

  // ---------------------------------------------------------------- the whole failover

  /** One interface has been drained of its floating addresses, or none, and the routes lead to ours. */
  ghost function Drained(w: World, from: Option<Eni>, to: Eni, eniIP: Ip, cidr: string): World
    requires from.Some? ==> from.value in w.enis
  {
    match from
    case None => RoutesTaken(w, cidr, to)
    case Some(e) =>
      var f := FloatingOn(w, e, eniIP);
      RoutesTaken(With(Without(w, e, f), to, f), cidr, to)
  }

  /**
   What a successful failover has done in any world: brought the ENI address to an interface of
   ours, drained at most one other interface, which had floating addresses, and taken the routes.
   */
  ghost predicate Succeeds(w0: World, w: World, instance: string, from: Option<Eni>, to: Eni, eniIP: Ip, cidr: string) {
    && to in InterfacesOf(w0, instance) && HasRoutes(w0, cidr)
    && var w1 := TakenOver(w0, to, eniIP);
       && HoldersOf(w1, eniIP) == {to}
       && (from.Some? ==> from.value in w1.enis && from.value != to && FloatingOn(w1, from.value, eniIP) != {})
       && w == Drained(w1, from, to, eniIP, cidr)
  }

  /** The second half of a failover: find the old primary, drain it, take the routes. */
  method DrainOldPrimary(aws: AWSClient, newENI: Eni, eniIP: Ip, cidr: string)
    returns (ok: bool, ghost from: Option<Eni>, ghost ips: seq<Ip>, ghost both: seq<Call>,
             ghost searching: seq<Look>, ghost routing: seq<Look>)
    modifies aws.ec2
    ensures aws.ec2.calls == old(aws.ec2.calls) + both
    ensures aws.ec2.looks == old(aws.ec2.looks) + searching + routing
    ensures SearchScript(old(aws.ec2.world), newENI, eniIP, |old(aws.ec2.calls)|, searching, from)
    ensures BothSides(cidr, from, newENI, ips, routing, both, ok)
    ensures Leads(old(aws.ec2.world), both, aws.ec2.world, aws.ec2.reliable)
    ensures forall c :: c in both ==> MayCall(c, eniIP, cidr)
    ensures from.Some? ==>
      && from.value in old(aws.ec2.world).enis && from.value != newENI
      && Distinct(ips) && Elements(ips) == FloatingOn(old(aws.ec2.world), from.value, eniIP) != {}
    ensures from.None? && aws.ec2.reliable ==> NoneBut(old(aws.ec2.world), newENI, eniIP)
    ensures WellFormed(old(aws.ec2.world)) && newENI in old(aws.ec2.world).enis ==>
      && (ok ==>
            && HasRoutes(old(aws.ec2.world), cidr)
            && aws.ec2.world == Drained(old(aws.ec2.world), from, newENI, eniIP, cidr))
      && (aws.ec2.reliable && HasRoutes(old(aws.ec2.world), cidr) ==> ok)
  {
    hide SearchScript, BothSides;
    var oldENI, floatingIPs;
    oldENI, floatingIPs, searching := FindOldPrimary(aws, newENI, eniIP);
    from, ips := oldENI, floatingIPs;
    assert forall ip :: ip in Elements(floatingIPs) ==> MayMove(ip, eniIP);
    if WellFormed(aws.ec2.world) && newENI in aws.ec2.world.enis {
      FoundIsClear(aws.ec2.world, oldENI, newENI, floatingIPs, eniIP);
    }
    ok, both, routing := RunBoth(aws, cidr, oldENI, newENI, floatingIPs, eniIP);
  }

  /**
   What a failover did: whether the takeover succeeded, the new and the old primary and what was
   to move between them, the calls of the takeover and of the two goroutines, and the look-ups
   in the order they were made.
   */
  datatype Report = Report(
    took: bool, to: Eni, from: Option<Eni>, ips: seq<Ip>,
    first: seq<Call>, both: seq<Call>,
    taking: seq<Look>, finding: seq<Look>, searching: seq<Look>, routing: seq<Look>)

  /** Nothing is done after the takeover but at most one look-up. */
  predicate Stops(r: Report) {
    r.both == [] && r.searching == [] && r.routing == []
  }

  /**
   A whole failover as the calls and look-ups it makes: a takeover that fails ends it, and so does
   a new primary that cannot be found; otherwise the search and the two goroutines follow, and
   success is theirs.
   */
  ghost predicate FailoverScript(
    w0: World, eniIP: Ip, cidr: string, instance: string, base: nat, r: Report, ok: bool)
  {
    && TakeOverScript(eniIP, instance, base, r.taking, r.first, r.took)
    && if !r.took then !ok && r.finding == [] && Stops(r)
       else
         && |r.finding| == 1
         && r.finding[0] == Interfaces(WithAddress(eniIP), r.finding[0].found, base + |r.first|)
         && if First(r.finding[0].found).None? then !ok && Stops(r)
            else
              && First(r.finding[0].found) == Some(r.to)
              && SearchScript(WorldAfter(w0, r.first), r.to, eniIP, base + |r.first|, r.searching, r.from)
              && BothSides(cidr, r.from, r.to, r.ips, r.routing, r.both, ok)
  }

  /**
   Executes the failover: take over the ENI address, find the old primary, then update routes
   and move floating addresses side by side and wait for both.
   */
  method ExecuteFailoverActions(aws: AWSClient, eniIP: Ip, cidr: string) returns (ok: bool, ghost r: Report)
    modifies aws.ec2
    ensures aws.ec2.calls == old(aws.ec2.calls) + r.first + r.both
    ensures aws.ec2.looks == old(aws.ec2.looks) + r.taking + r.finding + r.searching + r.routing
    ensures FailoverScript(old(aws.ec2.world), eniIP, cidr, aws.instanceID, |old(aws.ec2.calls)|, r, ok)
    ensures AnyInterleaving(old(aws.ec2.world), r.first, r.both, aws.ec2.world, aws.ec2.reliable, eniIP, cidr)
    ensures r.both != [] && WellFormed(old(aws.ec2.world)) ==>
      && r.to in InterfacesOf(old(aws.ec2.world), aws.instanceID)
      && HoldersOf(WorldAfter(old(aws.ec2.world), r.first), eniIP) == {r.to}
    ensures r.from.Some? ==>
      var w1 := WorldAfter(old(aws.ec2.world), r.first);
      r.from.value in w1.enis && Distinct(r.ips) && Elements(r.ips) == FloatingOn(w1, r.from.value, eniIP)
    ensures WellFormed(old(aws.ec2.world)) && ok ==>
      && Succeeds(old(aws.ec2.world), aws.ec2.world, aws.instanceID, r.from, r.to, eniIP, cidr)
      && (aws.ec2.reliable && r.from.None? ==> NoneBut(TakenOver(old(aws.ec2.world), r.to, eniIP), r.to, eniIP))
    ensures
      && aws.ec2.reliable
      && CanTakeOver(old(aws.ec2.world), eniIP, aws.instanceID)
      && HasRoutes(old(aws.ec2.world), cidr) ==>
        ok
    ensures HoldersOf(old(aws.ec2.world), eniIP) == {} ==> !ok && r.first == [] && r.both == []
  {
    hide SearchScript, BothSides, TakeOverScript, AnyInterleaving, NoneBut, Drained, WorldAfter, CanHappen;
    ghost var w0 := aws.ec2.world;
    ghost var first, both, taking, finding, searching, routing, from, ips := [], [], [], [], [], [], None, [];
    ok, first, taking := aws.TakeOverENI(eniIP);
    ghost var w1 := aws.ec2.world;
    LeadsNone(w1, aws.ec2.reliable);
    AnyInterleavingHolds(w0, first, w1, [], w1, aws.ec2.reliable, eniIP, cidr);
    r := Report(ok, "", None, [], first, [], taking, [], [], []);
    if !ok {
      return;
    }
    var newENI;
    ghost var found;
    newENI, found := aws.GetENIByIP(eniIP);
    finding := [Interfaces(WithAddress(eniIP), found, |aws.ec2.calls|)];
    r := r.(finding := finding);
    if newENI.None? {
      ok := false;
      return;
    }
    assert newENI.value in HoldersOf(w1, eniIP);
    AddressesKeepRoutes(w0, first, {eniIP}, cidr);
    CallsTouch(w0, first, eniIP, cidr);
    ok, from, ips, both, searching, routing := DrainOldPrimary(aws, newENI.value, eniIP, cidr);
    AnyInterleavingHolds(w0, first, w1, both, aws.ec2.world, aws.ec2.reliable, eniIP, cidr);
    r := Report(true, newENI.value, from, ips, first, both, taking, finding, searching, routing);
  }

  lemma FoundIsClear(w: World, oldENI: Option<Eni>, newENI: Eni, ips: seq<Ip>, eniIP: Ip)
    requires WellFormed(w) && newENI in w.enis
    requires oldENI.Some? ==>
      && oldENI.value in w.enis && oldENI.value != newENI
      && Distinct(ips) && Elements(ips) == FloatingOn(w, oldENI.value, eniIP)
    requires oldENI.None? ==> ips == []
    ensures Clear(w, oldENI, newENI, ips)
  {
    if oldENI.Some? {
      forall i | 0 <= i < |ips|
        ensures ips[i] in w.enis[oldENI.value].secondaries
      {
        assert ips[i] in Elements(ips);
      }
    }
  }

  /**
   A successful failover has left no floating address elsewhere exactly when the drained interface
   was the only other one to have any.
   */
  lemma DrainedExactly(w: World, from: Option<Eni>, to: Eni, eniIP: Ip, cidr: string)
    requires to in w.enis && (from.Some? ==> from.value in w.enis && from.value != to)
    ensures NoneBut(Drained(w, from, to, eniIP, cidr), to, eniIP)
       <==> forall e :: e in w.enis && e != to && Some(e) != from ==> FloatingOn(w, e, eniIP) == {}
  {
    var d := Drained(w, from, to, eniIP, cidr);
    forall e | e in w.enis && e != to
      ensures FloatingOn(d, e, eniIP) == if Some(e) == from then {} else FloatingOn(w, e, eniIP)
    {
    }
  }

  // ---------------------------------------------------------------- two nodes

  /**
   Two interfaces, one of them ours; the ENI address is ours already or a secondary of the other;
   the block has routes.
   */
  ghost predicate TwoNodes(w: World, other: Eni, mine: Eni, instance: string, eniIP: Ip, cidr: string) {
    && WellFormed(w)
    && other != mine && w.enis.Keys == {other, mine}
    && InterfacesOf(w, instance) == {mine}
    && |Split(eniIP)| == 4
    && (CanUnassign(w, other, eniIP) || Holds(w, mine, eniIP))
    && HasRoutes(w, cidr)
  }

  /**
   The addresses that have to come over: the floating ones on the other interface, and the ENI
   address if it is there.
   */
  function ToMove(w: World, e: Eni, eniIP: Ip): set<Ip>
    requires e in w.enis
  {
    set ip | ip in w.enis[e].secondaries && (ip == eniIP || Floating(ip, eniIP))
  }

  /** The world after a complete failover from `other` to `mine`. */
  ghost function FailedOver(w: World, other: Eni, mine: Eni, eniIP: Ip, cidr: string): World
    requires other in w.enis && mine in w.enis
  {
    RoutesTaken(With(Without(w, other, ToMove(w, other, eniIP)), mine, ToMove(w, other, eniIP)), cidr, mine)
  }

  /** The floating addresses are still where they were: only the ENI address and the routes have come over. */
  ghost function LeftBehind(w: World, mine: Eni, eniIP: Ip, cidr: string): World {
    RoutesTaken(TakenOver(w, mine, eniIP), cidr, mine)
  }

  /** Between two nodes a failover can succeed on a store that does not fail. */
  lemma TwoNodesTakeOver(w: World, other: Eni, mine: Eni, instance: string, eniIP: Ip, cidr: string)
    requires TwoNodes(w, other, mine, instance, eniIP, cidr)
    ensures CanTakeOver(w, eniIP, instance) && HasRoutes(w, cidr)
  {
    if !Holds(w, mine, eniIP) {
      assert Holds(w, other, eniIP);
    }
  }

  /**
   Between two nodes a success is the complete failover when the other interface was drained or
   had nothing to drain; otherwise it is all but the floating addresses.
   */
  lemma TwoNodesOutcome(
    w0: World, w: World, other: Eni, mine: Eni, instance: string, from: Option<Eni>, to: Eni, eniIP: Ip, cidr: string)
    requires TwoNodes(w0, other, mine, instance, eniIP, cidr) && Succeeds(w0, w, instance, from, to, eniIP, cidr)
    ensures to == mine && (from.Some? ==> from == Some(other))
    ensures from.Some? || NoneBut(TakenOver(w0, mine, eniIP), mine, eniIP) ==>
      w == FailedOver(w0, other, mine, eniIP, cidr)
    ensures from.None? ==> w == LeftBehind(w0, mine, eniIP, cidr)
  {
    var w1 := TakenOver(w0, mine, eniIP);
    TwoSteps(w0, w1, other, mine, eniIP);
    if from.None? {
      WithoutOneMore(w1, other, {}, "");
      WithOneMore(w1, mine, {}, "");
    }
  }

  /** The ENI address first and the floating ones after it come to the same as all at once. */
  lemma TwoSteps(w0: World, w1: World, other: Eni, mine: Eni, eniIP: Ip)
    requires WellFormed(w0) && other != mine && w0.enis.Keys == {other, mine} && |Split(eniIP)| == 4
    requires CanUnassign(w0, other, eniIP) || Holds(w0, mine, eniIP)
    requires w1 == TakenOver(w0, mine, eniIP)
    ensures var f, t := FloatingOn(w1, other, eniIP), ToMove(w0, other, eniIP);
      With(Without(w1, other, f), mine, f) == With(Without(w0, other, t), mine, t)
  {
    var f, t := FloatingOn(w1, other, eniIP), ToMove(w0, other, eniIP);
    if Holds(w0, mine, eniIP) {
      assert !Holds(w0, other, eniIP);
      assert f == t;
    } else {
      assert w1.enis[other].secondaries == w0.enis[other].secondaries - {eniIP};
      assert w1.enis[mine].secondaries == w0.enis[mine].secondaries + {eniIP};
      assert f == t - {eniIP};
      SameInTwoSteps(w0, w1, other, mine, f, t, eniIP);
    }
  }

  lemma SameInTwoSteps(w0: World, w1: World, other: Eni, mine: Eni, f: set<Ip>, t: set<Ip>, ip: Ip)
    requires other != mine && w0.enis.Keys == w1.enis.Keys == {other, mine} && w0.routes == w1.routes
    requires w1.enis[other] == w0.enis[other].(secondaries := w0.enis[other].secondaries - {ip})
    requires w1.enis[mine] == w0.enis[mine].(secondaries := w0.enis[mine].secondaries + {ip})
    requires f == t - {ip} && ip in t
    ensures With(Without(w1, other, f), mine, f) == With(Without(w0, other, t), mine, t)
  {
    var o, m := w0.enis[other].secondaries, w0.enis[mine].secondaries;
    assert (o - {ip}) - f == o - t;
    assert (m + {ip}) + f == m + t;
    var a, b := With(Without(w1, other, f), mine, f), With(Without(w0, other, t), mine, t);
    assert a.enis[other] == b.enis[other] && a.enis[mine] == b.enis[mine];
    assert a.enis == b.enis;
  }

  /** A failover that did not see the old primary is complete only if there was nothing to see. */
  lemma LeftBehindExactly(w: World, other: Eni, mine: Eni, instance: string, eniIP: Ip, cidr: string)
    requires TwoNodes(w, other, mine, instance, eniIP, cidr)
    ensures LeftBehind(w, mine, eniIP, cidr) == FailedOver(w, other, mine, eniIP, cidr)
       <==> FloatingOn(w, other, eniIP) <= {eniIP}
  {
    var t := TakenOver(w, mine, eniIP);
    TwoSteps(w, t, other, mine, eniIP);
    assert CanUnassign(w, other, eniIP) ==> Holds(w, other, eniIP);
    assert FloatingOn(t, other, eniIP) == FloatingOn(w, other, eniIP) - {eniIP};
    if FloatingOn(t, other, eniIP) == {} {
      WithoutOneMore(t, other, {}, "");
      WithOneMore(t, mine, {}, "");
    } else {
      var ip :| ip in FloatingOn(t, other, eniIP);
      assert ip in LeftBehind(w, mine, eniIP, cidr).enis[other].secondaries;
      assert ip !in FailedOver(w, other, mine, eniIP, cidr).enis[other].secondaries;
    }
  }
}
