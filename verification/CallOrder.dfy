/**
 The route goroutines and the address goroutines of a failover run side by side, so their calls
 to EC2 may come in any order. Neither side sees what the other does.
 */
module CallOrder {
  import opened Ec2

  /** The calls on routes, or those on addresses, in the order they come. */
  function Only(routes: bool, calls: seq<Call>): seq<Call> {
    if calls == [] then []
    else
      var last := calls[|calls| - 1];
      Only(routes, calls[..|calls| - 1]) + if last.Replace? == routes then [last] else []
  }

  lemma {:induction false} OnlyOfConcat(routes: bool, xs: seq<Call>, ys: seq<Call>)
    ensures Only(routes, xs + ys) == Only(routes, xs) + Only(routes, ys)
  {
    if ys == [] {
      assert xs + ys == xs;
    } else {
      assert (xs + ys)[..|xs + ys| - 1] == xs + ys[..|ys| - 1];
      OnlyOfConcat(routes, xs, ys[..|ys| - 1]);
    }
  }

  lemma {:induction false} OnlyOfOnly(routes: bool, other: bool, calls: seq<Call>)
    ensures Only(routes, Only(other, calls)) == if routes == other then Only(routes, calls) else []
  {
    if calls != [] {
      var before, last := calls[..|calls| - 1], calls[|calls| - 1];
      OnlyOfOnly(routes, other, before);
      if last.Replace? == other {
        OnlyOfConcat(routes, Only(other, before), [last]);
      } else {
        assert Only(other, before) + [] == Only(other, before);
      }
    }
  }

  lemma {:induction false} OnlyHas(routes: bool, calls: seq<Call>, c: Call)
    ensures c in Only(routes, calls) <==> c in calls && c.Replace? == routes
  {
    if calls != [] {
      OnlyHas(routes, calls[..|calls| - 1], c);
      assert calls == calls[..|calls| - 1] + [calls[|calls| - 1]];
    }
  }

  /** Calls that are all of one side. */
  lemma {:induction false} OnlyOneSide(routes: bool, side: bool, calls: seq<Call>)
    requires forall c :: c in calls ==> c.Replace? == side
    ensures Only(routes, calls) == if routes == side then calls else []
  {
    if calls != [] {
      assert calls[|calls| - 1].Replace? == side;
      OnlyOneSide(routes, side, calls[..|calls| - 1]);
      assert calls == calls[..|calls| - 1] + [calls[|calls| - 1]];
    }
  }

  /** The interfaces of one world and the routes of another. */
  function Join(addresses: World, routes: World): World {
    World(addresses.enis, routes.routes)
  }

  lemma OneCall(x: World, y: World, c: Call)
    ensures !c.Replace? ==>
      (Possible(Join(x, y), c) <==> Possible(x, c)) && After(Join(x, y), c) == Join(After(x, c), y)
    ensures c.Replace? ==>
      (Possible(Join(x, y), c) <==> Possible(y, c)) && After(Join(x, y), c) == Join(x, After(y, c))
  {
    if c.Assign? {
      assert forall f :: Holds(Join(x, y), f, c.ip) <==> Holds(x, f, c.ip);
    }
  }

  /** In any interleaving each side sees the world as if it ran alone, and the outcome is both outcomes put together. */
  lemma {:induction false} SidesDoNotMeet(w: World, calls: seq<Call>, reliable: bool)
    ensures WorldAfter(w, calls) == Join(WorldAfter(w, Only(false, calls)), WorldAfter(w, Only(true, calls)))
    ensures CanHappen(w, calls, reliable)
       <==> CanHappen(w, Only(false, calls), reliable) && CanHappen(w, Only(true, calls), reliable)
  {
    if calls != [] {
      var before, last := calls[..|calls| - 1], calls[|calls| - 1];
      SidesDoNotMeet(w, before, reliable);
      var addresses, routes := Only(false, before), Only(true, before);
      OneCall(WorldAfter(w, addresses), WorldAfter(w, routes), last);
      assert (addresses + [last])[..|addresses|] == addresses;
      assert (routes + [last])[..|routes|] == routes;
      assert addresses + [] == addresses && routes + [] == routes;
    }
  }

  /** The same calls on routes and the same calls on addresses, each in the same order. */
  predicate Interleaves(mixed: seq<Call>, calls: seq<Call>) {
    Only(true, mixed) == Only(true, calls) && Only(false, mixed) == Only(false, calls)
  }

  /** Every interleaving of the two sides of a history can happen too, and leads to the same world. */
  lemma InterleavingLeads(w: World, calls: seq<Call>, mixed: seq<Call>, v: World, reliable: bool)
    requires Leads(w, calls, v, reliable) && Interleaves(mixed, calls)
    ensures Leads(w, mixed, v, reliable)
  {
    SidesDoNotMeet(w, calls, reliable);
    SidesDoNotMeet(w, mixed, reliable);
  }

  lemma InterleavingHas(calls: seq<Call>, mixed: seq<Call>, c: Call)
    requires Interleaves(mixed, calls)
    ensures c in mixed <==> c in calls
  {
    OnlyHas(c.Replace?, mixed, c);
    OnlyHas(c.Replace?, calls, c);
  }

  /** Where each side alone leads: the interfaces, or the routes, of where both lead. */
  lemma SidesAlone(w: World, calls: seq<Call>, reliable: bool)
    ensures WorldAfter(w, Only(false, calls)) == Join(WorldAfter(w, calls), w)
    ensures WorldAfter(w, Only(true, calls)) == Join(w, WorldAfter(w, calls))
  {
    SidesDoNotMeet(w, calls, reliable);
    forall side
      ensures Only(!side, Only(side, calls)) == []
    {
      OnlyOfOnly(!side, side, calls);
    }
    SidesDoNotMeet(w, Only(false, calls), reliable);
    SidesDoNotMeet(w, Only(true, calls), reliable);
  }
}
