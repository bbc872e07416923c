/**
 What a whole failover comes to between two nodes: where everything is afterwards, what a
 second one changes, when failing back restores the beginning, and any number of them in a row.
 */
module Failback {
  import opened Addresses
  import opened Ec2
  import opened Aws
  import opened FailoverActions

  /** Two interfaces, and nothing else that a failover could find. */
  ghost predicate Pair(w: World, a: Eni, b: Eni) {
    WellFormed(w) && a != b && w.enis.Keys == {a, b}
  }

  /** Every route to the block leads to the interface; without a block there is nothing to say. */
  ghost predicate RoutedTo(w: World, cidr: string, e: Eni) {
    cidr == "" || forall t :: t in TablesTo(w, cidr) ==> w.routes[t][cidr] == e
  }

  /** Some interface has the address. */
  ghost predicate InUse(w: World, ip: Ip) {
    exists e :: Holds(w, e, ip)
  }

  // ---------------------------------------------------------------- where everything is afterwards

  lemma FailedOverAt(w: World, other: Eni, mine: Eni, eniIP: Ip, cidr: string)
    requires Pair(w, other, mine)
    ensures var w', t := FailedOver(w, other, mine, eniIP, cidr), ToMove(w, other, eniIP);
      && w'.enis.Keys == w.enis.Keys
      && w'.enis[other] == w.enis[other].(secondaries := w.enis[other].secondaries - t)
      && w'.enis[mine] == w.enis[mine].(secondaries := w.enis[mine].secondaries + t)
      && w'.routes == RoutesTaken(w, cidr, mine).routes
  {
  }

  lemma HoldersAfter(w: World, other: Eni, mine: Eni, eniIP: Ip, cidr: string, ip: Ip)
    requires Pair(w, other, mine)
    ensures var w', t := FailedOver(w, other, mine, eniIP, cidr), ToMove(w, other, eniIP);
      && (Holds(w', other, ip) <==> Holds(w, other, ip) && ip !in t)
      && (Holds(w', mine, ip) <==> Holds(w, mine, ip) || ip in t)
      && (ip in t ==> Holds(w, other, ip) && !Holds(w, mine, ip))
      && !(Holds(w', other, ip) && Holds(w', mine, ip))
  {
    FailedOverAt(w, other, mine, eniIP, cidr);
    var t := ToMove(w, other, eniIP);
    assert ip in t ==> Holds(w, other, ip);
    assert Holds(w, other, ip) ==> !Holds(w, mine, ip);
  }

  /** No address is lost or doubled, and those that do not have to move stay. */
  lemma FailoverKeepsAll(w: World, other: Eni, mine: Eni, eniIP: Ip, cidr: string)
    requires Pair(w, other, mine)
    ensures var w' := FailedOver(w, other, mine, eniIP, cidr);
      && Pair(w', other, mine)
      && (forall ip :: InUse(w', ip) <==> InUse(w, ip))
      && (forall e, ip :: e in w.enis && ip !in ToMove(w, other, eniIP) ==>
           (Holds(w', e, ip) <==> Holds(w, e, ip)))
  {
    hide FailedOver, ToMove, RoutesTaken;
    FailedOverAt(w, other, mine, eniIP, cidr);
    var w' := FailedOver(w, other, mine, eniIP, cidr);
    forall ip
      ensures InUse(w', ip) <==> InUse(w, ip)
      ensures !(Holds(w', other, ip) && Holds(w', mine, ip))
      ensures ip !in ToMove(w, other, eniIP) ==>
        forall e :: e in w.enis ==> (Holds(w', e, ip) <==> Holds(w, e, ip))
    {
      HoldersAfter(w, other, mine, eniIP, cidr, ip);
      assert InUse(w', ip) <==> Holds(w', other, ip) || Holds(w', mine, ip);
      assert InUse(w, ip) <==> Holds(w, other, ip) || Holds(w, mine, ip);
    }
    HoldersAfter(w, other, mine, eniIP, cidr, w.enis[mine].primary);
  }

  /** All that has to move arrives. */
  lemma FailoverMovesAll(w: World, other: Eni, mine: Eni, eniIP: Ip, cidr: string)
    requires Pair(w, other, mine)
    ensures var w' := FailedOver(w, other, mine, eniIP, cidr);
      && Pair(w', other, mine)
      && ToMove(w', other, eniIP) == {}
      && ToMove(w', mine, eniIP) == ToMove(w, other, eniIP) + ToMove(w, mine, eniIP)
  {
    FailoverKeepsAll(w, other, mine, eniIP, cidr);
    FailedOverAt(w, other, mine, eniIP, cidr);
  }

  /** Every route to the block leads to the new primary, and every other route is as it was. */
  lemma FailoverTakesRoutes(w: World, other: Eni, mine: Eni, eniIP: Ip, cidr: string)
    requires Pair(w, other, mine)
    ensures var w' := FailedOver(w, other, mine, eniIP, cidr);
      && RoutedTo(w', cidr, mine)
      && TablesTo(w', cidr) == TablesTo(w, cidr)
      && w'.routes.Keys == w.routes.Keys
      && (forall t :: t in w.routes ==> SameButFor(w.routes[t], w'.routes[t], cidr))
      && (cidr == "" ==> w'.routes == w.routes)
  {
    FailedOverAt(w, other, mine, eniIP, cidr);
  }

  // ---------------------------------------------------------------- again, and back

  /** Routes that lead to the interface already are left alone by taking them, and only those. */
  lemma RoutesTakenFixed(w: World, cidr: string, e: Eni)
    ensures RoutesTaken(w, cidr, e) == w <==> RoutedTo(w, cidr, e)
  {
    var r := RoutesTaken(w, cidr, e);
    if cidr != "" {
      if RoutedTo(w, cidr, e) {
        assert forall t :: t in w.routes && t in TablesTo(w, cidr) ==> w.routes[t][cidr := e] == w.routes[t];
        assert r.routes == w.routes;
      } else {
        var t :| t in TablesTo(w, cidr) && w.routes[t][cidr] != e;
        assert r.routes[t][cidr] == e;
      }
    }
  }

  /** Taking the routes over again for someone else leaves no trace of who had them in between. */
  lemma RoutesTakenTwice(w: World, w': World, cidr: string, e: Eni, f: Eni)
    requires w'.routes == RoutesTaken(w, cidr, e).routes
    ensures RoutesTaken(w', cidr, f).routes == RoutesTaken(w, cidr, f).routes
  {
    if cidr != "" {
      forall t | t in w.routes
        ensures RoutesTaken(w', cidr, f).routes[t] == RoutesTaken(w, cidr, f).routes[t]
      {
        if cidr in w.routes[t] {
          assert w.routes[t][cidr := e][cidr := f] == w.routes[t][cidr := f];
        }
      }
    }
  }

  /** A second failover to the same node finds its preconditions in place and changes nothing. */
  lemma RerunChangesNothing(w: World, other: Eni, mine: Eni, instance: string, eniIP: Ip, cidr: string)
    requires TwoNodes(w, other, mine, instance, eniIP, cidr)
    ensures var w' := FailedOver(w, other, mine, eniIP, cidr);
      TwoNodes(w', other, mine, instance, eniIP, cidr) && FailedOver(w', other, mine, eniIP, cidr) == w'
  {
    var w' := FailedOver(w, other, mine, eniIP, cidr);
    FailedOverAt(w, other, mine, eniIP, cidr);
    FailoverMovesAll(w, other, mine, eniIP, cidr);
    FailoverTakesRoutes(w, other, mine, eniIP, cidr);
    assert InterfacesOf(w', instance) == InterfacesOf(w, instance);
    NothingLeft(w', other, mine, eniIP, cidr);
    RoutesTakenFixed(w', cidr, mine);
  }

  lemma NothingLeft(w: World, other: Eni, mine: Eni, eniIP: Ip, cidr: string)
    requires Pair(w, other, mine) && ToMove(w, other, eniIP) == {}
    ensures FailedOver(w, other, mine, eniIP, cidr) == RoutesTaken(w, cidr, mine)
  {
    WithoutOneMore(w, other, {}, "");
    WithOneMore(w, mine, {}, "");
  }

  /** The other node can fail back unless the ENI address is the primary address of our interface. */
  lemma CanFailBack(w: World, other: Eni, mine: Eni, instance: string, otherInstance: string, eniIP: Ip, cidr: string)
    requires TwoNodes(w, other, mine, instance, eniIP, cidr)
    ensures TwoNodes(FailedOver(w, other, mine, eniIP, cidr), mine, other, otherInstance, eniIP, cidr)
       <==> InterfacesOf(w, otherInstance) == {other} && eniIP != w.enis[mine].primary
  {
    var w' := FailedOver(w, other, mine, eniIP, cidr);
    FailedOverAt(w, other, mine, eniIP, cidr);
    FailoverMovesAll(w, other, mine, eniIP, cidr);
    FailoverTakesRoutes(w, other, mine, eniIP, cidr);
    assert InterfacesOf(w', otherInstance) == InterfacesOf(w, otherInstance);
    assert Holds(w, mine, w.enis[mine].primary) && Holds(w, other, w.enis[other].primary);
    assert Holds(w', mine, w.enis[mine].primary) && Holds(w', other, w.enis[other].primary);
  }

  /**
   Failing over and back restores the original world exactly when, to begin with, our interface
   had none of the addresses that move and the other had all the routes.
   */
  lemma FailbackRestores(w: World, other: Eni, mine: Eni, eniIP: Ip, cidr: string)
    requires Pair(w, other, mine)
    ensures FailedOver(FailedOver(w, other, mine, eniIP, cidr), mine, other, eniIP, cidr) == w
       <==> ToMove(w, mine, eniIP) == {} && RoutedTo(w, cidr, other)
  {
    var w' := FailedOver(w, other, mine, eniIP, cidr);
    var w'' := FailedOver(w', mine, other, eniIP, cidr);
    FailedOverAt(w, other, mine, eniIP, cidr);
    FailoverMovesAll(w, other, mine, eniIP, cidr);
    FailedOverAt(w', mine, other, eniIP, cidr);
    RoutesTakenTwice(w, w', cidr, mine, other);
    RoutesTakenFixed(w, cidr, other);
    BackAndForth(w, w', w'', other, mine, eniIP);
    assert w'' == w <==> w''.enis == w.enis && w''.routes == w.routes;
    assert RoutesTaken(w, cidr, other) == w <==> RoutesTaken(w, cidr, other).routes == w.routes;
  }

  lemma BackAndForth(w: World, w': World, w'': World, other: Eni, mine: Eni, eniIP: Ip)
    requires Pair(w, other, mine) && w.enis.Keys == w'.enis.Keys == w''.enis.Keys
    requires var t := ToMove(w, other, eniIP);
      && w'.enis[other] == w.enis[other].(secondaries := w.enis[other].secondaries - t)
      && w'.enis[mine] == w.enis[mine].(secondaries := w.enis[mine].secondaries + t)
    requires var u := ToMove(w, other, eniIP) + ToMove(w, mine, eniIP);
      && w''.enis[mine] == w'.enis[mine].(secondaries := w'.enis[mine].secondaries - u)
      && w''.enis[other] == w'.enis[other].(secondaries := w'.enis[other].secondaries + u)
    ensures w''.enis == w.enis <==> ToMove(w, mine, eniIP) == {}
  {
    var t, m := ToMove(w, other, eniIP), ToMove(w, mine, eniIP);
    forall ip | ip in m
      ensures ip !in w.enis[other].secondaries && ip in w''.enis[other].secondaries
    {
      assert Holds(w, mine, ip);
      assert !Holds(w, other, ip);
    }
    if m == {} {
      forall ip | ip in t
        ensures ip !in w.enis[mine].secondaries
      {
        assert Holds(w, other, ip);
        assert !Holds(w, mine, ip);
      }
      assert w.enis[other].secondaries - t + (t + m) == w.enis[other].secondaries;
      assert w.enis[mine].secondaries + t - (t + m) == w.enis[mine].secondaries;
      assert w''.enis[other] == w.enis[other] && w''.enis[mine] == w.enis[mine];
    } else {
      var ip :| ip in m;
      assert w''.enis[other] != w.enis[other];
    }
  }

  // ---------------------------------------------------------------- any number in a row

  /** One node after another becomes primary; `true` stands for the second interface of the pair. */
  ghost function Failovers(w: World, a: Eni, b: Eni, eniIP: Ip, cidr: string, turns: seq<bool>): World
    requires Pair(w, a, b)
    ensures Pair(Failovers(w, a, b, eniIP, cidr, turns), a, b)
  {
    if turns == [] then w
    else
      var v := Failovers(w, a, b, eniIP, cidr, turns[..|turns| - 1]);
      FailoverMovesAll(v, if turns[|turns| - 1] then a else b, if turns[|turns| - 1] then b else a, eniIP, cidr);
      One(v, a, b, eniIP, cidr, turns[|turns| - 1])
  }

  ghost function One(w: World, a: Eni, b: Eni, eniIP: Ip, cidr: string, second: bool): World
    requires Pair(w, a, b)
  {
    if second then FailedOver(w, a, b, eniIP, cidr) else FailedOver(w, b, a, eniIP, cidr)
  }

  /**
   However often the two nodes take over from each other, the world afterwards depends only on
   who was first and who is last: either as after the first failover, or as after one failback.
   */
  lemma {:induction false} OnlyFirstAndLastMatter(w: World, a: Eni, b: Eni, eniIP: Ip, cidr: string, turns: seq<bool>)
    requires Pair(w, a, b) && turns != []
    ensures var first, last := turns[0], turns[|turns| - 1];
      Failovers(w, a, b, eniIP, cidr, turns)
      == Failovers(w, a, b, eniIP, cidr, if first == last then [first] else [first, last])
  {
    var first, last := turns[0], turns[|turns| - 1];
    var before := turns[..|turns| - 1];
    TwoTurns(w, a, b, eniIP, cidr, first, last);
    if |turns| > 1 {
      OnlyFirstAndLastMatter(w, a, b, eniIP, cidr, before);
      var previous := before[|before| - 1];
      TwoTurns(w, a, b, eniIP, cidr, first, !first);
      var f := Failovers(w, a, b, eniIP, cidr, [first]);
      Settled(f, w, a, b, eniIP, cidr, first);
      Settled(Failovers(w, a, b, eniIP, cidr, [first, !first]), f, a, b, eniIP, cidr, !first);
    } else {
      assert turns == [first];
    }
  }

  lemma TwoTurns(w: World, a: Eni, b: Eni, eniIP: Ip, cidr: string, first: bool, second: bool)
    requires Pair(w, a, b)
    ensures Failovers(w, a, b, eniIP, cidr, [first]) == One(w, a, b, eniIP, cidr, first)
    ensures Failovers(w, a, b, eniIP, cidr, [first, second])
         == One(Failovers(w, a, b, eniIP, cidr, [first]), a, b, eniIP, cidr, second)
  {
    assert [first][..0] == [];
    assert [first, second][..1] == [first];
  }

  /** After a failover, the same one again changes nothing, and the opposite one is undone by it. */
  lemma Settled(f: World, w: World, a: Eni, b: Eni, eniIP: Ip, cidr: string, turn: bool)
    requires Pair(w, a, b) && Pair(f, a, b) && f == One(w, a, b, eniIP, cidr, turn)
    ensures One(f, a, b, eniIP, cidr, turn) == f
    ensures Pair(One(f, a, b, eniIP, cidr, !turn), a, b)
    ensures One(One(f, a, b, eniIP, cidr, !turn), a, b, eniIP, cidr, turn) == f
  {
    var other, mine := if turn then a else b, if turn then b else a;
    FailoverMovesAll(w, other, mine, eniIP, cidr);
    FailoverTakesRoutes(w, other, mine, eniIP, cidr);
    NothingLeft(f, other, mine, eniIP, cidr);
    RoutesTakenFixed(f, cidr, mine);
    FailoverMovesAll(f, mine, other, eniIP, cidr);
    FailbackRestores(f, mine, other, eniIP, cidr);
  }

  // ---------------------------------------------------------------- the two nodes themselves

  /**
   Our node fails over and the other node fails back, on a store whose calls do not fail: both
   succeed, and the store is as it was before.
   */
  method FailOverAndBack(us: AWSClient, them: AWSClient, ghost other: Eni, ghost mine: Eni, eniIP: Ip, cidr: string)
    returns (over: bool, back: bool)
    requires us.ec2 == them.ec2 && us.ec2.reliable
    requires TwoNodes(us.ec2.world, other, mine, us.instanceID, eniIP, cidr)
    requires InterfacesOf(us.ec2.world, them.instanceID) == {other}
    requires CanUnassign(us.ec2.world, other, eniIP)
    requires ToMove(us.ec2.world, mine, eniIP) == {} && RoutedTo(us.ec2.world, cidr, other)
    modifies us.ec2
    ensures over && back && us.ec2.world == old(us.ec2.world)
  {
    ghost var w := us.ec2.world;
    assert Holds(w, other, eniIP) && Holds(w, mine, w.enis[mine].primary);
    ghost var r;
    TwoNodesTakeOver(w, other, mine, us.instanceID, eniIP, cidr);
    over, r := ExecuteFailoverActions(us, eniIP, cidr);
    TwoNodesOutcome(w, us.ec2.world, other, mine, us.instanceID, r.from, r.to, eniIP, cidr);
    CanFailBack(w, other, mine, us.instanceID, them.instanceID, eniIP, cidr);
    ghost var w' := us.ec2.world;
    TwoNodesTakeOver(w', mine, other, them.instanceID, eniIP, cidr);
    back, r := ExecuteFailoverActions(them, eniIP, cidr);
    TwoNodesOutcome(w', us.ec2.world, mine, other, them.instanceID, r.from, r.to, eniIP, cidr);
    FailbackRestores(w, other, mine, eniIP, cidr);
  }
}
