/**
 The part of EC2 that a failover works on, as a store with one atomic effect per call. A
 failed call changes nothing, and any call may fail unless the store is `reliable`.
 */
module Ec2 {
  import opened Wrappers

  type Eni = string
  type Ip = string

  datatype Interface = Interface(primary: Ip, secondaries: set<Ip>, instance: Option<string>)

  /** Network interfaces by id, and route tables by id as maps from destination block to interface. */
  datatype World = World(enis: map<Eni, Interface>, routes: map<string, map<string, Eni>>)

  predicate Holds(w: World, e: Eni, ip: Ip) {
    e in w.enis && (ip == w.enis[e].primary || ip in w.enis[e].secondaries)
  }

  /** No private IP is on two interfaces, or twice on one. */
  ghost predicate WellFormed(w: World) {
    && (forall e, f, ip :: Holds(w, e, ip) && Holds(w, f, ip) ==> e == f)
    && (forall e :: e in w.enis ==> w.enis[e].primary !in w.enis[e].secondaries)
  }

  /** Only a secondary IP can be unassigned, and only from the interface that has it. */
  predicate CanUnassign(w: World, e: Eni, ip: Ip) {
    e in w.enis && ip in w.enis[e].secondaries
  }

  /** An IP can be assigned while no other interface has it. */
  predicate CanAssign(w: World, e: Eni, ip: Ip) {
    e in w.enis && ip != w.enis[e].primary && forall f :: f in w.enis && f != e ==> !Holds(w, f, ip)
  }

  function WithSecondaries(w: World, e: Eni, ips: set<Ip>): World
    requires e in w.enis
  {
    w.(enis := w.enis[e := w.enis[e].(secondaries := ips)])
  }

  function Unassigned(w: World, e: Eni, ip: Ip): World
    requires e in w.enis
  {
    WithSecondaries(w, e, w.enis[e].secondaries - {ip})
  }

  function Assigned(w: World, e: Eni, ip: Ip): World
    requires e in w.enis
  {
    WithSecondaries(w, e, w.enis[e].secondaries + {ip})
  }

  function Routed(w: World, table: string, cidr: string, e: Eni): World
    requires table in w.routes
  {
    w.(routes := w.routes[table := w.routes[table][cidr := e]])
  }

  // ---------------------------------------------------------------- calls and their histories

  /** A call that was made, and whether it succeeded. */
  datatype Call =
    | Unassign(e: Eni, ip: Ip, ok: bool)
    | Assign(e: Eni, ip: Ip, ok: bool)
    | Replace(table: string, cidr: string, e: Eni, ok: bool)

  predicate Possible(w: World, c: Call) {
    match c
    case Unassign(e, ip, _) => CanUnassign(w, e, ip)
    case Assign(e, ip, _) => CanAssign(w, e, ip)
    case Replace(table, cidr, _, _) => table in w.routes && cidr in w.routes[table]
  }

  function After(w: World, c: Call): World {
    if !c.ok || !Possible(w, c) then w
    else
      match c
      case Unassign(e, ip, _) => Unassigned(w, e, ip)
      case Assign(e, ip, _) => Assigned(w, e, ip)
      case Replace(table, cidr, e, _) => Routed(w, table, cidr, e)
  }

  /** The world after calls in the order they come. */
  function WorldAfter(w: World, calls: seq<Call>): World {
    if calls == [] then w else After(WorldAfter(w, calls[..|calls| - 1]), calls[|calls| - 1])
  }

  /** A call that succeeds is possible; on a reliable store every possible call succeeds. */
  predicate Happens(w: World, c: Call, reliable: bool) {
    (c.ok ==> Possible(w, c)) && (reliable && Possible(w, c) ==> c.ok)
  }

  predicate CanHappen(w: World, calls: seq<Call>, reliable: bool) {
    calls == [] ||
    var before, last := calls[..|calls| - 1], calls[|calls| - 1];
    CanHappen(w, before, reliable) && Happens(WorldAfter(w, before), last, reliable)
  }

  /** The calls can happen and lead from one world to the other. */
  predicate Leads(w0: World, calls: seq<Call>, w: World, reliable: bool) {
    CanHappen(w0, calls, reliable) && WorldAfter(w0, calls) == w
  }

  lemma LeadsNone(w: World, reliable: bool)
    ensures Leads(w, [], w, reliable)
  {
  }

  lemma LeadsOne(w0: World, calls: seq<Call>, w: World, c: Call, reliable: bool)
    requires Leads(w0, calls, w, reliable) && Happens(w, c, reliable)
    ensures Leads(w0, calls + [c], After(w, c), reliable)
  {
    assert (calls + [c])[..|calls|] == calls;
  }

  /** How many of the calls failed. */
  function FailedCalls(calls: seq<Call>): nat {
    if calls == [] then 0
    else FailedCalls(calls[..|calls| - 1]) + if calls[|calls| - 1].ok then 0 else 1
  }

  /** The address or the table that a call is about. */
  function Subject(c: Call): string {
    if c.Replace? then c.table else c.ip
  }

  function Asked(calls: seq<Call>): set<string> {
    set c | c in calls :: Subject(c)
  }

  lemma FailedOne(calls: seq<Call>, c: Call)
    ensures FailedCalls(calls + [c]) == FailedCalls(calls) + if c.ok then 0 else 1
    ensures Asked(calls + [c]) == Asked(calls) + {Subject(c)}
  {
    assert (calls + [c])[..|calls|] == calls;
    assert forall d :: d in calls + [c] <==> d in calls || d == c;
  }

  lemma {:induction false} FailedConcat(a: seq<Call>, b: seq<Call>)
    ensures FailedCalls(a + b) == FailedCalls(a) + FailedCalls(b)
  {
    if b == [] {
      assert a + b == a;
    } else {
      assert (a + b)[..|a + b| - 1] == a + b[..|b| - 1];
      FailedConcat(a, b[..|b| - 1]);
    }
  }

  /** The calls lead from one world to the other and are all of the allowed kind. */
  ghost predicate Recorded(allowed: Call -> bool, w0: World, calls: seq<Call>, w: World, reliable: bool) {
    Leads(w0, calls, w, reliable) && forall c :: c in calls ==> allowed(c)
  }

  lemma RecordedNone(allowed: Call -> bool, w: World, reliable: bool)
    ensures Recorded(allowed, w, [], w, reliable)
  {
  }

  lemma RecordedOne(allowed: Call -> bool, w0: World, calls: seq<Call>, w: World, c: Call, reliable: bool)
    requires Recorded(allowed, w0, calls, w, reliable) && Happens(w, c, reliable) && allowed(c)
    ensures Recorded(allowed, w0, calls + [c], After(w, c), reliable)
  {
    LeadsOne(w0, calls, w, c, reliable);
  }

  lemma {:induction false} LeadsThen(w0: World, a: seq<Call>, w1: World, b: seq<Call>, w2: World, reliable: bool)
    requires Leads(w0, a, w1, reliable) && Leads(w1, b, w2, reliable)
    ensures Leads(w0, a + b, w2, reliable)
  {
    if b == [] {
      assert a + b == a;
    } else {
      var before, last := b[..|b| - 1], b[|b| - 1];
      LeadsThen(w0, a, w1, before, WorldAfter(w1, before), reliable);
      LeadsOne(w0, a + before, WorldAfter(w1, before), last, reliable);
      assert a + before + [last] == a + b;
    }
  }

  // ---------------------------------------------------------------- look-ups

  /** What an interface look-up asks for. */
  datatype Filter = Every | WithAddress(ip: Ip) | AttachedTo(instance: string) | WithId(e: Eni)

  function Matching(w: World, filter: Filter): set<Eni> {
    match filter
    case Every => w.enis.Keys
    case WithAddress(ip) => HoldersOf(w, ip)
    case AttachedTo(instance) => InterfacesOf(w, instance)
    case WithId(e) => if e in w.enis then {e} else {}
  }

  /**
   A look-up that was made, what it found, and how many calls had been made before it. A failed
   one finds nothing at all.
   */
  datatype Look =
    | Interfaces(filter: Filter, found: Option<seq<Eni>>, made: nat)
    | Tables(cidr: string, found: Option<seq<string>>, made: nat)

  function First<T>(xs: Option<seq<T>>): Option<T> {
    if xs.Some? && xs.value != [] then Some(xs.value[0]) else None
  }

  /** An entry of an interface's address list. */
  datatype Address = Address(ip: Ip, primary: bool)

  ghost predicate Lists<T(!new)>(xs: seq<T>, s: set<T>) {
    && (forall x :: x in xs <==> x in s)
    && Distinct(xs)
  }

  /** The elements of a set in some order. */
  method Listing<T(==, !new)>(s: set<T>) returns (xs: seq<T>)
    ensures Lists(xs, s)
  {
    xs := [];
    var left := s;
    while left != {}
      invariant Lists(xs, s - left) && left <= s
      decreases left
    {
      var x :| x in left;
      left := left - {x};
      xs := xs + [x];
    }
  }

  class EC2 {
    const reliable: bool
    var world: World
    ghost var calls: seq<Call>   // every call that may change the world, in the order they were made
    ghost var looks: seq<Look>   // every look-up, in the order they were made

    constructor (world: World, reliable: bool)
      ensures this.world == world && this.reliable == reliable && calls == [] && looks == []
    {
      this.world, this.reliable, this.calls, this.looks := world, reliable, [], [];
    }

    method UnassignPrivateIpAddresses(e: Eni, ip: Ip) returns (ok: bool)
      modifies `world, `calls
      ensures ok ==> CanUnassign(old(world), e, ip) && world == Unassigned(old(world), e, ip)
      ensures !ok ==> world == old(world) && !(reliable && CanUnassign(world, e, ip))
      ensures calls == old(calls) + [Unassign(e, ip, ok)]
      ensures Happens(old(world), Unassign(e, ip, ok), reliable) && world == After(old(world), Unassign(e, ip, ok))
    {
      ok := CanUnassign(world, e, ip);
      if ok && !reliable {
        ok := *;
      }
      if ok {
        world := Unassigned(world, e, ip);
      }
      calls := calls + [Unassign(e, ip, ok)];
    }

    method AssignPrivateIpAddresses(e: Eni, ip: Ip) returns (ok: bool)
      modifies `world, `calls
      ensures ok ==> CanAssign(old(world), e, ip) && world == Assigned(old(world), e, ip)
      ensures !ok ==> world == old(world) && !(reliable && CanAssign(world, e, ip))
      ensures calls == old(calls) + [Assign(e, ip, ok)]
      ensures Happens(old(world), Assign(e, ip, ok), reliable) && world == After(old(world), Assign(e, ip, ok))
    {
      ok := CanAssign(world, e, ip);
      if ok && !reliable {
        ok := *;
      }
      if ok {
        world := Assigned(world, e, ip);
      }
      calls := calls + [Assign(e, ip, ok)];
    }

    /** Replaces an existing route. */
    method ReplaceRoute(table: string, cidr: string, e: Eni) returns (ok: bool)
      modifies `world, `calls
      ensures ok ==>
        table in old(world).routes && cidr in old(world).routes[table] && world == Routed(old(world), table, cidr, e)
      ensures !ok ==> world == old(world) && !(reliable && table in world.routes && cidr in world.routes[table])
      ensures calls == old(calls) + [Replace(table, cidr, e, ok)]
      ensures Happens(old(world), Replace(table, cidr, e, ok), reliable)
      ensures world == After(old(world), Replace(table, cidr, e, ok))
    {
      ok := table in world.routes && cidr in world.routes[table];
      if ok && !reliable {
        ok := *;
      }
      if ok {
        world := Routed(world, table, cidr, e);
      }
      calls := calls + [Replace(table, cidr, e, ok)];
    }

    /** The interfaces that satisfy a filter, in some order; the result is nothing when the call fails. */
    method DescribeNetworkInterfaces(filter: Filter) returns (enis: Option<seq<Eni>>)
      modifies `looks
      ensures looks == old(looks) + [Interfaces(filter, enis, |calls|)]
      ensures enis.None? ==> !reliable
      ensures enis.Some? ==> Lists(enis.value, Matching(world, filter))
    {
      enis := None;
      var fails := *;
      if !fails || reliable {
        var xs := Listing(Matching(world, filter));
        enis := Some(xs);
      }
      looks := looks + [Interfaces(filter, enis, |calls|)];
    }

    /** The same for a single interface by its id, with its address list. */
    method DescribeAddresses(e: Eni) returns (addresses: Option<seq<Address>>, ghost found: Option<seq<Eni>>)
      modifies `looks
      ensures looks == old(looks) + [Interfaces(WithId(e), found, |calls|)]
      ensures found.None? ==> !reliable
      ensures found.Some? ==> Lists(found.value, Matching(world, WithId(e)))
      ensures addresses.Some? <==> First(found) == Some(e)
      ensures addresses.Some? <==> found.Some? && e in world.enis
      ensures addresses.Some? ==> e in world.enis && Lists(addresses.value, AddressesOf(world.enis[e]))
    {
      var enis := DescribeNetworkInterfaces(WithId(e));
      addresses, found := None, enis;
      assert First(enis).Some? ==> enis.value[0] in enis.value;
      assert enis.Some? && e in world.enis ==> e in enis.value;
      if enis.Some? && e in world.enis {
        var xs := Listing(AddressesOf(world.enis[e]));
        addresses := Some(xs);
      }
    }

    /** The route tables with a route to the block. */
    method DescribeRouteTables(cidr: string) returns (tables: Option<seq<string>>)
      modifies `looks
      ensures looks == old(looks) + [Tables(cidr, tables, |calls|)]
      ensures tables.None? ==> !reliable
      ensures tables.Some? ==> Lists(tables.value, TablesTo(world, cidr))
    {
      tables := None;
      var fails := *;
      if !fails || reliable {
        var xs := Listing(TablesTo(world, cidr));
        tables := Some(xs);
      }
      looks := looks + [Tables(cidr, tables, |calls|)];
    }
  }

  function AddressesOf(i: Interface): set<Address> {
    {Address(i.primary, true)} + set ip | ip in i.secondaries :: Address(ip, false)
  }

  function TablesTo(w: World, cidr: string): set<string> {
    set t | t in w.routes && cidr in w.routes[t]
  }

  function HoldersOf(w: World, ip: Ip): set<Eni> {
    set e | e in w.enis && Holds(w, e, ip)
  }

  function InterfacesOf(w: World, instance: string): set<Eni> {
    set e | e in w.enis && w.enis[e].instance == Some(instance)
  }

  // ---------------------------------------------------------------- what single calls keep

  /** Every call keeps each IP on at most one interface. */
  lemma CallsKeepWellFormed(w: World, e: Eni, ip: Ip, table: string, cidr: string)
    requires WellFormed(w)
    ensures CanUnassign(w, e, ip) ==> WellFormed(Unassigned(w, e, ip))
    ensures CanAssign(w, e, ip) ==> WellFormed(Assigned(w, e, ip))
    ensures table in w.routes ==> WellFormed(Routed(w, table, cidr, e))
  {
    if CanUnassign(w, e, ip) {
      var u := Unassigned(w, e, ip);
      assert forall f, a :: Holds(u, f, a) ==> Holds(w, f, a);
    }
    if CanAssign(w, e, ip) {
      var u := Assigned(w, e, ip);
      assert forall f, a :: Holds(u, f, a) ==> Holds(w, f, a) || (f == e && a == ip);
    }
    if table in w.routes {
      var u := Routed(w, table, cidr, e);
      assert forall f, a :: Holds(u, f, a) ==> Holds(w, f, a);
    }
  }
}
