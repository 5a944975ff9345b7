/**
Bounds over every run of the network: routes are never deleted, yet tables and
jump lists stay finite, with limits the topology alone decides.
 */
module NetworkBounds {
  import opened Types
  import opened Ordering
  import opened AdapterManagers
  import opened Routes
  import opened RouteHistory
  import opened Network
  import Messages

  // ------------------------------------------------------------------ counting

  lemma {:induction false} InjectionCard<A, B>(s: set<A>, f: A -> B, t: set<B>)
    requires forall x :: x in s ==> f(x) in t
    requires forall x, y :: x in s && y in s && f(x) == f(y) ==> x == y
    ensures |s| <= |t|
    decreases |s|
  {
    if s != {} {
      var x :| x in s;
      InjectionCard(s - {x}, f, t - {f(x)});
    }
  }

  /** An injection into pairs from A times B. */
  lemma {:induction false} ProductBound<X, A, B>(s: set<X>, f: X -> (A, B), a: set<A>, b: set<B>)
    requires forall x :: x in s ==> f(x).0 in a && f(x).1 in b
    requires forall x, y :: x in s && y in s && f(x) == f(y) ==> x == y
    ensures |s| <= |a| * |b|
    decreases |a|
  {
    if a == {} {
      assert forall x :: x in s ==> f(x).0 in a;
      assert s == {};
    } else {
      var e :| e in a;
      var here := set x | x in s && f(x).0 == e;
      var second := (x: X) => f(x).1;
      InjectionCard(here, second, b);
      ProductBound(s - here, f, a - {e}, b);
      assert |s| == |here| + |s - here|;
      assert |a| * |b| == |b| + (|a| - 1) * |b|;
    }
  }

  ghost function IdsOf(table: Table): set<RouteId> {
    set g, r | g in table && r in table[g] :: r.identifier
  }

  function ListCount(table: Table, order: seq<string>): nat {
    if order == [] then 0 else
      (if order[0] in table then |table[order[0]]| else 0) + ListCount(table, order[1..])
  }

  /** How many routes a table stores, all lists together. */
  function RouteCount(table: Table): nat {
    ListCount(table, Ascending(table.Keys))
  }

  ghost function IdsOfLists(table: Table, order: seq<string>): set<RouteId> {
    set g, r | g in order && g in table && r in table[g] :: r.identifier
  }

  lemma {:induction false} DistinctCount(routes: seq<Route>)
    requires DistinctIds(routes)
    ensures |set r | r in routes :: r.identifier| == |routes|
    decreases |routes|
  {
    var ids := set r | r in routes :: r.identifier;
    if routes == [] {
      assert ids == {};
    } else {
      var front := routes[..|routes| - 1];
      var last := routes[|routes| - 1];
      DistinctCount(front);
      var before := set r | r in front :: r.identifier;
      assert forall r :: r in routes <==> r in front || r == last;
      assert last.identifier !in before;
      hide DistinctIds;
      assert ids == before + {last.identifier};
    }
  }

  lemma HomeIsElsewhere(adapters: AdapterTable, table: Table, order: seq<string>, guid: string, id: RouteId)
    requires Tidy(adapters, table) && AtHome(adapters, guid, id) && guid !in order
    ensures id !in IdsOfLists(table, order)
  {
    hide FindByAddress;
    forall g, r | g in order && g in table && r in table[g] ensures r.identifier != id {
      assert TidyList(adapters, g, table[g]);
      var i :| 0 <= i < |table[g]| && table[g][i] == r;
      assert AtHome(adapters, g, table[g][i].identifier);
    }
  }

  /** In a tidy table no route is counted twice. */
  lemma {:induction false} CountIsIds(adapters: AdapterTable, table: Table, order: seq<string>)
    requires Tidy(adapters, table)
    requires forall i, j :: 0 <= i < j < |order| ==> order[i] != order[j]
    ensures ListCount(table, order) == |IdsOfLists(table, order)|
    decreases |order|
  {
    hide FindByAddress;
    if order == [] {
      assert IdsOfLists(table, order) == {};
    } else {
      var (first, rest) := (order[0], order[1..]);
      assert order == [first] + rest;
      assert first !in rest;
      CountIsIds(adapters, table, rest);
      if first in table {
        var here := set r | r in table[first] :: r.identifier;
        assert TidyList(adapters, first, table[first]);
        DistinctCount(table[first]);
        assert IdsOfLists(table, order) == here + IdsOfLists(table, rest);
        forall id | id in here ensures id !in IdsOfLists(table, rest) {
          assert AtHome(adapters, first, id);
          HomeIsElsewhere(adapters, table, rest, first, id);
        }
        assert here !! IdsOfLists(table, rest);
      } else {
        assert IdsOfLists(table, order) == IdsOfLists(table, rest);
      }
    }
  }

  lemma RouteCountIsIds(adapters: AdapterTable, table: Table)
    requires Tidy(adapters, table)
    ensures RouteCount(table) == |IdsOf(table)|
  {
    hide Ascending, Tidy;
    var order := Ascending(table.Keys);
    assert forall g :: g in order <==> g in table;
    CountIsIds(adapters, table, order);
    assert IdsOfLists(table, order) == IdsOf(table);
  }

  // -------------------------------------------------------------- table bounds

  ghost function ClientAddresses(topo: Topology): set<Address> {
    set n, mac | n in topo.nodes && mac in topo.nodes[n].adapters && IsClient(topo, n, mac) :: AddressOf(topo, n, mac)
  }

  /** The (neighbour adapter, own adapter) pairs of a node. */
  ghost function NeighbourPairs(topo: Topology, n: string): set<(Address, Address)> {
    set link | link in topo.links && Owns(topo, n, link.1)
  }

  lemma OwnerIsUnique(topo: Topology, n: string, m: string, a: Address)
    requires UniqueAddresses(topo) && Owns(topo, n, a) && Owns(topo, m, a)
    ensures n == m
  {
    var mac :| IsClient(topo, n, mac) && AddressOf(topo, n, mac) == a;
    var mac' :| IsClient(topo, m, mac') && AddressOf(topo, m, mac') == a;
    assert topo.nodes[n].adapters[mac].addresses[0].0 == a;
    assert topo.nodes[m].adapters[mac'].addresses[0].0 == a;
    assert CarriedBy(topo.nodes[n].adapters, mac, a) && CarriedBy(topo.nodes[m].adapters, mac', a);
  }

  /** What a route's walk says about its identifier. */
  ghost predicate Placed(topo: Topology, n: string, id: RouteId) {
    && id.node.address in ClientAddresses(topo)
    && (id.reporter, id.adapter) in topo.links && Owns(topo, n, id.adapter)
    && OwnedBy(topo, id.node.id, id.node.address)
  }

  lemma SoundIsPlaced(topo: Topology, n: string, id: RouteId, jumps: Jumps)
    requires SoundRoute(topo, n, id, jumps)
    ensures Placed(topo, n, id)
  {
    var hops: seq<Hop> :| WalkTo(topo, n, hops, id.node, jumps) && hops[0] == Hop(id.adapter, id.reporter);
    var m :| Owns(topo, m, id.node.address) && topo.nodes[m].id == id.node.id;
  }

  lemma StoredIsPlaced(topo: Topology, s: State, n: string, id: RouteId)
    requires SoundState(topo, s) && n in s.managers && id in IdsOf(s.managers[n].table)
    ensures Placed(topo, n, id)
  {
    var table: Table := s.managers[n].table;
    hide SoundRoute, Placed, SoundPacket, Tidy;
    var g, r :| g in table && r in table[g] && r.identifier == id;
    var i :| 0 <= i < |table[g]| && table[g][i] == r;
    assert SoundTable(topo, n, table);
    SoundIsPlaced(topo, n, table[g][i].identifier, table[g][i].status.jumps);
  }

  /** The address fixes the node id, so address and link fix the identifier. */
  function Place(id: RouteId): (Address, (Address, Address)) {
    (id.node.address, (id.reporter, id.adapter))
  }

  lemma PlaceIsInjective(topo: Topology, n: string, id: RouteId, n': string, id': RouteId)
    requires UniqueAddresses(topo) && Placed(topo, n, id) && Placed(topo, n', id') && Place(id) == Place(id')
    ensures n == n' && id == id'
  {
    hide UniqueAddresses, ClientAddresses;
    OwnerIsUnique(topo, n, n', id.adapter);
    var m :| Owns(topo, m, id.node.address) && topo.nodes[m].id == id.node.id;
    var m' :| Owns(topo, m', id'.node.address) && topo.nodes[m'].id == id'.node.id;
    OwnerIsUnique(topo, m, m', id.node.address);
  }

  /**
  However long the network runs, a node stores at most one route for every
  adapter of the network and every pair of an own adapter and a neighbour.
   */
  lemma TablesAreBounded(topo: Topology, steps: seq<NetStep>, n: string)
    requires UniqueAddresses(topo) && RunNetwork(topo, steps).Some? && n in topo.nodes
    ensures var s := RunNetwork(topo, steps).value;
      && n in s.managers
      && RouteCount(s.managers[n].table) <= |ClientAddresses(topo)| * |NeighbourPairs(topo, n)|
  {
    var s := RunNetwork(topo, steps).value;
    ReachableIsSound(topo, steps);
    hide RunNetwork, SoundTable, SoundPacket, Tidy, UniqueAddresses, ClientAddresses;
    var ids := IdsOf(s.managers[n].table);
    RouteCountIsIds(topo.nodes[n].adapters, s.managers[n].table);
    forall id | id in ids
      ensures Placed(topo, n, id)
      ensures Place(id).0 in ClientAddresses(topo) && Place(id).1 in NeighbourPairs(topo, n)
    {
      StoredIsPlaced(topo, s, n, id);
    }
    forall id, id' | id in ids && id' in ids && Place(id) == Place(id') ensures id == id' {
      PlaceIsInjective(topo, n, id, n, id');
    }
    ProductBound(ids, Place, ClientAddresses(topo), NeighbourPairs(topo, n));
  }

  // --------------------------------------------------------- jump list lengths

  ghost function StateIds(s: State): set<(string, RouteId)> {
    set n, id | n in s.managers && id in IdsOf(s.managers[n].table) :: (n, id)
  }

  ghost predicate HasRoute(table: Table, id: RouteId, jumps: Jumps) {
    exists g, i ::
      g in table && 0 <= i < |table[g]| && table[g][i].identifier == id && table[g][i].status.jumps == jumps
  }

  /** Stored routes keep their jumps; a route that is new was named nowhere before, with at most k jumps. */
  ghost predicate Grows(was: Table, now: Table, k: nat) {
    && IdsOf(was) <= IdsOf(now)
    && forall id, jumps :: HasRoute(now, id, jumps) ==>
         HasRoute(was, id, jumps) || (id !in IdsOf(was) && |jumps| <= k)
  }

  lemma GrowsTransitive(first: Table, second: Table, third: Table, k: nat)
    requires Grows(first, second, k) && Grows(second, third, k)
    ensures Grows(first, third, k)
  {
    hide IdsOf, HasRoute;
  }

  lemma ProcessRouteGrows(adapters: AdapterTable, m: Manager, adapter: Adapter, time: Time, id: RouteId, jumps: Jumps,
                          k: nat)
    requires Tidy(adapters, m.table) && FindByAddress(adapters, id.adapter) == Some(adapter) && |jumps| <= k
    ensures Grows(m.table, ProcessRoute(m, adapter, time, id, jumps).table, k)
  {
    hide FindByAddress;
    var after: Table := ProcessRoute(m, adapter, time, id, jumps).table;
    IdsOnlyGrow(m, adapter, time, id, jumps);
    forall id', jumps' | HasRoute(after, id', jumps')
      ensures HasRoute(m.table, id', jumps') || (id' !in IdsOf(m.table) && |jumps'| <= k)
    {
      var g, i :| g in after && 0 <= i < |after[g]| && after[g][i].identifier == id'
        && after[g][i].status.jumps == jumps';
      if g in m.table && i < |m.table[g]| {
        assert m.table[g][i].identifier == id' && m.table[g][i].status.jumps == jumps';
        assert HasRoute(m.table, id', jumps');
      } else {
        assert id' == id && jumps' == jumps && Entry(m.table, adapter.guid, id).None?;
        NotStoredElsewhere(adapters, m.table, adapter, id);
      }
    }
  }

  lemma IdsOnlyGrow(m: Manager, adapter: Adapter, time: Time, id: RouteId, jumps: Jumps)
    ensures IdsOf(m.table) <= IdsOf(ProcessRoute(m, adapter, time, id, jumps).table)
  {
    var after: Table := ProcessRoute(m, adapter, time, id, jumps).table;
    forall id' | id' in IdsOf(m.table) ensures id' in IdsOf(after) {
      var g, r :| g in m.table && r in m.table[g] && r.identifier == id';
      var i :| 0 <= i < |m.table[g]| && m.table[g][i] == r;
      assert after[g][i].identifier == id' && after[g][i] in after[g];
    }
  }

  lemma NotStoredElsewhere(adapters: AdapterTable, table: Table, adapter: Adapter, id: RouteId)
    requires Tidy(adapters, table) && FindByAddress(adapters, id.adapter) == Some(adapter)
    requires Entry(table, adapter.guid, id).None?
    ensures id !in IdsOf(table)
  {
    hide FindByAddress;
    if id in IdsOf(table) {
      var g, r :| g in table && r in table[g] && r.identifier == id;
      var i :| 0 <= i < |table[g]| && table[g][i] == r;
      OccurrenceIsEntry(adapters, table, g, i);
    }
  }

  lemma {:induction false} ProcessNodesGrow(adapters: AdapterTable, m: Manager, adapter: Adapter, info: NetworkInfo,
                                            nodes: seq<Messages.Node>, k: nat)
    requires Tidy(adapters, m.table) && FindByAddress(adapters, info.adapter) == Some(adapter)
    requires forall i :: 0 <= i < |nodes| ==> |nodes[i].jumps| < k
    ensures Grows(m.table, ProcessNodes(m, adapter, info, nodes).table, k)
    decreases |nodes|
  {
    if nodes == [] {
      assert Grows(m.table, m.table, k);
    } else {
      hide FindByAddress, Tidy, Grows, ProcessRoute;
      var id := IndirectId(nodes[0], info);
      var jumps := [DIRECT_JUMP] + nodes[0].jumps;
      var next := ProcessRoute(m, adapter, info.receptionTime, id, jumps);
      ProcessRouteGrows(adapters, m, adapter, info.receptionTime, id, jumps, k);
      ProcessRouteTidy(adapters, m, adapter, info.receptionTime, id, jumps);
      ProcessNodesGrow(adapters, next, adapter, info, nodes[1..], k);
      GrowsTransitive(m.table, next.table, ProcessNodes(m, adapter, info, nodes).table, k);
    }
  }

  lemma GrowsReflexive(table: Table, k: nat)
    ensures Grows(table, table, k)
  {}

  lemma HeardGrows(adapters: AdapterTable, m: Manager, op: RouteOp, k: nat)
    requires op.Heard? && k > 0 && Tidy(adapters, m.table)
    requires forall i :: 0 <= i < |op.nodes| ==> |op.nodes[i].jumps| < k
    ensures Grows(m.table, Step(adapters, m, op).table, k)
  {
    hide FindByAddress, Tidy, Grows, ProcessRoute, ProcessNodes;
    var found := FindByAddress(adapters, op.info.adapter);
    if found.None? {
      GrowsReflexive(m.table, k);
    } else {
      var id := SenderId(op.identifier, op.info);
      var direct := ProcessRoute(m, found.value, op.info.receptionTime, id, [DIRECT_JUMP]);
      ProcessRouteGrows(adapters, m, found.value, op.info.receptionTime, id, [DIRECT_JUMP], k);
      ProcessRouteTidy(adapters, m, found.value, op.info.receptionTime, id, [DIRECT_JUMP]);
      ProcessNodesGrow(adapters, direct, found.value, op.info, op.nodes, k);
      GrowsTransitive(m.table, direct.table, Step(adapters, m, op).table, k);
    }
  }

  lemma TickGrows(adapters: AdapterTable, m: Manager, now: Time, k: nat)
    ensures Grows(m.table, Step(adapters, m, Tick(now)).table, k)
  {
    UpdateRefreshesAll(m, now);
    var after: Table := UpdateManager(m, now).table;
    hide UpdateManager;
    forall id | id in IdsOf(m.table) ensures id in IdsOf(after) {
      var g, r :| g in m.table && r in m.table[g] && r.identifier == id;
      var i :| 0 <= i < |m.table[g]| && m.table[g][i] == r;
      assert after[g][i] in after[g] && after[g][i].identifier == id;
    }
    forall id, jumps | HasRoute(after, id, jumps) ensures HasRoute(m.table, id, jumps) {
      var g, i :|
        g in after && 0 <= i < |after[g]| && after[g][i].identifier == id && after[g][i].status.jumps == jumps;
      assert m.table[g][i].identifier == id && m.table[g][i].status.jumps == jumps;
    }
  }

  /** No jump list, stored or in flight, is longer than the number of routes stored in the whole network. */
  ghost predicate JumpsWithin(s: State, bound: nat) {
    && (forall n, id, jumps :: n in s.managers && HasRoute(s.managers[n].table, id, jumps) ==> |jumps| <= bound)
    && (forall p, i :: p in s.inFlight && 0 <= i < |p.nodes| ==> |p.nodes[i].jumps| <= bound)
  }

  lemma HasRouteStored(table: Table, id: RouteId, jumps: Jumps)
    requires HasRoute(table, id, jumps)
    ensures id in IdsOf(table)
  {
    var g, i :| g in table && 0 <= i < |table[g]| && table[g][i].identifier == id && table[g][i].status.jumps == jumps;
    assert table[g][i] in table[g];
  }

  /** One manager grows: every old list still fits, and a longer one comes with a newly stored route. */
  lemma GrowthPaysForJumps(s: State, n: string, m: Manager)
    requires n in s.managers && JumpsWithin(s, |StateIds(s)|)
    requires Grows(s.managers[n].table, m.table, |StateIds(s)| + 1)
    ensures var after := s.(managers := s.managers[n := m]);
      JumpsWithin(after, |StateIds(after)|)
  {
    hide Grows, IdsOf, HasRoute;
    var after := s.(managers := s.managers[n := m]);
    var was := s.managers[n].table;
    assert IdsOf(was) <= IdsOf(m.table) by { GrowsIds(was, m.table, |StateIds(s)| + 1); }
    assert StateIds(s) <= StateIds(after);
    SubsetCard(StateIds(s), StateIds(after));
    forall n', id, jumps | n' in after.managers && HasRoute(after.managers[n'].table, id, jumps)
      ensures |jumps| <= |StateIds(after)|
    {
      if n' == n {
        GrowsRoute(was, m.table, |StateIds(s)| + 1, id, jumps);
        if !HasRoute(was, id, jumps) {
          HasRouteStored(m.table, id, jumps);
          assert (n, id) in StateIds(after) && (n, id) !in StateIds(s);
          SubsetCard(StateIds(s) + {(n, id)}, StateIds(after));
        }
      }
    }
  }

  lemma GrowsIds(was: Table, now: Table, k: nat)
    requires Grows(was, now, k)
    ensures IdsOf(was) <= IdsOf(now)
  {}

  lemma GrowsRoute(was: Table, now: Table, k: nat, id: RouteId, jumps: Jumps)
    requires Grows(was, now, k) && HasRoute(now, id, jumps)
    ensures HasRoute(was, id, jumps) || (id !in IdsOf(was) && |jumps| <= k)
  {}

  lemma SubsetCard<T>(a: set<T>, b: set<T>)
    requires a <= b
    ensures |a| <= |b|
  {
    assert b == a + (b - a);
  }

  lemma SendJumps(topo: Topology, s: State, n: string, mac: string)
    requires IsClient(topo, n, mac) && n in s.managers && JumpsWithin(s, |StateIds(s)|)
    ensures JumpsWithin(Next(topo, s, Send(n, mac)), |StateIds(s)|)
  {
    var (adapter, table) := (topo.nodes[n].adapters[mac], s.managers[n].table);
    var packet := Announcement(topo.nodes[n].id, adapter, table);
    var routes := FindRoutes(table, adapter.guid);
    FindRoutesSelects(table, adapter.guid);
    hide FindRoutes, Covers, DistinctIds;
    forall i | 0 <= i < |packet.nodes| ensures |packet.nodes[i].jumps| <= |StateIds(s)| {
      assert Candidate(table, adapter.guid, routes[i]);
      var g :| g in table && routes[i] in table[g];
      var j :| 0 <= j < |table[g]| && table[g][j] == routes[i];
      assert HasRoute(table, routes[i].identifier, routes[i].status.jumps);
    }
  }

  lemma NextJumps(topo: Topology, s: State, step: NetStep)
    requires SoundState(topo, s) && CanStep(topo, s, step) && JumpsWithin(s, |StateIds(s)|)
    ensures var after := Next(topo, s, step); JumpsWithin(after, |StateIds(after)|)
  {
    hide Step, HasRoute, IdsOf, SoundTable, SoundPacket, Tidy, Announcement;
    var k := |StateIds(s)| + 1;
    match step
    case Send(n, mac) =>
      SendJumps(topo, s, n, mac);
      assert StateIds(Next(topo, s, step)) == StateIds(s);
    case Deliver(packet, n, mac, now) =>
      var op := Arrival(packet, AddressOf(topo, n, mac), now);
      HeardGrows(topo.nodes[n].adapters, s.managers[n], op, k);
      GrowthPaysForJumps(s, n, Step(topo.nodes[n].adapters, s.managers[n], op));
    case Drop(packet) =>
      assert StateIds(Next(topo, s, step)) == StateIds(s);
    case TickNode(n, now) =>
      TickGrows(topo.nodes[n].adapters, s.managers[n], now, k);
      GrowthPaysForJumps(s, n, Step(topo.nodes[n].adapters, s.managers[n], Tick(now)));
  }

  lemma {:induction false} RunJumps(topo: Topology, steps: seq<NetStep>)
    requires UniqueAddresses(topo) && RunNetwork(topo, steps).Some?
    ensures var s := RunNetwork(topo, steps).value; JumpsWithin(s, |StateIds(s)|)
    decreases |steps|
  {
    if steps != [] {
      hide SoundState, CanStep, Next, UniqueAddresses, JumpsWithin, StateIds;
      var before := RunNetwork(topo, steps[..|steps| - 1]).value;
      RunJumps(topo, steps[..|steps| - 1]);
      ReachableIsSound(topo, steps[..|steps| - 1]);
      NextJumps(topo, before, steps[|steps| - 1]);
    }
  }

  lemma StateIdsBound(topo: Topology, s: State)
    requires UniqueAddresses(topo) && SoundState(topo, s)
    ensures |StateIds(s)| <= |ClientAddresses(topo)| * |topo.links|
  {
    hide UniqueAddresses, SoundTable, SoundPacket, Tidy, IdsOf, ClientAddresses;
    var ids := StateIds(s);
    var place := (p: (string, RouteId)) => Place(p.1);
    forall p | p in ids ensures Placed(topo, p.0, p.1) {
      StoredIsPlaced(topo, s, p.0, p.1);
    }
    forall p, p' | p in ids && p' in ids && place(p) == place(p') ensures p == p' {
      PlaceIsInjective(topo, p.0, p.1, p'.0, p'.1);
    }
    ProductBound(ids, place, ClientAddresses(topo), topo.links);
  }

  /**
  No jump list ever grows longer than adapters times links. Below 32768 the
  32-bit sums of the shortest-route test are therefore the true sums.
   */
  lemma JumpListsAreBounded(topo: Topology, steps: seq<NetStep>, n: string, g: string, i: nat)
    requires UniqueAddresses(topo) && RunNetwork(topo, steps).Some?
    requires var s := RunNetwork(topo, steps).value;
      n in s.managers && g in s.managers[n].table && i < |s.managers[n].table[g]|
    ensures var route := RunNetwork(topo, steps).value.managers[n].table[g][i];
      var bound := |ClientAddresses(topo)| * |topo.links|;
      && |route.status.jumps| <= bound
      && (bound <= 32768 ==> Cost(route) == Sum(route.status.jumps) == 256 * |route.status.jumps|)
  {
    var s := RunNetwork(topo, steps).value;
    ReachableIsSound(topo, steps);
    RunJumps(topo, steps);
    StateIdsBound(topo, s);
    hide RunNetwork, UniqueAddresses, StateIds, ClientAddresses, SoundPacket, Tidy;
    StoredJumps(topo, s, n, g, i, |StateIds(s)|);
    var route: Route := s.managers[n].table[g][i];
    if |ClientAddresses(topo)| * |topo.links| <= 32768 {
      CostIsSum(route);
    }
  }

  lemma StoredJumps(topo: Topology, s: State, n: string, g: string, i: nat, bound: nat)
    requires SoundState(topo, s) && JumpsWithin(s, bound)
    requires n in s.managers && g in s.managers[n].table && i < |s.managers[n].table[g]|
    ensures var jumps := s.managers[n].table[g][i].status.jumps;
      |jumps| <= bound && Sum(jumps) == 256 * |jumps|
  {
    hide SoundPacket, Tidy, WalkTo;
    var table: Table := s.managers[n].table;
    var route: Route := table[g][i];
    assert HasRoute(table, route.identifier, route.status.jumps);
    assert SoundTable(topo, n, table);
    assert SoundRoute(topo, n, route.identifier, route.status.jumps);
    SoundIsDirect(topo, n, route.identifier, route.status.jumps);
    DirectSum(route.status.jumps);
  }

  lemma SoundIsDirect(topo: Topology, n: string, id: RouteId, jumps: Jumps)
    requires SoundRoute(topo, n, id, jumps)
    ensures AllDirect(jumps)
  {}

  lemma {:induction false} DirectSum(jumps: Jumps)
    requires AllDirect(jumps)
    ensures Sum(jumps) == 256 * |jumps|
    decreases |jumps|
  {
    if jumps != [] {
      DirectSum(jumps[1..]);
    }
  }
}
