/**
Many nodes over a fixed topology, as a transition system: send, deliver, drop
and tick in any order. Messages stay in flight until dropped, so one multicast
can reach many receivers, late, out of order and more than once.
 */
module Network {
  import opened Bytes
  import opened Types
  import opened AdapterManagers
  import opened Routes
  import opened RouteHistory
  import Messages

  datatype NodeConfig = NodeConfig(id: Short, adapters: AdapterTable)

  /** A link (a, b): what is multicast from address a arrives at address b. */
  datatype Topology = Topology(nodes: map<string, NodeConfig>, links: set<(Address, Address)>)

  datatype Packet = Packet(sender: Address, identifier: Short, nodes: seq<Messages.Node>)

  datatype State = State(managers: map<string, Manager>, inFlight: set<Packet>)

  datatype NetStep =
    | Send(node: string, mac: string)
    | Deliver(packet: Packet, node: string, mac: string, now: Time)
    | Drop(packet: Packet)
    | TickNode(node: string, now: Time)

  /** The adapters that get a client; the client is bound to the first address. */
  predicate HasClient(adapter: Adapter) {
    adapter.enabled && adapter.addresses != [] && !adapter.loopback
  }

  function ClientAddress(adapter: Adapter): Address
    requires HasClient(adapter)
  {
    adapter.addresses[0].0
  }

  predicate IsClient(topo: Topology, n: string, mac: string) {
    n in topo.nodes && mac in topo.nodes[n].adapters && HasClient(topo.nodes[n].adapters[mac])
  }

  function AddressOf(topo: Topology, n: string, mac: string): Address
    requires IsClient(topo, n, mac)
  {
    ClientAddress(topo.nodes[n].adapters[mac])
  }

  ghost predicate Owns(topo: Topology, n: string, a: Address) {
    exists mac :: IsClient(topo, n, mac) && AddressOf(topo, n, mac) == a
  }

  /** No address is carried by two adapters, anywhere. */
  ghost predicate UniqueAddresses(topo: Topology) {
    forall n, mac, n', mac', a ::
      && n in topo.nodes && n' in topo.nodes
      && CarriedBy(topo.nodes[n].adapters, mac, a) && CarriedBy(topo.nodes[n'].adapters, mac', a)
      ==> n == n' && mac == mac'
  }

  // --------------------------------------------------------------- transitions

  function Advertised(routes: seq<Route>): seq<Messages.Node> {
    seq(|routes|, i requires 0 <= i < |routes| =>
      Messages.Node(routes[i].identifier.node.id, routes[i].identifier.node.address, routes[i].status.jumps))
  }

  /** What `transmit_discovery_message` multicasts for one client. */
  function Announcement(id: Short, adapter: Adapter, table: Table): Packet
    requires HasClient(adapter)
  {
    Packet(ClientAddress(adapter), id, Advertised(FindRoutes(table, adapter.guid)))
  }

  function Arrival(packet: Packet, receiver: Address, now: Time): RouteOp {
    Heard(packet.identifier, packet.nodes, NetworkInfo(now, packet.sender, 0, receiver))
  }

  predicate CanStep(topo: Topology, s: State, step: NetStep) {
    match step
    case Send(n, mac) => IsClient(topo, n, mac) && n in s.managers
    case Deliver(packet, n, mac, now) =>
      && IsClient(topo, n, mac) && n in s.managers && packet in s.inFlight
      && (packet.sender, AddressOf(topo, n, mac)) in topo.links
    case Drop(packet) => packet in s.inFlight
    case TickNode(n, now) => n in topo.nodes && n in s.managers
  }

  function Next(topo: Topology, s: State, step: NetStep): State
    requires CanStep(topo, s, step)
  {
    match step
    case Send(n, mac) =>
      var packet := Announcement(topo.nodes[n].id, topo.nodes[n].adapters[mac], s.managers[n].table);
      s.(inFlight := s.inFlight + {packet})
    case Deliver(packet, n, mac, now) =>
      var m := Step(topo.nodes[n].adapters, s.managers[n], Arrival(packet, AddressOf(topo, n, mac), now));
      s.(managers := s.managers[n := m])
    case Drop(packet) => s.(inFlight := s.inFlight - {packet})
    case TickNode(n, now) =>
      s.(managers := s.managers[n := Step(topo.nodes[n].adapters, s.managers[n], Tick(now))])
  }

  function Init(topo: Topology): State {
    State(map n | n in topo.nodes :: Manager(map[], []), {})
  }

  /** The state after a run, if each of its steps is enabled in turn. */
  function RunNetwork(topo: Topology, steps: seq<NetStep>): Option<State> {
    if steps == [] then Some(Init(topo)) else
      match RunNetwork(topo, steps[..|steps| - 1])
      case None => None
      case Some(s) =>
        if CanStep(topo, s, steps[|steps| - 1]) then Some(Next(topo, s, steps[|steps| - 1])) else None
  }

  // --------------------------------------------------------------------- walks

  /** Leaving a node on its address `out` and entering the next one at `entered`. */
  datatype Hop = Hop(out: Address, entered: Address)

  /** A real walk from node n, against the direction announcements travel, never turning back on an adapter. */
  ghost predicate IsWalk(topo: Topology, n: string, hops: seq<Hop>)
    decreases |hops|
  {
    && hops != []
    && Owns(topo, n, hops[0].out)
    && (hops[0].entered, hops[0].out) in topo.links
    && (exists m :: Owns(topo, m, hops[0].entered)
          && (|hops| > 1 ==> hops[1].out != hops[0].entered && IsWalk(topo, m, hops[1..])))
  }

  ghost predicate OwnedBy(topo: Topology, id: Short, a: Address) {
    exists m :: Owns(topo, m, a) && topo.nodes[m].id == id
  }

  predicate AllDirect(jumps: Jumps) {
    forall i :: 0 <= i < |jumps| ==> jumps[i] == 256
  }

  /** The walk a jump list stands for: as long as the list, ending at the node that owns id and address. */
  ghost predicate WalkTo(topo: Topology, n: string, hops: seq<Hop>, node: NodeId, jumps: Jumps) {
    && IsWalk(topo, n, hops)
    && |hops| == |jumps| && AllDirect(jumps)
    && hops[|hops| - 1].entered == node.address
    && OwnedBy(topo, node.id, node.address)
  }

  /** A stored route: its walk starts on its adapter through its reporter. */
  ghost predicate SoundRoute(topo: Topology, n: string, id: RouteId, jumps: Jumps) {
    exists hops: seq<Hop> :: WalkTo(topo, n, hops, id.node, jumps) && hops[0] == Hop(id.adapter, id.reporter)
  }

  /** An advertised route: its walk does not start on the adapter it is advertised on. */
  ghost predicate SoundOffer(topo: Topology, n: string, sender: Address, node: NodeId, jumps: Jumps) {
    exists hops: seq<Hop> :: WalkTo(topo, n, hops, node, jumps) && hops[0].out != sender
  }

  ghost predicate SoundTable(topo: Topology, n: string, table: Table) {
    forall g, i :: g in table && 0 <= i < |table[g]| ==>
      SoundRoute(topo, n, table[g][i].identifier, table[g][i].status.jumps)
  }

  ghost predicate SoundOffers(topo: Topology, n: string, sender: Address, nodes: seq<Messages.Node>) {
    forall i :: 0 <= i < |nodes| ==>
      SoundOffer(topo, n, sender, NodeId(nodes[i].identifier, nodes[i].address), nodes[i].jumps)
  }

  ghost predicate SoundPacket(topo: Topology, packet: Packet) {
    exists n ::
      && Owns(topo, n, packet.sender)
      && topo.nodes[n].id == packet.identifier
      && SoundOffers(topo, n, packet.sender, packet.nodes)
  }

  ghost predicate SoundState(topo: Topology, s: State) {
    && s.managers.Keys == topo.nodes.Keys
    && (forall n :: n in s.managers ==>
          SoundTable(topo, n, s.managers[n].table) && Tidy(topo.nodes[n].adapters, s.managers[n].table))
    && (forall p :: p in s.inFlight ==> SoundPacket(topo, p))
  }

  // ------------------------------------------------------------ delivering one

  /** The hop that received an announcement in front of a walk the announcement offers. */
  lemma ExtendWalk(topo: Topology, n: string, hop: Hop, m: string, hops: seq<Hop>, node: NodeId, jumps: Jumps)
    requires Owns(topo, n, hop.out) && Owns(topo, m, hop.entered) && (hop.entered, hop.out) in topo.links
    requires WalkTo(topo, m, hops, node, jumps) && hops[0].out != hop.entered
    ensures WalkTo(topo, n, [hop] + hops, node, [DIRECT_JUMP] + jumps)
  {
    hide Owns, OwnedBy;
    var all := [hop] + hops;
    assert all[1..] == hops;
    assert all[|all| - 1] == hops[|hops| - 1];
  }

  lemma DirectWalk(topo: Topology, n: string, hop: Hop, m: string)
    requires Owns(topo, n, hop.out) && Owns(topo, m, hop.entered) && (hop.entered, hop.out) in topo.links
    ensures WalkTo(topo, n, [hop], NodeId(topo.nodes[m].id, hop.entered), [DIRECT_JUMP])
  {
    assert OwnedBy(topo, topo.nodes[m].id, hop.entered);
  }

  lemma ProcessRouteSound(topo: Topology, n: string, m: Manager, adapter: Adapter, time: Time, id: RouteId,
                          jumps: Jumps)
    requires SoundTable(topo, n, m.table) && SoundRoute(topo, n, id, jumps)
    ensures SoundTable(topo, n, ProcessRoute(m, adapter, time, id, jumps).table)
  {
    hide SoundRoute;
    var after: Table := ProcessRoute(m, adapter, time, id, jumps).table;
    forall g, i | g in after && 0 <= i < |after[g]|
      ensures SoundRoute(topo, n, after[g][i].identifier, after[g][i].status.jumps)
    {
      if g in m.table && i < |m.table[g]| {
        assert SoundRoute(topo, n, m.table[g][i].identifier, m.table[g][i].status.jumps);
      }
    }
  }

  /** Everything an announcement names is sound at the receiver. */
  lemma OfferIsSoundRoute(topo: Topology, packet: Packet, from: string, n: string, receiver: Address,
                          node: Messages.Node, info: NetworkInfo)
    requires Owns(topo, from, packet.sender) && Owns(topo, n, receiver) && (packet.sender, receiver) in topo.links
    requires SoundOffer(topo, from, packet.sender, NodeId(node.identifier, node.address), node.jumps)
    requires info.adapter == receiver && info.sender == packet.sender
    ensures SoundRoute(topo, n, IndirectId(node, info), [DIRECT_JUMP] + node.jumps)
  {
    var hop := Hop(receiver, packet.sender);
    var to := NodeId(node.identifier, node.address);
    var hops: seq<Hop> :| WalkTo(topo, from, hops, to, node.jumps) && hops[0].out != packet.sender;
    ExtendWalk(topo, n, hop, from, hops, to, node.jumps);
    hide WalkTo;
    assert ([hop] + hops)[0] == hop;
  }

  lemma {:induction false} ProcessNodesSound(topo: Topology, packet: Packet, from: string, n: string, m: Manager,
                                             adapter: Adapter, info: NetworkInfo, i: nat)
    requires i <= |packet.nodes|
    requires SoundTable(topo, n, m.table)
    requires Owns(topo, from, packet.sender) && Owns(topo, n, info.adapter)
    requires info.sender == packet.sender && (packet.sender, info.adapter) in topo.links
    requires SoundOffers(topo, from, packet.sender, packet.nodes)
    ensures SoundTable(topo, n, ProcessNodes(m, adapter, info, packet.nodes[i..]).table)
    decreases |packet.nodes| - i
  {
    hide SoundTable, Owns, ProcessRoute, SoundOffer, SoundRoute;
    if i < |packet.nodes| {
      var node := packet.nodes[i];
      var id := IndirectId(node, info);
      var jumps := [DIRECT_JUMP] + node.jumps;
      assert packet.nodes[i..][0] == node && packet.nodes[i..][1..] == packet.nodes[i + 1..];
      assert SoundOffer(topo, from, packet.sender, NodeId(node.identifier, node.address), node.jumps);
      OfferIsSoundRoute(topo, packet, from, n, info.adapter, node, info);
      ProcessRouteSound(topo, n, m, adapter, info.receptionTime, id, jumps);
      ProcessNodesSound(topo, packet, from, n, ProcessRoute(m, adapter, info.receptionTime, id, jumps), adapter, info,
                        i + 1);
    }
  }

  lemma DeliverSound(topo: Topology, n: string, mac: string, m: Manager, packet: Packet, now: Time)
    requires IsClient(topo, n, mac) && (packet.sender, AddressOf(topo, n, mac)) in topo.links
    requires SoundTable(topo, n, m.table) && SoundPacket(topo, packet)
    ensures SoundTable(topo, n,
      Step(topo.nodes[n].adapters, m, Arrival(packet, AddressOf(topo, n, mac), now)).table)
  {
    var receiver := AddressOf(topo, n, mac);
    var op := Arrival(packet, receiver, now);
    var found := FindByAddress(topo.nodes[n].adapters, receiver);
    assert Owns(topo, n, receiver);
    hide SoundTable, Owns, ProcessRoute, ProcessNodes, FindByAddress, SoundOffers;
    if found.Some? {
      var from :| Owns(topo, from, packet.sender) && topo.nodes[from].id == packet.identifier
        && SoundOffers(topo, from, packet.sender, packet.nodes);
      var hop := Hop(receiver, packet.sender);
      var id := SenderId(packet.identifier, op.info);
      DirectWalk(topo, n, hop, from);
      assert SoundRoute(topo, n, id, [DIRECT_JUMP]) by { assert [hop][0] == hop; }
      ProcessRouteSound(topo, n, m, found.value, now, id, [DIRECT_JUMP]);
      assert packet.nodes[0..] == packet.nodes;
      ProcessNodesSound(topo, packet, from, n, ProcessRoute(m, found.value, now, id, [DIRECT_JUMP]), found.value,
                        op.info, 0);
    }
  }

  lemma TickSound(topo: Topology, n: string, adapters: AdapterTable, m: Manager, now: Time)
    requires SoundTable(topo, n, m.table)
    ensures SoundTable(topo, n, Step(adapters, m, Tick(now)).table)
  {
    hide SoundRoute;
    UpdateRefreshesAll(m, now);
    var after: Table := UpdateManager(m, now).table;
    hide UpdateManager;
    forall g, i | g in after && 0 <= i < |after[g]|
      ensures SoundRoute(topo, n, after[g][i].identifier, after[g][i].status.jumps)
    {
      assert SoundRoute(topo, n, m.table[g][i].identifier, m.table[g][i].status.jumps);
    }
  }

  // --------------------------------------------------------------- sending one

  /** Split horizon: a selected route never starts on the adapter it is about to be advertised on. */
  lemma SelectedAvoidsSender(topo: Topology, n: string, mac: string, table: Table, route: Route)
    requires UniqueAddresses(topo) && IsClient(topo, n, mac)
    requires Tidy(topo.nodes[n].adapters, table)
    requires Candidate(table, topo.nodes[n].adapters[mac].guid, route)
    ensures route.identifier.adapter != AddressOf(topo, n, mac)
  {
    var adapters := topo.nodes[n].adapters;
    var a := AddressOf(topo, n, mac);
    var g :| g in table && g != adapters[mac].guid && route in table[g];
    assert TidyList(adapters, g, table[g]);
    assert AtHome(adapters, g, route.identifier);
    assert adapters[mac].addresses[0].0 == a;
    assert CarriedBy(adapters, mac, a);
    FindByOwnAddress(adapters, mac, a);
  }

  lemma SendSound(topo: Topology, n: string, mac: string, table: Table)
    requires UniqueAddresses(topo) && IsClient(topo, n, mac)
    requires Tidy(topo.nodes[n].adapters, table) && SoundTable(topo, n, table)
    ensures SoundPacket(topo, Announcement(topo.nodes[n].id, topo.nodes[n].adapters[mac], table))
  {
    var adapter := topo.nodes[n].adapters[mac];
    var a := AddressOf(topo, n, mac);
    var routes := FindRoutes(table, adapter.guid);
    var nodes := Advertised(routes);
    FindRoutesSelects(table, adapter.guid);
    hide FindRoutes, Covers, DistinctIds;
    assert Owns(topo, n, a);
    forall i | 0 <= i < |nodes|
      ensures SoundOffer(topo, n, a, NodeId(nodes[i].identifier, nodes[i].address), nodes[i].jumps)
    {
      var route := routes[i];
      assert Candidate(table, adapter.guid, route);
      SelectedAvoidsSender(topo, n, mac, table, route);
      SelectedIsSound(topo, n, table, adapter.guid, route);
      hide WalkTo;
      var hops: seq<Hop> :| WalkTo(topo, n, hops, route.identifier.node, route.status.jumps)
        && hops[0] == Hop(route.identifier.adapter, route.identifier.reporter);
      assert hops[0].out != a;
    }
    assert SoundOffers(topo, n, a, nodes);
  }

  lemma SelectedIsSound(topo: Topology, n: string, table: Table, outbound: string, route: Route)
    requires SoundTable(topo, n, table) && Candidate(table, outbound, route)
    ensures SoundRoute(topo, n, route.identifier, route.status.jumps)
  {
    hide SoundRoute;
    var g :| g in table && g != outbound && route in table[g];
    var i :| 0 <= i < |table[g]| && table[g][i] == route;
  }

  // ---------------------------------------------------------------- every run

  lemma NextSound(topo: Topology, s: State, step: NetStep)
    requires UniqueAddresses(topo) && SoundState(topo, s) && CanStep(topo, s, step)
    ensures SoundState(topo, Next(topo, s, step))
  {
    hide SoundTable, SoundPacket, Tidy, Step, Announcement, UniqueAddresses;
    match step
    case Send(n, mac) => SendSound(topo, n, mac, s.managers[n].table);
    case Deliver(packet, n, mac, now) =>
      DeliverSound(topo, n, mac, s.managers[n], packet, now);
      StepTidy(topo.nodes[n].adapters, s.managers[n], Arrival(packet, AddressOf(topo, n, mac), now));
    case Drop(packet) =>
    case TickNode(n, now) =>
      TickSound(topo, n, topo.nodes[n].adapters, s.managers[n], now);
      StepTidy(topo.nodes[n].adapters, s.managers[n], Tick(now));
  }

  /**
  Every reachable state: each stored route's jumps are all 256 and as many as
  the hops of a real walk, through its reporter, to the node that owns its id
  and address; so is each route still in flight.
   */
  lemma {:induction false} ReachableIsSound(topo: Topology, steps: seq<NetStep>)
    requires UniqueAddresses(topo) && RunNetwork(topo, steps).Some?
    ensures SoundState(topo, RunNetwork(topo, steps).value)
    decreases |steps|
  {
    if steps != [] {
      hide SoundState, CanStep, Next, UniqueAddresses;
      ReachableIsSound(topo, steps[..|steps| - 1]);
      NextSound(topo, RunNetwork(topo, steps[..|steps| - 1]).value, steps[|steps| - 1]);
    }
  }
}
