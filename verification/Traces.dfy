/**
Runs of the network with the states they pass through, and what they do to one
route of one node: announcements name it, and keep it known and online.
 */
module Traces {
  import opened Types
  import opened AdapterManagers
  import opened Routes
  import opened RouteHistory
  import opened Network
  import opened NetworkBounds
  import opened Walks
  import Messages

  /** A run, with the states it passes through. */
  ghost predicate Trace(topo: Topology, states: seq<State>, steps: seq<NetStep>) {
    && |states| == |steps| + 1 && states[0] == Init(topo)
    && forall k :: 0 <= k < |steps| ==> TraceStep(topo, states[k], steps[k], states[k + 1])
  }

  ghost predicate TraceStep(topo: Topology, s: State, step: NetStep, s': State) {
    CanStep(topo, s, step) && s' == Next(topo, s, step)
  }

  lemma TraceLength(topo: Topology, states: seq<State>, steps: seq<NetStep>)
    requires Trace(topo, states, steps)
    ensures |states| == |steps| + 1
  {}

  lemma {:induction false} TraceIsRun(topo: Topology, states: seq<State>, steps: seq<NetStep>, k: nat)
    requires Trace(topo, states, steps) && k <= |steps|
    ensures RunNetwork(topo, steps[..k]) == Some(states[k])
    decreases k
  {
    hide CanStep, Next;
    if k > 0 {
      TraceIsRun(topo, states, steps, k - 1);
      assert TraceStep(topo, states[k - 1], steps[k - 1], states[k]);
      assert steps[..k][..k - 1] == steps[..k - 1];
    }
  }

  ghost predicate UniqueGuids(topo: Topology) {
    forall n, mac, mac' ::
      && n in topo.nodes && mac in topo.nodes[n].adapters && mac' in topo.nodes[n].adapters
      && topo.nodes[n].adapters[mac].guid == topo.nodes[n].adapters[mac'].guid
      ==> mac == mac'
  }

  function SentAt(topo: Topology, s: State, n: string, mac: string): Packet
    requires IsClient(topo, n, mac) && n in s.managers
  {
    Announcement(topo.nodes[n].id, topo.nodes[n].adapters[mac], s.managers[n].table)
  }

  /** Step i sends an announcement from one end of the link, step j delivers it at the other. */
  ghost predicate Crosses(topo: Topology, states: seq<State>, steps: seq<NetStep>, link: (Address, Address),
                          i: nat, j: nat)
    requires |states| == |steps| + 1
  {
    && i < j < |steps|
    && steps[i].Send? && IsClient(topo, steps[i].node, steps[i].mac)
    && AddressOf(topo, steps[i].node, steps[i].mac) == link.0
    && steps[i].node in states[i].managers
    && steps[j].Deliver? && IsClient(topo, steps[j].node, steps[j].mac)
    && AddressOf(topo, steps[j].node, steps[j].mac) == link.1
    && steps[j].packet == SentAt(topo, states[i], steps[i].node, steps[i].mac)
  }

  lemma CrossingTimes(topo: Topology, states: seq<State>, steps: seq<NetStep>, link: (Address, Address), i: nat, j: nat)
    requires |states| == |steps| + 1 && Crosses(topo, states, steps, link, i, j)
    ensures i < j < |steps|
  {}

  // ---------------------------------------------------------- what is announced

  /** The nodes an announcement names: its sender and those it lists. */
  ghost predicate Names(packet: Packet, node: NodeId) {
    || node == NodeId(packet.identifier, packet.sender)
    || exists k :: 0 <= k < |packet.nodes| && NodeId(packet.nodes[k].identifier, packet.nodes[k].address) == node
  }

  lemma ClientIsFound(topo: Topology, n: string, mac: string)
    requires UniqueAddresses(topo) && IsClient(topo, n, mac)
    ensures FindByAddress(topo.nodes[n].adapters, AddressOf(topo, n, mac)) == Some(topo.nodes[n].adapters[mac])
  {
    var adapters := topo.nodes[n].adapters;
    assert adapters[mac].addresses[0].0 == AddressOf(topo, n, mac);
    assert CarriedBy(adapters, mac, AddressOf(topo, n, mac));
    FindByOwnAddress(adapters, mac, AddressOf(topo, n, mac));
  }

  lemma CandidateIsNamed(topo: Topology, s: State, n: string, mac: string, id: RouteId)
    requires IsClient(topo, n, mac) && n in s.managers
    requires exists r :: Candidate(s.managers[n].table, topo.nodes[n].adapters[mac].guid, r) && r.identifier == id
    ensures Names(SentAt(topo, s, n, mac), id.node)
  {
    var (table, guid) := (s.managers[n].table, topo.nodes[n].adapters[mac].guid);
    var r: Route :| Candidate(table, guid, r) && r.identifier == id;
    var routes := FindRoutes(table, guid);
    assert Covers(routes, r) by { FindRoutesSelects(table, guid); }
    hide FindRoutes, Cost;
    var k :| 0 <= k < |routes| && routes[k].identifier == id && Cost(routes[k]) <= Cost(r);
    ListedIsNamed(routes, k, SentAt(topo, s, n, mac));
  }

  lemma ListedIsNamed(routes: seq<Route>, k: nat, packet: Packet)
    requires packet.nodes == Advertised(routes) && k < |routes|
    ensures Names(packet, routes[k].identifier.node)
  {
    var node := packet.nodes[k];
    assert NodeId(node.identifier, node.address) == routes[k].identifier.node;
  }

  lemma EntryIsCandidate(table: Table, g: string, outbound: string, id: RouteId)
    requires g != outbound && Entry(table, g, id).Some? && Entry(table, g, id).value.status.online
    ensures exists r :: Candidate(table, outbound, r) && r.identifier == id
  {
    var r := table[g][IndexOf(table[g], id)];
    assert r in table[g];
    assert Candidate(table, outbound, r);
  }

  // ------------------------------------------------------- one entry, one message

  /** The guid of the adapter that a node finds for one of its addresses. */
  function Home(topo: Topology, n: string, a: Address): string
    requires n in topo.nodes
  {
    var found := FindByAddress(topo.nodes[n].adapters, a);
    if found.Some? then found.value.guid else ""
  }

  /** A node's entry for a route, in the list where it belongs. */
  function EntryAt(topo: Topology, s: State, n: string, id: RouteId): Option<Route>
    requires n in topo.nodes && n in s.managers
  {
    Entry(s.managers[n].table, Home(topo, n, id.adapter), id)
  }

  /** The route is stored and was heard of after t; with `online`, it is online as well. */
  ghost predicate KnownEntry(entry: Option<Route>, t: Time, online: bool) {
    entry.Some? && entry.value.lastDiscovery > t && (online ==> entry.value.status.online)
  }

  ghost predicate OnlineIfAny(entry: Option<Route>) {
    entry.Some? ==> entry.value.status.online
  }

  lemma {:induction false} NodesKeepKnown(m: Manager, adapter: Adapter, info: NetworkInfo, nodes: seq<Messages.Node>,
                                          g: string, id: RouteId, t: Time, online: bool)
    requires KnownEntry(Entry(m.table, g, id), t, online) && info.receptionTime > t
    ensures KnownEntry(Entry(ProcessNodes(m, adapter, info, nodes).table, g, id), t, online)
    decreases |nodes|
  {
    hide Entry, ProcessRoute;
    if nodes != [] {
      var (named, jumps) := (IndirectId(nodes[0], info), [DIRECT_JUMP] + nodes[0].jumps);
      EntryAfterProcess(m, adapter, info.receptionTime, named, jumps, g, id);
      NodesKeepKnown(ProcessRoute(m, adapter, info.receptionTime, named, jumps), adapter, info, nodes[1..], g, id, t,
                     online);
    }
  }

  lemma {:induction false} NodesMakeKnown(m: Manager, adapter: Adapter, info: NetworkInfo, nodes: seq<Messages.Node>,
                                          id: RouteId, t: Time, online: bool, k: nat)
    requires (online ==> OnlineIfAny(Entry(m.table, adapter.guid, id))) && info.receptionTime > t
    requires k < |nodes| && IndirectId(nodes[k], info) == id
    ensures KnownEntry(Entry(ProcessNodes(m, adapter, info, nodes).table, adapter.guid, id), t, online)
    decreases |nodes|
  {
    hide Entry, ProcessRoute;
    var (named, jumps) := (IndirectId(nodes[0], info), [DIRECT_JUMP] + nodes[0].jumps);
    var next := ProcessRoute(m, adapter, info.receptionTime, named, jumps);
    EntryAfterProcess(m, adapter, info.receptionTime, named, jumps, adapter.guid, id);
    if k == 0 {
      NodesKeepKnown(next, adapter, info, nodes[1..], adapter.guid, id, t, online);
    } else {
      NodesMakeKnown(next, adapter, info, nodes[1..], id, t, online, k - 1);
    }
  }

  lemma {:induction false} NodesLeave(m: Manager, adapter: Adapter, info: NetworkInfo, nodes: seq<Messages.Node>,
                                      g: string, id: RouteId)
    requires forall k :: 0 <= k < |nodes| ==> IndirectId(nodes[k], info) != id
    ensures Entry(ProcessNodes(m, adapter, info, nodes).table, g, id) == Entry(m.table, g, id)
    decreases |nodes|
  {
    hide Entry, ProcessRoute;
    if nodes != [] {
      var (named, jumps) := (IndirectId(nodes[0], info), [DIRECT_JUMP] + nodes[0].jumps);
      EntryAfterProcess(m, adapter, info.receptionTime, named, jumps, g, id);
      NodesLeave(ProcessRoute(m, adapter, info.receptionTime, named, jumps), adapter, info, nodes[1..], g, id);
    }
  }

  /**
  An announcement keeps what is known, makes what it names known (an offline
  route stays offline until the next tick), and leaves everything else alone.
   */
  lemma HeardEntry(adapters: AdapterTable, m: Manager, packet: Packet, receiver: Address, now: Time,
                   g: string, id: RouteId, t: Time, online: bool)
    requires now > t
    ensures var was := Entry(m.table, g, id);
      var next := Entry(Step(adapters, m, Arrival(packet, receiver, now)).table, g, id);
      var found := FindByAddress(adapters, receiver);
      var named := id.adapter == receiver && id.reporter == packet.sender && Names(packet, id.node);
      && (KnownEntry(was, t, online) ==> KnownEntry(next, t, online))
      && (named && found.Some? && found.value.guid == g && (online ==> OnlineIfAny(was)) ==>
            KnownEntry(next, t, online))
      && (!named ==> next == was)
  {
    hide FindByAddress, Entry, ProcessRoute, ProcessNodes;
    var found := FindByAddress(adapters, receiver);
    if found.Some? {
      var info := Arrival(packet, receiver, now).info;
      var sender := SenderId(packet.identifier, info);
      var direct := ProcessRoute(m, found.value, now, sender, [DIRECT_JUMP]);
      var was := Entry(m.table, g, id);
      EntryAfterProcess(m, found.value, now, sender, [DIRECT_JUMP], g, id);
      if KnownEntry(Entry(direct.table, g, id), t, online) {
        NodesKeepKnown(direct, found.value, info, packet.nodes, g, id, t, online);
      }
      var named := id.adapter == receiver && id.reporter == packet.sender && Names(packet, id.node);
      if !named {
        NodesLeave(direct, found.value, info, packet.nodes, g, id);
      } else if found.value.guid == g && (online ==> OnlineIfAny(was)) && id != sender {
        var k :| 0 <= k < |packet.nodes| && NodeId(packet.nodes[k].identifier, packet.nodes[k].address) == id.node;
        NodesMakeKnown(direct, found.value, info, packet.nodes, id, t, online, k);
      }
    }
  }

  /** A tick less than 90 seconds after t brings a known route online. */
  lemma TickEntry(adapters: AdapterTable, m: Manager, now: Time, g: string, id: RouteId, t: Time)
    requires now <= t + TIMEOUT && KnownEntry(Entry(m.table, g, id), t, false)
    ensures KnownEntry(Entry(Step(adapters, m, Tick(now)).table, g, id), t, true)
  {
    hide Entry, UpdateManager;
    EntryAfterTick(m, now, g, id);
  }

  // --------------------------------------------------------------- known routes

  ghost predicate Known(topo: Topology, s: State, n: string, id: RouteId, t: Time, online: bool) {
    n in topo.nodes && n in s.managers && KnownEntry(EntryAt(topo, s, n, id), t, online)
  }

  /** The route is stored, online, and was heard of after t. */
  ghost predicate Held(topo: Topology, s: State, n: string, id: RouteId, t: Time) {
    Known(topo, s, n, id, t, true)
  }

  /** What is heard is later than t, and no clock runs 90 seconds past t. */
  predicate PromptStep(step: NetStep, t: Time) {
    && (step.Deliver? ==> step.now > t)
    && (step.TickNode? ==> step.now <= t + TIMEOUT)
  }

  lemma StepKeepsKnown(topo: Topology, s: State, step: NetStep, n: string, id: RouteId, t: Time, online: bool)
    requires CanStep(topo, s, step) && Known(topo, s, n, id, t, online) && PromptStep(step, t)
    ensures Known(topo, Next(topo, s, step), n, id, t, online || (step.TickNode? && step.node == n))
  {
    hide Entry, Home, Step, Announcement;
    var g := Home(topo, n, id.adapter);
    match step
    case Send(_, _) =>
    case Deliver(packet, m, mac, now) =>
      HeardEntry(topo.nodes[m].adapters, s.managers[m], packet, AddressOf(topo, m, mac), now, g, id, t, online);
    case Drop(_) =>
    case TickNode(m, now) =>
      if m == n {
        TickEntry(topo.nodes[n].adapters, s.managers[n], now, g, id, t);
      }
  }

  ghost predicate PromptSpan(steps: seq<NetStep>, from: nat, to: nat, t: Time)
    requires from <= to <= |steps|
  {
    forall k :: from <= k < to ==> PromptStep(steps[k], t)
  }

  lemma {:induction false} KnownStays(topo: Topology, states: seq<State>, steps: seq<NetStep>, i: nat, j: nat,
                                      n: string, id: RouteId, t: Time, online: bool)
    requires Trace(topo, states, steps) && i <= j <= |steps| && PromptSpan(steps, i, j, t)
    requires Known(topo, states[i], n, id, t, online)
    ensures Known(topo, states[j], n, id, t, online)
    decreases j - i
  {
    hide Known, CanStep, Next, PromptStep;
    if i < j {
      KnownStays(topo, states, steps, i, j - 1, n, id, t, online);
      assert TraceStep(topo, states[j - 1], steps[j - 1], states[j]);
      StepKeepsKnown(topo, states[j - 1], steps[j - 1], n, id, t, online);
      KnownOnline(topo, states[j], n, id, t, online || (steps[j - 1].TickNode? && steps[j - 1].node == n), online);
    }
  }

  lemma KnownOnline(topo: Topology, s: State, n: string, id: RouteId, t: Time, online: bool, less: bool)
    requires Known(topo, s, n, id, t, online) && (less ==> online)
    ensures Known(topo, s, n, id, t, less)
  {}

  /** A tick of the node's own clock on the way brings the route online. */
  lemma KnownRevives(topo: Topology, states: seq<State>, steps: seq<NetStep>, i: nat, k: nat, j: nat,
                     n: string, id: RouteId, t: Time)
    requires Trace(topo, states, steps) && i <= k < j <= |steps| && PromptSpan(steps, i, j, t)
    requires Known(topo, states[i], n, id, t, false) && steps[k].TickNode? && steps[k].node == n
    ensures Held(topo, states[j], n, id, t)
  {
    TraceLength(topo, states, steps);
    assert PromptSpan(steps, i, k, t) && PromptSpan(steps, k + 1, j, t) && PromptStep(steps[k], t);
    assert TraceStep(topo, states[k], steps[k], states[k + 1]);
    hide Trace, Known, CanStep, Next, PromptStep, PromptSpan;
    KnownStays(topo, states, steps, i, k, n, id, t, false);
    StepKeepsKnown(topo, states[k], steps[k], n, id, t, false);
    KnownStays(topo, states, steps, k + 1, j, n, id, t, true);
  }

  /** A held route is announced on every other adapter. */
  lemma HeldIsNamed(topo: Topology, s: State, n: string, mac: string, id: RouteId, t: Time)
    requires UniqueAddresses(topo) && UniqueGuids(topo) && IsClient(topo, n, mac)
    requires Held(topo, s, n, id, t) && Owns(topo, n, id.adapter) && id.adapter != AddressOf(topo, n, mac)
    ensures Names(SentAt(topo, s, n, mac), id.node)
  {
    var own :| IsClient(topo, n, own) && AddressOf(topo, n, own) == id.adapter;
    ClientIsFound(topo, n, own);
    var (g, guid) := (topo.nodes[n].adapters[own].guid, topo.nodes[n].adapters[mac].guid);
    assert g != guid;
    hide FindByAddress, UniqueAddresses, UniqueGuids, Owns;
    EntryIsCandidate(s.managers[n].table, g, guid, id);
    CandidateIsNamed(topo, s, n, mac, id);
  }

  // ------------------------------------------------------------------ crossings

  /** The route that starts with this hop is known. */
  ghost predicate HopKnown(topo: Topology, s: State, n: string, hop: Hop, node: NodeId, t: Time, online: bool) {
    Known(topo, s, n, HopRoute(node, hop), t, online)
  }

  ghost predicate HopHeld(topo: Topology, s: State, n: string, hop: Hop, node: NodeId, t: Time) {
    HopKnown(topo, s, n, hop, node, t, true)
  }

  lemma HeardMakesKnown(adapters: AdapterTable, m: Manager, packet: Packet, receiver: Address, now: Time, node: NodeId,
                        t: Time, t': Time, online: bool)
    requires FindByAddress(adapters, receiver).Some? && Names(packet, node) && now > t'
    requires var (g, id) := (FindByAddress(adapters, receiver).value.guid, RouteId(node, receiver, packet.sender));
      online ==> KnownEntry(Entry(m.table, g, id), t, true)
    ensures var (g, id) := (FindByAddress(adapters, receiver).value.guid, RouteId(node, receiver, packet.sender));
      KnownEntry(Entry(Step(adapters, m, Arrival(packet, receiver, now)).table, g, id), t', online)
  {
    hide FindByAddress, Entry, Names, Step;
    HeardEntry(adapters, m, packet, receiver, now, FindByAddress(adapters, receiver).value.guid,
               RouteId(node, receiver, packet.sender), t', online);
  }

  /** A delivery makes known what it names. */
  lemma DeliveryMakesKnown(topo: Topology, s: State, packet: Packet, n: string, mac: string, now: Time, node: NodeId,
                           t: Time, t': Time, online: bool)
    requires UniqueAddresses(topo) && CanStep(topo, s, Deliver(packet, n, mac, now))
    requires Names(packet, node) && now > t'
    requires online ==> Held(topo, s, n, RouteId(node, AddressOf(topo, n, mac), packet.sender), t)
    ensures var id := RouteId(node, AddressOf(topo, n, mac), packet.sender);
      Known(topo, Next(topo, s, Deliver(packet, n, mac, now)), n, id, t', online)
  {
    var (receiver, adapters) := (AddressOf(topo, n, mac), topo.nodes[n].adapters);
    var m := Step(adapters, s.managers[n], Arrival(packet, receiver, now));
    assert Next(topo, s, Deliver(packet, n, mac, now)).managers[n] == m;
    ClientIsFound(topo, n, mac);
    hide FindByAddress, UniqueAddresses, Entry, Names, Step, KnownEntry, Next, HasClient;
    HeardMakesKnown(adapters, s.managers[n], packet, receiver, now, node, t, t', online);
  }

  /** A crossing makes known what its announcement names, and keeps it online if it was. */
  lemma CrossingMakesKnown(topo: Topology, states: seq<State>, steps: seq<NetStep>, i: nat, j: nat,
                           n: string, hop: Hop, node: NodeId, t: Time, t': Time, online: bool)
    requires UniqueAddresses(topo) && Trace(topo, states, steps)
    requires Crosses(topo, states, steps, (hop.entered, hop.out), i, j) && Owns(topo, n, hop.out)
    requires Names(SentAt(topo, states[i], steps[i].node, steps[i].mac), node)
    requires (online ==> HopHeld(topo, states[j], n, hop, node, t)) && steps[j].now > t'
    ensures HopKnown(topo, states[j + 1], n, hop, node, t', online)
  {
    hide CanStep, Next, Known, Names, UniqueAddresses;
    assert TraceStep(topo, states[j], steps[j], states[j + 1]);
    assert Owns(topo, steps[j].node, hop.out);
    OwnerIsUnique(topo, n, steps[j].node, hop.out);
    DeliveryMakesKnown(topo, states[j], steps[j].packet, n, steps[j].mac, steps[j].now, node, t, t', online);
  }

  /** The node behind a hop announces the route it holds. */
  lemma NextIsNamed(topo: Topology, states: seq<State>, steps: seq<NetStep>, i: nat, j: nat,
                    hop: Hop, m: string, next: Hop, node: NodeId, t: Time)
    requires UniqueAddresses(topo) && UniqueGuids(topo) && |states| == |steps| + 1
    requires Crosses(topo, states, steps, (hop.entered, hop.out), i, j)
    requires Owns(topo, m, hop.entered) && Owns(topo, m, next.out) && next.out != hop.entered
    requires HopHeld(topo, states[i], m, next, node, t)
    ensures Names(SentAt(topo, states[i], steps[i].node, steps[i].mac), node)
  {
    assert Owns(topo, steps[i].node, hop.entered);
    hide UniqueAddresses, UniqueGuids, Owns, Known, Names;
    OwnerIsUnique(topo, m, steps[i].node, hop.entered);
    HeldIsNamed(topo, states[i], m, steps[i].mac, RouteId(node, next.out, next.entered), t);
  }

  /**
  A window of a run: everything heard in it is later than t', and no clock runs
  90 seconds past t.
   */
  predicate LapStep(step: NetStep, t: Time, t': Time) {
    (step.Deliver? ==> step.now > t') && (step.TickNode? ==> step.now <= t + TIMEOUT)
  }

  ghost predicate Window(steps: seq<NetStep>, from: nat, to: nat, t: Time, t': Time) {
    from <= to <= |steps| && t <= t' && forall k :: from <= k < to ==> LapStep(steps[k], t, t')
  }

  lemma WindowSpans(steps: seq<NetStep>, from: nat, to: nat, i: nat, j: nat, t: Time, t': Time)
    requires Window(steps, from, to, t, t') && from <= i <= j <= to
    ensures PromptSpan(steps, i, j, t) && PromptSpan(steps, i, j, t')
    ensures j < to && steps[j].Deliver? ==> steps[j].now > t'
  {
    forall k | i <= k < j ensures PromptStep(steps[k], t) && PromptStep(steps[k], t') {
      assert LapStep(steps[k], t, t');
    }
    assert j < to ==> LapStep(steps[j], t, t');
  }
}
