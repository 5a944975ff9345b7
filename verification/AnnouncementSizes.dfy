/**
How large announcements get: whatever runs, an announcement lists at most as
many routes as adapters times links, with at most as many jumps each. Where that
bound is below the receive capacity, every announcement is heard.
 */
module AnnouncementSizes {
  import opened Routes
  import opened RouteHistory
  import opened Network
  import opened NetworkBounds
  import opened Transmissions
  import opened NetworkHandlers
  import opened Walks
  import opened Traces
  import opened Cycles
  import opened Expiry
  import opened Forgetting
  import Messages

  /** Adapters times links: routes in the whole network, and jumps of any of them. */
  ghost function RouteBound(topo: Topology): nat {
    |ClientAddresses(topo)| * |topo.links|
  }

  /** The packet of an announcement with that many nodes and jumps. */
  ghost function SizeBound(topo: Topology): nat {
    20 + RouteBound(topo) * (8 + 2 * RouteBound(topo))
  }

  lemma {:induction false} NodesSize(nodes: seq<Messages.Node>, jumps: nat)
    requires forall i :: 0 <= i < |nodes| ==> |nodes[i].jumps| <= jumps
    ensures |Messages.EncodeNodes(nodes)| <= |nodes| * (8 + 2 * jumps)
    decreases |nodes|
  {
    if nodes != [] {
      NodesSize(nodes[1..], jumps);
      assert |nodes| * (8 + 2 * jumps) == (|nodes| - 1) * (8 + 2 * jumps) + (8 + 2 * jumps);
    }
  }

  lemma WireSize(packet: Network.Packet)
    ensures Messages.PacketSize(WirePacket(packet)) == 20 + |Messages.EncodeNodes(packet.nodes)|
  {
    var message := WirePacket(packet)[0];
    hide Messages.EncodeNodes;
    assert WirePacket(packet)[1..] == [];
    assert |Messages.EncodeBody(message)| == 4 + |Messages.EncodeNodes(packet.nodes)|;
    hide Messages.EncodeBody;
    assert |Messages.EncodeMessages(WirePacket(packet))| == |Messages.EncodeMessage(message)|;
  }

  lemma AnnouncementSize(packet: Network.Packet, bound: nat)
    requires Small(packet, bound)
    ensures Messages.PacketSize(WirePacket(packet)) <= 20 + bound * (8 + 2 * bound)
  {
    hide Messages.PacketSize, WirePacket;
    NodesSize(packet.nodes, bound);
    WireSize(packet);
    MoreNodes(|packet.nodes|, bound, 8 + 2 * bound);
  }

  lemma MoreNodes(a: nat, b: nat, c: nat)
    requires a <= b
    ensures a * c <= b * c
  {}

  /** At most so many listed nodes, with at most so many jumps each. */
  ghost predicate Small(packet: Network.Packet, bound: nat) {
    |packet.nodes| <= bound && forall i :: 0 <= i < |packet.nodes| ==> |packet.nodes[i].jumps| <= bound
  }

  /** A selection lists no more routes than the table has identifiers. */
  lemma SelectionCount(table: Table, outbound: string)
    ensures |FindRoutes(table, outbound)| <= |IdsOf(table)|
  {
    var routes := FindRoutes(table, outbound);
    FindRoutesSelects(table, outbound);
    DistinctCount(routes);
    hide FindRoutes, Covers, DistinctIds;
    var ids := set r | r in routes :: r.identifier;
    forall id | id in ids ensures id in IdsOf(table) {
      var r :| r in routes && r.identifier == id;
      assert Candidate(table, outbound, r);
    }
    SubsetCard(ids, IdsOf(table));
  }

  lemma TableCount(topo: Topology, s: State, n: string)
    requires UniqueAddresses(topo) && SoundState(topo, s) && n in s.managers
    ensures |IdsOf(s.managers[n].table)| <= |StateIds(s)| <= RouteBound(topo)
  {
    StateIdsBound(topo, s);
    hide IdsOf, UniqueAddresses, SoundState;
    var pair := (id: RouteId) => (n, id);
    InjectionCard(IdsOf(s.managers[n].table), pair, StateIds(s));
  }

  lemma AnnouncementIsSmall(topo: Topology, s: State, n: string, mac: string)
    requires UniqueAddresses(topo) && SoundState(topo, s) && JumpsWithin(s, |StateIds(s)|)
    requires IsClient(topo, n, mac) && n in s.managers
    ensures Small(Announcement(topo.nodes[n].id, topo.nodes[n].adapters[mac], s.managers[n].table), RouteBound(topo))
  {
    hide UniqueAddresses, SoundState, FindRoutes, RouteBound, IdsOf, StateIds;
    var packet := Announcement(topo.nodes[n].id, topo.nodes[n].adapters[mac], s.managers[n].table);
    SelectionCount(s.managers[n].table, topo.nodes[n].adapters[mac].guid);
    TableCount(topo, s, n);
    SendJumps(topo, s, n, mac);
    assert packet in Next(topo, s, Send(n, mac)).inFlight;
  }

  /** What a node announces in a reachable state. */
  lemma AnnouncementFits(topo: Topology, steps: seq<NetStep>, n: string, mac: string)
    requires UniqueAddresses(topo) && RunNetwork(topo, steps).Some?
    requires IsClient(topo, n, mac) && n in RunNetwork(topo, steps).value.managers
    ensures var packet := Announcement(topo.nodes[n].id, topo.nodes[n].adapters[mac],
                                       RunNetwork(topo, steps).value.managers[n].table);
      Messages.PacketSize(WirePacket(packet)) <= SizeBound(topo)
  {
    hide RunNetwork, UniqueAddresses, SoundState, WirePacket, Announcement, JumpsWithin, RouteBound, Small;
    var s := RunNetwork(topo, steps).value;
    ReachableIsSound(topo, steps);
    RunJumps(topo, steps);
    AnnouncementIsSmall(topo, s, n, mac);
    AnnouncementSize(Announcement(topo.nodes[n].id, topo.nodes[n].adapters[mac], s.managers[n].table),
                     RouteBound(topo));
  }

  ghost predicate AllFit(topo: Topology, s: State) {
    forall packet :: packet in s.inFlight ==> Messages.PacketSize(WirePacket(packet)) <= SizeBound(topo)
  }

  /** Everything in flight in any run. */
  lemma {:induction false} EveryAnnouncementFits(topo: Topology, steps: seq<NetStep>)
    requires UniqueAddresses(topo) && RunNetwork(topo, steps).Some?
    ensures AllFit(topo, RunNetwork(topo, steps).value)
    decreases |steps|
  {
    hide UniqueAddresses, Announcement, Step, WirePacket, SizeBound, Messages.PacketSize;
    if steps != [] {
      var (front, last) := (steps[..|steps| - 1], steps[|steps| - 1]);
      EveryAnnouncementFits(topo, front);
      if last.Send? {
        AnnouncementFits(topo, front, last.node, last.mac);
      }
    }
  }

  // --------------------------------------------------------- runs that are heard

  /** Whatever flies in any state of the run fits the receive capacity. */
  ghost predicate Audible(states: seq<State>) {
    forall k :: 0 <= k < |states| ==> AudibleState(states[k])
  }

  ghost predicate AudibleState(s: State) {
    forall packet :: packet in s.inFlight ==> Messages.PacketSize(WirePacket(packet)) <= RECEIVE_SIZE
  }

  lemma SmallRunsAreHeard(topo: Topology, states: seq<State>, steps: seq<NetStep>)
    requires UniqueAddresses(topo) && Trace(topo, states, steps) && SizeBound(topo) <= RECEIVE_SIZE
    ensures Audible(states)
  {
    TraceLength(topo, states, steps);
    hide UniqueAddresses, Trace, SizeBound, WirePacket, Messages.PacketSize, RunNetwork;
    forall k | 0 <= k < |states| ensures AudibleState(states[k]) {
      TraceIsRun(topo, states, steps, k);
      EveryAnnouncementFits(topo, steps[..k]);
    }
  }

  /** In a small network the run around a lingering cycle never sends an announcement too large to be heard. */
  lemma HeardLingeringRun(topo: Topology, node: NodeId, k: nat)
    returns (states: seq<State>, steps: seq<NetStep>, start: nat, epochs: seq<Epoch>)
    requires UniqueAddresses(topo) && UniqueGuids(topo) && Lingers(topo, node) && SizeBound(topo) <= RECEIVE_SIZE
    ensures SilentRun(topo, node, states, steps, start, epochs) && |epochs| == k
    ensures !AllOffline(topo, states[|steps|], node) && Audible(states)
  {
    hide UniqueAddresses, UniqueGuids, AllOffline, AllHeld, LingerCycle, Trace, Epochs, Silent, Audible, SizeBound;
    var nodes, hops :| LingerCycle(topo, node, nodes, hops);
    var t;
    states, steps, start, epochs, t := LingeringRun(topo, node, nodes, hops, k);
    HeldIsNotOffline(topo, states[|steps|], nodes, hops, node, t);
    SmallRunsAreHeard(topo, states, steps);
  }
}
