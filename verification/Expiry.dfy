/**
What becomes of the routes to a node that has gone silent where no straight walk
to it is longer than r hops: after r epochs they are offline everywhere. Where
nothing lingers the number of links is such an r.
 */
module Expiry {
  import opened Types
  import opened AdapterManagers
  import opened Routes
  import opened RouteHistory
  import opened Network
  import opened NetworkBounds
  import opened Walks
  import opened Traces
  import opened Convergence
  import Messages

  // ------------------------------------------------------- routes that grow old

  /** Not heard of after u, and nothing else that would keep it online. */
  ghost predicate OldEntry(entry: Option<Route>, u: Time) {
    entry.Some? ==>
      && entry.value.lastDiscovery <= u
      && entry.value.lastDataMessage == MIN_TIME && !entry.value.status.persistent
  }

  lemma {:induction false} NodesKeepOld(m: Manager, adapter: Adapter, info: NetworkInfo, nodes: seq<Messages.Node>,
                                        g: string, id: RouteId, u: Time)
    requires OldEntry(Entry(m.table, g, id), u) && info.receptionTime <= u
    ensures OldEntry(Entry(ProcessNodes(m, adapter, info, nodes).table, g, id), u)
    decreases |nodes|
  {
    hide Entry, ProcessRoute;
    if nodes != [] {
      var (named, jumps) := (IndirectId(nodes[0], info), [DIRECT_JUMP] + nodes[0].jumps);
      EntryAfterProcess(m, adapter, info.receptionTime, named, jumps, g, id);
      NodesKeepOld(ProcessRoute(m, adapter, info.receptionTime, named, jumps), adapter, info, nodes[1..], g, id, u);
    }
  }

  lemma HeardKeepsOld(adapters: AdapterTable, m: Manager, op: RouteOp, g: string, id: RouteId, u: Time)
    requires op.Heard? && OldEntry(Entry(m.table, g, id), u) && op.info.receptionTime <= u
    ensures OldEntry(Entry(Step(adapters, m, op).table, g, id), u)
  {
    hide FindByAddress, Entry, ProcessRoute, ProcessNodes;
    var found := FindByAddress(adapters, op.info.adapter);
    if found.Some? {
      var sender := SenderId(op.identifier, op.info);
      EntryAfterProcess(m, found.value, op.info.receptionTime, sender, [DIRECT_JUMP], g, id);
      NodesKeepOld(ProcessRoute(m, found.value, op.info.receptionTime, sender, [DIRECT_JUMP]), found.value, op.info,
                   op.nodes, g, id, u);
    }
  }

  lemma TickKeepsOld(adapters: AdapterTable, m: Manager, now: Time, g: string, id: RouteId, u: Time)
    requires OldEntry(Entry(m.table, g, id), u)
    ensures var next := Entry(Step(adapters, m, Tick(now)).table, g, id);
      OldEntry(next, u) && (now >= u + TIMEOUT && u >= MIN_TIME && next.Some? ==> !next.value.status.online)
  {
    hide Entry, UpdateManager;
    EntryAfterTick(m, now, g, id);
  }

  ghost predicate Old(topo: Topology, s: State, n: string, id: RouteId, u: Time) {
    n in topo.nodes && n in s.managers && OldEntry(EntryAt(topo, s, n, id), u)
  }

  ghost predicate Offline(topo: Topology, s: State, n: string, id: RouteId) {
    n in topo.nodes && n in s.managers
      && (EntryAt(topo, s, n, id).Some? ==> !EntryAt(topo, s, n, id).value.status.online)
  }

  /** The step delivers an announcement that names this very route. */
  ghost predicate NamesRoute(topo: Topology, step: NetStep, n: string, id: RouteId) {
    && step.Deliver? && step.node == n && IsClient(topo, n, step.mac)
    && id.adapter == AddressOf(topo, n, step.mac) && id.reporter == step.packet.sender && Names(step.packet, id.node)
  }

  /** A step keeps a route old if it is an early one, or does not name it. */
  lemma StepKeepsOld(topo: Topology, s: State, step: NetStep, n: string, id: RouteId, u: Time)
    requires CanStep(topo, s, step) && Old(topo, s, n, id, u)
    requires NamesRoute(topo, step, n, id) ==> step.now <= u
    ensures Old(topo, Next(topo, s, step), n, id, u)
    ensures Offline(topo, s, n, id) && !NamesRoute(topo, step, n, id)
      && (step.TickNode? && step.node == n ==> step.now >= u + TIMEOUT && u >= MIN_TIME)
      ==> Offline(topo, Next(topo, s, step), n, id)
    ensures step.TickNode? && step.node == n && step.now >= u + TIMEOUT && u >= MIN_TIME
      ==> Offline(topo, Next(topo, s, step), n, id)
  {
    hide Entry, Home, Step, Announcement, Names;
    var g := Home(topo, n, id.adapter);
    match step
    case Send(_, _) =>
    case Deliver(packet, m, mac, now) =>
      if m == n {
        var (adapters, receiver) := (topo.nodes[n].adapters, AddressOf(topo, n, mac));
        if NamesRoute(topo, step, n, id) {
          HeardKeepsOld(adapters, s.managers[n], Arrival(packet, receiver, now), g, id, u);
        } else {
          HeardEntry(adapters, s.managers[n], packet, receiver, now, g, id, now - 1, false);
        }
      }
    case Drop(_) =>
    case TickNode(m, now) =>
      if m == n {
        TickKeepsOld(topo.nodes[n].adapters, s.managers[n], now, g, id, u);
      }
  }

  // ---------------------------------------------------------------- a silent node

  /** From this step on nobody hears the node itself. */
  ghost predicate Silent(steps: seq<NetStep>, start: nat, node: NodeId) {
    forall k :: start <= k < |steps| ==> NotFrom(steps[k], node)
  }

  predicate NotFrom(step: NetStep, node: NodeId) {
    step.Deliver? ==> NodeId(step.packet.identifier, step.packet.sender) != node
  }

  /**
  Three moments and a time: what is delivered after `settled` was sent after
  `start`; what was delivered before `settled` came no later than `heard`; and
  between `settled` and `end` the clock of every node passes `heard` by 90
  seconds, for good.
   */
  datatype Epoch = Epoch(start: nat, settled: nat, end: nat, heard: Time)

  ghost predicate IsEpoch(topo: Topology, states: seq<State>, steps: seq<NetStep>, e: Epoch)
    requires |states| == |steps| + 1
  {
    && e.start <= e.settled <= e.end <= |steps| && e.heard >= MIN_TIME
    && (forall j :: e.settled <= j < |steps| && steps[j].Deliver? ==> SentSince(topo, states, steps, e.start, j))
    && (forall j :: 0 <= j < e.settled && steps[j].Deliver? ==> steps[j].now <= e.heard)
    && forall n :: n in topo.nodes ==> ClockPasses(steps, n, e)
  }

  /** The packet step j delivers is what some step i sent, no earlier than `start`. */
  ghost predicate SentSince(topo: Topology, states: seq<State>, steps: seq<NetStep>, start: nat, j: nat)
    requires |states| == |steps| + 1 && j < |steps|
  {
    exists i: nat :: start <= i < j && SentAs(topo, states, steps, i, j)
  }

  ghost predicate SentAs(topo: Topology, states: seq<State>, steps: seq<NetStep>, i: nat, j: nat)
    requires |states| == |steps| + 1 && i < j < |steps|
  {
    && steps[i].Send? && IsClient(topo, steps[i].node, steps[i].mac) && steps[i].node in states[i].managers
    && steps[j].Deliver? && steps[j].packet == SentAt(topo, states[i], steps[i].node, steps[i].mac)
  }

  ghost predicate ClockPasses(steps: seq<NetStep>, n: string, e: Epoch) {
    exists k :: 0 <= e.settled <= k < e.end && k < |steps| && steps[k].TickNode? && steps[k].node == n
      && LateFrom(steps, n, k, e.heard)
  }

  ghost predicate LateFrom(steps: seq<NetStep>, n: string, k: nat, u: Time) {
    forall l :: k <= l < |steps| && steps[l].TickNode? && steps[l].node == n ==> steps[l].now >= u + TIMEOUT
  }

  /** From this state on the routes to the node with straight walks of at most r hops only are offline everywhere. */
  ghost predicate DeadFrom(topo: Topology, states: seq<State>, k: nat, node: NodeId, r: nat) {
    forall l, n, id: RouteId :: k <= l < |states| && n in topo.nodes && id.node == node && Shallow(topo, n, id, r) ==>
      Offline(topo, states[l], n, id)
  }

  ghost predicate AnnouncedFor(topo: Topology, s: State, m: string, mac: string, node: NodeId, id: RouteId)
    requires IsClient(topo, m, mac)
  {
    id.node == node && id.adapter != AddressOf(topo, m, mac) && !Offline(topo, s, m, id)
  }

  lemma CandidateEntry(adapters: AdapterTable, table: Table, outbound: string, route: Route)
    requires Tidy(adapters, table) && Candidate(table, outbound, route)
    ensures route.status.online
    ensures var home := FindByAddress(adapters, route.identifier.adapter);
      home.Some? && Entry(table, home.value.guid, route.identifier) == Some(route)
  {
    hide FindByAddress, Tidy, Entry;
    var g :| g in table && g != outbound && route in table[g] && route.status.online;
    var i :| 0 <= i < |table[g]| && table[g][i] == route;
    OccurrenceIsEntry(adapters, table, g, i);
  }

  lemma CandidateIsOnline(topo: Topology, s: State, m: string, mac: string, route: Route)
    requires UniqueAddresses(topo) && IsClient(topo, m, mac) && m in s.managers
    requires Tidy(topo.nodes[m].adapters, s.managers[m].table)
    requires Candidate(s.managers[m].table, topo.nodes[m].adapters[mac].guid, route)
    ensures AnnouncedFor(topo, s, m, mac, route.identifier.node, route.identifier)
  {
    hide FindByAddress, UniqueAddresses, Tidy, Entry, Candidate;
    var (adapters, table) := (topo.nodes[m].adapters, s.managers[m].table);
    SelectedAvoidsSender(topo, m, mac, table, route);
    CandidateEntry(adapters, table, adapters[mac].guid, route);
  }

  /** A route a node announces is one it holds online, and does not start where it is announced. */
  lemma AnnouncedIsOnline(topo: Topology, s: State, m: string, mac: string, k: nat)
    requires UniqueAddresses(topo) && IsClient(topo, m, mac) && m in s.managers
    requires Tidy(topo.nodes[m].adapters, s.managers[m].table)
    requires k < |SentAt(topo, s, m, mac).nodes|
    ensures var listed := SentAt(topo, s, m, mac).nodes[k];
      exists id :: AnnouncedFor(topo, s, m, mac, NodeId(listed.identifier, listed.address), id)
  {
    var (table, guid) := (s.managers[m].table, topo.nodes[m].adapters[mac].guid);
    var routes := FindRoutes(table, guid);
    var nodes := SentAt(topo, s, m, mac).nodes;
    assert nodes == Advertised(routes);
    assert Candidate(table, guid, routes[k]) by { FindRoutesSelects(table, guid); }
    hide FindRoutes, UniqueAddresses, Tidy, Candidate, AnnouncedFor;
    CandidateIsOnline(topo, s, m, mac, routes[k]);
    assert NodeId(nodes[k].identifier, nodes[k].address) == routes[k].identifier.node;
  }

  /** Once the shorter routes are dead and their last announcements delivered, nothing names a route again. */
  lemma NothingNames(topo: Topology, states: seq<State>, steps: seq<NetStep>, e: Epoch, r: nat, j: nat,
                     n: string, id: RouteId)
    requires UniqueAddresses(topo) && Trace(topo, states, steps) && IsEpoch(topo, states, steps, e)
    requires r > 0 && Silent(steps, e.start, id.node) && DeadFrom(topo, states, e.start, id.node, r - 1)
    requires e.settled <= j < |steps| && Shallow(topo, n, id, r)
    ensures !NamesRoute(topo, steps[j], n, id)
  {
    if NamesRoute(topo, steps[j], n, id) {
      assert TraceStep(topo, states[j], steps[j], states[j + 1]);
      assert SentSince(topo, states, steps, e.start, j);
      var i: nat :| e.start <= i < j && SentAs(topo, states, steps, i, j);
      assert NotFrom(steps[j], id.node);
      var (m, mac, packet) := (steps[i].node, steps[i].mac, steps[j].packet);
      var k :| 0 <= k < |packet.nodes| && NodeId(packet.nodes[k].identifier, packet.nodes[k].address) == id.node;
      assert Owns(topo, n, id.adapter) && Owns(topo, m, id.reporter);
      TraceIsRun(topo, states, steps, i);
      ReachableIsSound(topo, steps[..i]);
      hide UniqueAddresses, Trace, IsEpoch, SentSince, SoundTable, SoundPacket, Tidy, Shallow, Owns;
      AnnouncedIsOnline(topo, states[i], m, mac, k);
      var next: RouteId :| AnnouncedFor(topo, states[i], m, mac, id.node, next);
      if id.reporter == id.node.address {
        OnlineIsOwned(topo, states[i], m, next, m);
      } else {
        ShallowNext(topo, n, id, m, next, r);
      }
      assert false;
    }
  }

  /** Only the owner of an address announces there, and only an owned node has routes. */
  lemma OnlineIsOwned(topo: Topology, s: State, n: string, id: RouteId, m: string)
    requires UniqueAddresses(topo) && SoundState(topo, s) && n in s.managers && n in topo.nodes
    requires !Offline(topo, s, n, id) && Owns(topo, m, id.node.address)
    ensures topo.nodes[m].id == id.node.id
  {
    hide UniqueAddresses, SoundTable, SoundPacket, Tidy, Home;
    StoredEntry(s.managers[n].table, Home(topo, n, id.adapter), id);
    hide SoundState;
    StoredHasWalk(topo, s, n, id);
    var hops: seq<Hop> :| Leads(topo, n, hops, id);
    var owner :| Owns(topo, owner, id.node.address) && topo.nodes[owner].id == id.node.id;
    OwnerIsUnique(topo, owner, m, id.node.address);
  }

  /** Early steps come early enough, and late ones do not name the route. */
  ghost predicate GrowsOld(topo: Topology, steps: seq<NetStep>, n: string, id: RouteId, u: Time) {
    forall l :: 0 <= l < |steps| && NamesRoute(topo, steps[l], n, id) ==> steps[l].now <= u
  }

  lemma {:induction false} OldThroughout(topo: Topology, states: seq<State>, steps: seq<NetStep>, j: nat,
                                         n: string, id: RouteId, u: Time)
    requires Trace(topo, states, steps) && j <= |steps| && n in topo.nodes && GrowsOld(topo, steps, n, id, u)
    ensures Old(topo, states[j], n, id, u)
    decreases j
  {
    hide CanStep, Next, Home, NamesRoute;
    if j > 0 {
      hide Old;
      OldThroughout(topo, states, steps, j - 1, n, id, u);
      assert TraceStep(topo, states[j - 1], steps[j - 1], states[j]);
      StepKeepsOld(topo, states[j - 1], steps[j - 1], n, id, u);
    }
  }

  /** From step k, a late tick of its node, on: no early tick, and nothing that names the route. */
  ghost predicate RunsOut(topo: Topology, steps: seq<NetStep>, k: nat, n: string, id: RouteId, u: Time) {
    && k < |steps| && steps[k].TickNode? && steps[k].node == n && LateFrom(steps, n, k, u) && u >= MIN_TIME
    && (forall l :: k <= l < |steps| ==> !NamesRoute(topo, steps[l], n, id))
  }

  lemma RunsOutAt(topo: Topology, steps: seq<NetStep>, k: nat, j: nat, n: string, id: RouteId, u: Time)
    requires RunsOut(topo, steps, k, n, id, u) && k <= j < |steps|
    ensures !NamesRoute(topo, steps[j], n, id) && u >= MIN_TIME
    ensures steps[j].TickNode? && steps[j].node == n ==> steps[j].now >= u + TIMEOUT
    ensures j == k ==> steps[j].TickNode? && steps[j].node == n
  {
    hide NamesRoute;
  }

  lemma StaysOffline(topo: Topology, s: State, step: NetStep, s': State, n: string, id: RouteId, u: Time)
    requires TraceStep(topo, s, step, s') && Old(topo, s, n, id, u) && u >= MIN_TIME
    requires !NamesRoute(topo, step, n, id)
    requires step.TickNode? && step.node == n ==> step.now >= u + TIMEOUT
    requires Offline(topo, s, n, id) || (step.TickNode? && step.node == n)
    ensures Offline(topo, s', n, id)
  {
    hide CanStep, Next, Old, Offline, NamesRoute;
    StepKeepsOld(topo, s, step, n, id, u);
  }

  /** An old route that nothing names goes offline with the tick of its clock, and stays offline. */
  lemma {:induction false} OfflineThroughout(topo: Topology, states: seq<State>, steps: seq<NetStep>, k: nat, j: nat,
                                             n: string, id: RouteId, u: Time)
    requires Trace(topo, states, steps) && k < j <= |steps| && n in topo.nodes
    requires GrowsOld(topo, steps, n, id, u) && RunsOut(topo, steps, k, n, id, u)
    ensures Offline(topo, states[j], n, id)
    decreases j
  {
    var i := j - 1;
    TraceLength(topo, states, steps);
    assert TraceStep(topo, states[i], steps[i], states[j]);
    hide Trace, TraceStep, Old, Offline, NamesRoute, GrowsOld, RunsOut;
    if k < i {
      OfflineThroughout(topo, states, steps, k, i, n, id, u);
    }
    RunsOutAt(topo, steps, k, i, n, id, u);
    OldThroughout(topo, states, steps, i, n, id, u);
    StaysOffline(topo, states[i], steps[i], states[j], n, id, u);
  }

  /** One epoch later the routes of one more hop are dead. */
  lemma EpochExpires(topo: Topology, states: seq<State>, steps: seq<NetStep>, e: Epoch, node: NodeId, r: nat)
    requires UniqueAddresses(topo) && Trace(topo, states, steps) && IsEpoch(topo, states, steps, e)
    requires r > 0 && Silent(steps, e.start, node) && DeadFrom(topo, states, e.start, node, r - 1)
    ensures DeadFrom(topo, states, e.end, node, r)
  {
    forall j, n, id: RouteId
      | e.end <= j < |states| && n in topo.nodes && id.node == node && Shallow(topo, n, id, r)
      ensures Offline(topo, states[j], n, id)
    {
      assert ClockPasses(steps, n, e);
      var k: nat :| e.settled <= k < e.end && steps[k].TickNode? && steps[k].node == n
        && LateFrom(steps, n, k, e.heard);
      hide UniqueAddresses, Trace, Silent, DeadFrom, Shallow, Offline, NamesRoute, SentSince, ClockPasses, LateFrom;
      forall l | e.settled <= l < |steps| ensures !NamesRoute(topo, steps[l], n, id) {
        NothingNames(topo, states, steps, e, r, l, n, id);
      }
      assert GrowsOld(topo, steps, n, id, e.heard) && RunsOut(topo, steps, k, n, id, e.heard);
      OfflineThroughout(topo, states, steps, k, j, n, id, e.heard);
    }
  }

  /** One epoch after the other, none before `start`. */
  ghost predicate Epochs(topo: Topology, states: seq<State>, steps: seq<NetStep>, start: nat, epochs: seq<Epoch>)
    requires |states| == |steps| + 1
  {
    forall r: nat :: r < |epochs| ==> EpochAt(topo, states, steps, start, epochs, r)
  }

  ghost predicate EpochAt(topo: Topology, states: seq<State>, steps: seq<NetStep>, start: nat, epochs: seq<Epoch>,
                          r: nat)
    requires |states| == |steps| + 1 && r < |epochs|
  {
    IsEpoch(topo, states, steps, epochs[r]) && start <= epochs[r].start && EndOf(start, epochs, r) <= epochs[r].start
  }

  /** When the first r epochs are over. */
  function EndOf(start: nat, epochs: seq<Epoch>, r: nat): nat
    requires r <= |epochs|
  {
    if r == 0 then start else epochs[r - 1].end
  }

  lemma NoWalksDead(topo: Topology, states: seq<State>, steps: seq<NetStep>, k: nat, node: NodeId)
    requires UniqueAddresses(topo) && Trace(topo, states, steps)
    ensures DeadFrom(topo, states, k, node, 0)
  {
    forall l, n, id: RouteId
      | k <= l < |states| && n in topo.nodes && id.node == node && Shallow(topo, n, id, 0)
      ensures Offline(topo, states[l], n, id)
    {
      TraceIsRun(topo, states, steps, l);
      ReachableIsSound(topo, steps[..l]);
      hide UniqueAddresses, SoundTable, SoundPacket, Tidy, Home;
      if !Offline(topo, states[l], n, id) {
        StoredEntry(states[l].managers[n].table, Home(topo, n, id.adapter), id);
        StoredHasWalk(topo, states[l], n, id);
        HasStraightWalk(topo, n, id);
        assert false;
      }
    }
  }

  lemma DeadLater(topo: Topology, states: seq<State>, k: nat, later: nat, node: NodeId, r: nat)
    requires DeadFrom(topo, states, k, node, r) && k <= later
    ensures DeadFrom(topo, states, later, node, r)
  {
    hide Shallow, Offline;
  }

  lemma SilentLater(steps: seq<NetStep>, start: nat, later: nat, node: NodeId)
    requires Silent(steps, start, node) && start <= later
    ensures Silent(steps, later, node)
  {
    hide NotFrom;
  }

  /**
  After r epochs of silence the routes to the node that no straight walk of more
  than r hops stands for are offline everywhere, and stay so.
   */
  lemma {:induction false} SilentNodeExpires(topo: Topology, states: seq<State>, steps: seq<NetStep>, start: nat,
                                             epochs: seq<Epoch>, node: NodeId, r: nat)
    requires UniqueAddresses(topo) && Trace(topo, states, steps) && Epochs(topo, states, steps, start, epochs)
    requires r <= |epochs| && Silent(steps, start, node)
    ensures DeadFrom(topo, states, EndOf(start, epochs, r), node, r)
    decreases r
  {
    TraceLength(topo, states, steps);
    hide UniqueAddresses, Trace, IsEpoch, DeadFrom, Silent, EndOf;
    if r == 0 {
      NoWalksDead(topo, states, steps, EndOf(start, epochs, 0), node);
    } else {
      var (e, before) := (epochs[r - 1], EndOf(start, epochs, r - 1));
      assert EpochAt(topo, states, steps, start, epochs, r - 1);
      hide Epochs, EpochAt;
      SilentNodeExpires(topo, states, steps, start, epochs, node, r - 1);
      NextEpochExpires(topo, states, steps, e, node, before, start, r);
      EndOfLast(start, epochs, r);
    }
  }

  lemma EndOfLast(start: nat, epochs: seq<Epoch>, r: nat)
    requires 0 < r <= |epochs|
    ensures EndOf(start, epochs, r) == epochs[r - 1].end
  {}

  lemma NextEpochExpires(topo: Topology, states: seq<State>, steps: seq<NetStep>, e: Epoch, node: NodeId,
                         before: nat, start: nat, r: nat)
    requires UniqueAddresses(topo) && Trace(topo, states, steps) && IsEpoch(topo, states, steps, e)
    requires start <= e.start && Silent(steps, start, node)
    requires r > 0 && before <= e.start && DeadFrom(topo, states, before, node, r - 1)
    ensures DeadFrom(topo, states, e.end, node, r)
  {
    TraceLength(topo, states, steps);
    hide UniqueAddresses, Trace, IsEpoch, DeadFrom, Silent;
    DeadLater(topo, states, before, e.start, node, r - 1);
    SilentLater(steps, start, e.start, node);
    EpochExpires(topo, states, steps, e, node, r);
  }

  // --------------------------------------------------------- without lingering

  ghost predicate AllOffline(topo: Topology, s: State, node: NodeId) {
    forall n, id: RouteId :: n in topo.nodes && id.node == node ==> Offline(topo, s, n, id)
  }

  /** Where no cycle keeps its routes going, every route to a silent node goes offline for good. */
  lemma ForgottenUnlessLingering(topo: Topology, states: seq<State>, steps: seq<NetStep>, start: nat,
                                 epochs: seq<Epoch>, node: NodeId, l: nat)
    requires UniqueAddresses(topo) && Trace(topo, states, steps) && Epochs(topo, states, steps, start, epochs)
    requires !Lingers(topo, node) && |epochs| >= |topo.links| && Silent(steps, start, node)
    requires EndOf(start, epochs, |topo.links|) <= l < |states|
    ensures AllOffline(topo, states[l], node)
  {
    hide UniqueAddresses, Trace, Epochs, Silent, Offline, Shallow, Lingers;
    SilentNodeExpires(topo, states, steps, start, epochs, node, |topo.links|);
    forall n, id: RouteId | n in topo.nodes && id.node == node ensures Offline(topo, states[l], n, id) {
      WithoutLingeringShallow(topo, n, id);
    }
  }
}
