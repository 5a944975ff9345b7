/**
Discovery is complete: once every link has carried an announcement in as many
rounds as there are links, a node stores a route exactly for every walk that
leaves it, and that route is online for as long as rounds go on. Only
consecutive rounds are tied in time.
 */
module Convergence {
  import opened Types
  import opened AdapterManagers
  import opened Routes
  import opened RouteHistory
  import opened Network
  import opened NetworkBounds
  import opened Walks
  import opened Traces
  import Messages

  // ------------------------------------------------ nothing stored is forgotten

  ghost predicate Stored(s: State, n: string, id: RouteId) {
    n in s.managers && id in IdsOf(s.managers[n].table)
  }

  lemma {:induction false} NodesOnlyAdd(m: Manager, adapter: Adapter, info: NetworkInfo, nodes: seq<Messages.Node>)
    ensures IdsOf(m.table) <= IdsOf(ProcessNodes(m, adapter, info, nodes).table)
    decreases |nodes|
  {
    hide IdsOf, ProcessRoute;
    if nodes != [] {
      var (id, jumps) := (IndirectId(nodes[0], info), [DIRECT_JUMP] + nodes[0].jumps);
      IdsOnlyGrow(m, adapter, info.receptionTime, id, jumps);
      NodesOnlyAdd(ProcessRoute(m, adapter, info.receptionTime, id, jumps), adapter, info, nodes[1..]);
    }
  }

  lemma HeardOnlyAdds(adapters: AdapterTable, m: Manager, op: RouteOp)
    requires op.Heard?
    ensures IdsOf(m.table) <= IdsOf(Step(adapters, m, op).table)
  {
    hide IdsOf, ProcessRoute, ProcessNodes, FindByAddress;
    var found := FindByAddress(adapters, op.info.adapter);
    if found.Some? {
      var id := SenderId(op.identifier, op.info);
      IdsOnlyGrow(m, found.value, op.info.receptionTime, id, [DIRECT_JUMP]);
      NodesOnlyAdd(ProcessRoute(m, found.value, op.info.receptionTime, id, [DIRECT_JUMP]), found.value, op.info,
                   op.nodes);
    }
  }

  lemma StepKeepsStored(topo: Topology, s: State, step: NetStep, n: string, id: RouteId)
    requires CanStep(topo, s, step) && Stored(s, n, id)
    ensures Stored(Next(topo, s, step), n, id)
  {
    hide IdsOf, Step, Announcement, Grows;
    match step
    case Send(_, _) =>
    case Deliver(packet, m, mac, now) =>
      HeardOnlyAdds(topo.nodes[m].adapters, s.managers[m], Arrival(packet, AddressOf(topo, m, mac), now));
    case Drop(_) =>
    case TickNode(m, now) =>
      TickGrows(topo.nodes[m].adapters, s.managers[m], now, 0);
      GrowsIds(s.managers[m].table, Step(topo.nodes[m].adapters, s.managers[m], Tick(now)).table, 0);
  }

  lemma {:induction false} StoredStays(topo: Topology, states: seq<State>, steps: seq<NetStep>, i: nat, j: nat,
                                       n: string, id: RouteId)
    requires Trace(topo, states, steps) && i <= j <= |steps| && Stored(states[i], n, id)
    ensures Stored(states[j], n, id)
    decreases j - i
  {
    hide Stored, CanStep, Next;
    if i < j {
      StoredStays(topo, states, steps, i, j - 1, n, id);
      assert TraceStep(topo, states[j - 1], steps[j - 1], states[j]);
      StepKeepsStored(topo, states[j - 1], steps[j - 1], n, id);
    }
  }

  lemma StoredHasWalk(topo: Topology, s: State, n: string, id: RouteId)
    requires SoundState(topo, s) && Stored(s, n, id)
    ensures HasWalk(topo, n, id)
  {
    var table: Table := s.managers[n].table;
    var g, r: Route :| g in table && r in table[g] && r.identifier == id;
    var i :| 0 <= i < |table[g]| && table[g][i] == r;
    assert SoundTable(topo, n, table);
    assert SoundRoute(topo, n, table[g][i].identifier, table[g][i].status.jumps);
    var hops: seq<Hop> :| WalkTo(topo, n, hops, id.node, r.status.jumps) && hops[0] == Hop(id.adapter, id.reporter);
    assert Leads(topo, n, hops, id);
  }

  lemma StoredEntry(table: Table, g: string, id: RouteId)
    requires Entry(table, g, id).Some?
    ensures id in IdsOf(table)
  {
    assert table[g][IndexOf(table[g], id)] in table[g];
  }

  // --------------------------------------------------------------- timed rounds

  /** In the window a fresh announcement crosses the link, and then the receiver's clock ticks. */
  ghost predicate Carries(topo: Topology, states: seq<State>, steps: seq<NetStep>, link: (Address, Address), n: string,
                          from: nat, to: nat)
    requires |states| == |steps| + 1
  {
    exists i: nat, j: nat, k: nat :: from <= i && j < k < to && CrossesThenTicks(topo, states, steps, link, n, i, j, k)
  }

  ghost predicate CrossesThenTicks(topo: Topology, states: seq<State>, steps: seq<NetStep>, link: (Address, Address),
                                   n: string, i: nat, j: nat, k: nat)
    requires |states| == |steps| + 1
  {
    && Crosses(topo, states, steps, link, i, j)
    && j < k < |steps| && steps[k].TickNode? && steps[k].node == n
  }

  /** A window in which every link between two clients carries an announcement. */
  ghost predicate Round(topo: Topology, states: seq<State>, steps: seq<NetStep>, from: nat, to: nat, t: Time, t': Time)
    requires |states| == |steps| + 1
  {
    && Window(steps, from, to, t, t')
    && forall link, n, m :: link in topo.links && Owns(topo, m, link.0) && Owns(topo, n, link.1) ==>
         Carries(topo, states, steps, link, n, from, to)
  }

  /** Round after round, each from one mark to the next, each tied in time to the one before. */
  ghost predicate Rounds(topo: Topology, states: seq<State>, steps: seq<NetStep>, marks: seq<nat>, times: seq<Time>)
    requires |states| == |steps| + 1
  {
    && |marks| == |times|
    && (forall r :: 0 <= r < |marks| ==> marks[r] <= |steps|)
    && forall r: nat :: r + 1 < |marks| ==> RoundAt(topo, states, steps, marks, times, r)
  }

  ghost predicate RoundAt(topo: Topology, states: seq<State>, steps: seq<NetStep>, marks: seq<nat>, times: seq<Time>,
                          r: nat)
    requires |states| == |steps| + 1 && |marks| == |times| && r + 1 < |marks|
  {
    Round(topo, states, steps, marks[r], marks[r + 1], times[r], times[r + 1])
  }

  // ------------------------------------------------------- one round, one more hop

  /** What a crossing announcement names is held at the end of the window. */
  lemma NamedIsHeld(topo: Topology, states: seq<State>, steps: seq<NetStep>, from: nat, to: nat, i: nat, j: nat, k: nat,
                    n: string, hop: Hop, node: NodeId, t: Time, t': Time)
    requires UniqueAddresses(topo) && Trace(topo, states, steps) && Window(steps, from, to, t, t')
    requires from <= i && k < to && CrossesThenTicks(topo, states, steps, (hop.entered, hop.out), n, i, j, k)
    requires Owns(topo, n, hop.out) && Names(SentAt(topo, states[i], steps[i].node, steps[i].mac), node)
    ensures HopHeld(topo, states[to], n, hop, node, t')
  {
    TraceLength(topo, states, steps);
    CrossingTimes(topo, states, steps, (hop.entered, hop.out), i, j);
    assert steps[j].Deliver?;
    WindowSpans(steps, from, to, j, j, t, t');
    WindowSpans(steps, from, to, j + 1, to, t, t');
    hide UniqueAddresses, Trace, Window, Crosses, Owns, Names, Known, PromptSpan;
    CrossingMakesKnown(topo, states, steps, i, j, n, hop, node, t, t', false);
    KnownRevives(topo, states, steps, j + 1, k, to, n, HopRoute(node, hop), t');
  }

  /** The sender of a crossing announces what it holds behind the hop. */
  lemma TailIsNamed(topo: Topology, states: seq<State>, steps: seq<NetStep>, from: nat, to: nat, i: nat, j: nat,
                    m: string, hop: Hop, next: Hop, node: NodeId, t: Time, t': Time)
    requires UniqueAddresses(topo) && UniqueGuids(topo) && Trace(topo, states, steps)
    requires Window(steps, from, to, t, t') && from <= i && j < to
    requires Crosses(topo, states, steps, (hop.entered, hop.out), i, j)
    requires Owns(topo, m, hop.entered) && Owns(topo, m, next.out) && next.out != hop.entered
    requires HopHeld(topo, states[from], m, next, node, t)
    ensures Names(SentAt(topo, states[i], steps[i].node, steps[i].mac), node)
  {
    TraceLength(topo, states, steps);
    CrossingTimes(topo, states, steps, (hop.entered, hop.out), i, j);
    WindowSpans(steps, from, to, from, i, t, t');
    hide UniqueAddresses, UniqueGuids, Trace, Window, Crosses, Owns, Names, Known, PromptSpan;
    KnownStays(topo, states, steps, from, i, m, HopRoute(node, next), t, true);
    NextIsNamed(topo, states, steps, i, j, hop, m, next, node, t);
  }

  /** Every announcement names its sender. */
  lemma SenderIsNamed(topo: Topology, states: seq<State>, steps: seq<NetStep>, i: nat, j: nat, hop: Hop, node: NodeId)
    requires UniqueAddresses(topo) && |states| == |steps| + 1
    requires Crosses(topo, states, steps, (hop.entered, hop.out), i, j)
    requires hop.entered == node.address && OwnedBy(topo, node.id, node.address)
    ensures Names(SentAt(topo, states[i], steps[i].node, steps[i].mac), node)
  {
    assert Owns(topo, steps[i].node, node.address);
    var owner :| Owns(topo, owner, node.address) && topo.nodes[owner].id == node.id;
    OwnerIsUnique(topo, owner, steps[i].node, node.address);
  }

  /** What is behind the first hop of a walk: the node it leads to, or a walk that leads there. */
  ghost predicate Behind(topo: Topology, m: string, hops: seq<Hop>, node: NodeId) {
    && hops != [] && Owns(topo, m, hops[0].entered)
    && if |hops| == 1 then hops[0].entered == node.address && OwnedBy(topo, node.id, node.address)
       else
         && hops[1].out != hops[0].entered && Owns(topo, m, hops[1].out)
         && Leads(topo, m, hops[1..], HopRoute(node, hops[1]))
  }

  lemma LeadsBehind(topo: Topology, n: string, hops: seq<Hop>, id: RouteId) returns (m: string)
    requires Leads(topo, n, hops, id)
    ensures hops != [] && hops[0] == Hop(id.adapter, id.reporter)
    ensures Owns(topo, n, id.adapter) && (id.reporter, id.adapter) in topo.links
    ensures Behind(topo, m, hops, id.node)
  {
    hide Owns, OwnedBy;
    m :| Owns(topo, m, hops[0].entered)
      && (|hops| > 1 ==> hops[1].out != hops[0].entered && IsWalk(topo, m, hops[1..]));
  }

  /** Within one round an announcement crosses the first hop of a walk. */
  lemma HopIsCarried(topo: Topology, states: seq<State>, steps: seq<NetStep>, from: nat, to: nat, t: Time, t': Time,
                     n: string, hop: Hop, m: string) returns (i: nat, j: nat, k: nat)
    requires |states| == |steps| + 1 && Round(topo, states, steps, from, to, t, t')
    requires Owns(topo, n, hop.out) && Owns(topo, m, hop.entered) && (hop.entered, hop.out) in topo.links
    ensures from <= i && j < k < to && CrossesThenTicks(topo, states, steps, (hop.entered, hop.out), n, i, j, k)
  {
    hide Owns, CrossesThenTicks;
    assert Carries(topo, states, steps, (hop.entered, hop.out), n, from, to);
    i, j, k :| from <= i && j < k < to && CrossesThenTicks(topo, states, steps, (hop.entered, hop.out), n, i, j, k);
  }

  /** A round takes a walk whose tail is held at the other end of its first hop to its start. */
  lemma RoundExtends(topo: Topology, states: seq<State>, steps: seq<NetStep>, from: nat, to: nat, n: string, m: string,
                     hops: seq<Hop>, id: RouteId, t: Time, t': Time)
    requires UniqueAddresses(topo) && UniqueGuids(topo) && Trace(topo, states, steps) && |states| == |steps| + 1
    requires Round(topo, states, steps, from, to, t, t') && from <= to <= |steps|
    requires hops != [] && hops[0] == Hop(id.adapter, id.reporter) && Behind(topo, m, hops, id.node)
    requires Owns(topo, n, id.adapter) && (id.reporter, id.adapter) in topo.links
    requires |hops| > 1 ==> Held(topo, states[from], m, HopRoute(id.node, hops[1]), t)
    ensures Held(topo, states[to], n, id, t')
  {
    assert Window(steps, from, to, t, t');
    assert id == HopRoute(id.node, hops[0]);
    hide UniqueAddresses, UniqueGuids, Trace, Window, Round, Owns, OwnedBy, Leads, Names, Known, Crosses;
    var i, j, k := HopIsCarried(topo, states, steps, from, to, t, t', n, hops[0], m);
    if |hops| == 1 {
      SenderIsNamed(topo, states, steps, i, j, hops[0], id.node);
    } else {
      TailIsNamed(topo, states, steps, from, to, i, j, m, hops[0], hops[1], id.node, t, t');
    }
    NamedIsHeld(topo, states, steps, from, to, i, j, k, n, hops[0], id.node, t, t');
  }

  // --------------------------------------------------------------- every round

  /** After r rounds every walk of at most r hops is held where it starts. */
  lemma {:induction false} WalkIsHeld(topo: Topology, states: seq<State>, steps: seq<NetStep>, marks: seq<nat>,
                                      times: seq<Time>, r: nat, n: string, hops: seq<Hop>, id: RouteId)
    requires UniqueAddresses(topo) && UniqueGuids(topo) && Trace(topo, states, steps)
    requires Rounds(topo, states, steps, marks, times) && r < |marks|
    requires Leads(topo, n, hops, id) && |hops| <= r
    ensures Held(topo, states[marks[r]], n, id, times[r])
    decreases r
  {
    TraceLength(topo, states, steps);
    hide UniqueAddresses, UniqueGuids, Trace, Rounds, Round, Leads, Owns, Held;
    var m := LeadsBehind(topo, n, hops, id);
    var s := r - 1;
    RoundOf(topo, states, steps, marks, times, s);
    if |hops| > 1 {
      WalkIsHeld(topo, states, steps, marks, times, s, m, hops[1..], HopRoute(id.node, hops[1]));
    }
    hide Behind;
    RoundExtends(topo, states, steps, marks[s], marks[r], n, m, hops, id, times[s], times[r]);
  }

  lemma RoundOf(topo: Topology, states: seq<State>, steps: seq<NetStep>, marks: seq<nat>, times: seq<Time>, r: nat)
    requires |states| == |steps| + 1 && Rounds(topo, states, steps, marks, times) && r + 1 < |marks|
    ensures |marks| == |times| && marks[r] <= marks[r + 1] <= |steps|
    ensures Round(topo, states, steps, marks[r], marks[r + 1], times[r], times[r + 1])
  {
    hide Carries, LapStep;
    assert RoundAt(topo, states, steps, marks, times, r);
  }

  ghost predicate Online(topo: Topology, s: State, n: string, id: RouteId) {
    && n in topo.nodes && n in s.managers
    && EntryAt(topo, s, n, id).Some? && EntryAt(topo, s, n, id).value.status.online
  }

  /** A walk of at most r hops is online in every state from mark r on, as long as rounds follow each other. */
  lemma {:induction false} WalkStaysOnline(topo: Topology, states: seq<State>, steps: seq<NetStep>, marks: seq<nat>,
                                           times: seq<Time>, r: nat, l: nat, n: string, hops: seq<Hop>, id: RouteId)
    requires UniqueAddresses(topo) && UniqueGuids(topo) && Trace(topo, states, steps)
    requires Rounds(topo, states, steps, marks, times) && r < |marks| && marks[r] <= l <= marks[|marks| - 1]
    requires Leads(topo, n, hops, id) && |hops| <= r
    ensures l < |states| && Online(topo, states[l], n, id)
    decreases |marks| - r
  {
    TraceLength(topo, states, steps);
    MarksInOrder(topo, states, steps, marks, times, r);
    hide UniqueAddresses, UniqueGuids, Trace, Rounds, Leads, Online;
    if r + 1 < |marks| && l > marks[r + 1] {
      WalkStaysOnline(topo, states, steps, marks, times, r + 1, l, n, hops, id);
    } else {
      HeldInRound(topo, states, steps, marks, times, r, l, n, hops, id);
    }
  }

  lemma HeldInRound(topo: Topology, states: seq<State>, steps: seq<NetStep>, marks: seq<nat>, times: seq<Time>,
                    r: nat, l: nat, n: string, hops: seq<Hop>, id: RouteId)
    requires UniqueAddresses(topo) && UniqueGuids(topo) && Trace(topo, states, steps)
    requires Rounds(topo, states, steps, marks, times) && r < |marks| && marks[r] <= l
    requires if r + 1 < |marks| then l <= marks[r + 1] else l == marks[r]
    requires Leads(topo, n, hops, id) && |hops| <= r
    ensures l < |states| && Online(topo, states[l], n, id)
  {
    TraceLength(topo, states, steps);
    MarksInOrder(topo, states, steps, marks, times, r);
    hide UniqueAddresses, UniqueGuids, Trace, Rounds, Leads, Online, Known, PromptSpan, LapStep, Carries;
    WalkIsHeld(topo, states, steps, marks, times, r, n, hops, id);
    if r + 1 < |marks| {
      RoundOf(topo, states, steps, marks, times, r);
      WindowSpans(steps, marks[r], marks[r + 1], marks[r], l, times[r], times[r + 1]);
      KnownStays(topo, states, steps, marks[r], l, n, id, times[r], true);
    }
    HeldIsOnline(topo, states[l], n, id, times[r]);
  }

  lemma HeldIsOnline(topo: Topology, s: State, n: string, id: RouteId, t: Time)
    requires Held(topo, s, n, id, t)
    ensures Online(topo, s, n, id) && Stored(s, n, id)
  {
    StoredEntry(s.managers[n].table, Home(topo, n, id.adapter), id);
  }

  // ---------------------------------------------------------------- the theorem

  lemma WalkEndsOnline(topo: Topology, states: seq<State>, steps: seq<NetStep>, marks: seq<nat>, times: seq<Time>,
                       l: nat, n: string, id: RouteId)
    requires UniqueAddresses(topo) && UniqueGuids(topo) && Trace(topo, states, steps) && HasWalk(topo, n, id)
    requires Rounds(topo, states, steps, marks, times) && |marks| > |topo.links|
    requires marks[|topo.links|] <= l <= marks[|marks| - 1]
    ensures l < |states| && Online(topo, states[l], n, id)
  {
    var hops: seq<Hop> :| Leads(topo, n, hops, id);
    hide UniqueAddresses, UniqueGuids, Trace, OwnedBy, IsWalk, Rounds, Online;
    var short := ShortWalk(topo, n, hops);
    WalkIsNotEmpty(topo, n, short);
    WalkStaysOnline(topo, states, steps, marks, times, |topo.links|, l, n, short, id);
  }

  /**
  Discovery is complete and sound: after as many timed rounds as there are
  links, and whatever happens later, a node stores a route exactly when a walk
  that never turns back leads from it, through that adapter and that reporter,
  to that node; and in every state while rounds go on the route is online.
   */
  lemma DiscoveryIsComplete(topo: Topology, states: seq<State>, steps: seq<NetStep>, marks: seq<nat>, times: seq<Time>,
                            n: string, id: RouteId)
    requires UniqueAddresses(topo) && UniqueGuids(topo) && Trace(topo, states, steps)
    requires Rounds(topo, states, steps, marks, times) && |marks| > |topo.links|
    ensures Stored(states[|steps|], n, id) <==> HasWalk(topo, n, id)
    ensures HasWalk(topo, n, id) ==>
      forall l :: marks[|topo.links|] <= l <= marks[|marks| - 1] ==> Online(topo, states[l], n, id)
  {
    TraceLength(topo, states, steps);
    MarksInOrder(topo, states, steps, marks, times, |topo.links|);
    if Stored(states[|steps|], n, id) {
      TraceIsRun(topo, states, steps, |steps|);
      assert steps[..|steps|] == steps;
      ReachableIsSound(topo, steps);
      hide UniqueAddresses, Stored, SoundState;
      StoredHasWalk(topo, states[|steps|], n, id);
    }
    if HasWalk(topo, n, id) {
      hide UniqueAddresses, UniqueGuids, Trace, HasWalk, Rounds, Online, Stored;
      forall l | marks[|topo.links|] <= l <= marks[|marks| - 1] ensures Online(topo, states[l], n, id) {
        WalkEndsOnline(topo, states, steps, marks, times, l, n, id);
      }
      var last := marks[|marks| - 1];
      OnlineIsStored(topo, states[last], n, id);
      StoredStays(topo, states, steps, last, |steps|, n, id);
    }
  }

  lemma OnlineIsStored(topo: Topology, s: State, n: string, id: RouteId)
    requires Online(topo, s, n, id)
    ensures Stored(s, n, id)
  {
    StoredEntry(s.managers[n].table, Home(topo, n, id.adapter), id);
  }

  lemma {:induction false} MarksInOrder(topo: Topology, states: seq<State>, steps: seq<NetStep>, marks: seq<nat>,
                                        times: seq<Time>, r: nat)
    requires |states| == |steps| + 1 && Rounds(topo, states, steps, marks, times) && r < |marks|
    ensures marks[r] <= marks[|marks| - 1] <= |steps|
    decreases |marks| - r
  {
    if r + 1 < |marks| {
      RoundOf(topo, states, steps, marks, times, r);
      MarksInOrder(topo, states, steps, marks, times, r + 1);
    }
  }
}
