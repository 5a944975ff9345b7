/**
Announcements around a cycle: the nodes of a cycle keep each other's routes to a
node online for as long as announcements cross it, whether or not the node is
ever heard again.
 */
module Cycles {
  import opened Types
  import opened Routes
  import opened Network
  import opened Walks
  import opened Traces

  /** Every node of the cycle holds the route that starts with its own hop. */
  ghost predicate AllHeld(topo: Topology, s: State, nodes: seq<string>, hops: seq<Hop>, node: NodeId, t: Time)
    requires |nodes| == |hops|
  {
    forall p: nat :: p < |hops| ==> HopHeld(topo, s, nodes[p], hops[p], node, t)
  }

  /** One lap: a window in which an announcement crosses every hop of the cycle. */
  ghost predicate Lap(topo: Topology, states: seq<State>, steps: seq<NetStep>, hops: seq<Hop>,
                      from: nat, to: nat, t: Time, t': Time)
    requires |states| == |steps| + 1
  {
    && Window(steps, from, to, t, t')
    && forall p :: 0 <= p < |hops| ==> LapCrosses(topo, states, steps, hops[p], from, to)
  }

  ghost predicate LapCrosses(topo: Topology, states: seq<State>, steps: seq<NetStep>, hop: Hop, from: nat, to: nat)
    requires |states| == |steps| + 1
  {
    exists i: nat, j: nat :: from <= i && j < to && Crosses(topo, states, steps, (hop.entered, hop.out), i, j)
  }

  /** A crossing in a lap renews one hop's route from the one behind it. */
  lemma CrossingRenews(topo: Topology, states: seq<State>, steps: seq<NetStep>, from: nat, to: nat, i: nat, j: nat,
                       n: string, hop: Hop, m: string, next: Hop, node: NodeId, t: Time, t': Time)
    requires UniqueAddresses(topo) && UniqueGuids(topo) && Trace(topo, states, steps)
    requires CycleHop(topo, n, hop, m, next) && Crosses(topo, states, steps, (hop.entered, hop.out), i, j)
    requires from <= i < j < to && Window(steps, from, to, t, t')
    requires HopHeld(topo, states[from], n, hop, node, t) && HopHeld(topo, states[from], m, next, node, t)
    ensures HopHeld(topo, states[to], n, hop, node, t')
  {
    TraceLength(topo, states, steps);
    WindowSpans(steps, from, to, from, i, t, t');
    WindowSpans(steps, from, to, from, j, t, t');
    WindowSpans(steps, from, to, j + 1, to, t, t');
    assert steps[j].Deliver?;
    hide UniqueAddresses, UniqueGuids, Owns, Known, PromptSpan, Names, Trace, Crosses, LapStep;
    KnownStays(topo, states, steps, from, i, m, HopRoute(node, next), t, true);
    KnownStays(topo, states, steps, from, j, n, HopRoute(node, hop), t, true);
    NextIsNamed(topo, states, steps, i, j, hop, m, next, node, t);
    CrossingMakesKnown(topo, states, steps, i, j, n, hop, node, t, t', true);
    KnownStays(topo, states, steps, j + 1, to, n, HopRoute(node, hop), t', true);
  }

  lemma LapRenewsAll(topo: Topology, states: seq<State>, steps: seq<NetStep>, nodes: seq<string>, hops: seq<Hop>,
                     node: NodeId, from: nat, to: nat, t: Time, t': Time)
    requires UniqueAddresses(topo) && UniqueGuids(topo) && Trace(topo, states, steps)
    requires IsCycle(topo, nodes, hops) && Lap(topo, states, steps, hops, from, to, t, t')
    requires AllHeld(topo, states[from], nodes, hops, node, t)
    ensures AllHeld(topo, states[to], nodes, hops, node, t')
  {
    assert |states| == |steps| + 1;
    hide UniqueAddresses, UniqueGuids, Trace, HopHeld, Crosses, Window;
    forall p: nat | p < |hops| ensures HopHeld(topo, states[to], nodes[p], hops[p], node, t') {
      var q := After(p, |hops|);
      assert CycleHopAt(topo, nodes, hops, p);
      assert LapCrosses(topo, states, steps, hops[p], from, to);
      var i: nat, j: nat :| from <= i && j < to && Crosses(topo, states, steps, (hops[p].entered, hops[p].out), i, j);
      CrossingTimes(topo, states, steps, (hops[p].entered, hops[p].out), i, j);
      assert HopHeld(topo, states[from], nodes[q], hops[q], node, t);
      CrossingRenews(topo, states, steps, from, to, i, j, nodes[p], hops[p], nodes[q], hops[q], node, t, t');
    }
  }

  /** Lap after lap, each from one mark to the next, each no later than its time allows. */
  ghost predicate Laps(topo: Topology, states: seq<State>, steps: seq<NetStep>, hops: seq<Hop>, marks: seq<nat>,
                       times: seq<Time>)
    requires |states| == |steps| + 1
  {
    && |marks| == |times|
    && (forall r :: 0 <= r < |marks| ==> marks[r] <= |steps|)
    && forall r: nat :: r + 1 < |marks| ==> LapAt(topo, states, steps, hops, marks, times, r)
  }

  ghost predicate LapAt(topo: Topology, states: seq<State>, steps: seq<NetStep>, hops: seq<Hop>, marks: seq<nat>,
                        times: seq<Time>, r: nat)
    requires |states| == |steps| + 1 && |marks| == |times| && r + 1 < |marks|
  {
    Lap(topo, states, steps, hops, marks[r], marks[r + 1], times[r], times[r + 1])
  }

  /**
  Around a cycle the routes to a node stay online as long as announcements keep
  crossing it, however late, whether or not the node itself is ever heard again.
   */
  lemma {:induction false} CycleKeepsRoutesOnline(topo: Topology, states: seq<State>, steps: seq<NetStep>,
                                                  nodes: seq<string>, hops: seq<Hop>, node: NodeId, marks: seq<nat>,
                                                  times: seq<Time>, r: nat)
    requires UniqueAddresses(topo) && UniqueGuids(topo) && Trace(topo, states, steps)
    requires IsCycle(topo, nodes, hops) && Laps(topo, states, steps, hops, marks, times) && r < |marks|
    requires AllHeld(topo, states[marks[0]], nodes, hops, node, times[0])
    ensures AllHeld(topo, states[marks[r]], nodes, hops, node, times[r])
    decreases r
  {
    hide UniqueAddresses, UniqueGuids, Trace, IsCycle, AllHeld, Lap, Laps;
    TraceLength(topo, states, steps);
    LapMarks(topo, states, steps, hops, marks, times);
    if r > 0 {
      CycleKeepsRoutesOnline(topo, states, steps, nodes, hops, node, marks, times, r - 1);
      LapOf(topo, states, steps, hops, marks, times, r - 1);
      LapRenewsAll(topo, states, steps, nodes, hops, node, marks[r - 1], marks[r], times[r - 1], times[r]);
    }
  }

  lemma LapMarks(topo: Topology, states: seq<State>, steps: seq<NetStep>, hops: seq<Hop>, marks: seq<nat>,
                 times: seq<Time>)
    requires |states| == |steps| + 1 && Laps(topo, states, steps, hops, marks, times)
    ensures |marks| == |times| && forall r :: 0 <= r < |marks| ==> marks[r] <= |steps|
  {}

  lemma LapOf(topo: Topology, states: seq<State>, steps: seq<NetStep>, hops: seq<Hop>, marks: seq<nat>,
              times: seq<Time>, r: nat)
    requires |states| == |steps| + 1 && Laps(topo, states, steps, hops, marks, times) && r + 1 < |marks|
    ensures |marks| == |times| && marks[r] <= marks[r + 1] <= |steps|
    ensures Lap(topo, states, steps, hops, marks[r], marks[r + 1], times[r], times[r + 1])
  {
    hide LapCrosses, LapStep;
    assert LapAt(topo, states, steps, hops, marks, times, r);
  }
}
