/**
Walks over a topology: the places a route can stand for, how far a walk can be
cut short, and the cycles a walk can go around.
 */
module Walks {
  import opened Types
  import opened Routes
  import opened Network
  import opened NetworkBounds

  // ----------------------------------------------------------------- the walks

  /** The place a route identifier stands for, if some walk leads there. */
  ghost predicate Leads(topo: Topology, n: string, hops: seq<Hop>, id: RouteId) {
    && IsWalk(topo, n, hops)
    && hops[0] == Hop(id.adapter, id.reporter)
    && hops[|hops| - 1].entered == id.node.address
    && OwnedBy(topo, id.node.id, id.node.address)
  }

  ghost predicate HasWalk(topo: Topology, n: string, id: RouteId) {
    exists hops: seq<Hop> :: Leads(topo, n, hops, id)
  }

  /** The rest of a walk is a walk, from a node the walk passes through. */
  lemma {:induction false} SuffixWalk(topo: Topology, n: string, hops: seq<Hop>, j: nat) returns (m: string)
    requires IsWalk(topo, n, hops) && j < |hops|
    ensures IsWalk(topo, m, hops[j..]) && Owns(topo, m, hops[j].out)
    decreases j
  {
    hide Owns;
    if j == 0 {
      m := n;
      assert hops[0..] == hops;
    } else {
      var next :| Owns(topo, next, hops[0].entered) && IsWalk(topo, next, hops[1..]);
      m := SuffixWalk(topo, next, hops[1..], j - 1);
      assert hops[1..][j - 1..] == hops[j..];
    }
  }

  /** A walk that takes one hop twice can leave out everything in between. */
  lemma {:induction false} CutWalk(topo: Topology, n: string, hops: seq<Hop>, i: nat, j: nat)
    requires UniqueAddresses(topo) && IsWalk(topo, n, hops)
    requires i < j < |hops| && hops[i] == hops[j]
    ensures IsWalk(topo, n, hops[..i] + hops[j..])
    decreases i
  {
    hide Owns, UniqueAddresses;
    if i == 0 {
      var m := SuffixWalk(topo, n, hops, j);
      OwnerIsUnique(topo, n, m, hops[0].out);
      assert hops[..0] + hops[j..] == hops[j..];
    } else {
      var next :| Owns(topo, next, hops[0].entered) && IsWalk(topo, next, hops[1..]);
      var cut := hops[..i] + hops[j..];
      CutWalk(topo, next, hops[1..], i - 1, j - 1);
      CutParts(hops, i, j);
    }
  }

  lemma CutParts(hops: seq<Hop>, i: nat, j: nat)
    requires 0 < i < j < |hops| && hops[i] == hops[j]
    ensures var cut := hops[..i] + hops[j..];
      && |cut| > 1 && cut[0] == hops[0] && cut[1] == hops[1]
      && cut[1..] == hops[1..][..i - 1] + hops[1..][j - 1..]
  {}

  lemma {:induction false} WalkUsesLinks(topo: Topology, n: string, hops: seq<Hop>)
    requires IsWalk(topo, n, hops)
    ensures forall k :: 0 <= k < |hops| ==> (hops[k].entered, hops[k].out) in topo.links
    decreases |hops|
  {
    hide Owns;
    if |hops| > 1 {
      var next :| Owns(topo, next, hops[0].entered) && IsWalk(topo, next, hops[1..]);
      WalkUsesLinks(topo, next, hops[1..]);
      assert forall k :: 1 <= k < |hops| ==> hops[k] == hops[1..][k - 1];
    }
  }

  /** A walk longer than the number of links takes some hop twice. */
  lemma RepeatedHop(topo: Topology, n: string, hops: seq<Hop>) returns (i: nat, j: nat)
    requires IsWalk(topo, n, hops) && |hops| > |topo.links|
    ensures i < j < |hops| && hops[i] == hops[j]
  {
    WalkUsesLinks(topo, n, hops);
    if forall k, l :: 0 <= k < l < |hops| ==> hops[k] != hops[l] {
      var taken := set hop | hop in hops;
      var link := (hop: Hop) => (hop.entered, hop.out);
      DistinctCard(hops);
      InjectionCard(taken, link, topo.links);
      assert false;
    }
    i, j :| 0 <= i < j < |hops| && hops[i] == hops[j];
  }

  lemma {:induction false} DistinctCard<T>(s: seq<T>)
    requires forall k, l :: 0 <= k < l < |s| ==> s[k] != s[l]
    ensures |set x | x in s| == |s|
    decreases |s|
  {
    var all := set x | x in s;
    if s == [] {
      assert all == {};
    } else {
      var (front, last) := (s[..|s| - 1], s[|s| - 1]);
      DistinctCard(front);
      assert forall x :: x in s <==> x in front || x == last;
      assert all == (set x | x in front) + {last};
    }
  }

  /** Every walk can be shortened to the number of links, with the same first hop and the same end. */
  lemma {:induction false} ShortWalk(topo: Topology, n: string, hops: seq<Hop>) returns (short: seq<Hop>)
    requires UniqueAddresses(topo) && IsWalk(topo, n, hops)
    ensures IsWalk(topo, n, short) && |short| <= |topo.links|
    ensures short[0] == hops[0] && short[|short| - 1] == hops[|hops| - 1]
    decreases |hops|
  {
    hide UniqueAddresses;
    if |hops| <= |topo.links| {
      short := hops;
    } else {
      var i, j := RepeatedHop(topo, n, hops);
      var cut := hops[..i] + hops[j..];
      CutWalk(topo, n, hops, i, j);
      hide IsWalk;
      assert cut[0] == hops[0] && cut[|cut| - 1] == hops[|hops| - 1];
      short := ShortWalk(topo, n, cut);
    }
  }

  lemma WalkIsNotEmpty(topo: Topology, n: string, hops: seq<Hop>)
    requires IsWalk(topo, n, hops)
    ensures hops != []
  {}

  // --------------------------------------------------------------------- cycles

  function After(p: nat, length: nat): nat
  {
    if p + 1 == length then 0 else p + 1
  }

  /** Hop by hop from node to node, never turning back, the last hop entering the first node. */
  ghost predicate IsCycle(topo: Topology, nodes: seq<string>, hops: seq<Hop>) {
    && |nodes| == |hops| > 0
    && forall p: nat :: p < |hops| ==> CycleHopAt(topo, nodes, hops, p)
  }

  ghost predicate CycleHopAt(topo: Topology, nodes: seq<string>, hops: seq<Hop>, p: nat)
    requires |nodes| == |hops| && p < |hops|
  {
    CycleHop(topo, nodes[p], hops[p], nodes[After(p, |hops|)], hops[After(p, |hops|)])
  }

  ghost predicate CycleHop(topo: Topology, n: string, hop: Hop, m: string, next: Hop) {
    && Owns(topo, n, hop.out) && Owns(topo, m, hop.entered) && (hop.entered, hop.out) in topo.links
    && Owns(topo, m, next.out) && next.out != hop.entered
  }

  ghost predicate HasOwner(topo: Topology, a: Address) {
    exists n :: Owns(topo, n, a)
  }

  ghost function OwnerOf(topo: Topology, a: Address): string
    requires HasOwner(topo, a)
  {
    var n :| Owns(topo, n, a); n
  }

  lemma WalkHop(topo: Topology, n: string, hops: seq<Hop>, k: nat)
    requires UniqueAddresses(topo) && IsWalk(topo, n, hops) && k + 1 < |hops|
    ensures HasOwner(topo, hops[k].out) && HasOwner(topo, hops[k + 1].out)
    ensures CycleHop(topo, OwnerOf(topo, hops[k].out), hops[k], OwnerOf(topo, hops[k + 1].out), hops[k + 1])
  {
    hide Owns, UniqueAddresses;
    var m := SuffixWalk(topo, n, hops, k);
    var tail := hops[k..];
    var next :| Owns(topo, next, tail[0].entered) && tail[1].out != tail[0].entered && IsWalk(topo, next, tail[1..]);
    assert tail[1..][0] == hops[k + 1];
    OwnerIsUnique(topo, m, OwnerOf(topo, hops[k].out), hops[k].out);
    OwnerIsUnique(topo, next, OwnerOf(topo, hops[k + 1].out), hops[k + 1].out);
  }

  /** A walk that takes one hop twice goes around a cycle. */
  lemma RepeatIsCycle(topo: Topology, n: string, hops: seq<Hop>, i: nat, j: nat) returns (nodes: seq<string>)
    requires UniqueAddresses(topo) && IsWalk(topo, n, hops) && i < j < |hops| && hops[i] == hops[j]
    ensures IsCycle(topo, nodes, hops[i..j])
  {
    hide UniqueAddresses, IsWalk, CycleHop, Owns, HasOwner;
    forall k | i <= k < j ensures HasOwner(topo, hops[k].out) { WalkHop(topo, n, hops, k); }
    var cycle := hops[i..j];
    nodes := seq(j - i, p requires 0 <= p < j - i => OwnerOf(topo, hops[i + p].out));
    forall p: nat | p < |cycle| ensures CycleHopAt(topo, nodes, cycle, p) {
      WalkHop(topo, n, hops, i + p);
    }
  }

  /** The route that starts with a hop. */
  function HopRoute(node: NodeId, hop: Hop): RouteId {
    RouteId(node, hop.out, hop.entered)
  }

  /** One hop in front of a walk. */
  lemma WalkBefore(topo: Topology, n: string, hop: Hop, m: string, next: Hop, node: NodeId)
    requires CycleHop(topo, n, hop, m, next) && HasWalk(topo, m, HopRoute(node, next))
    ensures HasWalk(topo, n, HopRoute(node, hop))
  {
    hide Owns, OwnedBy;
    var hops: seq<Hop> :| Leads(topo, m, hops, HopRoute(node, next));
    var all := [hop] + hops;
    assert all[1..] == hops && all[|all| - 1] == hops[|hops| - 1];
    assert Leads(topo, n, all, HopRoute(node, hop));
  }

  /** A walk that leaves the cycle at one hop can be joined at every other hop. */
  lemma {:induction false} WalksAround(topo: Topology, nodes: seq<string>, hops: seq<Hop>, node: NodeId, q: nat, p: nat)
    requires IsCycle(topo, nodes, hops) && q < |hops| && p < |hops|
    requires HasWalk(topo, nodes[q], HopRoute(node, hops[q]))
    ensures HasWalk(topo, nodes[p], HopRoute(node, hops[p]))
    decreases if p <= q then q - p else |hops| - p + q
  {
    hide HasWalk, CycleHop;
    if p != q {
      var next := After(p, |hops|);
      assert CycleHopAt(topo, nodes, hops, p);
      WalksAround(topo, nodes, hops, node, q, next);
      WalkBefore(topo, nodes[p], hops[p], nodes[next], hops[next], node);
    }
  }

  // ------------------------------------------------------------- straight walks

  /** The walk enters the address at its end at most. */
  predicate Straight(hops: seq<Hop>, a: Address) {
    forall k :: 0 <= k < |hops| - 1 ==> hops[k].entered != a
  }

  ghost predicate LeadsStraight(topo: Topology, n: string, hops: seq<Hop>, id: RouteId) {
    Leads(topo, n, hops, id) && Straight(hops, id.node.address)
  }

  /** No straight walk that the route can stand for has more than r hops. */
  ghost predicate Shallow(topo: Topology, n: string, id: RouteId, r: nat) {
    forall hops: seq<Hop> :: LeadsStraight(topo, n, hops, id) ==> |hops| <= r
  }

  /** Every walk can stop where it first enters the address it ends at. */
  lemma {:induction false} StopAtFirst(topo: Topology, n: string, hops: seq<Hop>, a: Address) returns (short: seq<Hop>)
    requires IsWalk(topo, n, hops) && hops[|hops| - 1].entered == a
    ensures IsWalk(topo, n, short) && Straight(short, a)
    ensures short[0] == hops[0] && short[|short| - 1].entered == a
    decreases |hops|
  {
    hide Owns;
    var hop := hops[0];
    var m :| Owns(topo, m, hop.entered)
      && (|hops| > 1 ==> hops[1].out != hop.entered && IsWalk(topo, m, hops[1..]));
    if hop.entered == a {
      short := [hop];
    } else {
      var rest := StopAtFirst(topo, m, hops[1..], a);
      short := [hop] + rest;
      assert short[1..] == rest;
    }
  }

  lemma HasStraightWalk(topo: Topology, n: string, id: RouteId)
    requires HasWalk(topo, n, id)
    ensures !Shallow(topo, n, id, 0)
  {
    var hops: seq<Hop> :| Leads(topo, n, hops, id);
    var short := StopAtFirst(topo, n, hops, id.node.address);
    WalkIsNotEmpty(topo, n, short);
    assert LeadsStraight(topo, n, short, id);
  }

  /** A hop in front of a straight walk, unless it enters the address the walk leads to. */
  lemma ShallowNext(topo: Topology, n: string, id: RouteId, m: string, next: RouteId, r: nat)
    requires r > 0 && Shallow(topo, n, id, r) && next.node == id.node && id.reporter != id.node.address
    requires Owns(topo, n, id.adapter) && Owns(topo, m, id.reporter) && (id.reporter, id.adapter) in topo.links
    requires next.adapter != id.reporter
    ensures Shallow(topo, m, next, r - 1)
  {
    hide Owns, OwnedBy;
    forall hops: seq<Hop> | LeadsStraight(topo, m, hops, next) ensures |hops| <= r - 1 {
      var hop := Hop(id.adapter, id.reporter);
      var all := [hop] + hops;
      assert all[1..] == hops && all[|all| - 1] == hops[|hops| - 1];
      assert LeadsStraight(topo, n, all, id);
    }
  }

  // ------------------------------------------------------------------ lingering

  /** No hop of the cycle enters the address. */
  predicate Avoids(hops: seq<Hop>, a: Address) {
    forall p :: 0 <= p < |hops| ==> hops[p].entered != a
  }

  /** A cycle that never enters the node's address, although a walk leads from it to the node. */
  ghost predicate LingerCycle(topo: Topology, node: NodeId, nodes: seq<string>, hops: seq<Hop>) {
    && IsCycle(topo, nodes, hops) && Avoids(hops, node.address)
    && exists q: nat :: q < |hops| && HasWalk(topo, nodes[q], HopRoute(node, hops[q]))
  }

  ghost predicate Lingers(topo: Topology, node: NodeId) {
    exists nodes, hops :: LingerCycle(topo, node, nodes, hops)
  }

  /** A straight walk that takes a hop twice goes around such a cycle. */
  lemma RepeatLingers(topo: Topology, n: string, hops: seq<Hop>, id: RouteId, i: nat, j: nat)
    requires UniqueAddresses(topo) && LeadsStraight(topo, n, hops, id) && i < j < |hops| && hops[i] == hops[j]
    ensures Lingers(topo, id.node)
  {
    hide UniqueAddresses, OwnedBy;
    var nodes := RepeatIsCycle(topo, n, hops, i, j);
    var m := SuffixWalk(topo, n, hops, i);
    var (cycle, tail) := (hops[i..j], hops[i..]);
    assert CycleHopAt(topo, nodes, cycle, 0);
    hide IsWalk, IsCycle, CycleHop;
    OwnerIsUnique(topo, m, nodes[0], cycle[0].out);
    assert tail[|tail| - 1] == hops[|hops| - 1];
    assert Leads(topo, nodes[0], tail, HopRoute(id.node, cycle[0]));
    assert forall p :: 0 <= p < |cycle| ==> cycle[p] == hops[i + p];
    assert LingerCycle(topo, id.node, nodes, cycle);
  }

  /** Without such a cycle no straight walk has more hops than there are links. */
  lemma WithoutLingeringShallow(topo: Topology, n: string, id: RouteId)
    requires UniqueAddresses(topo) && !Lingers(topo, id.node)
    ensures Shallow(topo, n, id, |topo.links|)
  {
    hide UniqueAddresses, IsWalk, Lingers;
    forall hops: seq<Hop> | LeadsStraight(topo, n, hops, id) ensures |hops| <= |topo.links| {
      if |hops| > |topo.links| {
        var i, j := RepeatedHop(topo, n, hops);
        RepeatLingers(topo, n, hops, id, i, j);
        assert false;
      }
    }
  }
}
