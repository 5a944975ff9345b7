/**
When a silent node is forgotten, exactly: every run with enough epochs of
silence ends with all routes to it offline iff no cycle that never enters its
address leads to it. Where there is such a cycle, a run is built from the start
of the network in which its routes outlive any number of epochs.
 */
module Forgetting {
  import opened Types
  import opened Routes
  import opened Network
  import opened Walks
  import opened Traces
  import opened Convergence
  import opened Cycles
  import opened Expiry
  import opened Schedules

  // --------------------------------------------------------- what a round is worth

  lemma RoundIsWindow(topo: Topology, states: seq<State>, steps: seq<NetStep>, from: nat, to: nat,
                      links: seq<(Address, Address)>, t: Time)
    requires |states| == |steps| + 1 && RoundOver(topo, states, steps, from, to, links, t)
    ensures Window(steps, from, to, t, t + LAP)
  {
    hide SentSince, LinkCarried, TicksIn;
    forall k | from <= k < to ensures LapStep(steps[k], t, t + LAP) {
      assert RoundStep(topo, states, steps, from, links, k, t);
    }
  }

  /** The links hold every link between two clients. */
  ghost predicate AllLinks(topo: Topology, links: seq<(Address, Address)>) {
    forall link :: Usable(topo, link) <==> link in links
  }

  lemma RoundOfAll(topo: Topology, states: seq<State>, steps: seq<NetStep>, from: nat, to: nat,
                   links: seq<(Address, Address)>, t: Time)
    requires |states| == |steps| + 1 && RoundOver(topo, states, steps, from, to, links, t) && AllLinks(topo, links)
    ensures Round(topo, states, steps, from, to, t, t + LAP)
  {
    RoundIsWindow(topo, states, steps, from, to, links, t);
    hide RoundStep, TicksIn, Carries, Owns, Window;
    forall link, n, m | link in topo.links && Owns(topo, m, link.0) && Owns(topo, n, link.1)
      ensures Carries(topo, states, steps, link, n, from, to)
    {
      assert Usable(topo, link);
      var q :| 0 <= q < |links| && links[q] == link;
      assert LinkCarried(topo, states, steps, links[q], from, to);
    }
  }

  /** The links announcements take to cross the hops. */
  function LinksOf(hops: seq<Hop>): (links: seq<(Address, Address)>)
    ensures |links| == |hops| && forall p :: 0 <= p < |hops| ==> links[p] == (hops[p].entered, hops[p].out)
  {
    seq(|hops|, p requires 0 <= p < |hops| => (hops[p].entered, hops[p].out))
  }

  lemma RoundIsLap(topo: Topology, states: seq<State>, steps: seq<NetStep>, from: nat, to: nat, nodes: seq<string>,
                   hops: seq<Hop>, t: Time)
    requires |states| == |steps| + 1 && RoundOver(topo, states, steps, from, to, LinksOf(hops), t)
    requires IsCycle(topo, nodes, hops)
    ensures Lap(topo, states, steps, hops, from, to, t, t + LAP)
  {
    RoundIsWindow(topo, states, steps, from, to, LinksOf(hops), t);
    hide RoundStep, TicksIn, Carries, Owns, Window;
    forall p: nat | p < |hops| ensures LapCrosses(topo, states, steps, hops[p], from, to) {
      var link := LinksOf(hops)[p];
      assert CycleHopAt(topo, nodes, hops, p);
      assert LinkCarried(topo, states, steps, link, from, to);
      CarriedCrosses(topo, states, steps, hops[p], nodes[p], from, to);
    }
  }

  lemma CarriedCrosses(topo: Topology, states: seq<State>, steps: seq<NetStep>, hop: Hop, n: string, from: nat, to: nat)
    requires |states| == |steps| + 1 && Carries(topo, states, steps, (hop.entered, hop.out), n, from, to)
    ensures LapCrosses(topo, states, steps, hop, from, to)
  {
    hide Crosses;
    var i: nat, j: nat, k: nat :| from <= i && j < k < to
      && CrossesThenTicks(topo, states, steps, (hop.entered, hop.out), n, i, j, k);
  }

  lemma CycleLinksUsable(topo: Topology, nodes: seq<string>, hops: seq<Hop>)
    requires IsCycle(topo, nodes, hops)
    ensures AllUsable(topo, LinksOf(hops))
  {
    hide Owns;
    forall p: nat | p < |hops| ensures Usable(topo, LinksOf(hops)[p]) {
      assert CycleHopAt(topo, nodes, hops, p);
    }
  }

  // ------------------------------------------------------------------ going onward

  /** What every step since `from` is like: sent since then, not from `a`, and in time. */
  ghost predicate OnwardStep(topo: Topology, states: seq<State>, steps: seq<NetStep>, from: nat, k: nat, a: Address,
                             t: Time, t': Time)
    requires |states| == |steps| + 1 && k < |steps|
  {
    match steps[k]
    case Send(_, _) => true
    case Deliver(packet, _, _, now) => SentSince(topo, states, steps, from, k) && now <= t' + 1 && packet.sender != a
    case Drop(_) => false
    case TickNode(_, now) => now >= t + LAP + 1 - DELAY
  }

  ghost predicate Onward(topo: Topology, states: seq<State>, steps: seq<NetStep>, from: nat, a: Address,
                         t: Time, t': Time)
    requires |states| == |steps| + 1
  {
    from <= |steps| && forall k: nat :: from <= k < |steps| ==> OnwardStep(topo, states, steps, from, k, a, t, t')
  }

  lemma RoundIsOnward(topo: Topology, states: seq<State>, steps: seq<NetStep>, from: nat,
                      links: seq<(Address, Address)>, a: Address, t: Time)
    requires |states| == |steps| + 1 && RoundOver(topo, states, steps, from, |steps|, links, t)
    requires forall q :: 0 <= q < |links| ==> links[q].0 != a
    ensures Onward(topo, states, steps, from, a, t, t + LAP)
  {
    hide SentSince, LinkCarried, TicksIn;
    var t' := t + LAP;
    forall k: nat | from <= k < |steps| ensures OnwardStep(topo, states, steps, from, k, a, t, t') {
      assert RoundStep(topo, states, steps, from, links, k, t);
    }
  }

  lemma SentSinceStays(topo: Topology, states: seq<State>, steps: seq<NetStep>, states': seq<State>,
                       steps': seq<NetStep>, from: nat, from': nat, j: nat)
    requires |states| == |steps| + 1 && |states'| == |steps'| + 1 && Extends(topo, states, steps, states', steps')
    requires j < |steps| && from' <= from && SentSince(topo, states, steps, from, j)
    ensures SentSince(topo, states', steps', from', j)
  {
    hide Trace, FindRoutes, Advertised;
    var i: nat :| from <= i < j && SentAs(topo, states, steps, i, j);
    assert states'[i] == states[i] && steps'[i] == steps[i] && steps'[j] == steps[j];
    assert SentAs(topo, states', steps', i, j);
  }

  lemma OnwardJoin(topo: Topology, states: seq<State>, steps: seq<NetStep>, states': seq<State>, steps': seq<NetStep>,
                   from: nat, a: Address, t: Time, t': Time, t'': Time)
    requires |states| == |steps| + 1 && |states'| == |steps'| + 1 && Extends(topo, states, steps, states', steps')
    requires t <= t' <= t'' && Onward(topo, states, steps, from, a, t, t')
    requires Onward(topo, states', steps', |steps|, a, t', t'')
    ensures Onward(topo, states', steps', from, a, t, t'')
  {
    assert steps <= steps';
    hide SentSince, Extends;
    forall k: nat | from <= k < |steps'| ensures OnwardStep(topo, states', steps', from, k, a, t, t'') {
      if k < |steps| {
        assert steps'[k] == steps[k];
        assert OnwardStep(topo, states, steps, from, k, a, t, t');
        if steps[k].Deliver? {
          SentSinceStays(topo, states, steps, states', steps', from, from, k);
        }
      } else {
        assert OnwardStep(topo, states', steps', |steps|, k, a, t', t'');
        if steps'[k].Deliver? {
          SentSinceEarlier(topo, states', steps', |steps|, from, k);
        }
      }
    }
  }

  lemma SentSinceEarlier(topo: Topology, states: seq<State>, steps: seq<NetStep>, from: nat, from': nat, j: nat)
    requires |states| == |steps| + 1 && j < |steps| && from' <= from && SentSince(topo, states, steps, from, j)
    ensures SentSince(topo, states, steps, from', j)
  {
    hide SentAs;
  }

  // ----------------------------------------------------------------------- epochs

  /** Everything heard so far came no later than just after t. */
  predicate Early(steps: seq<NetStep>, t: Time) {
    forall k :: 0 <= k < |steps| && steps[k].Deliver? ==> steps[k].now <= t + 1
  }

  lemma EarlyStays(topo: Topology, states: seq<State>, steps: seq<NetStep>, states': seq<State>, steps': seq<NetStep>,
                   a: Address, t: Time, t': Time)
    requires |states'| == |steps'| + 1 && steps <= steps' && t <= t'
    requires Early(steps, t) && Onward(topo, states', steps', |steps|, a, t, t')
    ensures Early(steps', t')
  {
    hide SentSince;
    forall k | 0 <= k < |steps'| && steps'[k].Deliver? ensures steps'[k].now <= t' + 1 {
      if k < |steps| {
        assert steps'[k] == steps[k];
      } else {
        assert OnwardStep(topo, states', steps', |steps|, k, a, t, t');
      }
    }
  }

  /** Two rounds make an epoch. */
  lemma RoundsMakeEpoch(topo: Topology, states: seq<State>, steps: seq<NetStep>, start: nat, middle: nat,
                        links: seq<(Address, Address)>, a: Address, t: Time)
    requires |states| == |steps| + 1 && start <= middle <= |steps| && t >= 0
    requires Onward(topo, states, steps, start, a, t, t + LAP + LAP)
    requires Onward(topo, states, steps, middle, a, t + LAP, t + LAP + LAP)
    requires RoundOver(topo, states, steps, middle, |steps|, links, t + LAP)
    requires Early(steps[..start], t)
    ensures IsEpoch(topo, states, steps, Epoch(start, start, |steps|, t + 1))
  {
    var e := Epoch(start, start, |steps|, t + 1);
    hide SentSince, LinkCarried, RoundStep;
    forall j | start <= j < |steps| && steps[j].Deliver? ensures SentSince(topo, states, steps, start, j) {
      assert OnwardStep(topo, states, steps, start, j, a, t, t + LAP + LAP);
    }
    forall j | 0 <= j < start && steps[j].Deliver? ensures steps[j].now <= t + 1 {
      assert steps[..start][j] == steps[j];
    }
    forall n | n in topo.nodes ensures ClockPasses(steps, n, e) {
      assert TicksIn(steps, n, middle, |steps|, t + LAP + LAP + 1);
      var k: nat :| middle <= k < |steps| && steps[k] == TickNode(n, t + LAP + LAP + 1);
      forall l | k <= l < |steps| && steps[l].TickNode? && steps[l].node == n ensures steps[l].now >= t + 1 + TIMEOUT {
        assert OnwardStep(topo, states, steps, middle, l, a, t + LAP, t + LAP + LAP);
      }
      assert LateFrom(steps, n, k, t + 1);
    }
  }

  /** An epoch stays one while the run goes onward. */
  lemma EpochStays(topo: Topology, states: seq<State>, steps: seq<NetStep>, states': seq<State>, steps': seq<NetStep>,
                   e: Epoch, a: Address, t: Time, t': Time)
    requires |states| == |steps| + 1 && |states'| == |steps'| + 1 && Extends(topo, states, steps, states', steps')
    requires IsEpoch(topo, states, steps, e) && Onward(topo, states', steps', |steps|, a, t, t')
    requires e.heard + TIMEOUT <= t + LAP + 1 - DELAY
    ensures IsEpoch(topo, states', steps', e)
  {
    assert steps <= steps';
    hide SentSince, Extends;
    forall j | e.settled <= j < |steps'| && steps'[j].Deliver? ensures SentSince(topo, states', steps', e.start, j) {
      if j < |steps| {
        assert steps'[j] == steps[j];
        SentSinceStays(topo, states, steps, states', steps', e.start, e.start, j);
      } else {
        assert OnwardStep(topo, states', steps', |steps|, j, a, t, t');
        SentSinceEarlier(topo, states', steps', |steps|, e.start, j);
      }
    }
    forall j | 0 <= j < e.settled && steps'[j].Deliver? ensures steps'[j].now <= e.heard {
      assert steps'[j] == steps[j];
    }
    forall n | n in topo.nodes ensures ClockPasses(steps', n, e) {
      assert ClockPasses(steps, n, e);
      ClockStillPasses(topo, steps, states', steps', n, e, a, t, t');
    }
  }

  lemma ClockStillPasses(topo: Topology, steps: seq<NetStep>, states': seq<State>, steps': seq<NetStep>, n: string,
                         e: Epoch, a: Address, t: Time, t': Time)
    requires |states'| == |steps'| + 1 && steps <= steps' && ClockPasses(steps, n, e)
    requires Onward(topo, states', steps', |steps|, a, t, t') && e.heard + TIMEOUT <= t + LAP + 1 - DELAY
    ensures ClockPasses(steps', n, e)
  {
    hide SentSince;
    var k: nat :| e.settled <= k < e.end && k < |steps| && steps[k].TickNode? && steps[k].node == n
      && LateFrom(steps, n, k, e.heard);
    assert steps'[k] == steps[k];
    forall l | k <= l < |steps'| && steps'[l].TickNode? && steps'[l].node == n
      ensures steps'[l].now >= e.heard + TIMEOUT
    {
      if l < |steps| {
        assert steps'[l] == steps[l];
      } else {
        assert OnwardStep(topo, states', steps', |steps|, l, a, t, t');
      }
    }
    assert LateFrom(steps', n, k, e.heard);
  }

  lemma SilentStays(topo: Topology, steps: seq<NetStep>, states': seq<State>, steps': seq<NetStep>, start: nat,
                    node: NodeId, t: Time, t': Time)
    requires |states'| == |steps'| + 1 && steps <= steps' && Silent(steps, start, node)
    requires Onward(topo, states', steps', |steps|, node.address, t, t')
    ensures Silent(steps', start, node)
  {
    hide SentSince;
    forall k | start <= k < |steps'| ensures NotFrom(steps'[k], node) {
      if k < |steps| {
        assert steps'[k] == steps[k] && NotFrom(steps[k], node);
      } else {
        assert OnwardStep(topo, states', steps', |steps|, k, node.address, t, t');
      }
    }
  }

  // -------------------------------------------------------------- silence goes on

  /** The node is silent, so many epochs are over, and the cycle still holds its routes. */
  ghost predicate Going(topo: Topology, node: NodeId, nodes: seq<string>, hops: seq<Hop>, states: seq<State>,
                        steps: seq<NetStep>, start: nat, epochs: seq<Epoch>, t: Time) {
    && Trace(topo, states, steps) && |states| == |steps| + 1 && |nodes| == |hops| && t >= 0
    && start <= |steps| && Silent(steps, start, node) && Early(steps, t)
    && Epochs(topo, states, steps, start, epochs) && EndOf(start, epochs, |epochs|) <= |steps|
    && (forall r :: 0 <= r < |epochs| ==> epochs[r].heard + TIMEOUT <= t + LAP + 1 - DELAY)
    && AllHeld(topo, states[|steps|], nodes, hops, node, t)
  }

  /** One round over the cycle: its routes are renewed, and the run goes onward. */
  lemma RoundOnCycle(topo: Topology, states: seq<State>, steps: seq<NetStep>, names: seq<string>,
                     clients: seq<(string, string)>, node: NodeId, nodes: seq<string>, hops: seq<Hop>, t: Time)
    returns (states': seq<State>, steps': seq<NetStep>)
    requires UniqueAddresses(topo) && UniqueGuids(topo) && Trace(topo, states, steps) && |states| == |steps| + 1
    requires Everyone(topo, names, clients) && IsCycle(topo, nodes, hops) && Avoids(hops, node.address)
    requires AllHeld(topo, states[|steps|], nodes, hops, node, t)
    ensures Extends(topo, states, steps, states', steps') && |states'| == |steps'| + 1
    ensures RoundOver(topo, states', steps', |steps|, |steps'|, LinksOf(hops), t)
    ensures Onward(topo, states', steps', |steps|, node.address, t, t + LAP)
    ensures AllHeld(topo, states'[|steps'|], nodes, hops, node, t + LAP)
  {
    CycleLinksUsable(topo, nodes, hops);
    hide UniqueAddresses, UniqueGuids, Trace, Everyone, IsCycle, AllHeld, AllUsable, RoundOver, Onward, Lap;
    states', steps' := ExtendByRound(topo, states, steps, names, clients, LinksOf(hops), t);
    ExtendsTrace(topo, states, steps, states', steps');
    assert states'[|steps|] == states[|steps|];
    RoundIsOnward(topo, states', steps', |steps|, LinksOf(hops), node.address, t);
    RoundIsLap(topo, states', steps', |steps|, |steps'|, nodes, hops, t);
    LapRenewsAll(topo, states', steps', nodes, hops, node, |steps|, |steps'|, t, t + LAP);
  }

  /** Two rounds over the cycle make one more epoch of silence. */
  lemma TwoRounds(topo: Topology, states: seq<State>, steps: seq<NetStep>, names: seq<string>,
                  clients: seq<(string, string)>, node: NodeId, nodes: seq<string>, hops: seq<Hop>, t: Time)
    returns (states': seq<State>, steps': seq<NetStep>)
    requires UniqueAddresses(topo) && UniqueGuids(topo) && Trace(topo, states, steps) && |states| == |steps| + 1
    requires Everyone(topo, names, clients) && IsCycle(topo, nodes, hops) && Avoids(hops, node.address)
    requires AllHeld(topo, states[|steps|], nodes, hops, node, t) && Early(steps, t) && t >= 0
    ensures Extends(topo, states, steps, states', steps') && |states'| == |steps'| + 1
    ensures Onward(topo, states', steps', |steps|, node.address, t, t + LAP + LAP)
    ensures AllHeld(topo, states'[|steps'|], nodes, hops, node, t + LAP + LAP)
    ensures IsEpoch(topo, states', steps', Epoch(|steps|, |steps|, |steps'|, t + 1))
  {
    hide UniqueAddresses, UniqueGuids, Trace, Everyone, IsCycle, AllHeld, RoundOver, Onward, Avoids, Extends, Early,
         IsEpoch;
    var a := node.address;
    var states1, steps1 := RoundOnCycle(topo, states, steps, names, clients, node, nodes, hops, t);
    ExtendsTrace(topo, states, steps, states1, steps1);
    states', steps' := RoundOnCycle(topo, states1, steps1, names, clients, node, nodes, hops, t + LAP);
    ExtendsTrace(topo, states1, steps1, states', steps');
    ExtendsTransitive(topo, states, steps, states1, steps1, states', steps');
    OnwardJoin(topo, states1, steps1, states', steps', |steps|, a, t, t + LAP, t + LAP + LAP);
    ExtendsPrefix(topo, states, steps, states', steps');
    RoundsMakeEpoch(topo, states', steps', |steps|, |steps1|, LinksOf(hops), a, t);
  }

  lemma ExtendsPrefix(topo: Topology, states: seq<State>, steps: seq<NetStep>, states': seq<State>,
                      steps': seq<NetStep>)
    requires Extends(topo, states, steps, states', steps')
    ensures steps <= steps' && steps'[..|steps|] == steps
  {}

  lemma GoOn(topo: Topology, names: seq<string>, clients: seq<(string, string)>, node: NodeId, nodes: seq<string>,
             hops: seq<Hop>, states: seq<State>, steps: seq<NetStep>, start: nat, epochs: seq<Epoch>, t: Time)
    returns (states': seq<State>, steps': seq<NetStep>, epochs': seq<Epoch>)
    requires UniqueAddresses(topo) && UniqueGuids(topo) && Everyone(topo, names, clients)
    requires IsCycle(topo, nodes, hops) && Avoids(hops, node.address)
    requires Going(topo, node, nodes, hops, states, steps, start, epochs, t)
    ensures Going(topo, node, nodes, hops, states', steps', start, epochs', t + LAP + LAP)
    ensures |epochs'| == |epochs| + 1
  {
    hide UniqueAddresses, UniqueGuids, Trace, Everyone, IsCycle, AllHeld, Onward, Avoids, Extends, Early, Silent,
         IsEpoch, Epochs;
    states', steps' := TwoRounds(topo, states, steps, names, clients, node, nodes, hops, t);
    ExtendsTrace(topo, states, steps, states', steps');
    ExtendsPrefix(topo, states, steps, states', steps');
    var e := Epoch(|steps|, |steps|, |steps'|, t + 1);
    epochs' := epochs + [e];
    SilentStays(topo, steps, states', steps', start, node, t, t + LAP + LAP);
    EarlyStays(topo, states, steps, states', steps', node.address, t, t + LAP + LAP);
    EpochsGrow(topo, states, steps, states', steps', start, epochs, e, node.address, t, t + LAP + LAP);
  }

  lemma EpochsGrow(topo: Topology, states: seq<State>, steps: seq<NetStep>, states': seq<State>, steps': seq<NetStep>,
                   start: nat, epochs: seq<Epoch>, e: Epoch, a: Address, t: Time, t': Time)
    requires |states| == |steps| + 1 && |states'| == |steps'| + 1 && Extends(topo, states, steps, states', steps')
    requires Epochs(topo, states, steps, start, epochs) && IsEpoch(topo, states', steps', e)
    requires start <= e.start && EndOf(start, epochs, |epochs|) <= e.start
    requires Onward(topo, states', steps', |steps|, a, t, t')
    requires forall r :: 0 <= r < |epochs| ==> epochs[r].heard + TIMEOUT <= t + LAP + 1 - DELAY
    ensures Epochs(topo, states', steps', start, epochs + [e])
  {
    var all := epochs + [e];
    hide IsEpoch, Onward, Extends;
    forall r: nat | r < |all| ensures EpochAt(topo, states', steps', start, all, r) {
      if r < |epochs| {
        assert EpochAt(topo, states, steps, start, epochs, r);
        EpochStays(topo, states, steps, states', steps', epochs[r], a, t, t');
        assert all[r] == epochs[r] && (r > 0 ==> all[r - 1] == epochs[r - 1]);
      } else {
        assert r > 0 ==> all[r - 1] == epochs[r - 1];
      }
    }
  }

  lemma {:induction false} GoOnFor(topo: Topology, names: seq<string>, clients: seq<(string, string)>, node: NodeId,
                                   nodes: seq<string>, hops: seq<Hop>, states: seq<State>, steps: seq<NetStep>,
                                   t: Time, k: nat)
    returns (states': seq<State>, steps': seq<NetStep>, epochs: seq<Epoch>, t': Time)
    requires UniqueAddresses(topo) && UniqueGuids(topo) && Everyone(topo, names, clients)
    requires IsCycle(topo, nodes, hops) && Avoids(hops, node.address)
    requires Going(topo, node, nodes, hops, states, steps, |steps|, [], t)
    ensures Going(topo, node, nodes, hops, states', steps', |steps|, epochs, t') && |epochs| == k
    decreases k
  {
    hide UniqueAddresses, UniqueGuids, Everyone, IsCycle, Avoids, Going;
    if k == 0 {
      states', steps', epochs, t' := states, steps, [], t;
    } else {
      var states1, steps1, epochs1, t1 := GoOnFor(topo, names, clients, node, nodes, hops, states, steps, t, k - 1);
      states', steps', epochs := GoOn(topo, names, clients, node, nodes, hops, states1, steps1, |steps|, epochs1, t1);
      t' := t1 + LAP + LAP;
    }
  }

  // -------------------------------------------------------------- the opening rounds

  /** So many rounds over all links, from the start of the network. */
  ghost predicate Opened(topo: Topology, states: seq<State>, steps: seq<NetStep>, marks: seq<nat>, times: seq<Time>) {
    && Trace(topo, states, steps) && |states| == |steps| + 1 && |marks| > 0
    && Rounds(topo, states, steps, marks, times) && marks[|marks| - 1] == |steps|
    && times[|marks| - 1] >= 0 && Early(steps, times[|marks| - 1])
  }

  lemma CarriesStays(topo: Topology, states: seq<State>, steps: seq<NetStep>, states': seq<State>, steps': seq<NetStep>,
                     link: (Address, Address), n: string, from: nat, to: nat)
    requires |states| == |steps| + 1 && |states'| == |steps'| + 1 && Extends(topo, states, steps, states', steps')
    requires Carries(topo, states, steps, link, n, from, to)
    ensures Carries(topo, states', steps', link, n, from, to)
  {
    hide Trace, FindRoutes, Advertised;
    var i: nat, j: nat, k: nat :| from <= i && j < k < to && CrossesThenTicks(topo, states, steps, link, n, i, j, k);
    assert states'[i] == states[i] && steps'[i] == steps[i] && steps'[j] == steps[j] && steps'[k] == steps[k];
    assert CrossesThenTicks(topo, states', steps', link, n, i, j, k);
  }

  lemma RoundStays(topo: Topology, states: seq<State>, steps: seq<NetStep>, states': seq<State>, steps': seq<NetStep>,
                   from: nat, to: nat, t: Time, t': Time)
    requires |states| == |steps| + 1 && |states'| == |steps'| + 1 && Extends(topo, states, steps, states', steps')
    requires Round(topo, states, steps, from, to, t, t')
    ensures Round(topo, states', steps', from, to, t, t')
  {
    assert steps <= steps';
    hide Extends, Carries, Owns;
    forall k | from <= k < to ensures LapStep(steps'[k], t, t') {
      assert steps'[k] == steps[k] && LapStep(steps[k], t, t');
    }
    forall link, n, m | link in topo.links && Owns(topo, m, link.0) && Owns(topo, n, link.1)
      ensures Carries(topo, states', steps', link, n, from, to)
    {
      CarriesStays(topo, states, steps, states', steps', link, n, from, to);
    }
  }

  lemma RoundsGrow(topo: Topology, states: seq<State>, steps: seq<NetStep>, states': seq<State>, steps': seq<NetStep>,
                   marks: seq<nat>, times: seq<Time>, t': Time)
    requires |states| == |steps| + 1 && |states'| == |steps'| + 1 && Extends(topo, states, steps, states', steps')
    requires Rounds(topo, states, steps, marks, times) && |marks| > 0 && |steps| <= |steps'|
    requires Round(topo, states', steps', marks[|marks| - 1], |steps'|, times[|marks| - 1], t')
    ensures Rounds(topo, states', steps', marks + [|steps'|], times + [t'])
  {
    var (all, whens) := (marks + [|steps'|], times + [t']);
    hide Extends, Round;
    forall r: nat | r + 1 < |all| ensures RoundAt(topo, states', steps', all, whens, r) {
      if r + 1 < |marks| {
        assert RoundAt(topo, states, steps, marks, times, r);
        RoundStays(topo, states, steps, states', steps', marks[r], marks[r + 1], times[r], times[r + 1]);
      }
    }
  }

  lemma RoundIsEarly(topo: Topology, states: seq<State>, steps: seq<NetStep>, states': seq<State>, steps': seq<NetStep>,
                     links: seq<(Address, Address)>, t: Time)
    requires |states'| == |steps'| + 1 && Extends(topo, states, steps, states', steps') && Early(steps, t)
    requires RoundOver(topo, states', steps', |steps|, |steps'|, links, t)
    ensures Early(steps', t + LAP)
  {
    assert steps <= steps';
    hide Extends, SentSince, LinkCarried, TicksIn;
    forall k | 0 <= k < |steps'| && steps'[k].Deliver? ensures steps'[k].now <= t + LAP + 1 {
      if k < |steps| {
        assert steps'[k] == steps[k];
      } else {
        assert RoundStep(topo, states', steps', |steps|, links, k, t);
      }
    }
  }

  lemma OpenOnce(topo: Topology, names: seq<string>, clients: seq<(string, string)>, links: seq<(Address, Address)>,
                 states: seq<State>, steps: seq<NetStep>, marks: seq<nat>, times: seq<Time>)
    returns (states': seq<State>, steps': seq<NetStep>, marks': seq<nat>, times': seq<Time>)
    requires UniqueAddresses(topo) && Everyone(topo, names, clients) && AllLinks(topo, links)
    requires Opened(topo, states, steps, marks, times)
    ensures Opened(topo, states', steps', marks', times') && |marks'| == |marks| + 1
  {
    var t := times[|marks| - 1];
    AllLinksUsable(topo, links);
    hide UniqueAddresses, Everyone, AllLinks, AllUsable, Trace, Extends, RoundOver, Rounds, Round, Early;
    states', steps' := ExtendByRound(topo, states, steps, names, clients, links, t);
    ExtendsTrace(topo, states, steps, states', steps');
    RoundOfAll(topo, states', steps', |steps|, |steps'|, links, t);
    RoundIsEarly(topo, states, steps, states', steps', links, t);
    marks', times' := marks + [|steps'|], times + [t + LAP];
    RoundsLength(topo, states, steps, marks, times);
    RoundsGrow(topo, states, steps, states', steps', marks, times, t + LAP);
  }

  lemma RoundsLength(topo: Topology, states: seq<State>, steps: seq<NetStep>, marks: seq<nat>, times: seq<Time>)
    requires |states| == |steps| + 1 && Rounds(topo, states, steps, marks, times)
    ensures |marks| == |times|
  {}

  lemma AllLinksUsable(topo: Topology, links: seq<(Address, Address)>)
    requires AllLinks(topo, links)
    ensures AllUsable(topo, links)
  {
    hide Usable;
    forall q | 0 <= q < |links| ensures Usable(topo, links[q]) {
      assert links[q] in links;
    }
  }

  lemma {:induction false} OpenFor(topo: Topology, names: seq<string>, clients: seq<(string, string)>,
                                   links: seq<(Address, Address)>, rounds: nat)
    returns (states: seq<State>, steps: seq<NetStep>, marks: seq<nat>, times: seq<Time>)
    requires UniqueAddresses(topo) && Everyone(topo, names, clients) && AllLinks(topo, links)
    ensures Opened(topo, states, steps, marks, times) && |marks| == rounds + 1
    decreases rounds
  {
    NothingOpened(topo);
    hide UniqueAddresses, Everyone, AllLinks, Opened;
    if rounds == 0 {
      states, steps, marks, times := [Init(topo)], [], [0], [0];
    } else {
      var states1, steps1, marks1, times1 := OpenFor(topo, names, clients, links, rounds - 1);
      states, steps, marks, times := OpenOnce(topo, names, clients, links, states1, steps1, marks1, times1);
    }
  }

  lemma NothingOpened(topo: Topology)
    ensures Opened(topo, [Init(topo)], [], [0], [0])
  {}

  /** After as many rounds as there are links, the cycle's nodes hold their routes. */
  lemma OpenedHolds(topo: Topology, states: seq<State>, steps: seq<NetStep>, marks: seq<nat>, times: seq<Time>,
                    node: NodeId, nodes: seq<string>, hops: seq<Hop>)
    requires UniqueAddresses(topo) && UniqueGuids(topo) && Opened(topo, states, steps, marks, times)
    requires |marks| == |topo.links| + 1 && LingerCycle(topo, node, nodes, hops)
    ensures |nodes| == |hops| && |marks| == |times|
    ensures AllHeld(topo, states[|steps|], nodes, hops, node, times[|topo.links|])
  {
    RoundsLength(topo, states, steps, marks, times);
    var q: nat :| q < |hops| && HasWalk(topo, nodes[q], HopRoute(node, hops[q]));
    hide UniqueAddresses, UniqueGuids, Trace, Rounds, Early, HasWalk, Held;
    forall p: nat | p < |hops| ensures HopHeld(topo, states[|steps|], nodes[p], hops[p], node, times[|topo.links|]) {
      hide IsCycle;
      WalksAround(topo, nodes, hops, node, q, p);
      WalkEndsHeld(topo, states, steps, marks, times, nodes[p], HopRoute(node, hops[p]));
    }
  }

  lemma WalkEndsHeld(topo: Topology, states: seq<State>, steps: seq<NetStep>, marks: seq<nat>, times: seq<Time>,
                     n: string, id: RouteId)
    requires UniqueAddresses(topo) && UniqueGuids(topo) && Trace(topo, states, steps) && HasWalk(topo, n, id)
    requires Rounds(topo, states, steps, marks, times) && |marks| > |topo.links|
    requires |states| == |steps| + 1 && |marks| == |times| && marks[|topo.links|] <= |steps|
    ensures Held(topo, states[marks[|topo.links|]], n, id, times[|topo.links|])
  {
    var hops: seq<Hop> :| Leads(topo, n, hops, id);
    hide UniqueAddresses, UniqueGuids, Trace, OwnedBy, IsWalk, Rounds, Held;
    var short := ShortWalk(topo, n, hops);
    WalkIsNotEmpty(topo, n, short);
    WalkIsHeld(topo, states, steps, marks, times, |topo.links|, n, short, id);
  }

  // ---------------------------------------------------------------- the theorem

  lemma {:induction false} ListOf<T>(all: set<T>) returns (list: seq<T>)
    ensures forall x :: x in all <==> x in list
    decreases all
  {
    if all == {} {
      list := [];
    } else {
      var x :| x in all;
      var others := ListOf(all - {x});
      list := [x] + others;
    }
  }

  lemma ListEveryone(topo: Topology) returns (names: seq<string>, clients: seq<(string, string)>,
                                              links: seq<(Address, Address)>)
    ensures Everyone(topo, names, clients) && AllLinks(topo, links)
  {
    names := ListOf(topo.nodes.Keys);
    clients := ListOf(
      set n, mac | n in topo.nodes && mac in topo.nodes[n].adapters && IsClient(topo, n, mac) :: (n, mac));
    links := ListOf(set link | link in topo.links && Usable(topo, link));
  }

  /** A run in which the node falls silent at `start`, and the epochs of silence since then. */
  ghost predicate SilentRun(topo: Topology, node: NodeId, states: seq<State>, steps: seq<NetStep>, start: nat,
                            epochs: seq<Epoch>) {
    && Trace(topo, states, steps) && |states| == |steps| + 1 && start <= |steps| && Silent(steps, start, node)
    && Epochs(topo, states, steps, start, epochs) && EndOf(start, epochs, |epochs|) <= |steps|
  }

  /** Around a lingering cycle, routes to a silent node outlive any number of epochs. */
  lemma LingeringRun(topo: Topology, node: NodeId, nodes: seq<string>, hops: seq<Hop>, k: nat)
    returns (states: seq<State>, steps: seq<NetStep>, start: nat, epochs: seq<Epoch>, t: Time)
    requires UniqueAddresses(topo) && UniqueGuids(topo) && LingerCycle(topo, node, nodes, hops)
    ensures SilentRun(topo, node, states, steps, start, epochs) && |epochs| == k && |nodes| == |hops| > 0
    ensures AllHeld(topo, states[|steps|], nodes, hops, node, t)
  {
    var names, clients, links := ListEveryone(topo);
    hide UniqueAddresses, UniqueGuids, Everyone, AllLinks, Opened, AllHeld, IsCycle, Avoids, Silent, Early, Trace,
         Epochs, Rounds;
    var states1, steps1, marks, times := OpenFor(topo, names, clients, links, |topo.links|);
    OpenedHolds(topo, states1, steps1, marks, times, node, nodes, hops);
    start := |steps1|;
    StartsGoing(topo, states1, steps1, marks, times, node, nodes, hops);
    states, steps, epochs, t :=
      GoOnFor(topo, names, clients, node, nodes, hops, states1, steps1, times[|topo.links|], k);
    CycleNotEmpty(topo, nodes, hops);
  }

  lemma CycleNotEmpty(topo: Topology, nodes: seq<string>, hops: seq<Hop>)
    requires IsCycle(topo, nodes, hops)
    ensures |nodes| == |hops| > 0
  {}

  lemma StartsGoing(topo: Topology, states: seq<State>, steps: seq<NetStep>, marks: seq<nat>, times: seq<Time>,
                    node: NodeId, nodes: seq<string>, hops: seq<Hop>)
    requires Opened(topo, states, steps, marks, times) && |marks| == |topo.links| + 1 == |times|
    requires |nodes| == |hops| && AllHeld(topo, states[|steps|], nodes, hops, node, times[|topo.links|])
    ensures Going(topo, node, nodes, hops, states, steps, |steps|, [], times[|topo.links|])
  {
    hide Trace, Rounds, AllHeld, Early;
  }

  /** Every run with k epochs of silence ends with all routes to the node offline. */
  ghost predicate ForgottenAfter(topo: Topology, node: NodeId, k: nat) {
    forall states: seq<State>, steps, start, epochs ::
      SilentRun(topo, node, states, steps, start, epochs) && |epochs| == k ==>
        AllOffline(topo, states[|steps|], node)
  }

  lemma HeldIsNotOffline(topo: Topology, s: State, nodes: seq<string>, hops: seq<Hop>, node: NodeId, t: Time)
    requires |nodes| == |hops| > 0 && AllHeld(topo, s, nodes, hops, node, t)
    ensures !AllOffline(topo, s, node)
  {
    hide EntryAt;
    assert HopHeld(topo, s, nodes[0], hops[0], node, t);
    assert !Offline(topo, s, nodes[0], HopRoute(node, hops[0]));
  }

  lemma LingeringIsRemembered(topo: Topology, node: NodeId, k: nat)
    requires UniqueAddresses(topo) && UniqueGuids(topo) && Lingers(topo, node)
    ensures !ForgottenAfter(topo, node, k)
  {
    hide UniqueAddresses, UniqueGuids, AllOffline, AllHeld, LingerCycle, Trace, Epochs, Silent;
    var nodes, hops :| LingerCycle(topo, node, nodes, hops);
    var states, steps, start, epochs, t := LingeringRun(topo, node, nodes, hops, k);
    HeldIsNotOffline(topo, states[|steps|], nodes, hops, node, t);
    assert SilentRun(topo, node, states, steps, start, epochs);
  }

  /**
  When is a silent node forgotten? With as many epochs as there are links, or
  more: every run ends with all routes to it offline iff no cycle that never
  enters its address leads to it.
   */
  lemma SilentNodeIsForgotten(topo: Topology, node: NodeId, k: nat)
    requires UniqueAddresses(topo) && UniqueGuids(topo) && k >= |topo.links|
    ensures ForgottenAfter(topo, node, k) <==> !Lingers(topo, node)
  {
    hide UniqueAddresses, UniqueGuids, AllOffline, Lingers, Trace, Epochs, Silent;
    if Lingers(topo, node) {
      LingeringIsRemembered(topo, node, k);
    } else {
      forall states: seq<State>, steps, start, epochs
        | SilentRun(topo, node, states, steps, start, epochs) && |epochs| == k
        ensures AllOffline(topo, states[|steps|], node)
      {
        EndsInOrder(topo, states, steps, start, epochs, |topo.links|);
        ForgottenUnlessLingering(topo, states, steps, start, epochs, node, |steps|);
      }
    }
  }

  lemma {:induction false} EndsInOrder(topo: Topology, states: seq<State>, steps: seq<NetStep>, start: nat,
                                       epochs: seq<Epoch>, r: nat)
    requires |states| == |steps| + 1 && Epochs(topo, states, steps, start, epochs) && r <= |epochs|
    ensures EndOf(start, epochs, r) <= EndOf(start, epochs, |epochs|)
    decreases |epochs| - r
  {
    if r < |epochs| {
      assert EpochAt(topo, states, steps, start, epochs, r);
      EndsInOrder(topo, states, steps, start, epochs, r + 1);
    }
  }
}
