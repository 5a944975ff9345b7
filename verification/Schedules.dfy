/**
Runs built step by step. `ExtendByRound` goes on like the application's loop:
every node ticks and announces itself on all its clients, ten seconds later the
announcements of the chosen links are delivered, all others are lost, and every
node ticks again. Rounds are a minute apart.
 */
module Schedules {
  import opened Types
  import opened Routes
  import opened RouteHistory
  import opened Network
  import opened Walks
  import opened Traces
  import opened Convergence
  import opened Expiry

  // ------------------------------------------------------------------ extensions

  /** The first trace is the beginning of the second. */
  ghost predicate Extends(topo: Topology, states: seq<State>, steps: seq<NetStep>, states': seq<State>,
                          steps': seq<NetStep>)
  {
    Trace(topo, states, steps) && Trace(topo, states', steps') && states <= states' && steps <= steps'
  }

  lemma ExtendByStep(topo: Topology, states: seq<State>, steps: seq<NetStep>, step: NetStep)
    returns (states': seq<State>, steps': seq<NetStep>)
    requires Trace(topo, states, steps) && CanStep(topo, states[|steps|], step)
    ensures Extends(topo, states, steps, states', steps')
    ensures |steps'| == |steps| + 1 && steps'[|steps|] == step
    ensures |states'| == |steps'| + 1 && states'[|steps'|] == Next(topo, states[|steps|], step)
  {
    hide CanStep, Next;
    states', steps' := states + [Next(topo, states[|steps|], step)], steps + [step];
    forall k | 0 <= k < |steps'| ensures TraceStep(topo, states'[k], steps'[k], states'[k + 1]) {
      if k < |steps| {
        assert TraceStep(topo, states[k], steps[k], states[k + 1]);
      }
    }
  }

  lemma ExtendsTrace(topo: Topology, states: seq<State>, steps: seq<NetStep>, states': seq<State>, steps': seq<NetStep>)
    requires Extends(topo, states, steps, states', steps')
    ensures Trace(topo, states', steps') && |steps| <= |steps'| && |states'| == |steps'| + 1
  {}

  lemma ExtendsTransitive(topo: Topology, states: seq<State>, steps: seq<NetStep>, states': seq<State>,
                          steps': seq<NetStep>, states'': seq<State>, steps'': seq<NetStep>)
    requires Extends(topo, states, steps, states', steps') && Extends(topo, states', steps', states'', steps'')
    ensures Extends(topo, states, steps, states'', steps'')
  {
    hide Trace;
  }

  lemma LastKeys(topo: Topology, states: seq<State>, steps: seq<NetStep>)
    requires UniqueAddresses(topo) && Trace(topo, states, steps)
    ensures states[|steps|].managers.Keys == topo.nodes.Keys
  {
    TraceIsRun(topo, states, steps, |steps|);
    ReachableIsSound(topo, steps[..|steps|]);
  }

  /** The step can be taken in every state in which at least these packets fly. */
  predicate Ready(topo: Topology, flying: set<Packet>, step: NetStep) {
    match step
    case Send(n, mac) => IsClient(topo, n, mac)
    case Deliver(packet, n, mac, _) =>
      IsClient(topo, n, mac) && packet in flying && (packet.sender, AddressOf(topo, n, mac)) in topo.links
    case Drop(_) => false
    case TickNode(n, _) => n in topo.nodes
  }

  predicate AllReady(topo: Topology, flying: set<Packet>, more: seq<NetStep>) {
    forall p :: 0 <= p < |more| ==> Ready(topo, flying, more[p])
  }

  lemma ReadyCanStep(topo: Topology, s: State, flying: set<Packet>, step: NetStep)
    requires Ready(topo, flying, step) && flying <= s.inFlight && s.managers.Keys == topo.nodes.Keys
    ensures CanStep(topo, s, step) && s.inFlight <= Next(topo, s, step).inFlight
  {
    hide Step, Announcement;
  }

  /** Steps that are ready can be taken one after the other. */
  lemma {:induction false} ExtendAll(topo: Topology, states: seq<State>, steps: seq<NetStep>, more: seq<NetStep>)
    returns (states': seq<State>, steps': seq<NetStep>)
    requires UniqueAddresses(topo) && Trace(topo, states, steps) && |states| == |steps| + 1
    requires AllReady(topo, states[|steps|].inFlight, more)
    ensures Extends(topo, states, steps, states', steps') && |states'| == |steps'| + 1 && steps' == steps + more
    ensures states[|steps|].inFlight <= states'[|steps'|].inFlight
    decreases |more|
  {
    hide UniqueAddresses, Trace, Ready;
    if more == [] {
      states', steps' := states, steps;
      assert steps + more == steps;
    } else {
      var (front, last) := (more[..|more| - 1], more[|more| - 1]);
      var states1, steps1 := ExtendAll(topo, states, steps, front);
      LastKeys(topo, states1, steps1);
      ReadyCanStep(topo, states1[|steps1|], states[|steps|].inFlight, last);
      hide CanStep, Next;
      states', steps' := ExtendByStep(topo, states1, steps1, last);
      AppendLast(steps, more, steps1, steps');
    }
  }

  lemma AppendLast(steps: seq<NetStep>, more: seq<NetStep>, steps1: seq<NetStep>, steps': seq<NetStep>)
    requires more != [] && steps1 == steps + more[..|more| - 1]
    requires steps1 <= steps' && |steps'| == |steps1| + 1 && steps'[|steps1|] == more[|more| - 1]
    ensures steps' == steps + more
  {
    assert steps' == steps1 + [more[|more| - 1]];
    assert more == more[..|more| - 1] + [more[|more| - 1]];
  }

  lemma {:induction false} InFlightGrows(topo: Topology, states: seq<State>, steps: seq<NetStep>, i: nat, j: nat)
    requires Trace(topo, states, steps) && i <= j <= |steps|
    requires forall k :: i <= k < j ==> !steps[k].Drop?
    ensures states[i].inFlight <= states[j].inFlight
    decreases j - i
  {
    hide CanStep, Next;
    if i < j {
      InFlightGrows(topo, states, steps, i, j - 1);
      assert TraceStep(topo, states[j - 1], steps[j - 1], states[j]);
      StepKeepsFlying(topo, states[j - 1], steps[j - 1]);
    }
  }

  lemma StepKeepsFlying(topo: Topology, s: State, step: NetStep)
    requires CanStep(topo, s, step) && !step.Drop?
    ensures s.inFlight <= Next(topo, s, step).inFlight
  {
    hide Step, Announcement;
  }

  // ------------------------------------------------------------- pieces of a round

  function Ticks(names: seq<string>, now: Time): (more: seq<NetStep>)
    ensures |more| == |names| && forall p :: 0 <= p < |names| ==> more[p] == TickNode(names[p], now)
  {
    seq(|names|, p requires 0 <= p < |names| => TickNode(names[p], now))
  }

  function Sends(clients: seq<(string, string)>): (more: seq<NetStep>)
    ensures |more| == |clients| && forall p :: 0 <= p < |clients| ==> more[p] == Send(clients[p].0, clients[p].1)
  {
    seq(|clients|, p requires 0 <= p < |clients| => Send(clients[p].0, clients[p].1))
  }

  /** Both ends of the link have clients. */
  ghost predicate Usable(topo: Topology, link: (Address, Address)) {
    link in topo.links && HasOwner(topo, link.0) && HasOwner(topo, link.1)
  }

  ghost predicate AllUsable(topo: Topology, links: seq<(Address, Address)>) {
    forall q :: 0 <= q < |links| ==> Usable(topo, links[q])
  }

  /** Step i announces on the address, and this is the packet. */
  ghost predicate SentFrom(topo: Topology, states: seq<State>, steps: seq<NetStep>, i: nat, a: Address, packet: Packet)
    requires |states| == |steps| + 1
  {
    && i < |steps| && steps[i].Send? && IsClient(topo, steps[i].node, steps[i].mac)
    && AddressOf(topo, steps[i].node, steps[i].mac) == a && steps[i].node in states[i].managers
    && packet == SentAt(topo, states[i], steps[i].node, steps[i].mac)
  }

  /** The step delivers over the link what a step since `from` announced. */
  ghost predicate DeliversOver(topo: Topology, states: seq<State>, steps: seq<NetStep>, from: nat,
                               link: (Address, Address), step: NetStep, now: Time)
    requires |states| == |steps| + 1
  {
    && step.Deliver? && step.now == now && IsClient(topo, step.node, step.mac)
    && AddressOf(topo, step.node, step.mac) == link.1 && link in topo.links
    && exists i: nat :: from <= i && SentFrom(topo, states, steps, i, link.0, step.packet)
  }

  /** Everyone has announced since `from`, and nothing was dropped. */
  ghost predicate EveryoneSent(topo: Topology, states: seq<State>, steps: seq<NetStep>, from: nat)
    requires |states| == |steps| + 1
  {
    && (forall k :: from <= k < |steps| ==> !steps[k].Drop?)
    && forall n, mac :: IsClient(topo, n, mac) ==> SentSinceBy(steps, from, n, mac)
  }

  predicate SentSinceBy(steps: seq<NetStep>, from: nat, n: string, mac: string) {
    exists i :: from <= i < |steps| && steps[i] == Send(n, mac)
  }

  /** What a client has announced since `from` is still in flight. */
  lemma AnnouncedFlies(topo: Topology, states: seq<State>, steps: seq<NetStep>, from: nat, m: string, mac: string)
    returns (i: nat, packet: Packet)
    requires Trace(topo, states, steps) && |states| == |steps| + 1
    requires EveryoneSent(topo, states, steps, from) && IsClient(topo, m, mac)
    ensures from <= i && SentFrom(topo, states, steps, i, AddressOf(topo, m, mac), packet)
    ensures packet in states[|steps|].inFlight && packet.sender == AddressOf(topo, m, mac)
  {
    assert SentSinceBy(steps, from, m, mac);
    i :| from <= i < |steps| && steps[i] == Send(m, mac);
    assert TraceStep(topo, states[i], steps[i], states[i + 1]);
    assert forall k :: i + 1 <= k < |steps| ==> !steps[k].Drop?;
    hide Trace, EveryoneSent;
    packet := SendFlies(topo, states[i], m, mac, states[i + 1]);
    InFlightGrows(topo, states, steps, i + 1, |steps|);
  }

  lemma SendFlies(topo: Topology, s: State, m: string, mac: string, s': State) returns (packet: Packet)
    requires TraceStep(topo, s, Send(m, mac), s')
    ensures IsClient(topo, m, mac) && m in s.managers && packet == SentAt(topo, s, m, mac)
    ensures packet in s'.inFlight && packet.sender == AddressOf(topo, m, mac)
  {
    hide FindRoutes, Advertised;
    packet := SentAt(topo, s, m, mac);
  }

  lemma ClientOf(topo: Topology, a: Address) returns (n: string, mac: string)
    requires HasOwner(topo, a)
    ensures IsClient(topo, n, mac) && AddressOf(topo, n, mac) == a
  {
    n :| Owns(topo, n, a);
    mac :| IsClient(topo, n, mac) && AddressOf(topo, n, mac) == a;
  }

  lemma OneDelivery(topo: Topology, states: seq<State>, steps: seq<NetStep>, from: nat, link: (Address, Address),
                    now: Time)
    returns (step: NetStep)
    requires Trace(topo, states, steps) && |states| == |steps| + 1
    requires EveryoneSent(topo, states, steps, from) && Usable(topo, link)
    ensures DeliversOver(topo, states, steps, from, link, step, now)
    ensures Ready(topo, states[|steps|].inFlight, step)
  {
    hide Trace, EveryoneSent, SentFrom, HasOwner, HasClient;
    var m, mac := ClientOf(topo, link.0);
    var n, mac' := ClientOf(topo, link.1);
    var i, packet := AnnouncedFlies(topo, states, steps, from, m, mac);
    step := Deliver(packet, n, mac', now);
  }

  ghost predicate AllDeliverOver(topo: Topology, states: seq<State>, steps: seq<NetStep>, from: nat,
                                 links: seq<(Address, Address)>, more: seq<NetStep>, now: Time)
    requires |states| == |steps| + 1
  {
    && |more| == |links|
    && forall q :: 0 <= q < |links| ==> DeliversOver(topo, states, steps, from, links[q], more[q], now)
  }

  lemma {:induction false} Deliveries(topo: Topology, states: seq<State>, steps: seq<NetStep>, from: nat,
                                      links: seq<(Address, Address)>, now: Time)
    returns (more: seq<NetStep>)
    requires Trace(topo, states, steps) && |states| == |steps| + 1
    requires EveryoneSent(topo, states, steps, from) && AllUsable(topo, links)
    ensures AllDeliverOver(topo, states, steps, from, links, more, now)
    ensures AllReady(topo, states[|steps|].inFlight, more)
    decreases |links|
  {
    hide Trace, EveryoneSent, Usable, DeliversOver, Ready;
    if links == [] {
      more := [];
    } else {
      var front := links[..|links| - 1];
      var others := Deliveries(topo, states, steps, from, front, now);
      assert Usable(topo, links[|links| - 1]);
      var last := OneDelivery(topo, states, steps, from, links[|links| - 1], now);
      more := others + [last];
    }
  }

  // ------------------------------------------------------------------- one round

  const LAP: Time := 60 * SECOND
  const DELAY: Time := 10 * SECOND

  /** All nodes by name, and all clients by node and MAC. */
  ghost predicate Everyone(topo: Topology, names: seq<string>, clients: seq<(string, string)>) {
    && (forall n :: n in topo.nodes <==> n in names)
    && (forall n, mac :: IsClient(topo, n, mac) <==> (n, mac) in clients)
  }

  /** The kinds of steps a round takes, and when. */
  ghost predicate RoundStep(topo: Topology, states: seq<State>, steps: seq<NetStep>, from: nat,
                            links: seq<(Address, Address)>, k: nat, t: Time)
    requires |states| == |steps| + 1 && k < |steps|
  {
    match steps[k]
    case Send(_, _) => true
    case Deliver(packet, _, _, now) =>
      && now == t + LAP + 1 && SentSince(topo, states, steps, from, k)
      && exists q :: 0 <= q < |links| && links[q].0 == packet.sender
    case Drop(_) => false
    case TickNode(_, now) => t + LAP + 1 - DELAY <= now <= t + LAP + 1
  }

  ghost predicate TicksIn(steps: seq<NetStep>, n: string, from: nat, to: nat, now: Time) {
    exists k: nat :: from <= k < to && k < |steps| && steps[k] == TickNode(n, now)
  }

  ghost predicate LinkCarried(topo: Topology, states: seq<State>, steps: seq<NetStep>, link: (Address, Address),
                              from: nat, to: nat)
    requires |states| == |steps| + 1
  {
    forall n :: Owns(topo, n, link.1) ==> Carries(topo, states, steps, link, n, from, to)
  }

  /** A round over the links: announcements cross them, and every clock comes to t + 60 s. */
  ghost predicate RoundOver(topo: Topology, states: seq<State>, steps: seq<NetStep>, from: nat, to: nat,
                            links: seq<(Address, Address)>, t: Time)
    requires |states| == |steps| + 1
  {
    && from <= to <= |steps|
    && (forall k: nat :: from <= k < to ==> RoundStep(topo, states, steps, from, links, k, t))
    && (forall q :: 0 <= q < |links| ==> LinkCarried(topo, states, steps, links[q], from, to))
    && (forall n :: n in topo.nodes ==> TicksIn(steps, n, from, to, t + LAP + 1))
  }

  /** The first half: every clock ticks, and everyone announces. */
  lemma ExtendByAnnouncements(topo: Topology, states: seq<State>, steps: seq<NetStep>, names: seq<string>,
                              clients: seq<(string, string)>, now: Time)
    returns (states': seq<State>, steps': seq<NetStep>)
    requires UniqueAddresses(topo) && Trace(topo, states, steps) && |states| == |steps| + 1
    requires Everyone(topo, names, clients)
    ensures Extends(topo, states, steps, states', steps') && |states'| == |steps'| + 1
    ensures steps' == steps + (Ticks(names, now) + Sends(clients))
    ensures EveryoneSent(topo, states', steps', |steps|)
  {
    var more := Ticks(names, now) + Sends(clients);
    forall p | 0 <= p < |more| ensures Ready(topo, states[|steps|].inFlight, more[p]) {
      if p < |names| {
        assert names[p] in topo.nodes;
      } else {
        assert clients[p - |names|] in clients;
      }
    }
    hide UniqueAddresses, Trace;
    states', steps' := ExtendAll(topo, states, steps, more);
    EveryoneHasSent(topo, states', steps', steps, names, clients, now);
  }

  lemma EveryoneHasSent(topo: Topology, states': seq<State>, steps': seq<NetStep>, steps: seq<NetStep>,
                        names: seq<string>, clients: seq<(string, string)>, now: Time)
    requires |states'| == |steps'| + 1 && Everyone(topo, names, clients)
    requires steps' == steps + (Ticks(names, now) + Sends(clients))
    ensures EveryoneSent(topo, states', steps', |steps|)
  {
    forall n, mac | IsClient(topo, n, mac) ensures SentSinceBy(steps', |steps|, n, mac) {
      assert (n, mac) in clients;
      var p :| 0 <= p < |clients| && clients[p] == (n, mac);
      assert steps'[|steps| + |names| + p] == Send(n, mac);
    }
  }

  /** The second half: the deliveries, and every clock ticks again. */
  lemma ExtendByDeliveries(topo: Topology, states: seq<State>, steps: seq<NetStep>, from: nat, names: seq<string>,
                           clients: seq<(string, string)>, links: seq<(Address, Address)>, now: Time)
    returns (states': seq<State>, steps': seq<NetStep>, deliveries: seq<NetStep>)
    requires UniqueAddresses(topo) && Trace(topo, states, steps) && |states| == |steps| + 1
    requires Everyone(topo, names, clients) && EveryoneSent(topo, states, steps, from) && AllUsable(topo, links)
    ensures Extends(topo, states, steps, states', steps') && |states'| == |steps'| + 1
    ensures AllDeliverOver(topo, states, steps, from, links, deliveries, now)
    ensures steps' == steps + (deliveries + Ticks(names, now))
  {
    forall p | 0 <= p < |names| ensures names[p] in topo.nodes { assert names[p] in names; }
    hide UniqueAddresses, Trace, EveryoneSent, Everyone, AllDeliverOver, AllUsable;
    deliveries := Deliveries(topo, states, steps, from, links, now);
    states', steps' := ExtendAll(topo, states, steps, deliveries + Ticks(names, now));
  }

  /** A delivery in the second half is a crossing of its link. */
  lemma DeliveryCrosses(topo: Topology, states: seq<State>, steps: seq<NetStep>, states': seq<State>,
                        steps': seq<NetStep>, from: nat, link: (Address, Address), j: nat, now: Time)
    returns (i: nat)
    requires |states| == |steps| + 1 && |states'| == |steps'| + 1 && Extends(topo, states, steps, states', steps')
    requires |steps| <= j < |steps'| && DeliversOver(topo, states, steps, from, link, steps'[j], now)
    ensures from <= i < j && Crosses(topo, states', steps', link, i, j) && SentAs(topo, states', steps', i, j)
    ensures steps'[j].Deliver? && steps'[j].packet.sender == link.0 && steps'[j].now == now
  {
    hide Trace, FindRoutes, Advertised;
    i :| from <= i && SentFrom(topo, states, steps, i, link.0, steps'[j].packet);
    assert states'[i] == states[i] && steps'[i] == steps[i];
  }

  /** The step at position k of a round: ticks, announcements, deliveries, ticks. */
  function StepAt(names: seq<string>, clients: seq<(string, string)>, deliveries: seq<NetStep>, now: Time,
                  k: nat): NetStep
    requires k < 2 * |names| + |clients| + |deliveries|
  {
    if k < |names| then TickNode(names[k], now - DELAY)
    else if k < |names| + |clients| then Send(clients[k - |names|].0, clients[k - |names|].1)
    else if k < |names| + |clients| + |deliveries| then deliveries[k - |names| - |clients|]
    else TickNode(names[k - |names| - |clients| - |deliveries|], now)
  }

  ghost predicate Laid(steps: seq<NetStep>, middle: seq<NetStep>, steps': seq<NetStep>, names: seq<string>,
                       clients: seq<(string, string)>, deliveries: seq<NetStep>, now: Time) {
    && |middle| == |steps| + |names| + |clients|
    && |steps'| == |middle| + |deliveries| + |names|
    && forall k :: |steps| <= k < |steps'| ==> steps'[k] == StepAt(names, clients, deliveries, now, k - |steps|)
  }

  lemma LayOut(steps: seq<NetStep>, middle: seq<NetStep>, steps': seq<NetStep>, names: seq<string>,
               clients: seq<(string, string)>, deliveries: seq<NetStep>, now: Time)
    requires middle == steps + (Ticks(names, now - DELAY) + Sends(clients))
    requires steps' == middle + (deliveries + Ticks(names, now))
    ensures Laid(steps, middle, steps', names, clients, deliveries, now)
  {
    forall k | |steps| <= k < |steps'| ensures steps'[k] == StepAt(names, clients, deliveries, now, k - |steps|) {
      assert k < |middle| ==> steps'[k] == middle[k] == (Ticks(names, now - DELAY) + Sends(clients))[k - |steps|];
      assert k >= |middle| ==> steps'[k] == (deliveries + Ticks(names, now))[k - |middle|];
    }
  }

  lemma RoundKinds(topo: Topology, states1: seq<State>, steps1: seq<NetStep>, states': seq<State>, steps': seq<NetStep>,
                   steps: seq<NetStep>, names: seq<string>, clients: seq<(string, string)>, deliveries: seq<NetStep>,
                   links: seq<(Address, Address)>, t: Time, k: nat)
    requires |states1| == |steps1| + 1 && |states'| == |steps'| + 1
    requires Extends(topo, states1, steps1, states', steps')
    requires Laid(steps, steps1, steps', names, clients, deliveries, t + LAP + 1)
    requires AllDeliverOver(topo, states1, steps1, |steps|, links, deliveries, t + LAP + 1)
    requires |steps| <= k < |steps'|
    ensures RoundStep(topo, states', steps', |steps|, links, k, t)
  {
    hide Extends, DeliversOver, Crosses, SentAs;
    var now := t + LAP + 1;
    assert steps'[k] == StepAt(names, clients, deliveries, now, k - |steps|);
    if |steps1| <= k < |steps1| + |deliveries| {
      var q := k - |steps1|;
      assert steps'[k] == deliveries[q];
      assert DeliversOver(topo, states1, steps1, |steps|, links[q], deliveries[q], now);
      var i := DeliveryCrosses(topo, states1, steps1, states', steps', |steps|, links[q], k, now);
      SentIsSince(topo, states', steps', |steps|, i, k);
    }
  }

  lemma SentIsSince(topo: Topology, states: seq<State>, steps: seq<NetStep>, start: nat, i: nat, j: nat)
    requires |states| == |steps| + 1 && start <= i < j < |steps| && SentAs(topo, states, steps, i, j)
    ensures SentSince(topo, states, steps, start, j)
  {
    hide SentAs;
  }

  lemma LinkIsCarried(topo: Topology, states1: seq<State>, steps1: seq<NetStep>, states': seq<State>,
                      steps': seq<NetStep>, steps: seq<NetStep>, names: seq<string>, clients: seq<(string, string)>,
                      deliveries: seq<NetStep>, links: seq<(Address, Address)>, now: Time, q: nat)
    requires |states1| == |steps1| + 1 && |states'| == |steps'| + 1
    requires Extends(topo, states1, steps1, states', steps') && Everyone(topo, names, clients)
    requires Laid(steps, steps1, steps', names, clients, deliveries, now)
    requires AllDeliverOver(topo, states1, steps1, |steps|, links, deliveries, now) && q < |links|
    ensures LinkCarried(topo, states', steps', links[q], |steps|, |steps'|)
  {
    hide Extends, DeliversOver, Crosses, SentAs;
    var j := |steps1| + q;
    assert steps'[j] == deliveries[q] && DeliversOver(topo, states1, steps1, |steps|, links[q], deliveries[q], now);
    var i := DeliveryCrosses(topo, states1, steps1, states', steps', |steps|, links[q], j, now);
    forall n | Owns(topo, n, links[q].1) ensures Carries(topo, states', steps', links[q], n, |steps|, |steps'|) {
      assert n in names;
      var p :| 0 <= p < |names| && names[p] == n;
      var k := |steps1| + |deliveries| + p;
      assert steps'[k] == TickNode(names[p], now);
      assert CrossesThenTicks(topo, states', steps', links[q], n, i, j, k);
    }
  }

  /** A round over the links can always follow. */
  lemma ExtendByRound(topo: Topology, states: seq<State>, steps: seq<NetStep>, names: seq<string>,
                      clients: seq<(string, string)>, links: seq<(Address, Address)>, t: Time)
    returns (states': seq<State>, steps': seq<NetStep>)
    requires UniqueAddresses(topo) && Trace(topo, states, steps) && |states| == |steps| + 1
    requires Everyone(topo, names, clients) && AllUsable(topo, links)
    ensures Extends(topo, states, steps, states', steps') && |states'| == |steps'| + 1
    ensures RoundOver(topo, states', steps', |steps|, |steps'|, links, t)
  {
    hide UniqueAddresses, Trace, Extends, AllUsable, Everyone, EveryoneSent, AllDeliverOver, Laid, Ticks, Sends,
         RoundStep, LinkCarried;
    var now := t + LAP + 1;
    var states1, steps1 := ExtendByAnnouncements(topo, states, steps, names, clients, now - DELAY);
    ExtendsTrace(topo, states, steps, states1, steps1);
    var deliveries;
    states', steps', deliveries := ExtendByDeliveries(topo, states1, steps1, |steps|, names, clients, links, now);
    ExtendsTransitive(topo, states, steps, states1, steps1, states', steps');
    LayOut(steps, steps1, steps', names, clients, deliveries, now);
    forall k: nat | |steps| <= k < |steps'| ensures RoundStep(topo, states', steps', |steps|, links, k, t) {
      RoundKinds(topo, states1, steps1, states', steps', steps, names, clients, deliveries, links, t, k);
    }
    forall q: nat | q < |links| ensures LinkCarried(topo, states', steps', links[q], |steps|, |steps'|) {
      LinkIsCarried(topo, states1, steps1, states', steps', steps, names, clients, deliveries, links, now, q);
    }
    forall n | n in topo.nodes ensures TicksIn(steps', n, |steps|, |steps'|, now) {
      EveryClockTicks(topo, steps, steps1, steps', names, clients, deliveries, now, n);
    }
    ExtendsTrace(topo, states, steps, states', steps');
  }

  lemma EveryClockTicks(topo: Topology, steps: seq<NetStep>, middle: seq<NetStep>, steps': seq<NetStep>,
                        names: seq<string>, clients: seq<(string, string)>, deliveries: seq<NetStep>, now: Time,
                        n: string)
    requires Laid(steps, middle, steps', names, clients, deliveries, now)
    requires Everyone(topo, names, clients) && n in topo.nodes
    ensures TicksIn(steps', n, |steps|, |steps'|, now)
  {
    assert n in names;
    var p :| 0 <= p < |names| && names[p] == n;
    var k := |middle| + |deliveries| + p;
    assert steps'[k] == TickNode(names[p], now);
  }
}
