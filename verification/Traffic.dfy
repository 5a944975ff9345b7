/**
The simulator's topology: nodes whose adapter entries name routers, and routers
whose participant maps name nodes. `RunsStayConsistent` keeps the two maps
linked over every legal run, and `MulticastReachesNeighbours` says what that is
worth to a sender.
 */
module Traffic {
  import opened Types
  import opened Sequences
  import opened Ordering

  type NodeKey = nat
  type RouterKey = nat
  type AdapterKey = nat

  /** A client object, known by its identity, and the address it is bound to. */
  datatype SimClient = SimClient(identity: nat, address: Address)

  datatype AdapterEntry = AdapterEntry(adapter: AdapterKey, router: Option<RouterKey>, client: SimClient)

  type Participants = map<NodeKey, SimClient>
  type Nodes = map<NodeKey, seq<AdapterEntry>>
  type Routers = map<RouterKey, Participants>

  datatype SimState = SimState(nodes: Nodes, routers: Routers)

  /** A datagram handed to a participant's client. */
  datatype Delivery = Delivery(node: NodeKey, client: SimClient, sender: Address)

  predicate KeyLeq(a: nat, b: nat) {
    a <= b
  }

  function AscendingKeys(keys: set<nat>): (order: seq<nat>)
    ensures Enumerates(order, keys)
    ensures forall i, j :: 0 <= i < j < |order| ==> order[i] < order[j]
  {
    Sorted(keys, KeyLeq)
  }

  lemma EveryKey(keys: set<nat>, order: seq<nat>)
    requires Enumerates(order, keys)
    ensures forall i :: 0 <= i < |order| ==> order[i] in keys
    ensures forall i, j :: 0 <= i < j < |order| ==> order[i] != order[j]
    ensures forall n :: n in keys ==> exists k :: 0 <= k < |order| && order[k] == n
  {
    forall i | 0 <= i < |order| ensures order[i] in keys { assert order[i] in order; }
    forall n | n in keys ensures exists k :: 0 <= k < |order| && order[k] == n { assert n in order; }
  }

  /** `std::map::insert`: an existing key keeps its value. */
  function Insert(p: Participants, n: NodeKey, c: SimClient): Participants {
    if n in p then p else p[n := c]
  }

  function FanOutOver(p: Participants, order: seq<NodeKey>, from: NodeKey, sender: Address): seq<Delivery> {
    if order == [] then [] else
      var last := order[|order| - 1];
      FanOutOver(p, order[..|order| - 1], from, sender)
      + if last != from && last in p then [Delivery(last, p[last], sender)] else []
  }

  function FanOut(p: Participants, from: NodeKey, sender: Address): seq<Delivery> {
    FanOutOver(p, AscendingKeys(p.Keys), from, sender)
  }

  /** Position of the first entry of an adapter, or the length. */
  function EntryIndex(entries: seq<AdapterEntry>, adapter: AdapterKey): (i: nat)
    ensures i <= |entries|
    ensures i < |entries| ==> entries[i].adapter == adapter
    ensures forall k :: 0 <= k < i ==> entries[k].adapter != adapter
  {
    if entries == [] || entries[0].adapter == adapter then 0 else 1 + EntryIndex(entries[1..], adapter)
  }

  // --------------------------------------------------------------- operations

  function AddNode(s: SimState, n: NodeKey, adapter: AdapterKey, client: SimClient): SimState {
    var entry := AdapterEntry(adapter, None, client);
    s.(nodes := s.nodes[n := if n in s.nodes then s.nodes[n] + [entry] else [entry]])
  }

  /** Node n leaves the router an entry names, if that router exists. */
  function Leave(routers: Routers, n: NodeKey, router: Option<RouterKey>): Routers {
    if router.Some? && router.value in routers
    then routers[router.value := routers[router.value] - {n}] else routers
  }

  function LeaveAll(routers: Routers, n: NodeKey, entries: seq<AdapterEntry>): Routers {
    if entries == [] then routers
    else Leave(LeaveAll(routers, n, entries[..|entries| - 1]), n, entries[|entries| - 1].router)
  }

  function RemoveNode(s: SimState, n: NodeKey): SimState {
    if n !in s.nodes then s else SimState(s.nodes - {n}, LeaveAll(s.routers, n, s.nodes[n]))
  }

  function AddRouter(s: SimState, r: RouterKey): SimState {
    if r in s.routers then s else s.(routers := s.routers[r := map[]])
  }

  function Unlink(entries: seq<AdapterEntry>, r: RouterKey): (u: seq<AdapterEntry>)
    ensures |u| == |entries|
    ensures forall i :: 0 <= i < |u| ==>
      u[i] == if entries[i].router == Some(r) then entries[i].(router := None) else entries[i]
  {
    if entries == [] then [] else
      var last := entries[|entries| - 1];
      Unlink(entries[..|entries| - 1], r) + [if last.router == Some(r) then last.(router := None) else last]
  }

  function RemoveRouter(s: SimState, r: RouterKey): SimState {
    SimState(map n | n in s.nodes :: Unlink(s.nodes[n], r), s.routers - {r})
  }

  function AddLink(s: SimState, n: NodeKey, adapter: AdapterKey, r: RouterKey): (SimState, bool) {
    if n !in s.nodes || r !in s.routers then (s, false) else
      var entries := s.nodes[n];
      var i := EntryIndex(entries, adapter);
      if i == |entries| then (s, false) else
        (SimState(s.nodes[n := entries[i := entries[i].(router := Some(r))]],
                  s.routers[r := Insert(s.routers[r], n, entries[i].client)]), true)
  }

  function RemoveLink(s: SimState, n: NodeKey, adapter: AdapterKey): SimState {
    if n !in s.nodes then s else
      var entries := s.nodes[n];
      var i := EntryIndex(entries, adapter);
      if i == |entries| || entries[i].router.None? then s else
        SimState(s.nodes[n := entries[i := entries[i].(router := None)]], Leave(s.routers, n, entries[i].router))
  }

  function SentBy(s: SimState, n: NodeKey, entry: AdapterEntry, address: Address): seq<Delivery> {
    if entry.client.address == address && entry.router.Some? && entry.router.value in s.routers
    then FanOut(s.routers[entry.router.value], n, address) else []
  }

  function SentByAll(s: SimState, n: NodeKey, entries: seq<AdapterEntry>, address: Address): seq<Delivery> {
    if entries == [] then []
    else SentByAll(s, n, entries[..|entries| - 1], address) + SentBy(s, n, entries[|entries| - 1], address)
  }

  /** A multicast by node n on the client bound to `address`. */
  function DataSent(s: SimState, n: NodeKey, address: Address): seq<Delivery> {
    if n !in s.nodes then [] else SentByAll(s, n, s.nodes[n], address)
  }

  // ------------------------------------------------------------------- classes

  class NetworkRouter {
    var participants: Participants

    constructor ()
      ensures participants == map[]
    {
      participants := map[];
    }

    method AddParticipant(n: NodeKey, client: SimClient)
      modifies this
      ensures participants == Insert(old(participants), n, client)
    {
      if n !in participants {
        participants := participants[n := client];
      }
    }

    method RemoveParticipant(n: NodeKey)
      modifies this
      ensures participants == old(participants) - {n}
    {
      participants := participants - {n};
    }

    method SendData(from: NodeKey, sender: Address) returns (deliveries: seq<Delivery>)
      ensures deliveries == FanOut(participants, from, sender)
    {
      hide AscendingKeys;
      var order := AscendingKeys(participants.Keys);
      deliveries := [];
      for i := 0 to |order|
        invariant deliveries == FanOutOver(participants, order[..i], from, sender)
      {
        TakeFront(order, i);
        if order[i] != from {
          deliveries := deliveries + [Delivery(order[i], participants[order[i]], sender)];
        }
      }
      TakeAll(order);
    }
  }

  class TrafficManager {
    var nodes: Nodes
    var routers: map<RouterKey, NetworkRouter>

    /** The routers are held by value in the source: no two keys share one. */
    ghost predicate Valid()
      reads this
    {
      forall r, r' :: r in routers && r' in routers && r != r' ==> routers[r] != routers[r']
    }

    ghost function RouterView(): Routers
      reads this`routers, routers.Values
    {
      map r | r in routers :: routers[r].participants
    }

    ghost function State(): SimState
      reads this, routers.Values
    {
      SimState(nodes, RouterView())
    }

    constructor ()
      ensures Valid() && State() == SimState(map[], map[]) && routers == map[]
    {
      nodes, routers := map[], map[];
    }

    method AddNodeEntry(n: NodeKey, adapter: AdapterKey, client: SimClient)
      requires Valid()
      modifies this`nodes
      ensures Valid() && State() == AddNode(old(State()), n, adapter, client)
      ensures NodeAdded(old(State()), n, adapter, client, State())
    {
      var entry := AdapterEntry(adapter, None, client);
      if n in nodes {
        nodes := nodes[n := nodes[n] + [entry]];
      } else {
        nodes := nodes[n := [entry]];
      }
    }

    /** `find` the router an entry names and take the node out of it. */
    method LeaveRouter(n: NodeKey, router: Option<RouterKey>)
      requires Valid()
      modifies routers.Values
      ensures Valid() && RouterView() == Leave(old(RouterView()), n, router)
    {
      if router.Some? {
        if router.value in routers {
          routers[router.value].RemoveParticipant(n);
        }
      }
    }

    method RemoveNodeEntries(n: NodeKey)
      requires Valid()
      modifies this`nodes, routers.Values
      ensures Valid() && State() == RemoveNode(old(State()), n)
      ensures NodeRemoved(old(State()), n, State())
    {
      RemoveNodeEffect(State(), n);
      hide RouterView, RemoveNode, NodeRemoved;
      UnlistNode(n);
    }

    /** The body of `remove_node`. */
    method UnlistNode(n: NodeKey)
      requires Valid()
      modifies this`nodes, routers.Values
      ensures Valid() && State() == RemoveNode(old(State()), n)
    {
      hide RouterView;
      if n in nodes {
        var entries := nodes[n];
        for i := 0 to |entries|
          invariant Valid() && nodes == old(nodes)
          invariant RouterView() == LeaveAll(old(RouterView()), n, entries[..i])
        {
          TakeFront(entries, i);
          LeaveRouter(n, entries[i].router);
        }
        TakeAll(entries);
        nodes := nodes - {n};
      }
    }

    /** Answers false whether or not the router was added, as the source does. */
    method AddNewRouter(r: RouterKey) returns (added: bool)
      requires Valid()
      modifies this`routers
      ensures Valid() && State() == AddRouter(old(State()), r) && !added
      ensures RouterAdded(old(State()), r, State())
      ensures fresh(routers.Values - old(routers.Values))
    {
      if r !in routers {
        var router := new NetworkRouter();
        routers := routers[r := router];
      }
      added := false;
    }

    method RemoveRouterAndLinks(r: RouterKey)
      requires Valid()
      modifies this
      ensures Valid() && State() == RemoveRouter(old(State()), r)
      ensures routers == old(routers) - {r}
      ensures RouterRemoved(old(State()), r, State())
    {
      RemoveRouterEffect(State(), r);
      hide Unlink, RouterRemoved;
      ghost var start := State();
      UnlinkNodes(r);
      assert RouterView() == start.routers;
      routers := map q | q in routers && q != r :: routers[q];
      assert RouterView() == start.routers - {r};
    }

    /** The loops of `remove_router` over all nodes and their adapters. */
    method UnlinkNodes(r: RouterKey)
      modifies this`nodes
      ensures nodes == map n | n in old(nodes) :: Unlink(old(nodes)[n], r)
    {
      hide AscendingKeys, Unlink, Enumerates;
      var order := AscendingKeys(nodes.Keys);
      EveryKey(nodes.Keys, order);
      for i := 0 to |order|
        invariant nodes.Keys == old(nodes).Keys
        invariant forall k :: 0 <= k < i ==> nodes[order[k]] == Unlink(old(nodes)[order[k]], r)
        invariant forall k :: i <= k < |order| ==> nodes[order[k]] == old(nodes)[order[k]]
      {
        var entries := UnlinkEntries(nodes[order[i]], r);
        nodes := nodes[order[i] := entries];
      }
      assert forall n :: n in old(nodes) ==> exists k :: 0 <= k < |order| && order[k] == n;
    }

    /** `add_participant` on the router found. */
    method JoinRouter(n: NodeKey, r: RouterKey, client: SimClient)
      requires Valid() && r in routers
      modifies routers.Values
      ensures RouterView() == old(RouterView())[r := Insert(old(RouterView())[r], n, client)]
    {
      routers[r].AddParticipant(n, client);
    }

    method UnlinkEntries(entries: seq<AdapterEntry>, r: RouterKey) returns (u: seq<AdapterEntry>)
      ensures u == Unlink(entries, r)
    {
      hide Unlink;
      u := entries;
      for i := 0 to |entries|
        invariant |u| == |entries|
        invariant forall k :: 0 <= k < i ==> u[k] == Unlink(entries, r)[k]
        invariant forall k :: i <= k < |u| ==> u[k] == entries[k]
      {
        if u[i].router.Some? && u[i].router == Some(r) {
          u := u[i := u[i].(router := None)];
        }
      }
    }

    method LinkAdapter(n: NodeKey, adapter: AdapterKey, r: RouterKey) returns (linked: bool)
      requires Valid()
      modifies this`nodes, routers.Values
      ensures Valid() && (State(), linked) == AddLink(old(State()), n, adapter, r)
      ensures LinkAdded(old(State()), n, adapter, r, State(), linked)
    {
      AddLinkEffect(State(), n, adapter, r);
      hide LinkAdded;
      if n in nodes && r in routers {
        var entries := nodes[n];
        for i := 0 to |entries|
          invariant Valid() && nodes == old(nodes) && RouterView() == old(RouterView())
          invariant forall k :: 0 <= k < i ==> entries[k].adapter != adapter
        {
          if entries[i].adapter == adapter {
            nodes := nodes[n := entries[i := entries[i].(router := Some(r))]];
            JoinRouter(n, r, entries[i].client);
            assert i == EntryIndex(entries, adapter);
            return true;
          }
        }
      }
      return false;
    }

    method UnlinkAdapter(n: NodeKey, adapter: AdapterKey)
      requires Valid()
      modifies this`nodes, routers.Values
      ensures Valid() && State() == RemoveLink(old(State()), n, adapter)
      ensures LinkRemoved(old(State()), n, adapter, State())
    {
      RemoveLinkEffect(State(), n, adapter);
      hide RouterView, LinkRemoved;
      if n in nodes {
        var entries := nodes[n];
        for i := 0 to |entries|
          invariant Valid() && nodes == old(nodes) && RouterView() == old(RouterView())
          invariant forall k :: 0 <= k < i ==> entries[k].adapter != adapter
        {
          if entries[i].adapter == adapter {
            assert i == EntryIndex(entries, adapter);
            if entries[i].router.Some? {
              LeaveRouter(n, entries[i].router);
              nodes := nodes[n := entries[i := entries[i].(router := None)]];
            }
            break;
          }
        }
      }
    }

    method SendData(n: NodeKey, address: Address) returns (deliveries: seq<Delivery>)
      ensures deliveries == DataSent(State(), n, address)
    {
      hide FanOut;
      deliveries := [];
      if n !in nodes {
        return;
      }
      var entries := nodes[n];
      for i := 0 to |entries|
        invariant deliveries == SentByAll(State(), n, entries[..i], address)
      {
        TakeFront(entries, i);
        var entry := entries[i];
        if entry.client.address == address {
          if entry.router.Some? {
            if entry.router.value in routers {
              var more := routers[entry.router.value].SendData(n, address);
              deliveries := deliveries + more;
            }
          }
        }
      }
      TakeAll(entries);
    }
  }

  // --------------------------------------------------------------- consistency

  /** Entry i of node n names router r with client c. */
  predicate Linked(s: SimState, n: NodeKey, i: nat, r: RouterKey, c: SimClient) {
    n in s.nodes && i < |s.nodes[n]| && s.nodes[n][i].router == Some(r) && s.nodes[n][i].client == c
  }

  predicate Takes(s: SimState, r: RouterKey, n: NodeKey, c: SimClient) {
    r in s.routers && n in s.routers[r] && s.routers[r][n] == c
  }

  predicate Names(entries: seq<AdapterEntry>, r: RouterKey) {
    exists i :: 0 <= i < |entries| && entries[i].router == Some(r)
  }

  // ------------------------------------------------------ what the operations do

  /** The node's list ends in a new, unlinked entry; nothing else changed. */
  ghost predicate NodeAdded(s: SimState, n: NodeKey, adapter: AdapterKey, client: SimClient, after: SimState) {
    && after.routers == s.routers && after.nodes.Keys == s.nodes.Keys + {n}
    && (forall m :: m in s.nodes && m != n ==> after.nodes[m] == s.nodes[m])
    && var entries := after.nodes[n];
       && |entries| == 1 + (if n in s.nodes then |s.nodes[n]| else 0)
       && entries[|entries| - 1] == AdapterEntry(adapter, None, client)
       && (n in s.nodes ==> entries[..|s.nodes[n]|] == s.nodes[n])
  }

  /** The node is gone, and so is its place on every router its entries named; nothing else changed. */
  ghost predicate NodeRemoved(s: SimState, n: NodeKey, after: SimState) {
    && n !in after.nodes && after.nodes.Keys == s.nodes.Keys - {n} && after.routers.Keys == s.routers.Keys
    && (forall m :: m in after.nodes ==> after.nodes[m] == s.nodes[m])
    && forall q, m, c :: Takes(after, q, m, c) <==>
         Takes(s, q, m, c) && !(m == n && n in s.nodes && Names(s.nodes[n], q))
  }

  /** The router is there, empty if it is new; nothing else changed. */
  ghost predicate RouterAdded(s: SimState, r: RouterKey, after: SimState) {
    && after.nodes == s.nodes && after.routers.Keys == s.routers.Keys + {r}
    && (forall q :: q in s.routers ==> after.routers[q] == s.routers[q])
    && (r !in s.routers ==> after.routers[r] == map[])
  }

  /** The router is gone, and no entry names it any more; nothing else changed. */
  ghost predicate RouterRemoved(s: SimState, r: RouterKey, after: SimState) {
    && after.nodes.Keys == s.nodes.Keys && after.routers.Keys == s.routers.Keys - {r}
    && (forall n, i, q, c :: Linked(after, n, i, q, c) <==> q != r && Linked(s, n, i, q, c))
    && (forall q, n, c :: Takes(after, q, n, c) <==> q != r && Takes(s, q, n, c))
    && forall n :: n in s.nodes ==> SameEntries(s.nodes[n], after.nodes[n])
  }

  /** The same adapters with the same clients. */
  ghost predicate SameEntries(a: seq<AdapterEntry>, b: seq<AdapterEntry>) {
    |a| == |b| && forall i :: 0 <= i < |a| ==> a[i].adapter == b[i].adapter && a[i].client == b[i].client
  }

  /** The node's first entry of the adapter. */
  ghost predicate FirstEntry(s: SimState, n: NodeKey, adapter: AdapterKey, at: nat) {
    && n in s.nodes && at < |s.nodes[n]| && s.nodes[n][at].adapter == adapter
    && forall k :: 0 <= k < at ==> s.nodes[n][k].adapter != adapter
  }

  /**
  If node, router and entry exist, the entry names the router and its client is
  a participant unless the node already was one; otherwise nothing changed.
   */
  ghost predicate LinkAdded(s: SimState, n: NodeKey, adapter: AdapterKey, r: RouterKey, after: SimState, linked: bool) {
    && (linked <==> r in s.routers && exists at :: FirstEntry(s, n, adapter, at))
    && (!linked ==> after == s)
    && forall at :: linked && FirstEntry(s, n, adapter, at) ==> LinkedAt(s, n, at, r, after)
  }

  ghost predicate LinkedAt(s: SimState, n: NodeKey, at: nat, r: RouterKey, after: SimState)
    requires n in s.nodes && at < |s.nodes[n]|
  {
    var client := s.nodes[n][at].client;
    && after.nodes.Keys == s.nodes.Keys && after.routers.Keys == s.routers.Keys
    && (forall m :: m in s.nodes ==> SameEntries(s.nodes[m], after.nodes[m]))
    && (forall m, i, q, c :: Linked(after, m, i, q, c) <==>
          if m == n && i == at then q == r && c == client else Linked(s, m, i, q, c))
    && (forall q, m, c :: Takes(after, q, m, c) <==>
          Takes(s, q, m, c) || (q == r && m == n && c == client && !HasNode(s, r, n)))
  }

  predicate HasNode(s: SimState, r: RouterKey, n: NodeKey) {
    r in s.routers && n in s.routers[r]
  }

  /** The first entry of the adapter names no router any more, and the node left the one it named. */
  ghost predicate LinkRemoved(s: SimState, n: NodeKey, adapter: AdapterKey, after: SimState) {
    && ((forall at :: !FirstEntry(s, n, adapter, at)) ==> after == s)
    && forall at :: FirstEntry(s, n, adapter, at) ==> UnlinkedAt(s, n, at, after)
  }

  ghost predicate UnlinkedAt(s: SimState, n: NodeKey, at: nat, after: SimState)
    requires n in s.nodes && at < |s.nodes[n]|
  {
    && after.nodes.Keys == s.nodes.Keys && after.routers.Keys == s.routers.Keys
    && (forall m :: m in s.nodes ==> SameEntries(s.nodes[m], after.nodes[m]))
    && (forall m, i, q, c :: Linked(after, m, i, q, c) <==> Linked(s, m, i, q, c) && !(m == n && i == at))
    && (forall q: RouterKey, m: NodeKey, c :: Takes(after, q, m, c) <==>
          Takes(s, q, m, c) && !(m == n && Some(q) == s.nodes[n][at].router))
  }

  lemma RemoveNodeEffect(s: SimState, n: NodeKey)
    ensures NodeRemoved(s, n, RemoveNode(s, n))
  {
    if n in s.nodes {
      forall r { LeaveAllEntries(s.routers, n, s.nodes[n], r); }
    }
  }

  lemma RemoveRouterEffect(s: SimState, r: RouterKey)
    ensures RouterRemoved(s, r, RemoveRouter(s, r))
  {
    hide Unlink;
  }

  lemma FirstEntryIndex(s: SimState, n: NodeKey, adapter: AdapterKey, at: nat)
    ensures FirstEntry(s, n, adapter, at) <==>
      n in s.nodes && at == EntryIndex(s.nodes[n], adapter) < |s.nodes[n]|
  {}

  lemma AddLinkEffect(s: SimState, n: NodeKey, adapter: AdapterKey, r: RouterKey)
    ensures LinkAdded(s, n, adapter, r, AddLink(s, n, adapter, r).0, AddLink(s, n, adapter, r).1)
  {
    forall at: nat { FirstEntryIndex(s, n, adapter, at); }
    if n in s.nodes && r in s.routers && EntryIndex(s.nodes[n], adapter) < |s.nodes[n]| {
      var at := EntryIndex(s.nodes[n], adapter);
      assert FirstEntry(s, n, adapter, at);
      assert LinkedAt(s, n, at, r, AddLink(s, n, adapter, r).0);
    }
  }

  lemma RemoveLinkEffect(s: SimState, n: NodeKey, adapter: AdapterKey)
    ensures LinkRemoved(s, n, adapter, RemoveLink(s, n, adapter))
  {
    forall at: nat { FirstEntryIndex(s, n, adapter, at); }
    if n in s.nodes && EntryIndex(s.nodes[n], adapter) < |s.nodes[n]| {
      var at := EntryIndex(s.nodes[n], adapter);
      assert FirstEntry(s, n, adapter, at);
      assert UnlinkedAt(s, n, at, RemoveLink(s, n, adapter));
    }
  }

  /** No entry names a missing router, and the participants of a router are exactly the entries that name it. */
  ghost predicate Consistent(s: SimState) {
    && (forall n, i, r, c :: Linked(s, n, i, r, c) ==> Takes(s, r, n, c))
    && (forall r, n, c :: Takes(s, r, n, c) ==> exists i :: Linked(s, n, i, r, c))
    && (forall n, i, j, r, c, c' :: Linked(s, n, i, r, c) && Linked(s, n, j, r, c') ==> i == j)
  }

  /** Within a node adapter ids and addresses are unique. */
  ghost predicate Distinct(s: SimState) {
    forall n, i, j :: n in s.nodes && 0 <= i < |s.nodes[n]| && 0 <= j < |s.nodes[n]| && i != j ==>
      && s.nodes[n][i].adapter != s.nodes[n][j].adapter
      && s.nodes[n][i].client.address != s.nodes[n][j].client.address
  }

  datatype SimOp =
    | OpAddNode(n: NodeKey, adapter: AdapterKey, client: SimClient)
    | OpRemoveNode(n: NodeKey)
    | OpAddRouter(r: RouterKey)
    | OpRemoveRouter(r: RouterKey)
    | OpAddLink(n: NodeKey, adapter: AdapterKey, r: RouterKey)
    | OpRemoveLink(n: NodeKey, adapter: AdapterKey)

  function Apply(s: SimState, op: SimOp): SimState {
    match op
    case OpAddNode(n, adapter, client) => AddNode(s, n, adapter, client)
    case OpRemoveNode(n) => RemoveNode(s, n)
    case OpAddRouter(r) => AddRouter(s, r)
    case OpRemoveRouter(r) => RemoveRouter(s, r)
    case OpAddLink(n, adapter, r) => AddLink(s, n, adapter, r).0
    case OpRemoveLink(n, adapter) => RemoveLink(s, n, adapter)
  }

  /** The adapter is already on this router, or on none while its node has no other adapter there. */
  ghost predicate MayLink(s: SimState, n: NodeKey, adapter: AdapterKey, r: RouterKey) {
    n in s.nodes && r in s.routers && EntryIndex(s.nodes[n], adapter) < |s.nodes[n]| ==>
      var entry := s.nodes[n][EntryIndex(s.nodes[n], adapter)];
      || entry.router == Some(r)
      || (entry.router.None? && n !in s.routers[r])
  }

  ghost predicate Legal(s: SimState, op: SimOp) {
    match op
    case OpAddNode(n, adapter, client) =>
      n in s.nodes ==> forall i :: 0 <= i < |s.nodes[n]| ==>
        s.nodes[n][i].adapter != adapter && s.nodes[n][i].client.address != client.address
    case OpAddLink(n, adapter, r) => MayLink(s, n, adapter, r)
    case _ => true
  }

  lemma {:induction false} LeaveAllEntries(routers: Routers, n: NodeKey, entries: seq<AdapterEntry>, r: RouterKey)
    ensures LeaveAll(routers, n, entries).Keys == routers.Keys
    ensures r in routers ==>
      LeaveAll(routers, n, entries)[r] == if Names(entries, r) then routers[r] - {n} else routers[r]
    decreases |entries|
  {
    if entries != [] {
      var (front, last) := (entries[..|entries| - 1], entries[|entries| - 1]);
      LeaveAllEntries(routers, n, front, r);
      assert forall i :: 0 <= i < |front| ==> entries[i] == front[i];
    }
  }

  lemma RemoveNodeConsistent(s: SimState, n: NodeKey)
    requires Consistent(s)
    ensures Consistent(RemoveNode(s, n))
  {
    if n in s.nodes {
      var after := RemoveNode(s, n);
      forall r { LeaveAllEntries(s.routers, n, s.nodes[n], r); }
      forall m, i, r, c | Linked(after, m, i, r, c) ensures Takes(after, r, m, c) {
        assert Linked(s, m, i, r, c) && Takes(s, r, m, c);
      }
      forall r: RouterKey, m: NodeKey, c | Takes(after, r, m, c) ensures exists i: nat :: Linked(after, m, i, r, c) {
        assert Takes(s, r, m, c);
        var i: nat :| Linked(s, m, i, r, c);
        assert Names(s.nodes[m], r);
        assert Linked(after, m, i, r, c);
      }
      forall m, i, j, r, c, c' | Linked(after, m, i, r, c) && Linked(after, m, j, r, c') ensures i == j {
        assert Linked(s, m, i, r, c) && Linked(s, m, j, r, c');
      }
    }
  }

  lemma RemoveRouterConsistent(s: SimState, r: RouterKey)
    requires Consistent(s)
    ensures Consistent(RemoveRouter(s, r))
  {
    hide Unlink;
    var after := RemoveRouter(s, r);
    assert forall n, i, q, c :: Linked(after, n, i, q, c) <==> q != r && Linked(s, n, i, q, c);
    assert forall q, n, c :: Takes(after, q, n, c) <==> q != r && Takes(s, q, n, c);
    forall q, n, c | Takes(after, q, n, c) ensures exists i :: Linked(after, n, i, q, c) {
      var i :| Linked(s, n, i, q, c);
      assert Linked(after, n, i, q, c);
    }
  }

  lemma AddLinkConsistent(s: SimState, n: NodeKey, adapter: AdapterKey, r: RouterKey)
    requires Consistent(s) && MayLink(s, n, adapter, r)
    ensures Consistent(AddLink(s, n, adapter, r).0)
  {
    var after := AddLink(s, n, adapter, r).0;
    if AddLink(s, n, adapter, r).1 {
      var at := EntryIndex(s.nodes[n], adapter);
      var client := s.nodes[n][at].client;
      if s.nodes[n][at].router == Some(r) {
        assert Linked(s, n, at, r, client) && Takes(s, r, n, client);
        assert after.nodes[n] == s.nodes[n] && after.routers[r] == s.routers[r];
        assert after.nodes == s.nodes && after.routers == s.routers;
      } else {
        NewLinkConsistent(s, n, at, r);
      }
    }
  }

  lemma NewLinkConsistent(s: SimState, n: NodeKey, at: nat, r: RouterKey)
    requires Consistent(s) && n in s.nodes && r in s.routers && at < |s.nodes[n]|
    requires s.nodes[n][at].router.None? && n !in s.routers[r]
    ensures var entry := s.nodes[n][at];
      Consistent(SimState(s.nodes[n := s.nodes[n][at := entry.(router := Some(r))]],
                          s.routers[r := Insert(s.routers[r], n, entry.client)]))
  {
    var client := s.nodes[n][at].client;
    var after := SimState(s.nodes[n := s.nodes[n][at := s.nodes[n][at].(router := Some(r))]],
                          s.routers[r := Insert(s.routers[r], n, client)]);
    forall m, i, q, c
      ensures Linked(after, m, i, q, c) <==> Linked(s, m, i, q, c) || (m == n && i == at && q == r && c == client) {}
    forall q, m, c
      ensures Takes(after, q, m, c) <==> Takes(s, q, m, c) || (m == n && q == r && c == client) {}
    forall q, m, c | Takes(after, q, m, c) ensures exists i :: Linked(after, m, i, q, c) {
      if Takes(s, q, m, c) {
        var i :| Linked(s, m, i, q, c);
        assert Linked(after, m, i, q, c);
      } else {
        assert Linked(after, n, at, r, client);
      }
    }
    forall m, i, j, q, c, c' | Linked(after, m, i, q, c) && Linked(after, m, j, q, c') ensures i == j {
      assert Linked(s, m, i, q, c) ==> Takes(s, q, m, c);
      assert Linked(s, m, j, q, c') ==> Takes(s, q, m, c');
    }
  }

  /** Linking keeps the two maps consistent exactly when the adapter may be linked. */
  lemma AddLinkExact(s: SimState, n: NodeKey, adapter: AdapterKey, r: RouterKey)
    requires Consistent(s)
    ensures Consistent(AddLink(s, n, adapter, r).0) <==> MayLink(s, n, adapter, r)
  {
    if MayLink(s, n, adapter, r) {
      AddLinkConsistent(s, n, adapter, r);
    } else {
      var after := AddLink(s, n, adapter, r).0;
      var at := EntryIndex(s.nodes[n], adapter);
      var entry := s.nodes[n][at];
      assert Linked(after, n, at, r, entry.client);
      if entry.router.Some? {
        StaleParticipant(s, n, at, r);
      } else {
        var other := s.routers[r][n];
        assert Takes(s, r, n, other);
        var j :| Linked(s, n, j, r, other);
        assert Linked(after, n, j, r, other) && j != at;
      }
    }
  }

  /** Moving a linked adapter leaves its node behind in the old router. */
  lemma StaleParticipant(s: SimState, n: NodeKey, at: nat, r: RouterKey)
    requires Consistent(s) && n in s.nodes && r in s.routers && at < |s.nodes[n]|
    requires s.nodes[n][at].router.Some? && s.nodes[n][at].router != Some(r)
    ensures var entry := s.nodes[n][at];
      !Consistent(SimState(s.nodes[n := s.nodes[n][at := entry.(router := Some(r))]],
                           s.routers[r := Insert(s.routers[r], n, entry.client)]))
  {
    var entry := s.nodes[n][at];
    var was := entry.router.value;
    var after := SimState(s.nodes[n := s.nodes[n][at := entry.(router := Some(r))]],
                          s.routers[r := Insert(s.routers[r], n, entry.client)]);
    assert Linked(s, n, at, was, entry.client) && Takes(s, was, n, entry.client);
    assert Takes(after, was, n, entry.client);
    forall i: nat ensures !Linked(after, n, i, was, entry.client) {
      assert Linked(after, n, i, was, entry.client) ==> Linked(s, n, i, was, entry.client) && i != at;
    }
  }

  lemma RemoveLinkConsistent(s: SimState, n: NodeKey, adapter: AdapterKey)
    requires Consistent(s)
    ensures Consistent(RemoveLink(s, n, adapter))
  {
    var after := RemoveLink(s, n, adapter);
    if n in s.nodes && EntryIndex(s.nodes[n], adapter) < |s.nodes[n]| {
      var at := EntryIndex(s.nodes[n], adapter);
      var entry := s.nodes[n][at];
      if entry.router.Some? {
        var r := entry.router.value;
        assert Linked(s, n, at, r, entry.client) && Takes(s, r, n, entry.client);
        forall m, i, q, c
          ensures Linked(after, m, i, q, c) <==> Linked(s, m, i, q, c) && !(m == n && i == at) {}
        forall q, m, c
          ensures Takes(after, q, m, c) <==> Takes(s, q, m, c) && !(m == n && q == r) {}
        forall m, i, q, c | Linked(after, m, i, q, c) ensures Takes(after, q, m, c) {
          assert Linked(s, m, i, q, c);
        }
        forall q, m, c | Takes(after, q, m, c) ensures exists i :: Linked(after, m, i, q, c) {
          var i :| Linked(s, m, i, q, c);
          assert Linked(after, m, i, q, c);
        }
      }
    }
  }

  lemma AddNodeConsistent(s: SimState, n: NodeKey, adapter: AdapterKey, client: SimClient)
    requires Consistent(s)
    ensures Consistent(AddNode(s, n, adapter, client))
  {
    var after := AddNode(s, n, adapter, client);
    forall m, i, r, c ensures Linked(after, m, i, r, c) <==> Linked(s, m, i, r, c) {}
    forall r, m, c ensures Takes(after, r, m, c) <==> Takes(s, r, m, c) {}
    forall r, m, c | Takes(after, r, m, c) ensures exists i :: Linked(after, m, i, r, c) {
      var i :| Linked(s, m, i, r, c);
      assert Linked(after, m, i, r, c);
    }
  }

  lemma AddRouterConsistent(s: SimState, r: RouterKey)
    requires Consistent(s)
    ensures Consistent(AddRouter(s, r))
  {
    var after := AddRouter(s, r);
    forall q, m, c ensures Takes(after, q, m, c) <==> Takes(s, q, m, c) {}
    forall m, i, q, c ensures Linked(after, m, i, q, c) <==> Linked(s, m, i, q, c) {}
    forall q, m, c | Takes(after, q, m, c) ensures exists i :: Linked(after, m, i, q, c) {
      var i :| Linked(s, m, i, q, c);
      assert Linked(after, m, i, q, c);
    }
  }

  lemma ApplyConsistent(s: SimState, op: SimOp)
    requires Consistent(s) && Legal(s, op)
    ensures Consistent(Apply(s, op))
  {
    hide Consistent, AddNode, RemoveNode, AddRouter, RemoveRouter, AddLink, RemoveLink;
    match op
    case OpAddNode(n, adapter, client) => AddNodeConsistent(s, n, adapter, client);
    case OpRemoveNode(n) => RemoveNodeConsistent(s, n);
    case OpAddRouter(r) => AddRouterConsistent(s, r);
    case OpRemoveRouter(r) => RemoveRouterConsistent(s, r);
    case OpAddLink(n, adapter, r) => AddLinkConsistent(s, n, adapter, r);
    case OpRemoveLink(n, adapter) => RemoveLinkConsistent(s, n, adapter);
  }

  lemma ApplyDistinct(s: SimState, op: SimOp)
    requires Distinct(s) && Legal(s, op)
    ensures Distinct(Apply(s, op))
  {
    hide Unlink, LeaveAll, MayLink;
  }

  /** The state after a run, if each of its operations is legal in turn. */
  ghost function RunSimulator(ops: seq<SimOp>): Option<SimState> {
    if ops == [] then Some(SimState(map[], map[])) else
      match RunSimulator(ops[..|ops| - 1])
      case None => None
      case Some(s) => if Legal(s, ops[|ops| - 1]) then Some(Apply(s, ops[|ops| - 1])) else None
  }

  /** Every legal run keeps nodes and routers linked both ways. */
  lemma {:induction false} RunsStayConsistent(ops: seq<SimOp>)
    requires RunSimulator(ops).Some?
    ensures Consistent(RunSimulator(ops).value) && Distinct(RunSimulator(ops).value)
    decreases |ops|
  {
    if ops != [] {
      hide Consistent, Distinct, Apply, Legal;
      var s := RunSimulator(ops[..|ops| - 1]).value;
      RunsStayConsistent(ops[..|ops| - 1]);
      ApplyConsistent(s, ops[|ops| - 1]);
      ApplyDistinct(s, ops[|ops| - 1]);
    }
  }

  // ------------------------------------------------------------------ multicast

  lemma {:induction false} FanOutReaches(p: Participants, order: seq<NodeKey>, from: NodeKey, sender: Address)
    requires forall i, j :: 0 <= i < j < |order| ==> order[i] < order[j]
    ensures var d := FanOutOver(p, order, from, sender);
      && (forall i, j :: 0 <= i < j < |d| ==> d[i].node < d[j].node)
      && (forall x :: x in d <==>
            x.node in order && x.node != from && x.node in p && x == Delivery(x.node, p[x.node], sender))
    decreases |order|
  {
    if order != [] {
      var (front, last) := (order[..|order| - 1], order[|order| - 1]);
      assert order == front + [last];
      FanOutReaches(p, front, from, sender);
      var d := FanOutOver(p, front, from, sender);
      assert forall i :: 0 <= i < |d| ==> d[i] in d;
    }
  }

  lemma {:induction false} OnlyEntrySends(s: SimState, n: NodeKey, entries: seq<AdapterEntry>, address: Address,
                                          at: nat)
    requires at < |entries| && entries[at].client.address == address
    requires forall k :: 0 <= k < |entries| && k != at ==> entries[k].client.address != address
    ensures SentByAll(s, n, entries, address) == SentBy(s, n, entries[at], address)
    decreases |entries|
  {
    hide FanOut;
    var front := entries[..|entries| - 1];
    if at == |entries| - 1 {
      NoEntrySends(s, n, front, address);
    } else {
      OnlyEntrySends(s, n, front, address, at);
    }
  }

  lemma {:induction false} NoEntrySends(s: SimState, n: NodeKey, entries: seq<AdapterEntry>, address: Address)
    requires forall k :: 0 <= k < |entries| ==> entries[k].client.address != address
    ensures SentByAll(s, n, entries, address) == []
    decreases |entries|
  {
    if entries != [] {
      NoEntrySends(s, n, entries[..|entries| - 1], address);
    }
  }

  /**
  In a consistent simulator a multicast on a linked adapter reaches every other
  node linked to the same router exactly once, through the client of its own
  linked adapter, and nobody else.
   */
  lemma MulticastReachesNeighbours(s: SimState, n: NodeKey, at: nat, r: RouterKey)
    requires Consistent(s) && Distinct(s)
    requires n in s.nodes && at < |s.nodes[n]| && s.nodes[n][at].router == Some(r)
    ensures var address := s.nodes[n][at].client.address;
      var d := DataSent(s, n, address);
      && (forall i, j :: 0 <= i < j < |d| ==> d[i].node < d[j].node)
      && (forall m, c :: Delivery(m, c, address) in d <==> m != n && exists i :: Linked(s, m, i, r, c))
      && (forall x :: x in d ==> x.sender == address)
  {
    hide AscendingKeys;
    var entry := s.nodes[n][at];
    var address := entry.client.address;
    assert Linked(s, n, at, r, entry.client) && Takes(s, r, n, entry.client);
    OnlyEntrySends(s, n, s.nodes[n], address, at);
    var p := s.routers[r];
    var order := AscendingKeys(p.Keys);
    FanOutReaches(p, order, n, address);
    var d := FanOutOver(p, order, n, address);
    assert DataSent(s, n, address) == d;
    assert forall m :: m in order <==> m in p;
    forall m, c ensures Delivery(m, c, address) in d <==> m != n && exists i :: Linked(s, m, i, r, c) {
      assert Takes(s, r, m, c) <==> m in p && p[m] == c;
      assert forall i :: Linked(s, m, i, r, c) ==> Takes(s, r, m, c);
    }
  }

  /** A multicast is handed out for each entry with the address that names a router, to all its other participants. */
  ghost predicate ReachedBy(s: SimState, n: NodeKey, entry: AdapterEntry, address: Address, x: Delivery) {
    && entry.client.address == address && entry.router.Some? && entry.router.value in s.routers
    && x.node in s.routers[entry.router.value] && x.node != n
    && x == Delivery(x.node, s.routers[entry.router.value][x.node], address)
  }

  ghost predicate AnyReaches(s: SimState, n: NodeKey, entries: seq<AdapterEntry>, address: Address, x: Delivery) {
    exists i :: 0 <= i < |entries| && ReachedBy(s, n, entries[i], address, x)
  }

  lemma AnyReachesLast(s: SimState, n: NodeKey, entries: seq<AdapterEntry>, address: Address, x: Delivery)
    requires entries != []
    ensures AnyReaches(s, n, entries, address, x) <==>
      || AnyReaches(s, n, entries[..|entries| - 1], address, x)
      || ReachedBy(s, n, entries[|entries| - 1], address, x)
  {
    hide ReachedBy;
    var front := entries[..|entries| - 1];
    assert forall i :: 0 <= i < |front| ==> entries[i] == front[i];
  }

  lemma InEither<T>(a: seq<T>, b: seq<T>, x: T)
    ensures x in a + b <==> x in a || x in b
  {}

  lemma {:induction false} EntriesReach(s: SimState, n: NodeKey, entries: seq<AdapterEntry>, address: Address,
                                        x: Delivery)
    ensures x in SentByAll(s, n, entries, address) <==> AnyReaches(s, n, entries, address, x)
    decreases |entries|
  {
    if entries != [] {
      var (front, last) := (entries[..|entries| - 1], entries[|entries| - 1]);
      hide AnyReaches, ReachedBy, SentBy, FanOut;
      EntriesReach(s, n, front, address, x);
      OneEntryReaches(s, n, last, address, x);
      AnyReachesLast(s, n, entries, address, x);
      InEither(SentByAll(s, n, front, address), SentBy(s, n, last, address), x);
    }
  }

  lemma OneEntryReaches(s: SimState, n: NodeKey, entry: AdapterEntry, address: Address, x: Delivery)
    ensures x in SentBy(s, n, entry, address) <==> ReachedBy(s, n, entry, address, x)
  {
    hide AscendingKeys;
    if entry.client.address == address && entry.router.Some? && entry.router.value in s.routers {
      var p := s.routers[entry.router.value];
      FanOutReaches(p, AscendingKeys(p.Keys), n, address);
      assert forall m :: m in AscendingKeys(p.Keys) <==> m in p;
    }
  }

  /** Who gets what of any multicast, whatever is linked. */
  lemma DataSentReaches(s: SimState, n: NodeKey, address: Address, x: Delivery)
    ensures x in DataSent(s, n, address) <==>
      n in s.nodes && AnyReaches(s, n, s.nodes[n], address, x)
  {
    if n in s.nodes {
      EntriesReach(s, n, s.nodes[n], address, x);
    }
  }
}
