/**
The route table of one node as a value: what naming a route, a clock tick and
the selection of routes for an adapter do to it.
 */
module Routes {
  import opened Bytes
  import opened Types
  import opened Sequences
  import opened Ordering
  import opened AdapterManagers
  import Messages

  type Jumps = seq<Short>

  datatype NodeId = NodeId(id: Short, address: Address)
  datatype RouteId = RouteId(node: NodeId, adapter: Address, reporter: Address)
  datatype Status = Status(online: bool, persistent: bool, silent: bool, jumps: Jumps, mtu: nat)
  datatype Route = Route(identifier: RouteId, lastDiscovery: Time, lastDataMessage: Time, status: Status)
  datatype PersistentRoute = PersistentRoute(identifier: RouteId, gateway: Address, metric: Short, enabled: bool)

  datatype RouteEvent = NewRoute(route: Route) | OnlineChanged(route: Route, prev: bool)

  type Table = map<string, seq<Route>>

  /** The table, per adapter guid, and the log of the events raised so far. */
  datatype Manager = Manager(table: Table, events: seq<RouteEvent>)

  const TIMEOUT: Time := 90 * SECOND
  const DIRECT_JUMP: Short := 256

  // ------------------------------------------------------------------- routes

  /** A 32-bit signed addition; overflow is undefined in C++ and wraps here. */
  function Wrap32(v: int): int {
    (v + 0x8000_0000) % 0x1_0000_0000 - 0x8000_0000
  }

  function Accumulate(acc: int, jumps: Jumps): int
    decreases |jumps|
  {
    if jumps == [] then acc else Accumulate(Wrap32(acc + jumps[0]), jumps[1..])
  }

  function Cost(route: Route): int {
    Accumulate(0, route.status.jumps)
  }

  function Sum(jumps: Jumps): nat {
    if jumps == [] then 0 else jumps[0] + Sum(jumps[1..])
  }

  predicate IsShorter(lhs: Route, rhs: Route) {
    Cost(lhs) < Cost(rhs)
  }

  predicate IsOnline(route: Route, now: Time) {
    || route.status.persistent
    || route.lastDiscovery > now - TIMEOUT
    || route.lastDataMessage > now - TIMEOUT
  }

  /** Position of the first route with this identifier, or the length. */
  function IndexOf(routes: seq<Route>, id: RouteId): (i: nat)
    ensures i <= |routes|
    ensures i < |routes| ==> routes[i].identifier == id
    ensures forall k :: 0 <= k < i ==> routes[k].identifier != id
  {
    if routes == [] || routes[0].identifier == id then 0 else 1 + IndexOf(routes[1..], id)
  }

  // -------------------------------------------------------------- processing

  function FreshRoute(adapter: Adapter, time: Time, id: RouteId, jumps: Jumps): Route {
    Route(id, time, MIN_TIME, Status(true, false, false, jumps, adapter.mtu))
  }

  function ProcessRoute(m: Manager, adapter: Adapter, time: Time, id: RouteId, jumps: Jumps): Manager {
    var added := FreshRoute(adapter, time, id, jumps);
    if adapter.guid !in m.table then
      Manager(m.table[adapter.guid := [added]], m.events + [NewRoute(added)])
    else
      var routes := m.table[adapter.guid];
      var i := IndexOf(routes, id);
      if i == |routes| then
        Manager(m.table[adapter.guid := routes + [added]], m.events + [NewRoute(added)])
      else
        m.(table := m.table[adapter.guid := routes[i := routes[i].(lastDiscovery := time)]])
  }

  function SenderId(identifier: Short, info: NetworkInfo): RouteId {
    RouteId(NodeId(identifier, info.sender), info.adapter, info.sender)
  }

  function IndirectId(node: Messages.Node, info: NetworkInfo): RouteId {
    RouteId(NodeId(node.identifier, node.address), info.adapter, info.sender)
  }

  function ProcessNodes(m: Manager, adapter: Adapter, info: NetworkInfo, nodes: seq<Messages.Node>): Manager
    decreases |nodes|
  {
    if nodes == [] then m else
      ProcessNodes(
        ProcessRoute(m, adapter, info.receptionTime, IndirectId(nodes[0], info), [DIRECT_JUMP] + nodes[0].jumps),
        adapter, info, nodes[1..])
  }

  function ProcessDiscovery(adapters: AdapterTable, m: Manager, identifier: Short, nodes: seq<Messages.Node>,
                            info: NetworkInfo): (Manager, bool) {
    match FindByAddress(adapters, info.adapter)
    case None => (m, false)
    case Some(adapter) =>
      var direct := ProcessRoute(m, adapter, info.receptionTime, SenderId(identifier, info), [DIRECT_JUMP]);
      (ProcessNodes(direct, adapter, info, nodes), true)
  }

  function SetPersistent(routes: seq<Route>, id: RouteId, enabled: bool): seq<Route> {
    var i := IndexOf(routes, id);
    if i == |routes| then routes
    else routes[i := routes[i].(status := routes[i].status.(persistent := enabled))]
  }

  function ProcessPersistent(adapters: AdapterTable, m: Manager, route: PersistentRoute, time: Time): (Manager, bool) {
    match FindByAddress(adapters, route.identifier.adapter)
    case None => (m, false)
    case Some(adapter) =>
      var named := ProcessRoute(m, adapter, time, route.identifier, [route.metric]);
      var routes := SetPersistent(named.table[adapter.guid], route.identifier, route.enabled);
      (named.(table := named.table[adapter.guid := routes]), true)
  }

  // -------------------------------------------------------------------- ticks

  function Refresh(route: Route, now: Time): Route {
    route.(status := route.status.(online := IsOnline(route, now)))
  }

  function RefreshEvent(route: Route, now: Time): seq<RouteEvent> {
    if IsOnline(route, now) == route.status.online then []
    else [OnlineChanged(Refresh(route, now), route.status.online)]
  }

  /** One list, route by route: the routes already refreshed stay in front. */
  function RefreshRoutes(routes: seq<Route>, now: Time): (r: seq<Route>)
    ensures |r| == |routes|
    ensures forall i :: 0 <= i < |routes| ==> r[i] == Refresh(routes[i], now)
  {
    if routes == [] then [] else [Refresh(routes[0], now)] + RefreshRoutes(routes[1..], now)
  }

  function RefreshEvents(routes: seq<Route>, now: Time): seq<RouteEvent> {
    if routes == [] then [] else RefreshEvent(routes[0], now) + RefreshEvents(routes[1..], now)
  }

  lemma RefreshEventsAt(routes: seq<Route>, i: nat, now: Time)
    requires i < |routes|
    ensures RefreshEvents(routes[i..], now) == RefreshEvent(routes[i], now) + RefreshEvents(routes[i + 1..], now)
  {
    hide RefreshEvent;
    assert routes[i..][0] == routes[i] && routes[i..][1..] == routes[i + 1..];
  }

  function RefreshList(m: Manager, guid: string, now: Time): Manager
    requires guid in m.table
  {
    var routes := m.table[guid];
    Manager(m.table[guid := RefreshRoutes(routes, now)], m.events + RefreshEvents(routes, now))
  }

  function RefreshLists(m: Manager, order: seq<string>, now: Time): Manager
    decreases |order|
  {
    if order == [] || order[0] !in m.table then m
    else RefreshLists(RefreshList(m, order[0], now), order[1..], now)
  }

  lemma RefreshListsAt(m: Manager, order: seq<string>, i: nat, now: Time)
    requires i < |order| && order[i] in m.table
    ensures RefreshLists(m, order[i..], now) == RefreshLists(RefreshList(m, order[i], now), order[i + 1..], now)
  {
    hide RefreshList;
    assert order[i..][0] == order[i] && order[i..][1..] == order[i + 1..];
  }

  lemma RefreshListsDone(m: Manager, order: seq<string>, now: Time)
    ensures RefreshLists(m, order[|order|..], now) == m
  {}

  function UpdateManager(m: Manager, now: Time): Manager {
    RefreshLists(m, Ascending(m.table.Keys), now)
  }

  // ---------------------------------------------------------------- selection

  /** One route offered to the selection: it replaces a longer route with its identifier. */
  function Consider(result: seq<Route>, route: Route): seq<Route> {
    if !route.status.online then result else
      var i := IndexOf(result, route.identifier);
      if i == |result| then result + [route]
      else if IsShorter(route, result[i]) then result[..i] + result[i + 1..] + [route]
      else result
  }

  function ConsiderAll(result: seq<Route>, routes: seq<Route>): seq<Route>
    decreases |routes|
  {
    if routes == [] then result else ConsiderAll(Consider(result, routes[0]), routes[1..])
  }

  function SelectFrom(table: Table, order: seq<string>, outbound: string, result: seq<Route>): seq<Route>
    decreases |order|
  {
    if order == [] then result
    else if order[0] == outbound || order[0] !in table then SelectFrom(table, order[1..], outbound, result)
    else SelectFrom(table, order[1..], outbound, ConsiderAll(result, table[order[0]]))
  }

  function FindRoutes(table: Table, outbound: string): seq<Route> {
    SelectFrom(table, Ascending(table.Keys), outbound, [])
  }

  // ------------------------------------------------- properties of one update

  lemma {:induction false} RefreshListsTable(m: Manager, order: seq<string>, now: Time)
    requires forall k :: k in order ==> k in m.table
    requires forall i, j :: 0 <= i < j < |order| ==> order[i] != order[j]
    ensures RefreshLists(m, order, now).table ==
      map g | g in m.table :: if g in order then RefreshRoutes(m.table[g], now) else m.table[g]
    decreases |order|
  {
    if order != [] {
      assert order == [order[0]] + order[1..];
      RefreshListsTable(RefreshList(m, order[0], now), order[1..], now);
    }
  }

  /** A tick changes online flags only, to what `is_route_online` says, in every list. */
  lemma UpdateRefreshesAll(m: Manager, now: Time)
    ensures UpdateManager(m, now).table == map g | g in m.table :: RefreshRoutes(m.table[g], now)
  {
    hide Ascending;
    RefreshListsTable(m, Ascending(m.table.Keys), now);
  }

  /** A route is online if it is persistent or was heard of less than 90 seconds ago, by either kind of message. */
  lemma OnlineExact(route: Route, now: Time)
    ensures IsOnline(route, now) <==>
      || route.status.persistent
      || now - route.lastDiscovery < 90_000_000_000
      || now - route.lastDataMessage < 90_000_000_000
  {}

  // ------------------------------------------------------- the events of a tick

  /** The online flag of the route at this place differs between the two tables. */
  predicate FlagChanged(before: Table, after: Table, g: string, i: nat) {
    && g in before && g in after && i < |before[g]| && i < |after[g]|
    && before[g][i].status.online != after[g][i].status.online
  }

  /** The event carries the new entry, and the flag it had before. */
  ghost predicate TellsChange(before: Table, after: Table, g: string, i: nat, event: RouteEvent) {
    && FlagChanged(before, after, g, i)
    && event.OnlineChanged? && event.route == after[g][i] && event.prev == before[g][i].status.online
  }

  /** Each place once: by guid in key order, then by position. */
  predicate PlaceBefore(a: (string, nat), b: (string, nat)) {
    (a.0 != b.0 && StringLeq(a.0, b.0)) || (a.0 == b.0 && a.1 < b.1)
  }

  /** One event for each place whose flag changed, in order, and no other event. */
  ghost predicate TellsChanges(before: Table, after: Table, events: seq<RouteEvent>, places: seq<(string, nat)>) {
    && |events| == |places|
    && (forall j, k :: 0 <= j < k < |places| ==> PlaceBefore(places[j], places[k]))
    && (forall g, i: nat :: (g, i) in places <==> FlagChanged(before, after, g, i))
    && forall k :: 0 <= k < |places| ==> TellsChange(before, after, places[k].0, places[k].1, events[k])
  }

  /** The positions in one list whose flag the clock changes. */
  function ChangedIn(routes: seq<Route>, now: Time, from: nat): (r: seq<nat>)
    requires from <= |routes|
    ensures forall k :: 0 <= k < |r| ==> from <= r[k] < |routes|
    decreases |routes| - from
  {
    if from == |routes| then []
    else if RefreshEvent(routes[from], now) == [] then ChangedIn(routes, now, from + 1)
    else [from] + ChangedIn(routes, now, from + 1)
  }

  /** Positions from `from` on, in order, with the events their routes raise. */
  ghost predicate Matches(routes: seq<Route>, now: Time, from: nat, at: seq<nat>, events: seq<RouteEvent>)
    requires from <= |routes|
  {
    && |events| == |at|
    && (forall j, k :: 0 <= j < k < |at| ==> at[j] < at[k])
    && (forall i :: i in at <==> from <= i < |routes| && RefreshEvent(routes[i], now) != [])
    && forall k :: 0 <= k < |at| ==> at[k] < |routes| && RefreshEvent(routes[at[k]], now) == [events[k]]
  }

  lemma MatchesMore(routes: seq<Route>, now: Time, from: nat, at: seq<nat>, events: seq<RouteEvent>)
    requires from < |routes| && Matches(routes, now, from + 1, at, events) && RefreshEvent(routes[from], now) != []
    ensures Matches(routes, now, from, [from] + at, RefreshEvent(routes[from], now) + events)
  {
    var event := RefreshEvent(routes[from], now)[0];
    assert RefreshEvent(routes[from], now) == [event];
    hide RefreshEvent;
    var (places, all) := ([from] + at, [event] + events);
    forall k | 0 <= k < |places|
      ensures places[k] < |routes| && RefreshEvent(routes[places[k]], now) == [all[k]]
    {
      assert k > 0 ==> places[k] == at[k - 1] && all[k] == events[k - 1];
    }
    PlacesMore(routes, now, from, at, events);
  }

  lemma PlacesMore(routes: seq<Route>, now: Time, from: nat, at: seq<nat>, events: seq<RouteEvent>)
    requires from < |routes| && Matches(routes, now, from + 1, at, events) && RefreshEvent(routes[from], now) != []
    ensures var places := [from] + at;
      && (forall j, k :: 0 <= j < k < |places| ==> places[j] < places[k])
      && (forall i :: i in places <==> from <= i < |routes| && RefreshEvent(routes[i], now) != [])
  {
    hide RefreshEvent;
    var places := [from] + at;
    forall j, k | 0 <= j < k < |places| ensures places[j] < places[k] {
      assert places[k] == at[k - 1] && at[k - 1] in at;
      assert j > 0 ==> places[j] == at[j - 1];
    }
    forall i ensures i in places <==> from <= i < |routes| && RefreshEvent(routes[i], now) != [] {
      InEither([from], at, i);
    }
  }

  lemma QuietRoute(routes: seq<Route>, i: nat, now: Time)
    requires i < |routes| && RefreshEvent(routes[i], now) == []
    ensures RefreshEvents(routes[i..], now) == RefreshEvents(routes[i + 1..], now)
  {
    RefreshEventsAt(routes, i, now);
    hide RefreshEvents;
  }

  lemma MatchesNone(routes: seq<Route>, now: Time)
    ensures RefreshEvents(routes[|routes|..], now) == [] && Matches(routes, now, |routes|, [], [])
  {}

  lemma MatchesSkip(routes: seq<Route>, now: Time, from: nat, at: seq<nat>, events: seq<RouteEvent>)
    requires from < |routes| && Matches(routes, now, from + 1, at, events) && RefreshEvent(routes[from], now) == []
    ensures Matches(routes, now, from, at, events)
  {
    hide RefreshEvent;
  }

  lemma {:induction false} ChangedInExact(routes: seq<Route>, now: Time, from: nat)
    requires from <= |routes|
    ensures Matches(routes, now, from, ChangedIn(routes, now, from), RefreshEvents(routes[from..], now))
    decreases |routes| - from
  {
    hide Matches, RefreshEvent, RefreshEvents;
    if from == |routes| {
      MatchesNone(routes, now);
    } else {
      var (at, events) := (ChangedIn(routes, now, from + 1), RefreshEvents(routes[from + 1..], now));
      ChangedInExact(routes, now, from + 1);
      if RefreshEvent(routes[from], now) != [] {
        RefreshEventsAt(routes, from, now);
        MatchesMore(routes, now, from, at, events);
      } else {
        QuietRoute(routes, from, now);
        MatchesSkip(routes, now, from, at, events);
      }
    }
  }

  /** The events of the lists, one list after the other. */
  function EventsOver(table: Table, order: seq<string>, now: Time): seq<RouteEvent> {
    if order == [] || order[0] !in table then []
    else RefreshEvents(table[order[0]], now) + EventsOver(table, order[1..], now)
  }

  function PlacesIn(g: string, at: seq<nat>): (places: seq<(string, nat)>)
    ensures |places| == |at| && forall k :: 0 <= k < |at| ==> places[k] == (g, at[k])
  {
    seq(|at|, k requires 0 <= k < |at| => (g, at[k]))
  }

  function PlacesOver(table: Table, order: seq<string>, now: Time): seq<(string, nat)> {
    if order == [] || order[0] !in table then []
    else PlacesIn(order[0], ChangedIn(table[order[0]], now, 0)) + PlacesOver(table, order[1..], now)
  }

  lemma {:induction false} RefreshListsEvents(m: Manager, order: seq<string>, now: Time)
    requires forall i, j :: 0 <= i < j < |order| ==> order[i] != order[j]
    ensures RefreshLists(m, order, now).events == m.events + EventsOver(m.table, order, now)
    decreases |order|
  {
    if order == [] || order[0] !in m.table {
      assert m.events + [] == m.events;
    } else {
      var next := RefreshList(m, order[0], now);
      assert forall k :: 1 <= k < |order| ==> order[k] != order[0] && order[k] == order[1..][k - 1];
      RefreshListsEvents(next, order[1..], now);
      EventsElsewhere(m.table, next.table, order[1..], now);
      Regroup(m.events, RefreshEvents(m.table[order[0]], now), [], EventsOver(m.table, order[1..], now));
    }
  }

  lemma {:induction false} EventsElsewhere(before: Table, after: Table, order: seq<string>, now: Time)
    requires forall k :: 0 <= k < |order| ==>
      (order[k] in before <==> order[k] in after) && (order[k] in before ==> before[order[k]] == after[order[k]])
    ensures EventsOver(before, order, now) == EventsOver(after, order, now)
    decreases |order|
  {
    if order != [] {
      assert forall k :: 0 <= k < |order| - 1 ==> order[1..][k] == order[k + 1];
      EventsElsewhere(before, after, order[1..], now);
    }
  }

  /** Places of the lists in `order`, in order, with the events their routes raise. */
  ghost predicate ListsMatch(table: Table, now: Time, order: seq<string>, places: seq<(string, nat)>,
                             events: seq<RouteEvent>) {
    && |events| == |places|
    && (forall j, k :: 0 <= j < k < |places| ==> PlaceBefore(places[j], places[k]))
    && (forall g, i: nat :: (g, i) in places <==> g in order && Raises(table, now, g, i))
    && forall k :: 0 <= k < |places| ==> RaisesEvent(table, now, places[k].0, places[k].1, events[k])
  }

  predicate Raises(table: Table, now: Time, g: string, i: nat) {
    g in table && i < |table[g]| && RefreshEvent(table[g][i], now) != []
  }

  predicate RaisesEvent(table: Table, now: Time, g: string, i: nat, event: RouteEvent) {
    g in table && i < |table[g]| && RefreshEvent(table[g][i], now) == [event]
  }

  lemma ListsMatchMore(table: Table, now: Time, g: string, rest: seq<string>, at: seq<nat>, here: seq<RouteEvent>,
                       places: seq<(string, nat)>, events: seq<RouteEvent>)
    requires g in table && Matches(table[g], now, 0, at, here) && ListsMatch(table, now, rest, places, events)
    requires g !in rest && forall k :: 0 <= k < |rest| ==> StringLeq(g, rest[k])
    ensures ListsMatch(table, now, [g] + rest, PlacesIn(g, at) + places, here + events)
  {
    PlacesInOrder(table, now, g, rest, at, here, places, events);
    PlacesRaise(table, now, g, rest, at, here, places, events);
    hide RaisesEvent, Raises, PlaceBefore, StringLeq, RefreshEvent;
    forall h, i: nat
      ensures (h, i) in PlacesIn(g, at) + places <==> h in [g] + rest && Raises(table, now, h, i)
    {
      PlacesListed(table, now, g, rest, at, here, places, events, h, i);
    }
  }

  lemma PlacesListed(table: Table, now: Time, g: string, rest: seq<string>, at: seq<nat>, here: seq<RouteEvent>,
                     places: seq<(string, nat)>, events: seq<RouteEvent>, h: string, i: nat)
    requires g in table && Matches(table[g], now, 0, at, here) && ListsMatch(table, now, rest, places, events)
    requires g !in rest
    ensures (h, i) in PlacesIn(g, at) + places <==> h in [g] + rest && Raises(table, now, h, i)
  {
    hide RefreshEvent, PlaceBefore, RaisesEvent;
    PlacesOf(g, at, h, i);
    InEither(PlacesIn(g, at), places, (h, i));
  }

  lemma PlacesRaise(table: Table, now: Time, g: string, rest: seq<string>, at: seq<nat>, here: seq<RouteEvent>,
                    places: seq<(string, nat)>, events: seq<RouteEvent>)
    requires g in table && Matches(table[g], now, 0, at, here) && ListsMatch(table, now, rest, places, events)
    ensures var (all, raised) := (PlacesIn(g, at) + places, here + events);
      |all| == |raised| && forall k :: 0 <= k < |all| ==> RaisesEvent(table, now, all[k].0, all[k].1, raised[k])
  {
    hide RefreshEvent, PlaceBefore, Raises;
    var (own, all, raised) := (PlacesIn(g, at), PlacesIn(g, at) + places, here + events);
    forall k | 0 <= k < |all| ensures RaisesEvent(table, now, all[k].0, all[k].1, raised[k]) {
      if k < |own| {
        assert all[k] == own[k] && raised[k] == here[k];
      } else {
        assert all[k] == places[k - |own|] && raised[k] == events[k - |own|];
      }
    }
  }

  lemma InEither<T>(a: seq<T>, b: seq<T>, x: T)
    ensures x in a + b <==> x in a || x in b
  {}

  lemma PlacesInOrder(table: Table, now: Time, g: string, rest: seq<string>, at: seq<nat>, here: seq<RouteEvent>,
                      places: seq<(string, nat)>, events: seq<RouteEvent>)
    requires g in table && Matches(table[g], now, 0, at, here) && ListsMatch(table, now, rest, places, events)
    requires g !in rest && forall k :: 0 <= k < |rest| ==> StringLeq(g, rest[k])
    ensures var all := PlacesIn(g, at) + places;
      forall j, k :: 0 <= j < k < |all| ==> PlaceBefore(all[j], all[k])
  {
    hide RefreshEvent, StringLeq, RaisesEvent, Raises;
    var (own, all) := (PlacesIn(g, at), PlacesIn(g, at) + places);
    forall j, k | 0 <= j < k < |all| ensures PlaceBefore(all[j], all[k]) {
      if k < |own| {
        assert all[j] == own[j] && all[k] == own[k];
      } else {
        var later := places[k - |own|];
        assert all[k] == later;
        if j < |own| {
          assert all[j] == own[j] && (later.0, later.1) in places && later.0 in rest;
        } else {
          assert all[j] == places[j - |own|];
        }
      }
    }
  }

  lemma PlacesOf(g: string, at: seq<nat>, h: string, i: nat)
    ensures (h, i) in PlacesIn(g, at) <==> h == g && i in at
  {
    if h == g && i in at {
      var k :| 0 <= k < |at| && at[k] == i;
      assert PlacesIn(g, at)[k] == (h, i);
    }
  }

  lemma {:induction false} PlacesOverExact(table: Table, order: seq<string>, now: Time)
    requires forall k :: 0 <= k < |order| ==> order[k] in table
    requires forall j, k :: 0 <= j < k < |order| ==> order[j] != order[k] && StringLeq(order[j], order[k])
    ensures ListsMatch(table, now, order, PlacesOver(table, order, now), EventsOver(table, order, now))
    decreases |order|
  {
    if order != [] {
      var (g, rest) := (order[0], order[1..]);
      assert order == [g] + rest && table[g][0..] == table[g];
      assert forall k :: 0 <= k < |rest| ==> rest[k] == order[k + 1];
      hide StringLeq, ListsMatch, Matches;
      PlacesOverExact(table, rest, now);
      ChangedInExact(table[g], now, 0);
      ListsMatchMore(table, now, g, rest, ChangedIn(table[g], now, 0), RefreshEvents(table[g], now),
                     PlacesOver(table, rest, now), EventsOver(table, rest, now));
    }
  }

  lemma RaisesExactly(table: Table, after: Table, now: Time, g: string, i: nat)
    requires after == map h | h in table :: RefreshRoutes(table[h], now)
    ensures Raises(table, now, g, i) <==> FlagChanged(table, after, g, i)
    ensures forall event :: RaisesEvent(table, now, g, i, event) ==> TellsChange(table, after, g, i, event)
  {
    hide IsOnline;
  }

  /**
  The events of a tick, told from the two tables alone: one for each route whose
  online flag changed, with the new entry and the old flag, in key order.
   */
  lemma TickTellsChanges(m: Manager, now: Time) returns (places: seq<(string, nat)>)
    ensures m.events <= UpdateManager(m, now).events
    ensures TellsChanges(m.table, UpdateManager(m, now).table, UpdateManager(m, now).events[|m.events|..], places)
  {
    var order := Ascending(m.table.Keys);
    EnumeratedKeys(order, m.table.Keys);
    UpdateRefreshesAll(m, now);
    RefreshListsEvents(m, order, now);
    PlacesOverExact(m.table, order, now);
    places := PlacesOver(m.table, order, now);
    var (after, events) := (UpdateManager(m, now).table, EventsOver(m.table, order, now));
    assert UpdateManager(m, now).events[|m.events|..] == events;
    assert forall g :: g in order <==> g in m.table;
    hide Ascending, RefreshLists, EventsOver, PlacesOver, Raises, RaisesEvent, FlagChanged, TellsChange;
    ToldFromTables(m.table, after, now, order, places, events);
  }

  lemma ToldFromTables(table: Table, after: Table, now: Time, order: seq<string>, places: seq<(string, nat)>,
                       events: seq<RouteEvent>)
    requires ListsMatch(table, now, order, places, events) && forall g :: g in table ==> g in order
    requires after == map h | h in table :: RefreshRoutes(table[h], now)
    ensures TellsChanges(table, after, events, places)
  {
    hide RefreshRoutes, PlaceBefore;
    forall g, i: nat ensures (g, i) in places <==> FlagChanged(table, after, g, i) {
      RaisesExactly(table, after, now, g, i);
      hide FlagChanged;
    }
    forall k | 0 <= k < |places| ensures TellsChange(table, after, places[k].0, places[k].1, events[k]) {
      RaisesExactly(table, after, now, places[k].0, places[k].1);
      assert RaisesEvent(table, now, places[k].0, places[k].1, events[k]);
    }
  }

  // ---------------------------------------------- properties of the selection

  lemma {:induction false} AccumulateIsSum(acc: nat, jumps: Jumps)
    requires acc + 65535 * |jumps| < 0x8000_0000
    ensures Accumulate(acc, jumps) == acc + Sum(jumps)
    decreases |jumps|
  {
    if jumps != [] {
      AccumulateIsSum(acc + jumps[0], jumps[1..]);
    }
  }

  /** The 32-bit sum of jumps from a start value: in range, and k wraps away from the true sum. */
  lemma {:induction false} AccumulateWraps(acc: int, jumps: Jumps) returns (k: int)
    requires -0x8000_0000 <= acc < 0x8000_0000
    ensures -0x8000_0000 <= Accumulate(acc, jumps) < 0x8000_0000
    ensures Accumulate(acc, jumps) == acc + Sum(jumps) + k * 0x1_0000_0000
    decreases |jumps|
  {
    if jumps == [] {
      k := 0;
    } else {
      var j := WrapsOnce(acc + jumps[0]);
      hide Wrap32;
      k := AccumulateWraps(Wrap32(acc + jumps[0]), jumps[1..]);
      k := k + j;
    }
  }

  lemma WrapsOnce(v: int) returns (j: int)
    ensures Wrap32(v) == v + j * 0x1_0000_0000 && -0x8000_0000 <= Wrap32(v) < 0x8000_0000
  {
    j := -((v + 0x8000_0000) / 0x1_0000_0000);
  }

  /** A cost is the signed 32-bit integer that is the sum of the jumps up to k wraps. */
  lemma CostIsWrappedSum(route: Route) returns (k: int)
    ensures -0x8000_0000 <= Cost(route) < 0x8000_0000
    ensures Cost(route) == Sum(route.status.jumps) + k * 0x1_0000_0000
  {
    k := AccumulateWraps(0, route.status.jumps);
  }

  /** Up to 32768 jumps the 32-bit sum cannot overflow. */
  lemma CostIsSum(route: Route)
    requires |route.status.jumps| <= 32768
    ensures Cost(route) == Sum(route.status.jumps)
  {
    AccumulateIsSum(0, route.status.jumps);
  }

  /** A strictly shorter route takes the place behind all others; at equal length the earlier one stays. */
  lemma ShorterMovesBehind(result: seq<Route>, route: Route, i: nat)
    requires i < |result| && result[i].identifier == route.identifier
    requires forall k :: 0 <= k < i ==> result[k].identifier != route.identifier
    requires route.status.online && |route.status.jumps| <= 32768 && |result[i].status.jumps| <= 32768
    ensures Consider(result, route) ==
      if Sum(route.status.jumps) < Sum(result[i].status.jumps) then result[..i] + result[i + 1..] + [route] else result
  {
    assert IndexOf(result, route.identifier) == i;
    CostIsSum(route);
    CostIsSum(result[i]);
  }

  /** The online routes offered to the selection for an outbound adapter. */
  ghost predicate Candidate(table: Table, outbound: string, route: Route) {
    exists g :: g in table && g != outbound && route in table[g] && route.status.online
  }

  ghost predicate DistinctIds(routes: seq<Route>) {
    forall i, j :: 0 <= i < j < |routes| ==> routes[i].identifier != routes[j].identifier
  }

  ghost predicate Covers(result: seq<Route>, route: Route) {
    exists k :: 0 <= k < |result| && result[k].identifier == route.identifier && Cost(result[k]) <= Cost(route)
  }

  /** `result` is a cheapest route for every identifier among those seen, and nothing else. */
  ghost predicate Best(result: seq<Route>, seen: set<Route>) {
    && DistinctIds(result)
    && (forall r :: r in result ==> r in seen)
    && (forall r :: r in seen ==> Covers(result, r))
  }

  lemma ConsiderKeepsBest(result: seq<Route>, seen: set<Route>, route: Route)
    requires Best(result, seen)
    ensures Best(Consider(result, route), if route.status.online then seen + {route} else seen)
  {
    if route.status.online {
      var i := IndexOf(result, route.identifier);
      var next := Consider(result, route);
      if i == |result| {
        forall r | r in seen ensures Covers(next, r) {
          var k :| 0 <= k < |result| && result[k].identifier == r.identifier && Cost(result[k]) <= Cost(r);
          assert next[k] == result[k];
        }
        assert next[|result|] == route;
      } else if IsShorter(route, result[i]) {
        ReplaceKeepsBest(result, seen, route, i);
      } else {
        assert result[i].identifier == route.identifier;
      }
    }
  }

  lemma ReplaceKeepsBest(result: seq<Route>, seen: set<Route>, route: Route, i: nat)
    requires Best(result, seen)
    requires i < |result| && result[i].identifier == route.identifier && IsShorter(route, result[i])
    ensures Best(result[..i] + result[i + 1..] + [route], seen + {route})
  {
    var next := result[..i] + result[i + 1..] + [route];
    assert forall k :: 0 <= k < i ==> next[k] == result[k];
    assert forall k :: i < k < |result| ==> next[k - 1] == result[k];
    assert next[|result| - 1] == route;
    forall r | r in seen ensures Covers(next, r) {
      var k :| 0 <= k < |result| && result[k].identifier == r.identifier && Cost(result[k]) <= Cost(r);
      var at := if k < i then k else if k == i then |result| - 1 else k - 1;
      assert next[at].identifier == r.identifier && Cost(next[at]) <= Cost(r);
    }
  }

  ghost function OnlineOf(routes: seq<Route>): set<Route> {
    set r | r in routes && r.status.online
  }

  lemma OnlineOfFirst(routes: seq<Route>)
    requires routes != []
    ensures OnlineOf(routes) == (if routes[0].status.online then {routes[0]} else {}) + OnlineOf(routes[1..])
  {
    assert routes == [routes[0]] + routes[1..];
  }

  /** Everything the walk over `order` offers. */
  ghost function Offered(table: Table, order: seq<string>, outbound: string): set<Route>
    decreases |order|
  {
    if order == [] then {}
    else if order[0] == outbound || order[0] !in table then Offered(table, order[1..], outbound)
    else OnlineOf(table[order[0]]) + Offered(table, order[1..], outbound)
  }

  lemma {:induction false} OfferedMembers(table: Table, order: seq<string>, outbound: string, route: Route)
    ensures route in Offered(table, order, outbound) <==>
      exists g :: g in order && g in table && g != outbound && route in table[g] && route.status.online
    decreases |order|
  {
    if order != [] {
      assert order == [order[0]] + order[1..];
      OfferedMembers(table, order[1..], outbound, route);
    }
  }

  lemma {:induction false} ConsiderAllKeepsBest(result: seq<Route>, seen: set<Route>, routes: seq<Route>)
    requires Best(result, seen)
    ensures Best(ConsiderAll(result, routes), seen + OnlineOf(routes))
    decreases |routes|
  {
    hide Consider, Best, OnlineOf;
    if routes == [] {
      assert OnlineOf(routes) == {} by { OnlineOfNone(); }
      assert seen + OnlineOf(routes) == seen;
    } else {
      ConsiderKeepsBest(result, seen, routes[0]);
      OnlineOfFirst(routes);
      var first := if routes[0].status.online then seen + {routes[0]} else seen;
      ConsiderAllKeepsBest(Consider(result, routes[0]), first, routes[1..]);
      assert first + OnlineOf(routes[1..]) == seen + OnlineOf(routes);
    }
  }

  lemma OnlineOfNone()
    ensures OnlineOf([]) == {}
  {}

  lemma {:induction false} SelectFromKeepsBest(
    table: Table, order: seq<string>, outbound: string, result: seq<Route>, seen: set<Route>)
    requires Best(result, seen)
    ensures Best(SelectFrom(table, order, outbound, result), seen + Offered(table, order, outbound))
    decreases |order|
  {
    hide Best, OnlineOf, ConsiderAll;
    if order == [] {
      assert seen + Offered(table, order, outbound) == seen;
    } else if order[0] == outbound || order[0] !in table {
      SelectFromKeepsBest(table, order[1..], outbound, result, seen);
    } else {
      var here := OnlineOf(table[order[0]]);
      ConsiderAllKeepsBest(result, seen, table[order[0]]);
      SelectFromKeepsBest(table, order[1..], outbound, ConsiderAll(result, table[order[0]]), seen + here);
      assert seen + here + Offered(table, order[1..], outbound) == seen + Offered(table, order, outbound);
    }
  }

  /**
  Split horizon and shortest route: one route for each identifier with an online
  route on another adapter, none that is only on the outbound adapter, and each
  as cheap as any online candidate with its identifier.
   */
  lemma FindRoutesSelects(table: Table, outbound: string)
    ensures var result := FindRoutes(table, outbound);
      && DistinctIds(result)
      && (forall r :: r in result ==> Candidate(table, outbound, r))
      && (forall r :: Candidate(table, outbound, r) ==> Covers(result, r))
  {
    hide Ascending;
    var order := Ascending(table.Keys);
    SelectFromKeepsBest(table, order, outbound, [], {});
    forall r { OfferedMembers(table, order, outbound, r); }
    assert forall g :: g in order <==> g in table;
    var seen := Offered(table, order, outbound);
    assert {} + seen == seen;
    assert forall r :: r in seen <==> Candidate(table, outbound, r);
  }

  // --------------------------------------------- the selection without clashes

  function OnlineRoutes(routes: seq<Route>): seq<Route> {
    if routes == [] then [] else
      Join(if routes[0].status.online then [routes[0]] else [], OnlineRoutes(routes[1..]))
  }

  /** The online routes of every list but the outbound adapter's, list by list. */
  function OnlineElsewhere(table: Table, order: seq<string>, outbound: string): seq<Route> {
    if order == [] then []
    else if order[0] == outbound || order[0] !in table then OnlineElsewhere(table, order[1..], outbound)
    else Join(OnlineRoutes(table[order[0]]), OnlineElsewhere(table, order[1..], outbound))
  }

  /** No identifier is stored twice, in one list or in two. */
  ghost predicate UniqueIds(table: Table) {
    forall g, i, g', i' ::
      && g in table && 0 <= i < |table[g]| && g' in table && 0 <= i' < |table[g']|
      && table[g][i].identifier == table[g'][i'].identifier
      ==> g == g' && i == i'
  }

  /** No route of the first list has the identifier of one in the second. */
  ghost predicate NoClash(result: seq<Route>, routes: seq<Route>) {
    forall i, j :: 0 <= i < |result| && 0 <= j < |routes| ==> result[i].identifier != routes[j].identifier
  }

  lemma NewIsAppended(result: seq<Route>, route: Route)
    requires forall i :: 0 <= i < |result| ==> result[i].identifier != route.identifier
    ensures Consider(result, route) == if route.status.online then result + [route] else result
  {
    assert IndexOf(result, route.identifier) == |result|;
  }

  /** Without clashes nothing is ever compared: the online routes are appended. */
  lemma {:induction false} ConsiderAllAppends(result: seq<Route>, routes: seq<Route>)
    requires DistinctIds(routes) && NoClash(result, routes)
    ensures ConsiderAll(result, routes) == Join(result, OnlineRoutes(routes))
    decreases |routes|
  {
    if routes != [] {
      var (first, rest) := (routes[0], routes[1..]);
      var next := if first.status.online then result + [first] else result;
      NewIsAppended(result, first);
      assert DistinctIds(rest) && NoClash(next, rest) by {
        assert forall j :: 0 <= j < |rest| ==> rest[j] == routes[j + 1];
      }
      ConsiderAllAppends(next, rest);
      JoinStep(result, first, OnlineRoutes(rest));
    }
  }

  /** What was selected so far comes from lists that are not still to come. */
  ghost predicate FromEarlier(table: Table, order: seq<string>, result: seq<Route>) {
    forall k :: 0 <= k < |result| ==> exists g :: InList(table, g, result[k]) && g !in order
  }

  ghost predicate InList(table: Table, g: string, route: Route) {
    g in table && exists i :: 0 <= i < |table[g]| && table[g][i] == route
  }

  lemma {:induction false} OnlineRoutesListed(table: Table, g: string, routes: seq<Route>, k: nat)
    requires forall j :: 0 <= j < |routes| ==> InList(table, g, routes[j])
    requires k < |OnlineRoutes(routes)|
    ensures InList(table, g, OnlineRoutes(routes)[k])
    decreases |routes|
  {
    var here := if routes[0].status.online then 1 else 0;
    if k >= here {
      OnlineRoutesListed(table, g, routes[1..], k - here);
    }
  }

  lemma OtherListsDoNotClash(table: Table, order: seq<string>, result: seq<Route>, g: string)
    requires UniqueIds(table) && FromEarlier(table, order, result) && g in table && g in order
    ensures DistinctIds(table[g]) && NoClash(result, table[g])
  {
    forall k, j | 0 <= k < |result| && 0 <= j < |table[g]|
      ensures result[k].identifier != table[g][j].identifier
    {
      var g' :| InList(table, g', result[k]) && g' !in order;
      var i :| 0 <= i < |table[g']| && table[g'][i] == result[k];
    }
  }

  lemma EarlierGrows(table: Table, order: seq<string>, result: seq<Route>)
    requires order != [] && order[0] !in order[1..] && order[0] in table && FromEarlier(table, order, result)
    ensures FromEarlier(table, order[1..], Join(result, OnlineRoutes(table[order[0]])))
  {
    var (g, rest, added) := (order[0], order[1..], OnlineRoutes(table[order[0]]));
    var next := Join(result, added);
    JoinIsConcat(result, added);
    forall k | 0 <= k < |next| ensures exists g' :: InList(table, g', next[k]) && g' !in rest {
      if k < |result| {
        var g' :| InList(table, g', result[k]) && g' !in order;
        assert g' !in rest;
      } else {
        assert forall j :: 0 <= j < |table[g]| ==> InList(table, g, table[g][j]);
        OnlineRoutesListed(table, g, table[g], k - |result|);
      }
    }
  }

  lemma {:induction false} SelectFromAppends(table: Table, order: seq<string>, outbound: string, result: seq<Route>)
    requires UniqueIds(table) && FromEarlier(table, order, result)
    requires forall i, j :: 0 <= i < j < |order| ==> order[i] != order[j]
    ensures SelectFrom(table, order, outbound, result) == Join(result, OnlineElsewhere(table, order, outbound))
    decreases |order|
  {
    if order != [] {
      var (g, rest) := (order[0], order[1..]);
      assert g !in rest;
      assert forall i :: 0 <= i < |rest| ==> rest[i] == order[i + 1];
      if g == outbound || g !in table {
        assert FromEarlier(table, rest, result);
        SelectFromAppends(table, rest, outbound, result);
      } else {
        OtherListsDoNotClash(table, order, result, g);
        ConsiderAllAppends(result, table[g]);
        EarlierGrows(table, order, result);
        hide UniqueIds, FromEarlier, ConsiderAll, OnlineRoutes;
        SelectFromAppends(table, rest, outbound, Join(result, OnlineRoutes(table[g])));
        JoinAssociates(result, OnlineRoutes(table[g]), OnlineElsewhere(table, rest, outbound));
      }
    }
  }

  /** When no identifier is stored twice, no route is ever preferred to another: all that are online are selected. */
  lemma SelectsAllOnline(table: Table, outbound: string)
    requires UniqueIds(table)
    ensures FindRoutes(table, outbound) == OnlineElsewhere(table, Ascending(table.Keys), outbound)
  {
    hide UniqueIds, Ascending, Enumerates;
    var order := Ascending(table.Keys);
    EnumeratedKeys(order, table.Keys);
    SelectFromAppends(table, order, outbound, []);
  }
}
