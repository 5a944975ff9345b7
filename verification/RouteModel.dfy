/**
The observer's copy of the route table: rows overwritten or appended as events
arrive. `ObserverMirrorsTable` says it always shows the table itself.
 */
module RouteModels {
  import opened Types
  import opened Ordering
  import opened AdapterManagers
  import opened Routes
  import opened RouteManagers
  import opened RouteHistory

  function Upsert(rows: seq<Route>, entry: Route): seq<Route> {
    var i := IndexOf(rows, entry.identifier);
    if i == |rows| then rows + [entry] else rows[i := entry]
  }

  class RouteModel {
    var rows: seq<Route>

    constructor ()
      ensures rows == []
    {
      rows := [];
    }

    method Update(entry: Route)
      modifies this
      ensures rows == Upsert(old(rows), entry)
    {
      var updated := false;
      for i := 0 to |rows|
        invariant !updated && rows == old(rows)
        invariant forall k :: 0 <= k < i ==> rows[k].identifier != entry.identifier
      {
        if rows[i].identifier == entry.identifier {
          rows := rows[i := entry];
          updated := true;
          break;
        }
      }
      if !updated {
        rows := rows + [entry];
      }
    }
  }

  /** The rows after a sequence of events; both kinds carry the route to show. */
  function Observe(rows: seq<Route>, events: seq<RouteEvent>): seq<Route>
    decreases |events|
  {
    if events == [] then rows else Observe(Upsert(rows, events[0].route), events[1..])
  }

  function RowOf(rows: seq<Route>, id: RouteId): Option<Route> {
    var i := IndexOf(rows, id);
    if i < |rows| then Some(rows[i]) else None
  }

  function HomeEntry(adapters: AdapterTable, table: Table, id: RouteId): Option<Route> {
    var home := FindByAddress(adapters, id.adapter);
    if home.None? then None else Entry(table, home.value.guid, id)
  }

  ghost predicate Agree(row: Option<Route>, entry: Option<Route>) {
    && (row.Some? <==> entry.Some?)
    && (row.Some? ==>
          && row.value.identifier == entry.value.identifier
          && row.value.status.jumps == entry.value.status.jumps
          && row.value.status.online == entry.value.status.online)
  }

  /** One row per stored route, with its identifier, jumps and online flag, and no other row. */
  ghost predicate Mirrors(adapters: AdapterTable, m: Manager) {
    var rows := Observe([], m.events);
    && Tidy(adapters, m.table)
    && DistinctIds(rows)
    && forall id :: Agree(RowOf(rows, id), HomeEntry(adapters, m.table, id))
  }

  // ---------------------------------------------------------------- one event

  lemma {:induction false} ObserveConcat(rows: seq<Route>, first: seq<RouteEvent>, second: seq<RouteEvent>)
    ensures Observe(rows, first + second) == Observe(Observe(rows, first), second)
    decreases |first|
  {
    if first == [] {
      assert first + second == second;
    } else {
      assert (first + second)[1..] == first[1..] + second;
      ObserveConcat(Upsert(rows, first[0].route), first[1..], second);
    }
  }

  lemma UpsertRow(rows: seq<Route>, entry: Route, id: RouteId)
    requires DistinctIds(rows)
    ensures DistinctIds(Upsert(rows, entry))
    ensures RowOf(Upsert(rows, entry), id) == if id == entry.identifier then Some(entry) else RowOf(rows, id)
  {
    var i := IndexOf(rows, entry.identifier);
    var next := Upsert(rows, entry);
    assert forall k :: 0 <= k < |rows| ==> next[k].identifier == rows[k].identifier;
    assert next[i].identifier == entry.identifier;
    var (before, at) := (IndexOf(rows, id), IndexOf(next, id));
    if id == entry.identifier {
      assert at == i;
    } else if before < |rows| {
      assert at == before;
    }
  }

  lemma ObserveOne(rows: seq<Route>, event: RouteEvent)
    ensures Observe(rows, [event]) == Upsert(rows, event.route)
  {
    assert [event][1..] == [];
  }

  // ------------------------------------------------------------ one operation

  lemma ProcessRouteMirrors(adapters: AdapterTable, m: Manager, adapter: Adapter, time: Time, named: RouteId,
                            jumps: Jumps)
    requires Mirrors(adapters, m)
    requires FindByAddress(adapters, named.adapter) == Some(adapter)
    ensures Mirrors(adapters, ProcessRoute(m, adapter, time, named, jumps))
  {
    hide FindByAddress;
    var next := ProcessRoute(m, adapter, time, named, jumps);
    var rows := Observe([], m.events);
    var added := FreshRoute(adapter, time, named, jumps);
    var isNew := Entry(m.table, adapter.guid, named).None?;
    assert next.events == m.events + if isNew then [NewRoute(added)] else [];
    hide ProcessRoute;
    ProcessRouteTidy(adapters, m, adapter, time, named, jumps);
    if isNew {
      ObserveConcat([], m.events, [NewRoute(added)]);
      ObserveOne(rows, NewRoute(added));
    } else {
      assert next.events == m.events;
    }
    UpsertRow(rows, added, named);
    forall id ensures Agree(RowOf(Observe([], next.events), id), HomeEntry(adapters, next.table, id)) {
      assert Agree(RowOf(rows, id), HomeEntry(adapters, m.table, id));
      UpsertRow(rows, added, id);
      var home := FindByAddress(adapters, id.adapter);
      if home.Some? {
        EntryAfterProcess(m, adapter, time, named, jumps, home.value.guid, id);
      }
    }
  }

  lemma {:induction false} ProcessNodesMirrors(adapters: AdapterTable, m: Manager, adapter: Adapter, op: RouteOp,
                                               from: nat)
    requires op.Heard? && from <= |op.nodes|
    requires Mirrors(adapters, m)
    requires FindByAddress(adapters, op.info.adapter) == Some(adapter)
    ensures Mirrors(adapters, ProcessNodes(m, adapter, op.info, op.nodes[from..]))
    decreases |op.nodes| - from
  {
    hide FindByAddress, ProcessRoute, Mirrors;
    if from < |op.nodes| {
      var node := op.nodes[from];
      var id := IndirectId(node, op.info);
      assert op.nodes[from..][0] == node && op.nodes[from..][1..] == op.nodes[from + 1..];
      ProcessRouteMirrors(adapters, m, adapter, op.info.receptionTime, id, [DIRECT_JUMP] + node.jumps);
      ProcessNodesMirrors(adapters,
        ProcessRoute(m, adapter, op.info.receptionTime, id, [DIRECT_JUMP] + node.jumps), adapter, op, from + 1);
    }
  }

  lemma HeardMirrors(adapters: AdapterTable, m: Manager, op: RouteOp)
    requires op.Heard?
    requires Mirrors(adapters, m)
    ensures Mirrors(adapters, Step(adapters, m, op))
  {
    hide FindByAddress, ProcessRoute, ProcessNodes, Mirrors;
    var found := FindByAddress(adapters, op.info.adapter);
    if found.Some? {
      var id := SenderId(op.identifier, op.info);
      ProcessRouteMirrors(adapters, m, found.value, op.info.receptionTime, id, [DIRECT_JUMP]);
      assert op.nodes[0..] == op.nodes;
      ProcessNodesMirrors(adapters,
        ProcessRoute(m, found.value, op.info.receptionTime, id, [DIRECT_JUMP]), found.value, op, 0);
    }
  }

  lemma PersistMirrors(adapters: AdapterTable, m: Manager, route: PersistentRoute, time: Time)
    requires Mirrors(adapters, m)
    ensures Mirrors(adapters, ProcessPersistent(adapters, m, route, time).0)
  {
    hide FindByAddress, ProcessRoute;
    var found := FindByAddress(adapters, route.identifier.adapter);
    if found.Some? {
      var guid := found.value.guid;
      var named := ProcessRoute(m, found.value, time, route.identifier, [route.metric]);
      ProcessRouteMirrors(adapters, m, found.value, time, route.identifier, [route.metric]);
      RouteIsStored(m, found.value, time, route.identifier, [route.metric]);
      SetPersistentTidy(adapters, named.table, guid, route.identifier, route.enabled);
      var next := ProcessPersistent(adapters, m, route, time).0;
      assert next.events == named.events;
      var rows := Observe([], named.events);
      forall id ensures Agree(RowOf(rows, id), HomeEntry(adapters, next.table, id)) {
        assert Agree(RowOf(rows, id), HomeEntry(adapters, named.table, id));
        var home := FindByAddress(adapters, id.adapter);
        if home.Some? {
          EntryAfterFlag(named.table, guid, route.identifier, route.enabled, home.value.guid, id);
        }
      }
    }
  }

  // ------------------------------------------------------------------- a tick

  /** The rows after the events of one list: changed routes show their new flag. */
  lemma {:induction false} RowsAfterRefresh(rows: seq<Route>, routes: seq<Route>, now: Time, id: RouteId)
    requires DistinctIds(rows) && DistinctIds(routes)
    ensures var after := Observe(rows, RefreshEvents(routes, now));
      var i := IndexOf(routes, id);
      && DistinctIds(after)
      && RowOf(after, id) ==
           if i < |routes| && RefreshEvent(routes[i], now) != [] then Some(Refresh(routes[i], now))
           else RowOf(rows, id)
    decreases |routes|
  {
    hide RefreshEvent, Refresh, DistinctIds, RowOf;
    if routes != [] {
      var (first, rest) := (routes[0], routes[1..]);
      assert RefreshEvents(routes, now) == RefreshEvent(first, now) + RefreshEvents(rest, now);
      hide Observe, RefreshEvents, IndexOf;
      var next := Observe(rows, RefreshEvent(first, now));
      FirstRefreshed(rows, first, now, id);
      ObserveConcat(rows, RefreshEvent(first, now), RefreshEvents(rest, now));
      DistinctTail(routes, id);
      RowsAfterRefresh(next, rest, now, id);
    }
  }

  lemma FirstRefreshed(rows: seq<Route>, first: Route, now: Time, id: RouteId)
    requires DistinctIds(rows)
    ensures var event := RefreshEvent(first, now);
      var next := Observe(rows, event);
      && DistinctIds(next)
      && RowOf(next, id) == if id == first.identifier && event != [] then Some(Refresh(first, now)) else RowOf(rows, id)
  {
    hide IsOnline;
    var event := RefreshEvent(first, now);
    if event != [] {
      ObserveOne(rows, event[0]);
      UpsertRow(rows, Refresh(first, now), id);
    }
  }

  /** Where an identifier sits in a list without duplicates, seen from its head. */
  lemma DistinctTail(routes: seq<Route>, id: RouteId)
    requires routes != [] && DistinctIds(routes)
    ensures DistinctIds(routes[1..])
    ensures if routes[0].identifier == id then IndexOf(routes, id) == 0 && IndexOf(routes[1..], id) == |routes| - 1
      else IndexOf(routes, id) == 1 + IndexOf(routes[1..], id)
  {
    assert forall k :: 0 <= k < |routes| - 1 ==> routes[1..][k] == routes[k + 1];
  }

  lemma RefreshListTidy(adapters: AdapterTable, m: Manager, guid: string, now: Time)
    requires Tidy(adapters, m.table) && guid in m.table
    ensures Tidy(adapters, RefreshList(m, guid, now).table)
  {
    hide FindByAddress;
    var next := RefreshRoutes(m.table[guid], now);
    assert TidyList(adapters, guid, m.table[guid]);
    assert forall k :: 0 <= k < |next| ==> next[k].identifier == m.table[guid][k].identifier;
  }

  lemma EntryAfterRefreshList(m: Manager, guid: string, now: Time, g: string, id: RouteId)
    requires guid in m.table
    ensures var was := Entry(m.table, g, id);
      Entry(RefreshList(m, guid, now).table, g, id) ==
        if g == guid && was.Some? then Some(Refresh(was.value, now)) else was
  {
    var next := RefreshRoutes(m.table[guid], now);
    assert forall k :: 0 <= k < |next| ==> next[k].identifier == m.table[guid][k].identifier;
    assert IndexOf(next, id) == IndexOf(m.table[guid], id);
  }

  lemma RefreshListMirrors(adapters: AdapterTable, m: Manager, guid: string, now: Time)
    requires Mirrors(adapters, m) && guid in m.table
    ensures Mirrors(adapters, RefreshList(m, guid, now))
  {
    hide FindByAddress, IsOnline;
    var routes := m.table[guid];
    var next := RefreshList(m, guid, now);
    var rows := Observe([], m.events);
    assert TidyList(adapters, guid, routes);
    RefreshListTidy(adapters, m, guid, now);
    ObserveConcat([], m.events, RefreshEvents(routes, now));
    var after := Observe([], next.events);
    assert after == Observe(rows, RefreshEvents(routes, now));
    forall id ensures DistinctIds(after) && Agree(RowOf(after, id), HomeEntry(adapters, next.table, id)) {
      assert Agree(RowOf(rows, id), HomeEntry(adapters, m.table, id));
      RowsAfterRefresh(rows, routes, now, id);
      var home := FindByAddress(adapters, id.adapter);
      var i := IndexOf(routes, id);
      assert i < |routes| ==> AtHome(adapters, guid, routes[i].identifier);
      if home.Some? {
        EntryAfterRefreshList(m, guid, now, home.value.guid, id);
      }
    }
    var someId := RouteId(NodeId(0, 0), 0, 0);
    assert Agree(RowOf(after, someId), HomeEntry(adapters, next.table, someId));
  }

  lemma {:induction false} RefreshListsMirrors(adapters: AdapterTable, m: Manager, order: seq<string>, now: Time)
    requires Mirrors(adapters, m)
    ensures Mirrors(adapters, RefreshLists(m, order, now))
    decreases |order|
  {
    hide Mirrors, RefreshList;
    if order != [] && order[0] in m.table {
      RefreshListMirrors(adapters, m, order[0], now);
      RefreshListsMirrors(adapters, RefreshList(m, order[0], now), order[1..], now);
    }
  }

  lemma StepMirrors(adapters: AdapterTable, m: Manager, op: RouteOp)
    requires Mirrors(adapters, m)
    ensures Mirrors(adapters, Step(adapters, m, op))
  {
    hide Mirrors, ProcessDiscovery, ProcessPersistent, RefreshLists, Ascending;
    match op
    case Heard(_, _, _) => HeardMirrors(adapters, m, op);
    case Persist(route, time) => PersistMirrors(adapters, m, route, time);
    case Tick(now) => RefreshListsMirrors(adapters, m, Ascending(m.table.Keys), now);
  }

  /** In every reachable state the observer fed by the events shows exactly the stored routes. */
  lemma {:induction false} ObserverMirrorsTable(adapters: AdapterTable, ops: seq<RouteOp>)
    ensures Mirrors(adapters, Run(adapters, ops))
    decreases |ops|
  {
    if ops == [] {
      assert forall id :: IndexOf([], id) == 0;
    } else {
      hide Mirrors, Step;
      ObserverMirrorsTable(adapters, ops[..|ops| - 1]);
      StepMirrors(adapters, Run(adapters, ops[..|ops| - 1]), ops[|ops| - 1]);
    }
  }
}
