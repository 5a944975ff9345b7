/**
`route_manager`: the table updated in place, proved against module Routes.
 */
module RouteManagers {
  import opened Bytes
  import opened Types
  import opened Sequences
  import opened Ordering
  import opened AdapterManagers
  import opened Routes
  import Messages

  class RouteManager {
    var table: Table
    var events: seq<RouteEvent>
    const adapterManager: AdapterManager

    constructor (adapterManager: AdapterManager)
      ensures State() == Manager(map[], []) && this.adapterManager == adapterManager
    {
      table, events := map[], [];
      this.adapterManager := adapterManager;
    }

    ghost function State(): Manager
      reads this
    {
      Manager(table, events)
    }

    method Update(now: Time)
      modifies this
      ensures State() == UpdateManager(old(State()), now)
      ensures table.Keys == old(table).Keys
      ensures forall g, i :: g in table && 0 <= i < |table[g]| ==>
        |table[g]| == |old(table)[g]| && table[g][i] == Refresh(old(table)[g][i], now)
      ensures old(events) <= events
      ensures exists places :: TellsChanges(old(table), table, events[|old(events)|..], places)
    {
      UpdateRefreshesAll(State(), now);
      ghost var places := TickTellsChanges(State(), now);
      hide UpdateManager, TellsChanges;
      UpdateLists(now);
    }

    /** The outer loop of `update`, over the lists in key order. */
    method UpdateLists(now: Time)
      modifies this
      ensures State() == UpdateManager(old(State()), now)
    {
      hide Ascending, Enumerates, RefreshLists, RefreshList, RefreshEvents;
      ghost var goal := UpdateManager(State(), now);
      var order := Ascending(table.Keys);
      EnumeratedKeys(order, table.Keys);
      assert order[0..] == order;
      for i := 0 to |order|
        invariant forall k :: 0 <= k < |order| ==> order[k] in table
        invariant RefreshLists(State(), order[i..], now) == goal
      {
        RefreshListsAt(State(), order, i, now);
        UpdateList(order[i], now);
      }
      RefreshListsDone(State(), order, now);
    }

    /** The inner loop of `update`, over the routes of one adapter. */
    method UpdateList(guid: string, now: Time)
      requires guid in table
      modifies this
      ensures State() == RefreshList(old(State()), guid, now)
      ensures table.Keys == old(table.Keys)
    {
      hide IsOnline, RefreshRoutes;
      ghost var start := table[guid];
      ghost var goal := events + RefreshEvents(start, now);
      assert start[0..] == start;
      var routes := table[guid];
      for i := 0 to |routes|
        invariant |routes| == |start|
        invariant table == old(table)[guid := routes]
        invariant forall k :: 0 <= k < i ==> routes[k] == Refresh(start[k], now)
        invariant forall k :: i <= k < |routes| ==> routes[k] == start[k]
        invariant events + RefreshEvents(start[i..], now) == goal
      {
        ghost var log := events;
        var route := routes[i];
        if IsOnline(route, now) {
          if !route.status.online {
            route := route.(status := route.status.(online := true));
            events := events + [OnlineChanged(route, false)];
          }
        } else {
          if route.status.online {
            route := route.(status := route.status.(online := false));
            events := events + [OnlineChanged(route, true)];
          }
        }
        assert route == Refresh(start[i], now);
        routes := routes[i := route];
        table := table[guid := routes];
        RefreshEventsAt(start, i, now);
        assert events == log + RefreshEvent(start[i], now);
        Regroup(log, RefreshEvent(start[i], now), [], RefreshEvents(start[i + 1..], now));
      }
      assert routes == RefreshRoutes(start, now);
    }

    method ProcessDiscoveryMessage(identifier: Short, nodes: seq<Messages.Node>, info: NetworkInfo)
      returns (result: bool)
      modifies this
      ensures (State(), result) == ProcessDiscovery(adapterManager.adapters, old(State()), identifier, nodes, info)
    {
      hide FindByAddress, ProcessRoute;
      var found := adapterManager.FindAdapter(info.adapter);
      if found.None? {
        return false;
      }
      var jumps := [DIRECT_JUMP];
      result := ProcessRouteMethod(found.value, info.receptionTime, SenderId(identifier, info), jumps);
      ghost var goal := ProcessNodes(State(), found.value, info, nodes);
      assert nodes[0..] == nodes;
      for i := 0 to |nodes|
        invariant result
        invariant ProcessNodes(State(), found.value, info, nodes[i..]) == goal
      {
        assert nodes[i..][0] == nodes[i] && nodes[i..][1..] == nodes[i + 1..];
        var indirectJumps := jumps + nodes[i].jumps;
        var ok := ProcessRouteMethod(found.value, info.receptionTime, IndirectId(nodes[i], info), indirectJumps);
        result := result && ok;
      }
    }

    method ProcessPersistentRoute(route: PersistentRoute, time: Time) returns (result: bool)
      modifies this
      ensures (State(), result) == ProcessPersistent(adapterManager.adapters, old(State()), route, time)
    {
      hide ProcessRoute, FindByAddress, SetPersistent;
      var found := adapterManager.FindAdapter(route.identifier.adapter);
      if found.None? {
        return false;
      }
      result := ProcessRouteMethod(found.value, time, route.identifier, [route.metric]);
      RouteIsStored(old(State()), found.value, time, route.identifier, [route.metric]);
      if result {
        StorePersistent(found.value.guid, route.identifier, route.enabled);
      }
    }

    /** The part of `process_persistent_route` after the route was stored: neither lookup can fail. */
    method StorePersistent(guid: string, id: RouteId, enabled: bool)
      requires guid in table && IndexOf(table[guid], id) < |table[guid]|
      modifies this
      ensures events == old(events)
      ensures table == old(table)[guid := SetPersistent(old(table[guid]), id, enabled)]
    {
      if guid !in table {
        assert false;
        return;
      }
      var routes := table[guid];
      var i := IndexOf(routes, id);
      if i == |routes| {
        assert false;
      } else {
        table := table[guid := routes[i := routes[i].(status := routes[i].status.(persistent := enabled))]];
      }
    }

    /** `process_route`; it always succeeds. */
    method ProcessRouteMethod(adapter: Adapter, time: Time, id: RouteId, jumps: Jumps) returns (result: bool)
      modifies this
      ensures result && State() == ProcessRoute(old(State()), adapter, time, id, jumps)
    {
      if adapter.guid !in table {
        var route := Route(id, time, MIN_TIME, Status(true, false, false, jumps, adapter.mtu));
        table := table[adapter.guid := [route]];
        events := events + [NewRoute(route)];
      } else {
        var routes := table[adapter.guid];
        var i := IndexOf(routes, id);
        if i == |routes| {
          var route := Route(id, time, MIN_TIME, Status(true, false, false, jumps, adapter.mtu));
          table := table[adapter.guid := routes + [route]];
          events := events + [NewRoute(route)];
        } else {
          table := table[adapter.guid := routes[i := routes[i].(lastDiscovery := time)]];
        }
      }
      result := true;
    }

    method FindRoutesForAdapter(outbound: string) returns (result: seq<Route>)
      ensures result == FindRoutes(table, outbound)
      ensures DistinctIds(result)
      ensures forall r :: r in result ==> Candidate(table, outbound, r)
      ensures forall r :: Candidate(table, outbound, r) ==> Covers(result, r)
    {
      hide Ascending, Enumerates, ConsiderAll, Candidate, Covers, DistinctIds;
      FindRoutesSelects(table, outbound);
      result := [];
      var order := Ascending(table.Keys);
      EnumeratedKeys(order, table.Keys);
      assert order[0..] == order;
      for i := 0 to |order|
        invariant forall k :: 0 <= k < |order| ==> order[k] in table
        invariant SelectFrom(table, order[i..], outbound, result) == FindRoutes(table, outbound)
      {
        assert order[i..][0] == order[i] && order[i..][1..] == order[i + 1..];
        if order[i] != outbound {
          result := AddBetterRoutes(result, table[order[i]]);
        }
      }
    }

    /** The inner loop of the selection, over the routes of one adapter. */
    method AddBetterRoutes(known: seq<Route>, routes: seq<Route>) returns (result: seq<Route>)
      ensures result == ConsiderAll(known, routes)
    {
      hide Cost;
      result := known;
      assert routes[0..] == routes;
      for k := 0 to |routes|
        invariant ConsiderAll(result, routes[k..]) == ConsiderAll(known, routes)
      {
        assert routes[k..][0] == routes[k] && routes[k..][1..] == routes[k + 1..];
        var route := routes[k];
        if route.status.online {
          var existing := IndexOf(result, route.identifier);
          if existing != |result| {
            if IsShorter(route, result[existing]) {
              result := result[..existing] + result[existing + 1..];
              result := result + [route];
            }
          } else {
            result := result + [route];
          }
        }
      }
    }
  }

  /** After `process_route` the route is in the list of its adapter. */
  lemma RouteIsStored(m: Manager, adapter: Adapter, time: Time, id: RouteId, jumps: Jumps)
    ensures var table := ProcessRoute(m, adapter, time, id, jumps).table;
      adapter.guid in table && IndexOf(table[adapter.guid], id) < |table[adapter.guid]|
  {
    var table := ProcessRoute(m, adapter, time, id, jumps).table;
    var routes := table[adapter.guid];
    if adapter.guid !in m.table {
      assert routes[0].identifier == id;
    } else if IndexOf(m.table[adapter.guid], id) == |m.table[adapter.guid]| {
      assert routes[|routes| - 1].identifier == id;
    } else {
      assert routes[IndexOf(m.table[adapter.guid], id)].identifier == id;
    }
  }
}
