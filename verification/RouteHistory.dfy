/**
Runs of one node's route manager with a fixed adapter table: what is in the
table follows from the history of namings alone.
 */
module RouteHistory {
  import opened Bytes
  import opened Types
  import opened Sequences
  import opened Ordering
  import opened AdapterManagers
  import opened Routes
  import opened RouteManagers
  import Messages

  datatype RouteOp =
    | Heard(identifier: Short, nodes: seq<Messages.Node>, info: NetworkInfo)
    | Persist(route: PersistentRoute, time: Time)
    | Tick(now: Time)

  function Step(adapters: AdapterTable, m: Manager, op: RouteOp): Manager {
    match op
    case Heard(identifier, nodes, info) => ProcessDiscovery(adapters, m, identifier, nodes, info).0
    case Persist(route, time) => ProcessPersistent(adapters, m, route, time).0
    case Tick(now) => UpdateManager(m, now)
  }

  function Run(adapters: AdapterTable, ops: seq<RouteOp>): Manager {
    if ops == [] then Manager(map[], []) else Step(adapters, Run(adapters, ops[..|ops| - 1]), ops[|ops| - 1])
  }

  /** One mention of a route: where, when, with which jumps, and the persistent flag it carries if it does. */
  datatype Naming = Naming(id: RouteId, time: Time, jumps: Jumps, flag: Option<bool>)

  function NodeNamings(info: NetworkInfo, nodes: seq<Messages.Node>): seq<Naming> {
    if nodes == [] then [] else
      [Naming(IndirectId(nodes[0], info), info.receptionTime, [DIRECT_JUMP] + nodes[0].jumps, None)]
      + NodeNamings(info, nodes[1..])
  }

  /** The namings of one operation: the sender, then every listed node; nothing on an unknown adapter. */
  function Namings(adapters: AdapterTable, op: RouteOp): seq<Naming> {
    match op
    case Heard(identifier, nodes, info) =>
      if FindByAddress(adapters, info.adapter).None? then [] else
        [Naming(SenderId(identifier, info), info.receptionTime, [DIRECT_JUMP], None)] + NodeNamings(info, nodes)
    case Persist(route, time) =>
      if FindByAddress(adapters, route.identifier.adapter).None? then [] else
        [Naming(route.identifier, time, [route.metric], Some(route.enabled))]
    case Tick(_) => []
  }

  /** The naming of a listed node: its id and address, reached through the sender, at one jump more than it lists. */
  predicate NamesListed(naming: Naming, node: Messages.Node, info: NetworkInfo) {
    && naming.id == RouteId(NodeId(node.identifier, node.address), info.adapter, info.sender)
    && naming.time == info.receptionTime && naming.jumps == [256] + node.jumps && naming.flag == None
  }

  lemma {:induction false} ListedNamings(info: NetworkInfo, nodes: seq<Messages.Node>)
    ensures var namings := NodeNamings(info, nodes);
      |namings| == |nodes| && forall i :: 0 <= i < |nodes| ==> NamesListed(namings[i], nodes[i], info)
    decreases |nodes|
  {
    if nodes != [] {
      ListedNamings(info, nodes[1..]);
      assert NamesListed(NodeNamings(info, nodes)[0], nodes[0], info);
      hide NamesListed;
    }
  }

  /** What a discovery message names: its sender at one jump, then the listed nodes in order. */
  lemma HeardNames(adapters: AdapterTable, identifier: Short, nodes: seq<Messages.Node>, info: NetworkInfo)
    ensures var namings := Namings(adapters, Heard(identifier, nodes, info));
      if forall mac :: !CarriedBy(adapters, mac, info.adapter) then namings == [] else
        && |namings| == |nodes| + 1
        && namings[0] == Naming(RouteId(NodeId(identifier, info.sender), info.adapter, info.sender),
                                info.receptionTime, [256], None)
        && forall i :: 0 <= i < |nodes| ==> NamesListed(namings[1..][i], nodes[i], info)
  {
    FindByAddressFinds(adapters, info.adapter);
    ListedNamings(info, nodes);
    hide FindByAddress, CarriedBy, NodeNamings, NamesListed;
  }

  function Matching(namings: seq<Naming>, id: RouteId): seq<Naming> {
    if namings == [] then [] else
      (if namings[0].id == id then [namings[0]] else []) + Matching(namings[1..], id)
  }

  /** Every naming of a route in a run, in order. */
  function History(adapters: AdapterTable, ops: seq<RouteOp>, id: RouteId): seq<Naming> {
    if ops == [] then [] else
      History(adapters, ops[..|ops| - 1], id) + Matching(Namings(adapters, ops[|ops| - 1]), id)
  }

  /** The flag of the last naming that carried one. */
  function LastFlag(history: seq<Naming>): bool {
    if history == [] then false
    else if history[|history| - 1].flag.Some? then history[|history| - 1].flag.value
    else LastFlag(history[..|history| - 1])
  }

  function Entry(table: Table, guid: string, id: RouteId): Option<Route> {
    if guid in table && IndexOf(table[guid], id) < |table[guid]|
    then Some(table[guid][IndexOf(table[guid], id)]) else None
  }

  /** The entry of a route is a summary of its history: first jumps, last time, last flag. */
  ghost predicate Reflects(entry: Option<Route>, id: RouteId, history: seq<Naming>) {
    if history == [] then entry.None? else
      && entry.Some?
      && entry.value.identifier == id
      && entry.value.status.jumps == history[0].jumps
      && entry.value.lastDiscovery == history[|history| - 1].time
      && entry.value.lastDataMessage == MIN_TIME
      && entry.value.status.persistent == LastFlag(history)
  }

  /** The history as far as it concerns the list of one adapter. */
  function LocalHistory(adapters: AdapterTable, guid: string, id: RouteId, history: seq<Naming>): seq<Naming> {
    var home := FindByAddress(adapters, id.adapter);
    if home.Some? && home.value.guid == guid then history else []
  }

  // ---------------------------------------------------------------- one naming

  lemma EntryAfterProcess(m: Manager, adapter: Adapter, time: Time, named: RouteId, jumps: Jumps,
                          guid: string, id: RouteId)
    ensures var after := ProcessRoute(m, adapter, time, named, jumps).table;
      var was := Entry(m.table, guid, id);
      Entry(after, guid, id) ==
        if guid != adapter.guid || id != named then was
        else if was.None? then Some(Route(id, time, MIN_TIME, Status(true, false, false, jumps, adapter.mtu)))
        else Some(was.value.(lastDiscovery := time))
  {
    hide IndexOf;
    var next := ProcessRoute(m, adapter, time, named, jumps).table[adapter.guid];
    var routes := if adapter.guid in m.table then m.table[adapter.guid] else [];
    IndexAfterNaming(routes, next, named, id);
  }

  /** A list whose identifiers stay, with at most one new one behind them. */
  lemma IndexAfterNaming(routes: seq<Route>, next: seq<Route>, named: RouteId, id: RouteId)
    requires |routes| <= |next| <= |routes| + 1
    requires forall k :: 0 <= k < |routes| ==> next[k].identifier == routes[k].identifier
    requires |next| > |routes| ==> next[|routes|].identifier == named
    ensures IndexOf(next, id) ==
      if IndexOf(routes, id) < |routes| || id == named then IndexOf(routes, id) else |next|
  {
    hide IndexOf;
    var (before, at) := (IndexOf(routes, id), IndexOf(next, id));
    if before < |routes| {
      assert next[before].identifier == id;
    } else if |next| > |routes| {
      assert next[|routes|].identifier == named;
    }
  }

  lemma EntryAfterFlag(table: Table, home: string, named: RouteId, enabled: bool, guid: string, id: RouteId)
    requires home in table
    ensures var after := table[home := SetPersistent(table[home], named, enabled)];
      var was := Entry(table, guid, id);
      Entry(after, guid, id) ==
        if guid != home || id != named || was.None? then was
        else Some(was.value.(status := was.value.status.(persistent := enabled)))
  {
    var routes := table[home];
    var next := SetPersistent(routes, named, enabled);
    assert forall k :: 0 <= k < |routes| ==> next[k].identifier == routes[k].identifier;
    assert IndexOf(next, id) == IndexOf(routes, id);
  }

  lemma EntryAfterTick(m: Manager, now: Time, guid: string, id: RouteId)
    ensures var was := Entry(m.table, guid, id);
      Entry(UpdateManager(m, now).table, guid, id) == if was.None? then None else Some(Refresh(was.value, now))
  {
    UpdateRefreshesAll(m, now);
    hide UpdateManager;
    if guid in m.table {
      var routes := m.table[guid];
      var next := RefreshRoutes(routes, now);
      assert forall k :: 0 <= k < |routes| ==> next[k].identifier == routes[k].identifier;
      assert IndexOf(next, id) == IndexOf(routes, id);
    }
  }

  /** One more naming of this route. */
  lemma ReflectsNaming(entry: Option<Route>, id: RouteId, history: seq<Naming>, naming: Naming, next: Route)
    requires Reflects(entry, id, history)
    requires next.identifier == id && next.lastDiscovery == naming.time && next.lastDataMessage == MIN_TIME
    requires next.status.jumps == if entry.None? then naming.jumps else entry.value.status.jumps
    requires next.status.persistent ==
      if naming.flag.Some? then naming.flag.value else entry.Some? && entry.value.status.persistent
    ensures Reflects(Some(next), id, history + [naming])
  {
    assert (history + [naming])[..|history|] == history;
  }

  lemma {:induction false} NodesReflect(adapters: AdapterTable, m: Manager, adapter: Adapter, info: NetworkInfo,
                                        nodes: seq<Messages.Node>, guid: string, id: RouteId, history: seq<Naming>)
    requires FindByAddress(adapters, info.adapter) == Some(adapter)
    requires Reflects(Entry(m.table, guid, id), id, LocalHistory(adapters, guid, id, history))
    ensures Reflects(Entry(ProcessNodes(m, adapter, info, nodes).table, guid, id), id,
      LocalHistory(adapters, guid, id, history + Matching(NodeNamings(info, nodes), id)))
    decreases |nodes|
  {
    hide FindByAddress, ProcessRoute;
    if nodes == [] {
      assert history + [] == history;
    } else {
      var first := NodeNamings(info, nodes)[0];
      var added := if first.id == id then [first] else [];
      var later := Matching(NodeNamings(info, nodes[1..]), id);
      assert NodeNamings(info, nodes)[1..] == NodeNamings(info, nodes[1..]);
      NamingReflects(adapters, m, adapter, first, guid, id, history);
      NodesReflect(adapters, ProcessRoute(m, adapter, first.time, first.id, first.jumps), adapter, info, nodes[1..],
                   guid, id, history + added);
      Regroup(history, added, [], later);
    }
  }

  lemma NamingReflects(adapters: AdapterTable, m: Manager, adapter: Adapter, naming: Naming,
                       guid: string, id: RouteId, history: seq<Naming>)
    requires FindByAddress(adapters, naming.id.adapter) == Some(adapter)
    requires naming.flag.None?
    requires Reflects(Entry(m.table, guid, id), id, LocalHistory(adapters, guid, id, history))
    ensures Reflects(Entry(ProcessRoute(m, adapter, naming.time, naming.id, naming.jumps).table, guid, id), id,
      LocalHistory(adapters, guid, id, history + if naming.id == id then [naming] else []))
  {
    hide FindByAddress, ProcessRoute;
    EntryAfterProcess(m, adapter, naming.time, naming.id, naming.jumps, guid, id);
    var was := Entry(m.table, guid, id);
    if naming.id != id {
      assert history + [] == history;
    } else if guid == adapter.guid {
      var next := if was.None? then FreshRoute(adapter, naming.time, id, naming.jumps)
        else was.value.(lastDiscovery := naming.time);
      ReflectsNaming(was, id, history, naming, next);
    }
  }

  lemma PersistReflects(adapters: AdapterTable, m: Manager, route: PersistentRoute, time: Time,
                        guid: string, id: RouteId, history: seq<Naming>)
    requires Reflects(Entry(m.table, guid, id), id, LocalHistory(adapters, guid, id, history))
    ensures Reflects(Entry(ProcessPersistent(adapters, m, route, time).0.table, guid, id), id,
      LocalHistory(adapters, guid, id, history + Matching(Namings(adapters, Persist(route, time)), id)))
  {
    hide FindByAddress, ProcessRoute;
    var op := Persist(route, time);
    var named := route.identifier;
    var found := FindByAddress(adapters, named.adapter);
    if found.None? {
      assert history + Matching(Namings(adapters, op), id) == history;
    } else {
      var adapter := found.value;
      var naming := Naming(named, time, [route.metric], Some(route.enabled));
      assert Namings(adapters, op) == [naming];
      assert Matching([naming], id) == if named == id then [naming] else [];
      var table := ProcessRoute(m, adapter, time, named, [route.metric]).table;
      RouteIsStored(m, adapter, time, named, [route.metric]);
      EntryAfterProcess(m, adapter, time, named, [route.metric], guid, id);
      EntryAfterFlag(table, adapter.guid, named, route.enabled, guid, id);
      var was := Entry(m.table, guid, id);
      if named != id {
        assert history + [] == history;
      } else if guid == adapter.guid {
        var next := Entry(ProcessPersistent(adapters, m, route, time).0.table, guid, id).value;
        ReflectsNaming(was, id, history, naming, next);
      }
    }
  }

  lemma HeardReflects(adapters: AdapterTable, m: Manager, op: RouteOp,
                      guid: string, id: RouteId, history: seq<Naming>)
    requires op.Heard?
    requires Reflects(Entry(m.table, guid, id), id, LocalHistory(adapters, guid, id, history))
    ensures Reflects(Entry(Step(adapters, m, op).table, guid, id), id,
      LocalHistory(adapters, guid, id, history + Matching(Namings(adapters, op), id)))
  {
    hide FindByAddress, ProcessRoute, ProcessNodes;
    var found := FindByAddress(adapters, op.info.adapter);
    if found.None? {
      assert history + Matching(Namings(adapters, op), id) == history;
    } else {
      var first := Naming(SenderId(op.identifier, op.info), op.info.receptionTime, [DIRECT_JUMP], None);
      var added := if first.id == id then [first] else [];
      assert Namings(adapters, op)[0] == first && Namings(adapters, op)[1..] == NodeNamings(op.info, op.nodes);
      var direct := ProcessRoute(m, found.value, first.time, first.id, first.jumps);
      NamingReflects(adapters, m, found.value, first, guid, id, history);
      NodesReflect(adapters, direct, found.value, op.info, op.nodes, guid, id, history + added);
      Regroup(history, added, [], Matching(NodeNamings(op.info, op.nodes), id));
    }
  }

  lemma TickReflects(adapters: AdapterTable, m: Manager, now: Time, guid: string, id: RouteId, history: seq<Naming>)
    requires Reflects(Entry(m.table, guid, id), id, LocalHistory(adapters, guid, id, history))
    ensures Reflects(Entry(Step(adapters, m, Tick(now)).table, guid, id), id,
      LocalHistory(adapters, guid, id, history + Matching(Namings(adapters, Tick(now)), id)))
  {
    hide UpdateManager, FindByAddress, LocalHistory, Entry;
    EntryAfterTick(m, now, guid, id);
    assert history + [] == history;
  }

  /** Every entry of every reachable table summarises its route's history. */
  lemma {:induction false} RunReflects(adapters: AdapterTable, ops: seq<RouteOp>, guid: string, id: RouteId)
    ensures Reflects(Entry(Run(adapters, ops).table, guid, id), id,
      LocalHistory(adapters, guid, id, History(adapters, ops, id)))
    decreases |ops|
  {
    if ops != [] {
      hide FindByAddress, ProcessDiscovery, ProcessPersistent, UpdateManager, Namings, Reflects, Entry, LocalHistory;
      var (front, op) := (ops[..|ops| - 1], ops[|ops| - 1]);
      var (m, history) := (Run(adapters, front), History(adapters, front, id));
      RunReflects(adapters, front, guid, id);
      match op
      case Heard(_, _, _) => HeardReflects(adapters, m, op, guid, id, history);
      case Persist(route, time) => PersistReflects(adapters, m, route, time, guid, id, history);
      case Tick(now) => TickReflects(adapters, m, now, guid, id, history);
    }
  }

  // -------------------------------------------------------------- uniqueness

  /** No list names a route twice, and every route sits in the list of the adapter it names. */
  ghost predicate Tidy(adapters: AdapterTable, table: Table) {
    forall g :: g in table ==> TidyList(adapters, g, table[g])
  }

  ghost predicate TidyList(adapters: AdapterTable, guid: string, routes: seq<Route>) {
    && DistinctIds(routes)
    && forall i :: 0 <= i < |routes| ==> AtHome(adapters, guid, routes[i].identifier)
  }

  ghost predicate AtHome(adapters: AdapterTable, guid: string, id: RouteId) {
    var home := FindByAddress(adapters, id.adapter);
    home.Some? && home.value.guid == guid
  }

  lemma ProcessRouteTidy(adapters: AdapterTable, m: Manager, adapter: Adapter, time: Time, id: RouteId, jumps: Jumps)
    requires Tidy(adapters, m.table)
    requires FindByAddress(adapters, id.adapter) == Some(adapter)
    ensures Tidy(adapters, ProcessRoute(m, adapter, time, id, jumps).table)
  {
    hide FindByAddress;
    var after := ProcessRoute(m, adapter, time, id, jumps).table;
    forall g | g in after ensures TidyList(adapters, g, after[g]) {
      if g == adapter.guid && g in m.table {
        assert TidyList(adapters, g, m.table[g]);
      }
    }
  }

  lemma {:induction false} ProcessNodesTidy(adapters: AdapterTable, m: Manager, adapter: Adapter, info: NetworkInfo,
                                            nodes: seq<Messages.Node>)
    requires Tidy(adapters, m.table)
    requires FindByAddress(adapters, info.adapter) == Some(adapter)
    ensures Tidy(adapters, ProcessNodes(m, adapter, info, nodes).table)
    decreases |nodes|
  {
    hide FindByAddress, Tidy, ProcessRoute;
    if nodes != [] {
      var id := IndirectId(nodes[0], info);
      var jumps := [DIRECT_JUMP] + nodes[0].jumps;
      ProcessRouteTidy(adapters, m, adapter, info.receptionTime, id, jumps);
      ProcessNodesTidy(adapters, ProcessRoute(m, adapter, info.receptionTime, id, jumps), adapter, info, nodes[1..]);
    }
  }

  lemma SetPersistentTidy(adapters: AdapterTable, table: Table, guid: string, id: RouteId, enabled: bool)
    requires Tidy(adapters, table) && guid in table
    ensures Tidy(adapters, table[guid := SetPersistent(table[guid], id, enabled)])
  {
    hide FindByAddress;
    var next := SetPersistent(table[guid], id, enabled);
    assert forall k :: 0 <= k < |next| ==> next[k].identifier == table[guid][k].identifier;
  }

  lemma StepTidy(adapters: AdapterTable, m: Manager, op: RouteOp)
    requires Tidy(adapters, m.table)
    ensures Tidy(adapters, Step(adapters, m, op).table)
  {
    hide FindByAddress, ProcessRoute, ProcessNodes, SetPersistent, Refresh, Ascending, UpdateManager;
    match op
    case Heard(identifier, nodes, info) =>
      var found := FindByAddress(adapters, info.adapter);
      if found.Some? {
        var id := SenderId(identifier, info);
        ProcessRouteTidy(adapters, m, found.value, info.receptionTime, id, [DIRECT_JUMP]);
        ProcessNodesTidy(adapters, ProcessRoute(m, found.value, info.receptionTime, id, [DIRECT_JUMP]), found.value,
                         info, nodes);
      }
    case Persist(route, time) =>
      var found := FindByAddress(adapters, route.identifier.adapter);
      if found.Some? {
        var named := ProcessRoute(m, found.value, time, route.identifier, [route.metric]);
        ProcessRouteTidy(adapters, m, found.value, time, route.identifier, [route.metric]);
        RouteIsStored(m, found.value, time, route.identifier, [route.metric]);
        SetPersistentTidy(adapters, named.table, found.value.guid, route.identifier, route.enabled);
      }
    case Tick(now) => TickTidy(adapters, m, now);
  }

  lemma TickTidy(adapters: AdapterTable, m: Manager, now: Time)
    requires Tidy(adapters, m.table)
    ensures Tidy(adapters, UpdateManager(m, now).table)
  {
    hide FindByAddress;
    UpdateRefreshesAll(m, now);
    hide UpdateManager;
    var after := UpdateManager(m, now).table;
    forall g | g in after ensures TidyList(adapters, g, after[g]) {
      assert TidyList(adapters, g, m.table[g]);
      assert forall k :: 0 <= k < |after[g]| ==> after[g][k].identifier == m.table[g][k].identifier;
    }
  }

  lemma {:induction false} RunTidy(adapters: AdapterTable, ops: seq<RouteOp>)
    ensures Tidy(adapters, Run(adapters, ops).table)
    decreases |ops|
  {
    hide FindByAddress, Step;
    if ops != [] {
      RunTidy(adapters, ops[..|ops| - 1]);
      StepTidy(adapters, Run(adapters, ops[..|ops| - 1]), ops[|ops| - 1]);
    }
  }

  /** Identifiers are unique across all lists: an occurrence is the entry in the home list. */
  lemma OccurrenceIsEntry(adapters: AdapterTable, table: Table, guid: string, i: nat)
    requires Tidy(adapters, table)
    requires guid in table && i < |table[guid]|
    ensures AtHome(adapters, guid, table[guid][i].identifier)
    ensures Entry(table, guid, table[guid][i].identifier) == Some(table[guid][i])
  {
    hide FindByAddress;
    assert TidyList(adapters, guid, table[guid]);
  }

  // ------------------------------------------------------------ main theorems

  ghost predicate Occurs(table: Table, guid: string, i: nat, id: RouteId) {
    guid in table && i < |table[guid]| && table[guid][i].identifier == id
  }

  /** A route is stored at most once in all lists together. */
  lemma StoredOnce(adapters: AdapterTable, ops: seq<RouteOp>, g: string, i: nat, g': string, i': nat, id: RouteId)
    requires Occurs(Run(adapters, ops).table, g, i, id) && Occurs(Run(adapters, ops).table, g', i', id)
    ensures g == g' && i == i'
  {
    hide FindByAddress;
    var table := Run(adapters, ops).table;
    hide Run;
    RunTidy(adapters, ops);
    OccurrenceIsEntry(adapters, table, g, i);
    OccurrenceIsEntry(adapters, table, g', i');
    assert TidyList(adapters, g, table[g]);
  }

  lemma TidyIsUnique(adapters: AdapterTable, table: Table)
    requires Tidy(adapters, table)
    ensures UniqueIds(table)
  {
    hide FindByAddress;
    forall g, i: nat, g', i': nat
      | && g in table && i < |table[g]| && g' in table && i' < |table[g']|
        && table[g][i].identifier == table[g'][i'].identifier
      ensures g == g' && i == i'
    {
      OccurrenceIsEntry(adapters, table, g, i);
      OccurrenceIsEntry(adapters, table, g', i');
      assert TidyList(adapters, g, table[g]);
    }
  }

  /**
  In every reachable table the selection for an adapter is all online routes of
  the other lists, in key order: routes to one node through two reporters have
  two identifiers, so the shorter one never displaces the longer one.
   */
  lemma NothingIsDisplaced(adapters: AdapterTable, ops: seq<RouteOp>, outbound: string)
    ensures var table := Run(adapters, ops).table;
      FindRoutes(table, outbound) == OnlineElsewhere(table, Ascending(table.Keys), outbound)
  {
    var table := Run(adapters, ops).table;
    RunTidy(adapters, ops);
    TidyIsUnique(adapters, table);
    SelectsAllOnline(table, outbound);
  }

  /** A route is stored iff some processed message named it on a known adapter. */
  lemma StoredIffNamed(adapters: AdapterTable, ops: seq<RouteOp>, id: RouteId)
    ensures History(adapters, ops, id) != [] <==> exists g, i :: Occurs(Run(adapters, ops).table, g, i, id)
  {
    var table := Run(adapters, ops).table;
    var history := History(adapters, ops, id);
    hide FindByAddress, Run, History;
    RunTidy(adapters, ops);
    forall g, i: nat | Occurs(table, g, i, id) ensures history != [] {
      OccurrenceIsEntry(adapters, table, g, i);
      RunReflects(adapters, ops, g, id);
    }
    if history != [] {
      HistoryHasHome(adapters, ops, id);
      var home := FindByAddress(adapters, id.adapter).value.guid;
      RunReflects(adapters, ops, home, id);
      assert Occurs(table, home, IndexOf(table[home], id), id);
    }
  }

  /**
  A stored route after any run ending in `update(now)`: it sits in the list of
  the adapter it names, has the jumps of its first naming, and is online iff its
  last flag says persistent or its last naming is later than 90 seconds ago.
  (The last disjunct covers clocks within 90 seconds of the minimum.)
   */
  lemma StoredAfterUpdate(adapters: AdapterTable, ops: seq<RouteOp>, now: Time, g: string, i: nat)
    requires var table := Run(adapters, ops + [Tick(now)]).table; g in table && i < |table[g]|
    ensures var route := Run(adapters, ops + [Tick(now)]).table[g][i];
      var history := History(adapters, ops, route.identifier);
      && history != []
      && AtHome(adapters, g, route.identifier)
      && route.status.jumps == history[0].jumps
      && (route.status.online <==>
            || LastFlag(history)
            || history[|history| - 1].time > now - 90_000_000_000
            || -0x8000_0000_0000_0000 > now - 90_000_000_000)
  {
    var all := ops + [Tick(now)];
    var table := Run(adapters, all).table;
    var route: Route := table[g][i];
    hide FindByAddress, Run, History;
    RunTidy(adapters, all);
    OccurrenceIsEntry(adapters, table, g, i);
    EntryAfterUpdate(adapters, ops, now, route.identifier);
  }

  lemma RunTick(adapters: AdapterTable, ops: seq<RouteOp>, now: Time)
    ensures Run(adapters, ops + [Tick(now)]) == UpdateManager(Run(adapters, ops), now)
  {
    hide UpdateManager, ProcessDiscovery, ProcessPersistent;
    assert (ops + [Tick(now)])[..|ops|] == ops;
  }

  lemma {:induction false} NodeNamingsOnAdapter(info: NetworkInfo, nodes: seq<Messages.Node>, id: RouteId)
    requires Matching(NodeNamings(info, nodes), id) != []
    ensures id.adapter == info.adapter
    decreases |nodes|
  {
    if IndirectId(nodes[0], info) != id {
      assert NodeNamings(info, nodes)[1..] == NodeNamings(info, nodes[1..]);
      NodeNamingsOnAdapter(info, nodes[1..], id);
    }
  }

  lemma {:induction false} HistoryHasHome(adapters: AdapterTable, ops: seq<RouteOp>, id: RouteId)
    requires History(adapters, ops, id) != []
    ensures FindByAddress(adapters, id.adapter).Some?
    decreases |ops|
  {
    hide FindByAddress;
    var (front, op) := (ops[..|ops| - 1], ops[|ops| - 1]);
    if History(adapters, front, id) != [] {
      HistoryHasHome(adapters, front, id);
    } else {
      var namings := Namings(adapters, op);
      assert Matching(namings, id) != [];
      if op.Heard? && namings[0].id != id {
        assert namings[1..] == NodeNamings(op.info, op.nodes);
        NodeNamingsOnAdapter(op.info, op.nodes, id);
      }
    }
  }

  /** A named route's entry after any run ending in `update(now)`. */
  ghost predicate UpdatedEntry(entry: Option<Route>, history: seq<Naming>, now: Time) {
    if history == [] then entry.None? else
      && entry.Some?
      && entry.value.status.jumps == history[0].jumps
      && entry.value.status.persistent == LastFlag(history)
      && (entry.value.status.online <==>
            || LastFlag(history)
            || history[|history| - 1].time > now - 90_000_000_000
            || -0x8000_0000_0000_0000 > now - 90_000_000_000)
  }

  lemma RefreshedEntry(entry: Option<Route>, id: RouteId, history: seq<Naming>, now: Time)
    requires Reflects(entry, id, history)
    ensures UpdatedEntry(if entry.None? then None else Some(Refresh(entry.value, now)), history, now)
  {}

  lemma EntryAfterUpdate(adapters: AdapterTable, ops: seq<RouteOp>, now: Time, id: RouteId)
    requires FindByAddress(adapters, id.adapter).Some?
    ensures var home := FindByAddress(adapters, id.adapter).value.guid;
      UpdatedEntry(Entry(Run(adapters, ops + [Tick(now)]).table, home, id), History(adapters, ops, id), now)
  {
    var home := FindByAddress(adapters, id.adapter).value.guid;
    hide FindByAddress, Run, Entry, History, UpdateManager, Reflects, UpdatedEntry, Refresh;
    var (m, history) := (Run(adapters, ops), History(adapters, ops, id));
    RunTick(adapters, ops, now);
    RunReflects(adapters, ops, home, id);
    EntryAfterTick(m, now, home, id);
    RefreshedEntry(Entry(m.table, home, id), id, history, now);
  }

  // --------------------------------------------------------- persistent routes

  predicate Disables(op: RouteOp, id: RouteId) {
    op.Persist? && op.route.identifier == id && !op.route.enabled
  }

  ghost predicate NoneDisables(namings: seq<Naming>) {
    forall i :: 0 <= i < |namings| ==> namings[i].flag != Some(false)
  }

  lemma {:induction false} FlagStays(history: seq<Naming>, more: seq<Naming>)
    requires LastFlag(history)
    requires NoneDisables(more)
    ensures LastFlag(history + more)
    decreases |more|
  {
    if more == [] {
      assert history + more == history;
    } else {
      FlagStays(history, more[..|more| - 1]);
      assert (history + more)[..|history + more| - 1] == history + more[..|more| - 1];
    }
  }

  lemma {:induction false} MatchingFlags(namings: seq<Naming>, id: RouteId)
    requires forall i :: 0 <= i < |namings| ==> namings[i].id == id ==> namings[i].flag != Some(false)
    ensures NoneDisables(Matching(namings, id))
    decreases |namings|
  {
    if namings != [] {
      MatchingFlags(namings[1..], id);
    }
  }

  lemma {:induction false} NodeNamingsCarryNoFlag(info: NetworkInfo, nodes: seq<Messages.Node>)
    ensures forall i :: 0 <= i < |NodeNamings(info, nodes)| ==> NodeNamings(info, nodes)[i].flag.None?
    decreases |nodes|
  {
    if nodes != [] {
      NodeNamingsCarryNoFlag(info, nodes[1..]);
    }
  }

  lemma OpKeepsFlag(adapters: AdapterTable, op: RouteOp, id: RouteId)
    requires !Disables(op, id)
    ensures NoneDisables(Matching(Namings(adapters, op), id))
  {
    hide FindByAddress, Matching;
    if op.Heard? {
      NodeNamingsCarryNoFlag(op.info, op.nodes);
    }
    MatchingFlags(Namings(adapters, op), id);
  }

  lemma {:induction false} FlagStaysOverRun(adapters: AdapterTable, before: seq<RouteOp>, after: seq<RouteOp>,
                                            id: RouteId)
    requires LastFlag(History(adapters, before, id))
    requires forall i :: 0 <= i < |after| ==> !Disables(after[i], id)
    ensures LastFlag(History(adapters, before + after, id))
    decreases |after|
  {
    hide Namings, Disables, NoneDisables;
    if after == [] {
      assert before + after == before;
    } else {
      var (front, op) := (after[..|after| - 1], after[|after| - 1]);
      FlagStaysOverRun(adapters, before, front, id);
      var all := before + after;
      assert all[..|all| - 1] == before + front && all[|all| - 1] == op;
      OpKeepsFlag(adapters, op, id);
      FlagStays(History(adapters, before + front, id), Matching(Namings(adapters, op), id));
    }
  }

  /**
  An enabled persistent route on a known adapter is stored, flagged, and online
  after every later update, until a disabling message names it.
   */
  lemma PersistentStaysOnline(adapters: AdapterTable, before: seq<RouteOp>, route: PersistentRoute, time: Time,
                              after: seq<RouteOp>, now: Time)
    requires FindByAddress(adapters, route.identifier.adapter).Some?
    requires route.enabled
    requires forall i :: 0 <= i < |after| ==> !Disables(after[i], route.identifier)
    ensures var id := route.identifier;
      var home := FindByAddress(adapters, id.adapter).value.guid;
      var entry := Entry(Run(adapters, before + [Persist(route, time)] + after + [Tick(now)]).table, home, id);
      entry.Some? && entry.value.status.persistent && entry.value.status.online
  {
    hide FindByAddress, Run, Entry, History;
    var start := before + [Persist(route, time)];
    FlagAfterPersist(adapters, before, route, time);
    FlagStaysOverRun(adapters, start, after, route.identifier);
    EntryAfterUpdate(adapters, start + after, now, route.identifier);
  }

  lemma FlagAfterPersist(adapters: AdapterTable, before: seq<RouteOp>, route: PersistentRoute, time: Time)
    requires FindByAddress(adapters, route.identifier.adapter).Some?
    ensures LastFlag(History(adapters, before + [Persist(route, time)], route.identifier)) == route.enabled
  {
    hide FindByAddress;
    var start := before + [Persist(route, time)];
    var naming := Naming(route.identifier, time, [route.metric], Some(route.enabled));
    assert start[..|start| - 1] == before;
    assert Namings(adapters, start[|start| - 1]) == [naming];
    assert Matching([naming], route.identifier) == [naming];
  }

  // ---------------------------------------------------------- answers and events

  /** Both kinds of messages are processed exactly when they name a known adapter. */
  lemma ProcessedIffKnown(adapters: AdapterTable, m: Manager, identifier: Short, nodes: seq<Messages.Node>,
                          info: NetworkInfo, route: PersistentRoute, time: Time)
    ensures ProcessDiscovery(adapters, m, identifier, nodes, info).1 <==>
      exists mac :: CarriedBy(adapters, mac, info.adapter)
    ensures ProcessPersistent(adapters, m, route, time).1 <==>
      exists mac :: CarriedBy(adapters, mac, route.identifier.adapter)
  {
    FindByAddressFinds(adapters, info.adapter);
    FindByAddressFinds(adapters, route.identifier.adapter);
    hide FindByAddress, CarriedBy, ProcessRoute, ProcessNodes, SetPersistent;
  }

  /** A persistent-route message on a known adapter stores the route with its metric, or marks the stored one. */
  lemma EntryAfterPersist(adapters: AdapterTable, m: Manager, route: PersistentRoute, time: Time)
    requires FindByAddress(adapters, route.identifier.adapter).Some?
    ensures var home := FindByAddress(adapters, route.identifier.adapter).value;
      var (id, was) := (route.identifier, Entry(m.table, home.guid, route.identifier));
      Entry(ProcessPersistent(adapters, m, route, time).0.table, home.guid, id) == Some(
        if was.None? then Route(id, time, MIN_TIME, Status(true, route.enabled, false, [route.metric], home.mtu))
        else was.value.(lastDiscovery := time, status := was.value.status.(persistent := route.enabled)))
  {
    var home := FindByAddress(adapters, route.identifier.adapter).value;
    var id := route.identifier;
    hide FindByAddress, ProcessRoute, SetPersistent, Entry;
    EntryAfterProcess(m, home, time, id, [route.metric], home.guid, id);
    RouteIsStored(m, home, time, id, [route.metric]);
    EntryAfterFlag(ProcessRoute(m, home, time, id, [route.metric]).table, home.guid, id, route.enabled, home.guid, id);
  }

  /** How often a route was announced as new. */
  function NewCount(events: seq<RouteEvent>, id: RouteId): nat {
    if events == [] then 0 else
      NewCount(events[..|events| - 1], id)
      + if events[|events| - 1].NewRoute? && events[|events| - 1].route.identifier == id then 1 else 0
  }

  lemma {:induction false} NewCountConcat(a: seq<RouteEvent>, b: seq<RouteEvent>, id: RouteId)
    ensures NewCount(a + b, id) == NewCount(a, id) + NewCount(b, id)
    decreases |b|
  {
    if b == [] {
      assert a + b == a;
    } else {
      FrontOfConcat(a, b);
      NewCountConcat(a, b[..|b| - 1], id);
    }
  }

  /** Naming a route raises one event if it is new, with the stored entry, and none otherwise. */
  lemma EventsAfterProcess(m: Manager, adapter: Adapter, time: Time, named: RouteId, jumps: Jumps)
    ensures var entry := Route(named, time, MIN_TIME, Status(true, false, false, jumps, adapter.mtu));
      ProcessRoute(m, adapter, time, named, jumps).events ==
        m.events + if Entry(m.table, adapter.guid, named).None? then [NewRoute(entry)] else []
  {}

  /** The event log announces exactly the stored routes of the adapters where they belong, once each. */
  ghost predicate NewOnce(adapters: AdapterTable, m: Manager, id: RouteId) {
    var home := FindByAddress(adapters, id.adapter);
    NewCount(m.events, id) ==
      if home.Some? && Entry(m.table, home.value.guid, id).Some? then 1 else 0
  }

  lemma ProcessNewOnce(adapters: AdapterTable, m: Manager, adapter: Adapter, time: Time, named: RouteId, jumps: Jumps,
                       id: RouteId)
    requires FindByAddress(adapters, named.adapter) == Some(adapter) && NewOnce(adapters, m, id)
    ensures NewOnce(adapters, ProcessRoute(m, adapter, time, named, jumps), id)
  {
    var entry := Route(named, time, MIN_TIME, Status(true, false, false, jumps, adapter.mtu));
    var added := if Entry(m.table, adapter.guid, named).None? then [NewRoute(entry)] else [];
    EventsAfterProcess(m, adapter, time, named, jumps);
    NewCountConcat(m.events, added, id);
    var home := FindByAddress(adapters, id.adapter);
    hide FindByAddress, ProcessRoute, Entry;
    if home.Some? {
      EntryAfterProcess(m, adapter, time, named, jumps, home.value.guid, id);
    }
  }

  lemma {:induction false} NodesNewOnce(adapters: AdapterTable, m: Manager, adapter: Adapter, info: NetworkInfo,
                                        nodes: seq<Messages.Node>, id: RouteId)
    requires FindByAddress(adapters, info.adapter) == Some(adapter) && NewOnce(adapters, m, id)
    ensures NewOnce(adapters, ProcessNodes(m, adapter, info, nodes), id)
    decreases |nodes|
  {
    hide FindByAddress, ProcessRoute, NewOnce;
    if nodes != [] {
      var (named, jumps) := (IndirectId(nodes[0], info), [DIRECT_JUMP] + nodes[0].jumps);
      ProcessNewOnce(adapters, m, adapter, info.receptionTime, named, jumps, id);
      NodesNewOnce(adapters, ProcessRoute(m, adapter, info.receptionTime, named, jumps), adapter, info, nodes[1..], id);
    }
  }

  lemma TickNewOnce(adapters: AdapterTable, m: Manager, now: Time, id: RouteId)
    requires NewOnce(adapters, m, id)
    ensures NewOnce(adapters, UpdateManager(m, now), id)
  {
    hide FindByAddress, UpdateManager, Entry, NewCount;
    TickNamesNone(m, now, id);
    var home := FindByAddress(adapters, id.adapter);
    if home.Some? {
      EntryAfterTick(m, now, home.value.guid, id);
    }
  }

  /** A tick announces no route as new. */
  lemma TickNamesNone(m: Manager, now: Time, id: RouteId)
    ensures NewCount(UpdateManager(m, now).events, id) == NewCount(m.events, id)
  {
    hide UpdateManager, TellsChanges, NewCount;
    var places := TickTellsChanges(m, now);
    var (before, after) := (m.events, UpdateManager(m, now).events);
    var added := after[|before|..];
    assert after == before + added;
    NewCountConcat(before, added, id);
    FlagEventsOnly(m.table, UpdateManager(m, now).table, added, places);
    NoneIsNew(added, id);
  }

  lemma FlagEventsOnly(before: Table, after: Table, events: seq<RouteEvent>, places: seq<(string, nat)>)
    requires TellsChanges(before, after, events, places)
    ensures forall k :: 0 <= k < |events| ==> events[k].OnlineChanged?
  {
    forall k | 0 <= k < |events| ensures events[k].OnlineChanged? {
      assert TellsChange(before, after, places[k].0, places[k].1, events[k]);
    }
  }

  lemma {:induction false} NoneIsNew(events: seq<RouteEvent>, id: RouteId)
    requires forall k :: 0 <= k < |events| ==> events[k].OnlineChanged?
    ensures NewCount(events, id) == 0
    decreases |events|
  {
    if events != [] {
      NoneIsNew(events[..|events| - 1], id);
    }
  }

  lemma StepNewOnce(adapters: AdapterTable, m: Manager, op: RouteOp, id: RouteId)
    requires NewOnce(adapters, m, id)
    ensures NewOnce(adapters, Step(adapters, m, op), id)
  {
    hide FindByAddress, ProcessRoute, ProcessNodes, SetPersistent, UpdateManager, Entry, NewCount;
    match op
    case Heard(identifier, nodes, info) =>
      var found := FindByAddress(adapters, info.adapter);
      if found.Some? {
        var named := SenderId(identifier, info);
        var direct := ProcessRoute(m, found.value, info.receptionTime, named, [DIRECT_JUMP]);
        ProcessNewOnce(adapters, m, found.value, info.receptionTime, named, [DIRECT_JUMP], id);
        hide NewOnce;
        NodesNewOnce(adapters, direct, found.value, info, nodes, id);
      }
    case Persist(route, time) =>
      var found := FindByAddress(adapters, route.identifier.adapter);
      if found.Some? {
        var guid := found.value.guid;
        var named := ProcessRoute(m, found.value, time, route.identifier, [route.metric]);
        ProcessNewOnce(adapters, m, found.value, time, route.identifier, [route.metric], id);
        RouteIsStored(m, found.value, time, route.identifier, [route.metric]);
        var home := FindByAddress(adapters, id.adapter);
        if home.Some? {
          EntryAfterFlag(named.table, guid, route.identifier, route.enabled, home.value.guid, id);
        }
      }
    case Tick(now) => TickNewOnce(adapters, m, now, id);
  }

  /** In every run a route is announced as new once if some processed message named it, and never otherwise. */
  lemma {:induction false} AnnouncedOnce(adapters: AdapterTable, ops: seq<RouteOp>, id: RouteId)
    ensures NewCount(Run(adapters, ops).events, id) == if History(adapters, ops, id) == [] then 0 else 1
  {
    RunNewOnce(adapters, ops, id);
    hide FindByAddress, Run, Entry, History, NewCount;
    var home := FindByAddress(adapters, id.adapter);
    if home.Some? {
      RunReflects(adapters, ops, home.value.guid, id);
    }
    if History(adapters, ops, id) != [] {
      HistoryHasHome(adapters, ops, id);
    }
  }

  lemma {:induction false} RunNewOnce(adapters: AdapterTable, ops: seq<RouteOp>, id: RouteId)
    ensures NewOnce(adapters, Run(adapters, ops), id)
    decreases |ops|
  {
    hide FindByAddress, Step;
    if ops != [] {
      hide NewOnce;
      RunNewOnce(adapters, ops[..|ops| - 1], id);
      StepNewOnce(adapters, Run(adapters, ops[..|ops| - 1]), ops[|ops| - 1], id);
    }
  }

  /** A stored route has the mtu of the adapter that it is stored for, and is not silent. */
  ghost predicate MtuOfHome(adapters: AdapterTable, entry: Option<Route>, id: RouteId) {
    var home := FindByAddress(adapters, id.adapter);
    entry.Some? && home.Some? ==> entry.value.status.mtu == home.value.mtu && !entry.value.status.silent
  }

  lemma {:induction false} NodesKeepMtu(adapters: AdapterTable, m: Manager, adapter: Adapter, info: NetworkInfo,
                                        nodes: seq<Messages.Node>, g: string, id: RouteId)
    requires FindByAddress(adapters, info.adapter) == Some(adapter)
    requires MtuOfHome(adapters, Entry(m.table, g, id), id)
    ensures MtuOfHome(adapters, Entry(ProcessNodes(m, adapter, info, nodes).table, g, id), id)
    decreases |nodes|
  {
    hide FindByAddress, ProcessRoute, Entry;
    if nodes != [] {
      var (named, jumps) := (IndirectId(nodes[0], info), [DIRECT_JUMP] + nodes[0].jumps);
      EntryAfterProcess(m, adapter, info.receptionTime, named, jumps, g, id);
      NodesKeepMtu(adapters, ProcessRoute(m, adapter, info.receptionTime, named, jumps), adapter, info, nodes[1..], g,
                   id);
    }
  }

  lemma StepKeepsMtu(adapters: AdapterTable, m: Manager, op: RouteOp, g: string, id: RouteId)
    requires MtuOfHome(adapters, Entry(m.table, g, id), id)
    ensures MtuOfHome(adapters, Entry(Step(adapters, m, op).table, g, id), id)
  {
    hide FindByAddress, ProcessRoute, ProcessNodes, SetPersistent, UpdateManager, Entry;
    match op
    case Heard(identifier, nodes, info) =>
      var found := FindByAddress(adapters, info.adapter);
      if found.Some? {
        var named := SenderId(identifier, info);
        EntryAfterProcess(m, found.value, info.receptionTime, named, [DIRECT_JUMP], g, id);
        NodesKeepMtu(adapters, ProcessRoute(m, found.value, info.receptionTime, named, [DIRECT_JUMP]), found.value,
                     info, nodes, g, id);
      }
    case Persist(route, time) =>
      var found := FindByAddress(adapters, route.identifier.adapter);
      if found.Some? {
        var named := ProcessRoute(m, found.value, time, route.identifier, [route.metric]);
        EntryAfterProcess(m, found.value, time, route.identifier, [route.metric], g, id);
        RouteIsStored(m, found.value, time, route.identifier, [route.metric]);
        EntryAfterFlag(named.table, found.value.guid, route.identifier, route.enabled, g, id);
      }
    case Tick(now) => EntryAfterTick(m, now, g, id);
  }

  /** In every reachable table. */
  lemma {:induction false} RunKeepsMtu(adapters: AdapterTable, ops: seq<RouteOp>, g: string, id: RouteId)
    ensures MtuOfHome(adapters, Entry(Run(adapters, ops).table, g, id), id)
    decreases |ops|
  {
    hide FindByAddress, Step;
    if ops != [] {
      hide MtuOfHome, Entry;
      RunKeepsMtu(adapters, ops[..|ops| - 1], g, id);
      StepKeepsMtu(adapters, Run(adapters, ops[..|ops| - 1]), ops[|ops| - 1], g, id);
    }
  }
}
