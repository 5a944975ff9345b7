/**
The adapter table: a diff against the freshly fetched adapters, with one event
for every change.
 */
module AdapterManagers {
  import opened Bytes
  import opened Ordering
  import opened Sequences
  import opened Types

  datatype Adapter = Adapter(
    guid: string, mac: string, index: Byte, name: string, description: string,
    loopback: bool, enabled: bool, addresses: seq<(Address, Address)>, gateway: Address, mtu: nat)

  datatype Field = Guid | Mac | Name | Index | Description | Enabled | Mtu | Gateway | AddressList

  datatype AdapterEvent = New(adapter: Adapter) | Changed(prev: Adapter, curr: Adapter) | Removed(adapter: Adapter)

  type AdapterTable = map<string, Adapter>

  function NamesDiff(lhs: Adapter, rhs: Adapter): (changes: seq<Field>)
    ensures forall f :: f in changes ==> f in {Guid, Mac, Name}
    ensures (Guid in changes <==> lhs.guid != rhs.guid) && (Mac in changes <==> lhs.mac != rhs.mac)
    ensures Name in changes <==> lhs.name != rhs.name
  {
    (if lhs.guid != rhs.guid then [Guid] else [])
    + (if lhs.mac != rhs.mac then [Mac] else [])
    + (if lhs.name != rhs.name then [Name] else [])
  }

  function StateDiff(lhs: Adapter, rhs: Adapter): (changes: seq<Field>)
    ensures forall f :: f in changes ==> f in {Index, Description, Enabled}
    ensures (Index in changes <==> lhs.index != rhs.index) && (Enabled in changes <==> lhs.enabled != rhs.enabled)
    ensures Description in changes <==> lhs.description != rhs.description
  {
    (if lhs.index != rhs.index then [Index] else [])
    + (if lhs.description != rhs.description then [Description] else [])
    + (if lhs.enabled != rhs.enabled then [Enabled] else [])
  }

  function AddressDiff(lhs: Adapter, rhs: Adapter): (changes: seq<Field>)
    ensures forall f :: f in changes ==> f in {Mtu, Gateway, AddressList}
    ensures (Mtu in changes <==> lhs.mtu != rhs.mtu) && (Gateway in changes <==> lhs.gateway != rhs.gateway)
    ensures AddressList in changes <==> lhs.addresses != rhs.addresses
  {
    (if lhs.mtu != rhs.mtu then [Mtu] else [])
    + (if lhs.gateway != rhs.gateway then [Gateway] else [])
    + (if lhs.addresses != rhs.addresses then [AddressList] else [])
  }

  /** Whether two adapters differ in a field. */
  predicate Differ(lhs: Adapter, rhs: Adapter, f: Field) {
    match f
    case Guid => lhs.guid != rhs.guid
    case Mac => lhs.mac != rhs.mac
    case Name => lhs.name != rhs.name
    case Index => lhs.index != rhs.index
    case Description => lhs.description != rhs.description
    case Enabled => lhs.enabled != rhs.enabled
    case Mtu => lhs.mtu != rhs.mtu
    case Gateway => lhs.gateway != rhs.gateway
    case AddressList => lhs.addresses != rhs.addresses
  }

  /** The changes that are looked for: every field but `loopback`. */
  function AdapterDiff(lhs: Adapter, rhs: Adapter): (changes: seq<Field>)
    ensures changes == [] <==> rhs.(loopback := lhs.loopback) == lhs
  {
    NamesDiff(lhs, rhs) + StateDiff(lhs, rhs) + AddressDiff(lhs, rhs)
  }

  /** The list names exactly the fields that differ. */
  lemma DiffLists(lhs: Adapter, rhs: Adapter, f: Field)
    ensures f in AdapterDiff(lhs, rhs) <==> Differ(lhs, rhs, f)
  {
    hide NamesDiff, StateDiff, AddressDiff;
    InConcat(NamesDiff(lhs, rhs), StateDiff(lhs, rhs), AddressDiff(lhs, rhs), f);
  }

  lemma InConcat<T>(a: seq<T>, b: seq<T>, c: seq<T>, x: T)
    ensures x in a + b + c <==> x in a || x in b || x in c
  {}

  /** One fetched adapter: the event it raises, if any. */
  function FetchedEvent(m: AdapterTable, adapter: Adapter): seq<AdapterEvent> {
    if adapter.mac !in m then [New(adapter)]
    else if AdapterDiff(m[adapter.mac], adapter) != [] then [Changed(m[adapter.mac], adapter)]
    else []
  }

  function ApplyFetched(m: AdapterTable, fetched: seq<Adapter>): (AdapterTable, seq<AdapterEvent>)
    decreases |fetched|
  {
    if fetched == [] then (m, []) else
      var event := FetchedEvent(m, fetched[0]);
      var next := if event == [] then m else m[fetched[0].mac := fetched[0]];
      var (last, events) := ApplyFetched(next, fetched[1..]);
      (last, event + events)
  }

  predicate IsFetched(fetched: seq<Adapter>, mac: string) {
    exists i :: 0 <= i < |fetched| && fetched[i].mac == mac
  }

  /** The sweep over the keys, in order, of the table as it was before the sweep. */
  function Sweep(m: AdapterTable, order: seq<string>, fetched: seq<Adapter>): (AdapterTable, seq<AdapterEvent>) {
    if order == [] then (m, [])
    else if IsFetched(fetched, order[0]) || order[0] !in m then Sweep(m, order[1..], fetched)
    else
      var (last, events) := Sweep(m - {order[0]}, order[1..], fetched);
      (last, [Removed(m[order[0]])] + events)
  }

  lemma SweepAt(m: AdapterTable, order: seq<string>, i: nat, fetched: seq<Adapter>)
    requires i < |order|
    ensures Sweep(m, order[i..], fetched) ==
      if IsFetched(fetched, order[i]) || order[i] !in m then Sweep(m, order[i + 1..], fetched)
      else
        var (last, events) := Sweep(m - {order[i]}, order[i + 1..], fetched);
        (last, [Removed(m[order[i]])] + events)
  {
    assert order[i..][0] == order[i] && order[i..][1..] == order[i + 1..];
  }

  lemma SweepDone(m: AdapterTable, order: seq<string>, fetched: seq<Adapter>)
    ensures Sweep(m, order[|order|..], fetched) == (m, [])
  {}

  function Update(m: AdapterTable, fetched: seq<Adapter>): (AdapterTable, seq<AdapterEvent>) {
    var (applied, changes) := ApplyFetched(m, fetched);
    var (swept, removals) := Sweep(applied, Ascending(applied.Keys), fetched);
    (swept, changes + removals)
  }

  /** The first adapter, in key order, that has the address. */
  function FirstWith(m: AdapterTable, order: seq<string>, address: Address): Option<Adapter> {
    if order == [] then None
    else if CarriedBy(m, order[0], address) then Some(m[order[0]])
    else FirstWith(m, order[1..], address)
  }

  predicate HasAddress(adapter: Adapter, address: Address) {
    exists i :: 0 <= i < |adapter.addresses| && adapter.addresses[i].0 == address
  }

  function FindByAddress(m: AdapterTable, address: Address): Option<Adapter> {
    FirstWith(m, Ascending(m.Keys), address)
  }

  predicate WellKeyed(m: AdapterTable) {
    forall mac :: mac in m ==> m[mac].mac == mac
  }

  class AdapterManager {
    var adapters: AdapterTable
    var events: seq<AdapterEvent>

    ghost predicate Valid()
      reads this
    {
      WellKeyed(adapters)
    }

    constructor ()
      ensures Valid() && adapters == map[] && events == []
    {
      adapters, events := map[], [];
    }

    method UpdateAdapters(fetched: seq<Adapter>)
      requires Valid()
      modifies this
      ensures Valid()
      ensures adapters == Update(old(adapters), fetched).0
      ensures forall mac :: mac in adapters <==> IsFetched(fetched, mac)
      ensures forall mac :: mac in adapters ==>
        LastFetched(fetched, mac).Some? && SameButLoopback(adapters[mac], LastFetched(fetched, mac).value)
      ensures events == old(events) + Update(old(adapters), fetched).1
      ensures Replay(old(adapters), events[|old(events)|..]) == Some(adapters)
    {
      UpdateFollowsFetch(adapters, fetched);
      hide Update, IsFetched, LastFetched, SameButLoopback, Replay, WellKeyed;
      ghost var (log, raised) := (events, Update(adapters, fetched).1);
      RunLoops(fetched);
      assert events[|log|..] == raised;
    }

    /** Both loops of `update`. */
    method RunLoops(fetched: seq<Adapter>)
      requires Valid()
      modifies this
      ensures Valid()
      ensures adapters == Update(old(adapters), fetched).0
      ensures events == old(events) + Update(old(adapters), fetched).1
    {
      ghost var (start, log) := (adapters, events);
      AddOrChange(fetched);
      ghost var (applied, changes) := ApplyFetched(start, fetched);
      RemoveMissing(fetched);
      Regroup(log, changes, [], Sweep(applied, Ascending(applied.Keys), fetched).1);
    }

    /** The first loop of `update`. */
    method AddOrChange(fetched: seq<Adapter>)
      requires Valid()
      modifies this
      ensures Valid()
      ensures adapters == ApplyFetched(old(adapters), fetched).0
      ensures events == old(events) + ApplyFetched(old(adapters), fetched).1
    {
      hide AdapterDiff;
      ghost var goal := events + ApplyFetched(adapters, fetched).1;
      assert fetched[0..] == fetched;
      for i := 0 to |fetched|
        invariant Valid()
        invariant ApplyFetched(adapters, fetched[i..]).0 == ApplyFetched(old(adapters), fetched).0
        invariant events + ApplyFetched(adapters, fetched[i..]).1 == goal
      {
        ghost var (start, log) := (adapters, events);
        ghost var event := FetchedEvent(adapters, fetched[i]);
        assert fetched[i..][0] == fetched[i] && fetched[i..][1..] == fetched[i + 1..];
        var current := fetched[i];
        if current.mac in adapters {
          var existing := adapters[current.mac];
          if current != existing {
            var changes := AdapterDiff(existing, current);
            if |changes| > 0 {
              events := events + [Changed(existing, current)];
              adapters := adapters[current.mac := current];
            }
          }
        } else {
          adapters := adapters[current.mac := current];
          events := events + [New(current)];
        }
        Regroup(log, event, [], ApplyFetched(adapters, fetched[i + 1..]).1);
        assert events == log + event;
      }
    }

    /** The second loop of `update`. */
    method RemoveMissing(fetched: seq<Adapter>)
      requires Valid()
      modifies this
      ensures Valid()
      ensures var (swept, removals) := Sweep(old(adapters), Ascending(old(adapters).Keys), fetched);
        adapters == swept && events == old(events) + removals
    {
      hide Ascending, Sweep, IsFetched, Enumerates;
      var order := Ascending(adapters.Keys);
      EnumeratedKeys(order, adapters.Keys);
      ghost var goal := events + Sweep(adapters, order, fetched).1;
      assert order[0..] == order;
      for i := 0 to |order|
        invariant Valid()
        invariant forall k :: i <= k < |order| ==> order[k] in adapters
        invariant Sweep(adapters, order[i..], fetched).0 == Sweep(old(adapters), order, fetched).0
        invariant events + Sweep(adapters, order[i..], fetched).1 == goal
      {
        ghost var log := events;
        SweepAt(adapters, order, i, fetched);
        if !IsFetched(fetched, order[i]) {
          var removed := adapters[order[i]];
          events := events + [Removed(removed)];
          adapters := adapters - {order[i]};
          Regroup(log, [Removed(removed)], [], Sweep(adapters, order[i + 1..], fetched).1);
        }
      }
      SweepDone(adapters, order, fetched);
    }

    method FindAdapter(address: Address) returns (r: Option<Adapter>)
      ensures r == FindByAddress(adapters, address)
    {
      hide Ascending, HasAddress;
      var order := Ascending(adapters.Keys);
      assert order[0..] == order;
      for i := 0 to |order|
        invariant FirstWith(adapters, order[i..], address) == FindByAddress(adapters, address)
      {
        assert order[i..][0] == order[i] && order[i..][1..] == order[i + 1..];
        if HasAddress(adapters[order[i]], address) {
          return Some(adapters[order[i]]);
        }
      }
      r := None;
    }

    function FindById(mac: string): (r: Option<Adapter>)
      reads this
      ensures r.Some? <==> mac in adapters
      ensures r.Some? ==> r.value == adapters[mac]
    {
      if mac in adapters then Some(adapters[mac]) else None
    }
  }

  // --------------------------------------------------------------- properties

  /** The events replayed over the old table, each of them legal when it fires. */
  function Replay(m: AdapterTable, events: seq<AdapterEvent>): Option<AdapterTable>
    decreases |events|
  {
    if events == [] then Some(m) else
      match events[0]
      case New(a) =>
        if a.mac in m then None else Replay(m[a.mac := a], events[1..])
      case Changed(prev, curr) =>
        if curr.mac !in m || m[curr.mac] != prev || AdapterDiff(prev, curr) == [] then None
        else Replay(m[curr.mac := curr], events[1..])
      case Removed(a) =>
        if a.mac !in m || m[a.mac] != a then None else Replay(m - {a.mac}, events[1..])
  }

  lemma {:induction false} ReplayConcat(m: AdapterTable, first: seq<AdapterEvent>, second: seq<AdapterEvent>)
    requires Replay(m, first).Some?
    ensures Replay(m, first + second) == Replay(Replay(m, first).value, second)
    decreases |first|
  {
    if first == [] {
      assert first + second == second;
    } else {
      assert (first + second)[1..] == first[1..] + second;
      match first[0]
      case New(a) => ReplayConcat(m[a.mac := a], first[1..], second);
      case Changed(prev, curr) => ReplayConcat(m[curr.mac := curr], first[1..], second);
      case Removed(a) => ReplayConcat(m - {a.mac}, first[1..], second);
    }
  }

  /** The last fetched adapter of a MAC. */
  function LastFetched(fetched: seq<Adapter>, mac: string): Option<Adapter> {
    if fetched == [] then None
    else if fetched[|fetched| - 1].mac == mac then Some(fetched[|fetched| - 1])
    else LastFetched(fetched[..|fetched| - 1], mac)
  }

  ghost predicate SameButLoopback(a: Adapter, b: Adapter) {
    a == b.(loopback := a.loopback)
  }

  lemma {:induction false} LastFetchedCons(first: Adapter, rest: seq<Adapter>, mac: string)
    ensures LastFetched([first] + rest, mac) ==
      if LastFetched(rest, mac).Some? then LastFetched(rest, mac)
      else if first.mac == mac then Some(first) else None
    decreases |rest|
  {
    var all := [first] + rest;
    if rest == [] {
      assert all == [first] && all[..0] == [];
    } else {
      assert all[..|all| - 1] == [first] + rest[..|rest| - 1];
      LastFetchedCons(first, rest[..|rest| - 1], mac);
    }
  }

  lemma FirstFetched(m: AdapterTable, adapter: Adapter)
    requires WellKeyed(m)
    ensures var event := FetchedEvent(m, adapter);
      var next := if event == [] then m else m[adapter.mac := adapter];
      && WellKeyed(next) && Replay(m, event) == Some(next)
      && next.Keys == m.Keys + {adapter.mac} && SameButLoopback(next[adapter.mac], adapter)
  {}

  /** The events of the first loop replay to the table it leaves. */
  lemma {:induction false} ApplyFetchedReplays(m: AdapterTable, fetched: seq<Adapter>)
    requires WellKeyed(m)
    ensures var (last, events) := ApplyFetched(m, fetched); WellKeyed(last) && Replay(m, events) == Some(last)
    decreases |fetched|
  {
    if fetched != [] {
      var event := FetchedEvent(m, fetched[0]);
      var next := if event == [] then m else m[fetched[0].mac := fetched[0]];
      FirstFetched(m, fetched[0]);
      hide FetchedEvent, WellKeyed, Replay;
      ApplyFetchedReplays(next, fetched[1..]);
      ReplayConcat(m, event, ApplyFetched(next, fetched[1..]).1);
    }
  }

  /** After the first loop: keys grow by the fetched MACs, entries follow the last fetched adapter. */
  lemma {:induction false} ApplyFetchedEntry(m: AdapterTable, fetched: seq<Adapter>, mac: string)
    requires WellKeyed(m)
    ensures var (last, named) := (ApplyFetched(m, fetched).0, LastFetched(fetched, mac));
      && (mac in last <==> mac in m || named.Some?)
      && (mac in last ==> if named.Some? then SameButLoopback(last[mac], named.value) else last[mac] == m[mac])
    decreases |fetched|
  {
    if fetched != [] {
      var first := fetched[0];
      var next := if FetchedEvent(m, first) == [] then m else m[first.mac := first];
      FirstFetched(m, first);
      assert fetched == [first] + fetched[1..];
      LastFetchedCons(first, fetched[1..], mac);
      hide FetchedEvent, WellKeyed, SameButLoopback, LastFetched;
      ApplyFetchedEntry(next, fetched[1..], mac);
    }
  }

  lemma {:induction false} FetchedMacs(fetched: seq<Adapter>, mac: string)
    ensures LastFetched(fetched, mac).Some? <==> IsFetched(fetched, mac)
    ensures LastFetched(fetched, mac).Some? ==> LastFetched(fetched, mac).value in fetched
    decreases |fetched|
  {
    if fetched != [] {
      var front := fetched[..|fetched| - 1];
      FetchedMacs(front, mac);
      if IsFetched(front, mac) {
        var i :| 0 <= i < |front| && front[i].mac == mac;
        assert fetched[i].mac == mac;
      }
      if IsFetched(fetched, mac) && fetched[|fetched| - 1].mac != mac {
        var i :| 0 <= i < |fetched| && fetched[i].mac == mac;
        assert front[i].mac == mac;
      }
    }
  }

  /** The second loop removes exactly the keys that were not fetched. */
  lemma {:induction false} SweepEntries(m: AdapterTable, order: seq<string>, fetched: seq<Adapter>)
    requires WellKeyed(m)
    requires forall i, j :: 0 <= i < j < |order| ==> order[i] != order[j]
    ensures var (last, events) := Sweep(m, order, fetched);
      && last == (map mac | mac in m && (mac !in order || IsFetched(fetched, mac)) :: m[mac])
      && Replay(m, events) == Some(last)
    decreases |order|
  {
    if order != [] {
      var rest := order[1..];
      assert order == [order[0]] + rest;
      if IsFetched(fetched, order[0]) || order[0] !in m {
        SweepEntries(m, rest, fetched);
      } else {
        var smaller := m - {order[0]};
        SweepEntries(smaller, rest, fetched);
        var (last, events) := Sweep(smaller, rest, fetched);
        assert ([Removed(m[order[0]])] + events)[1..] == events;
      }
    }
  }

  /**
  One update: the keys are exactly the fetched MACs, every entry agrees with the
  last fetched adapter of its MAC on all compared fields, and the events,
  replayed over the old table, give the new one.
   */
  lemma UpdateFollowsFetch(m: AdapterTable, fetched: seq<Adapter>)
    requires WellKeyed(m)
    ensures var (last, events) := Update(m, fetched);
      && WellKeyed(last)
      && (forall mac :: mac in last <==> IsFetched(fetched, mac))
      && (forall mac :: mac in last ==>
            && LastFetched(fetched, mac).Some?
            && SameButLoopback(last[mac], LastFetched(fetched, mac).value))
      && Replay(m, events) == Some(last)
  {
    ApplyFetchedReplays(m, fetched);
    forall mac { ApplyFetchedEntry(m, fetched, mac); }
    var (applied, changes) := ApplyFetched(m, fetched);
    var order := Ascending(applied.Keys);
    SweepEntries(applied, order, fetched);
    forall mac { FetchedMacs(fetched, mac); }
    ReplayConcat(m, changes, Sweep(applied, order, fetched).1);
  }

  /** The events announce fetched adapters at ascending positions of the list. */
  ghost predicate InFetchOrder(fetched: seq<Adapter>, events: seq<AdapterEvent>, at: seq<nat>) {
    && |events| == |at|
    && (forall j, k :: 0 <= j < k < |at| ==> at[j] < at[k])
    && forall k :: 0 <= k < |at| ==> at[k] < |fetched| && Reports(events[k], fetched[at[k]])
  }

  predicate Reports(event: AdapterEvent, a: Adapter) {
    event == New(a) || (event.Changed? && event.curr == a)
  }

  lemma InFetchOrderStep(fetched: seq<Adapter>, events: seq<AdapterEvent>, at: seq<nat>, event: AdapterEvent)
    requires fetched != [] && InFetchOrder(fetched[1..], events, at) && Reports(event, fetched[0])
    ensures InFetchOrder(fetched, [event] + events, [0] + seq(|at|, k requires 0 <= k < |at| => at[k] + 1))
  {
    var (all, places) := ([event] + events, [0] + seq(|at|, k requires 0 <= k < |at| => at[k] + 1));
    forall k | 0 <= k < |places| ensures places[k] < |fetched| && Reports(all[k], fetched[places[k]]) {
      assert k > 0 ==> places[k] == at[k - 1] + 1 && all[k] == events[k - 1];
      assert k > 0 ==> fetched[places[k]] == fetched[1..][at[k - 1]];
    }
    forall j, k | 0 <= j < k < |places| ensures places[j] < places[k] {
      assert places[k] == at[k - 1] + 1 && (j > 0 ==> places[j] == at[j - 1] + 1);
    }
  }

  lemma InFetchOrderLater(fetched: seq<Adapter>, events: seq<AdapterEvent>, at: seq<nat>)
    requires fetched != [] && InFetchOrder(fetched[1..], events, at)
    ensures InFetchOrder(fetched, events, seq(|at|, k requires 0 <= k < |at| => at[k] + 1))
  {
    forall k | 0 <= k < |at| ensures at[k] + 1 < |fetched| && Reports(events[k], fetched[at[k] + 1]) {
      assert fetched[at[k] + 1] == fetched[1..][at[k]];
    }
  }

  lemma {:induction false} ApplyFetchedInOrder(m: AdapterTable, fetched: seq<Adapter>) returns (at: seq<nat>)
    ensures InFetchOrder(fetched, ApplyFetched(m, fetched).1, at)
    decreases |fetched|
  {
    if fetched == [] {
      at := [];
    } else {
      var event := FetchedEvent(m, fetched[0]);
      var next := if event == [] then m else m[fetched[0].mac := fetched[0]];
      var later := ApplyFetchedInOrder(next, fetched[1..]);
      at := seq(|later|, k requires 0 <= k < |later| => later[k] + 1);
      if event == [] {
        InFetchOrderLater(fetched, ApplyFetched(next, fetched[1..]).1, later);
      } else {
        assert event == [event[0]] && Reports(event[0], fetched[0]);
        InFetchOrderStep(fetched, ApplyFetched(next, fetched[1..]).1, later, event[0]);
        at := [0] + at;
      }
    }
  }

  /** Removals only, of ascending keys. */
  ghost predicate RemovalsInOrder(events: seq<AdapterEvent>, keys: seq<string>) {
    && |events| == |keys|
    && (forall k :: 0 <= k < |keys| ==> events[k].Removed? && events[k].adapter.mac == keys[k])
    && forall j, k :: 0 <= j < k < |keys| ==> StringLeq(keys[j], keys[k]) && keys[j] != keys[k]
  }

  lemma {:induction false} SweepInOrder(m: AdapterTable, order: seq<string>, fetched: seq<Adapter>)
    returns (keys: seq<string>)
    requires WellKeyed(m)
    requires forall i, j :: 0 <= i < j < |order| ==> StringLeq(order[i], order[j]) && order[i] != order[j]
    ensures RemovalsInOrder(Sweep(m, order, fetched).1, keys) && forall key :: key in keys ==> key in order
    decreases |order|
  {
    if order == [] {
      keys := [];
    } else {
      var rest := order[1..];
      hide StringLeq, IsFetched;
      if IsFetched(fetched, order[0]) || order[0] !in m {
        keys := SweepInOrder(m, rest, fetched);
      } else {
        var smaller := m - {order[0]};
        var later := SweepInOrder(smaller, rest, fetched);
        keys := [order[0]] + later;
        var events := Sweep(smaller, rest, fetched).1;
        FirstRemoval(Removed(m[order[0]]), events, order, later);
        assert forall key :: key in keys ==> key == order[0] || key in later;
      }
    }
  }

  lemma FirstRemoval(event: AdapterEvent, events: seq<AdapterEvent>, order: seq<string>, later: seq<string>)
    requires order != [] && event.Removed? && event.adapter.mac == order[0]
    requires RemovalsInOrder(events, later) && forall key :: key in later ==> key in order[1..]
    requires forall i, j :: 0 <= i < j < |order| ==> StringLeq(order[i], order[j]) && order[i] != order[j]
    ensures RemovalsInOrder([event] + events, [order[0]] + later)
  {
    hide StringLeq;
    var (all, keys) := ([event] + events, [order[0]] + later);
    forall j, k | 0 <= j < k < |keys| ensures StringLeq(keys[j], keys[k]) && keys[j] != keys[k] {
      assert keys[k] == later[k - 1] && (j > 0 ==> keys[j] == later[j - 1]);
      if j == 0 {
        assert later[k - 1] in order[1..];
        var i :| 0 <= i < |order[1..]| && order[1..][i] == later[k - 1];
        assert order[i + 1] == later[k - 1];
      }
    }
    forall k | 0 <= k < |keys| ensures all[k].Removed? && all[k].adapter.mac == keys[k] {
      assert k > 0 ==> all[k] == events[k - 1] && keys[k] == later[k - 1];
    }
  }

  /**
  The order of the events: first the new and changed adapters as they stand in
  the fetched list, then the removals by key.
   */
  lemma EventsInOrder(m: AdapterTable, fetched: seq<Adapter>) returns (at: seq<nat>, keys: seq<string>)
    requires WellKeyed(m)
    ensures var events := Update(m, fetched).1;
      && |events| == |at| + |keys|
      && InFetchOrder(fetched, events[..|at|], at) && RemovalsInOrder(events[|at|..], keys)
  {
    hide FetchedEvent, Sweep, Ascending, Enumerates, StringLeq, Replay;
    ApplyFetchedReplays(m, fetched);
    var (applied, changes) := ApplyFetched(m, fetched);
    at := ApplyFetchedInOrder(m, fetched);
    var order := Ascending(applied.Keys);
    EnumeratedKeys(order, applied.Keys);
    keys := SweepInOrder(applied, order, fetched);
    var removals := Sweep(applied, order, fetched).1;
    assert (changes + removals)[..|changes|] == changes && (changes + removals)[|changes|..] == removals;
  }

  lemma {:induction false} ApplyFetchedConcat(m: AdapterTable, first: seq<Adapter>, second: seq<Adapter>)
    ensures ApplyFetched(m, first + second).0 == ApplyFetched(ApplyFetched(m, first).0, second).0
    decreases |first|
  {
    if first == [] {
      assert first + second == second;
    } else {
      var next := if FetchedEvent(m, first[0]) == [] then m else m[first[0].mac := first[0]];
      assert (first + second)[1..] == first[1..] + second;
      ApplyFetchedConcat(next, first[1..], second);
    }
  }

  lemma {:induction false} NotFetchedUntouched(m: AdapterTable, fetched: seq<Adapter>, mac: string)
    requires forall k :: 0 <= k < |fetched| ==> fetched[k].mac != mac
    ensures var last := ApplyFetched(m, fetched).0;
      (mac in last <==> mac in m) && (mac in m ==> last[mac] == m[mac])
    decreases |fetched|
  {
    if fetched != [] {
      var next := if FetchedEvent(m, fetched[0]) == [] then m else m[fetched[0].mac := fetched[0]];
      NotFetchedUntouched(next, fetched[1..], mac);
    }
  }

  /** A fetched MAC's entry is settled by the first loop: at its last fetch, and never after. */
  lemma SettledAtLastFetch(m: AdapterTable, fetched: seq<Adapter>, i: nat)
    requires WellKeyed(m) && i < |fetched|
    requires forall k :: i < k < |fetched| ==> fetched[k].mac != fetched[i].mac
    ensures var (a, before) := (fetched[i], ApplyFetched(m, fetched[..i]).0);
      var last := Update(m, fetched).0;
      a.mac in last && last[a.mac] == if FetchedEvent(before, a) == [] then before[a.mac] else a
  {
    var (a, rest) := (fetched[i], fetched[i + 1..]);
    var before := ApplyFetched(m, fetched[..i]).0;
    var next := if FetchedEvent(before, a) == [] then before else before[a.mac := a];
    assert fetched == fetched[..i] + ([a] + rest);
    ApplyFetchedConcat(m, fetched[..i], [a] + rest);
    hide FetchedEvent, Replay, Ascending;
    assert ApplyFetched(before, [a] + rest).0 == ApplyFetched(next, rest).0 by {
      assert ([a] + rest)[1..] == rest;
    }
    NotFetchedUntouched(next, rest, a.mac);
    ApplyFetchedReplays(m, fetched);
    var applied := ApplyFetched(m, fetched).0;
    SweepEntries(applied, Ascending(applied.Keys), fetched);
    assert IsFetched(fetched, a.mac);
  }

  /** An entry that a fetched adapter differs from in its loopback flag alone. */
  ghost predicate OnlyLoopbackDiffers(m: AdapterTable, a: Adapter) {
    a.mac in m && m[a.mac] != a && SameButLoopback(m[a.mac], a)
  }

  /**
  After any update, the entry of a MAC is its last fetched adapter in full
  unless that differs in `loopback` alone from the entry in front of it: such a
  change is never stored.
   */
  lemma LoopbackChangeIsLost(m: AdapterTable, fetched: seq<Adapter>, i: nat)
    requires WellKeyed(m) && i < |fetched|
    requires forall k :: i < k < |fetched| ==> fetched[k].mac != fetched[i].mac
    ensures var (a, last) := (fetched[i], Update(m, fetched).0);
      && a.mac in last
      && (last[a.mac] == a <==> !OnlyLoopbackDiffers(ApplyFetched(m, fetched[..i]).0, a))
  {
    SettledAtLastFetch(m, fetched, i);
  }

  /** For a MAC fetched once, the entry in front is the one of the table before the update. */
  lemma SingleLoopbackChangeIsLost(m: AdapterTable, fetched: seq<Adapter>, i: nat)
    requires WellKeyed(m) && i < |fetched|
    requires forall k :: 0 <= k < |fetched| && k != i ==> fetched[k].mac != fetched[i].mac
    ensures var (a, last) := (fetched[i], Update(m, fetched).0);
      a.mac in last && (last[a.mac] == a <==> !OnlyLoopbackDiffers(m, a))
  {
    NotFetchedUntouched(m, fetched[..i], fetched[i].mac);
    LoopbackChangeIsLost(m, fetched, i);
  }

  predicate CarriedBy(m: AdapterTable, mac: string, address: Address) {
    mac in m && HasAddress(m[mac], address)
  }

  /** `r` is the entry at position i of the order, and no earlier one has the address. */
  ghost predicate FirstAt(m: AdapterTable, order: seq<string>, address: Address, r: Option<Adapter>, i: nat) {
    && i < |order| && CarriedBy(m, order[i], address) && r == Some(m[order[i]])
    && forall j :: 0 <= j < i ==> !CarriedBy(m, order[j], address)
  }

  lemma {:induction false} FirstWithFinds(m: AdapterTable, order: seq<string>, address: Address)
    ensures var r := FirstWith(m, order, address);
      if r.None? then forall i :: 0 <= i < |order| ==> !CarriedBy(m, order[i], address)
      else exists i :: FirstAt(m, order, address, r, i)
    decreases |order|
  {
    if order != [] {
      if CarriedBy(m, order[0], address) {
        assert FirstAt(m, order, address, FirstWith(m, order, address), 0);
      } else {
        var rest := order[1..];
        assert forall i :: 1 <= i < |order| ==> order[i] == rest[i - 1];
        FirstWithFinds(m, rest, address);
        var r := FirstWith(m, rest, address);
        if r.Some? {
          var i: nat :| FirstAt(m, rest, address, r, i);
          assert FirstAt(m, order, address, r, i + 1);
        }
      }
    }
  }

  /** `r` is the entry of the least key among those that carry the address. */
  ghost predicate LeastCarrier(m: AdapterTable, address: Address, r: Option<Adapter>, mac: string) {
    && CarriedBy(m, mac, address) && r == Some(m[mac])
    && forall other :: CarriedBy(m, other, address) ==> StringLeq(mac, other)
  }

  /** An address is found iff some adapter carries it; the one found is that of the least key among them. */
  lemma FindByAddressFinds(m: AdapterTable, address: Address)
    ensures var r := FindByAddress(m, address);
      if r.None? then forall mac :: !CarriedBy(m, mac, address)
      else exists mac :: LeastCarrier(m, address, r, mac)
  {
    hide Ascending, FirstWith, HasAddress, StringLeq;
    var order := Ascending(m.Keys);
    var r := FindByAddress(m, address);
    FirstWithFinds(m, order, address);
    if r.None? {
      assert forall mac :: mac in m <==> mac in order;
    } else {
      var i: nat :| FirstAt(m, order, address, r, i);
      forall other | CarriedBy(m, other, address) ensures StringLeq(order[i], other) {
        assert other in order;
        var j :| 0 <= j < |order| && order[j] == other;
        StringTotal(other, other);
      }
      assert LeastCarrier(m, address, r, order[i]);
    }
  }

  /** The entry of this MAC has the address somewhere in its list. */
  ghost predicate HasAt(m: AdapterTable, mac: string, address: Address, at: nat) {
    mac in m && at < |m[mac].addresses| && m[mac].addresses[at].0 == address
  }

  /** No entry with the address has a smaller key. */
  ghost predicate LeastAt(m: AdapterTable, mac: string, address: Address, at: nat) {
    HasAt(m, mac, address, at) && forall other, k :: HasAt(m, other, address, k) ==> StringLeq(mac, other)
  }

  /** The same in terms of the address lists: every position counts, not only the first. */
  lemma FindByAddressAnywhere(m: AdapterTable, address: Address)
    ensures FindByAddress(m, address).None? <==> forall mac, at :: !HasAt(m, mac, address, at)
    ensures FindByAddress(m, address).Some? ==> exists mac, at :: LeastAt(m, mac, address, at)
    ensures forall mac, at :: LeastAt(m, mac, address, at) ==> FindByAddress(m, address) == Some(m[mac])
  {
    FindByAddressFinds(m, address);
    hide FindByAddress, StringLeq;
    forall mac, at | HasAt(m, mac, address, at) ensures CarriedBy(m, mac, address) {}
    var r := FindByAddress(m, address);
    if r.Some? {
      var mac :| LeastCarrier(m, address, r, mac);
      var at :| 0 <= at < |m[mac].addresses| && m[mac].addresses[at].0 == address;
      assert LeastAt(m, mac, address, at);
      forall mac', at' | LeastAt(m, mac', address, at') ensures mac' == mac {
        assert HasAt(m, mac', address, at') && HasAt(m, mac, address, at);
        StringAntisymmetric(mac, mac');
      }
    }
  }

  /** An address that only one adapter carries leads back to it. */
  lemma FindByOwnAddress(m: AdapterTable, mac: string, address: Address)
    requires CarriedBy(m, mac, address)
    requires forall other :: CarriedBy(m, other, address) ==> other == mac
    ensures FindByAddress(m, address) == Some(m[mac])
  {
    FindByAddressFinds(m, address);
  }
}
