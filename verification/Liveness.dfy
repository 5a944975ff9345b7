/**
Direct routes under loss: one node announces itself on a link, another hears
some of the announcements. If ticks, delays and losses are bounded as below, a
direct route that was heard once is online after every later update.
 */
module Liveness {
  import opened Bytes
  import opened Types
  import opened Sequences
  import opened AdapterManagers
  import opened Routes
  import opened RouteHistory
  import opened Transmissions
  import Messages

  /** The announcing node's id and address, and the address it is heard on. */
  datatype Link = Link(identifier: Short, sender: Address, receiver: Address)

  datatype LiveEvent =
    | SenderTick(now: Time)
    | Hears(now: Time, announcement: nat, nodes: seq<Messages.Node>)
    | Other(now: Time, op: RouteOp)
    | Checks(now: Time)

  /** When the announcer's `transmission_handler` last transmitted. */
  function LastSend(trace: seq<LiveEvent>): Time {
    if trace == [] then MIN_TIME else
      var (before, last) := (LastSend(trace[..|trace| - 1]), trace[|trace| - 1]);
      if last.SenderTick? && before + INTERVAL < last.now then last.now else before
  }

  /** The times of its announcements, in order. */
  function Sends(trace: seq<LiveEvent>): seq<Time> {
    if trace == [] then [] else
      var (front, last) := (trace[..|trace| - 1], trace[|trace| - 1]);
      Sends(front) + if last.SenderTick? && LastSend(front) + INTERVAL < last.now then [last.now] else []
  }

  function LastTick(trace: seq<LiveEvent>): Option<Time> {
    if trace == [] then None
    else if trace[|trace| - 1].SenderTick? then Some(trace[|trace| - 1].now)
    else LastTick(trace[..|trace| - 1])
  }

  predicate HeardIn(trace: seq<LiveEvent>, announcement: nat) {
    exists i :: 0 <= i < |trace| && trace[i].Hears? && trace[i].announcement == announcement
  }

  /** What the trace makes the receiver do. */
  function ReceiverOps(link: Link, event: LiveEvent): seq<RouteOp> {
    match event
    case SenderTick(_) => []
    case Hears(now, _, nodes) => [Heard(link.identifier, nodes, NetworkInfo(now, link.sender, 0, link.receiver))]
    case Other(_, op) => [op]
    case Checks(now) => [Tick(now)]
  }

  function OpsOf(link: Link, trace: seq<LiveEvent>): seq<RouteOp> {
    if trace == [] then [] else OpsOf(link, trace[..|trace| - 1]) + ReceiverOps(link, trace[|trace| - 1])
  }

  function DirectId(link: Link): RouteId {
    RouteId(NodeId(link.identifier, link.sender), link.receiver, link.sender)
  }

  /** Time moves forward, ticks are at most d apart, only sent announcements are heard, others name other routes. */
  ghost predicate WellTimed(adapters: AdapterTable, link: Link, trace: seq<LiveEvent>, d: Time) {
    trace == [] || (
      var (front, last) := (trace[..|trace| - 1], trace[|trace| - 1]);
      && WellTimed(adapters, link, front, d)
      && (front != [] ==> front[|front| - 1].now <= last.now)
      && (LastTick(front).Some? ==> last.now <= LastTick(front).value + d)
      && (last.Hears? ==> last.announcement < |Sends(front)|)
      && (last.Other? ==> Matching(Namings(adapters, last.op), DirectId(link)) == []))
  }

  /** k announcements in a row, the ticks around them and one delay take less than 90 seconds. */
  ghost predicate LossesFit(d: Time, delay: Time, k: nat) {
    (k + 1) * (20_000_000_000 + d) + delay < 90_000_000_000
  }

  /** Of any k + 1 announcements in a row one has been heard D after the last of them was sent. */
  ghost predicate LossBounded(trace: seq<LiveEvent>, k: nat, delay: Time, now: Time) {
    forall s: nat :: s + k < |Sends(trace)| && Sends(trace)[s + k] + delay < now ==> OneHeard(trace, s, k)
  }

  ghost predicate OneHeard(trace: seq<LiveEvent>, s: nat, k: nat) {
    exists q: nat :: s <= q <= s + k && HeardIn(trace, q)
  }

  // ---------------------------------------------------------------- the sender

  /** Consecutive announcements are more than 20 seconds apart, and at most a tick more. */
  ghost predicate Paced(sends: seq<Time>, d: Time) {
    forall q :: 0 <= q < |sends| - 1 ==>
      sends[q] + 20_000_000_000 < sends[q + 1] <= sends[q] + 20_000_000_000 + d
  }

  lemma {:induction false} SendsKeepPace(adapters: AdapterTable, link: Link, trace: seq<LiveEvent>, d: Time)
    requires d >= 0 && WellTimed(adapters, link, trace, d)
    ensures Paced(Sends(trace), d)
    decreases |trace|
  {
    if trace != [] {
      hide Sends;
      var (front, last) := (trace[..|trace| - 1], trace[|trace| - 1]);
      SendsKeepPace(adapters, link, front, d);
      LastSendInTime(adapters, link, front, d);
      SendsGrow(trace);
      hide WellTimed;
      if Sends(trace) != Sends(front) {
        OneMoreSend(Sends(front), last.now, d);
      }
    }
  }

  /** The last announcement is never older than the interval at the last tick, and none lies ahead. */
  lemma {:induction false} LastSendInTime(adapters: AdapterTable, link: Link, trace: seq<LiveEvent>, d: Time)
    requires d >= 0 && WellTimed(adapters, link, trace, d)
    ensures var sends := Sends(trace); sends != [] ==>
      && trace != [] && LastSend(trace) == sends[|sends| - 1]
      && LastTick(trace).Some? && LastTick(trace).value <= LastSend(trace) + 20_000_000_000
      && forall q :: 0 <= q < |sends| ==> sends[q] <= trace[|trace| - 1].now
    decreases |trace|
  {
    if trace != [] {
      LastSendInTime(adapters, link, trace[..|trace| - 1], d);
      SendsGrow(trace);
    }
  }

  /** A tick adds its own moment to the announcements if the interval has passed, and no other event adds any. */
  lemma SendsGrow(trace: seq<LiveEvent>)
    requires trace != []
    ensures var (front, last) := (trace[..|trace| - 1], trace[|trace| - 1]);
      Sends(trace) == Sends(front) ||
      (last.SenderTick? && LastSend(front) + 20_000_000_000 < last.now && Sends(trace) == Sends(front) + [last.now])
  {}

  lemma OneMoreSend(sends: seq<Time>, now: Time, d: Time)
    requires sends != [] ==>
      sends[|sends| - 1] + 20_000_000_000 < now <= sends[|sends| - 1] + 20_000_000_000 + d
    requires Paced(sends, d)
    ensures Paced(sends + [now], d)
  {}

  lemma {:induction false} SpacedSends(sends: seq<Time>, q: nat, r: nat, gap: Time)
    requires q + r < |sends|
    requires forall i :: 0 <= i < |sends| - 1 ==> sends[i + 1] <= sends[i] + gap
    ensures sends[q + r] <= sends[q] + r * gap
    decreases r
  {
    if r > 0 {
      SpacedSends(sends, q, r - 1, gap);
      assert r * gap == (r - 1) * gap + gap;
    }
  }

  lemma PaceReaches(sends: seq<Time>, gap: Time, now: Time, q: nat, m: nat)
    requires gap >= 0 && q < |sends| && now <= sends[|sends| - 1] + gap
    requires forall i :: 0 <= i < |sends| - 1 ==> sends[i + 1] <= sends[i] + gap
    requires sends[q] + m * gap < now
    ensures q + m < |sends| && sends[q + m] <= sends[q] + m * gap
  {
    if q + m < |sends| {
      SpacedSends(sends, q, m, gap);
    } else {
      var r: nat := |sends| - 1 - q;
      SpacedSends(sends, q, r, gap);
      assert (r + 1) * gap == r * gap + gap;
      MulMonotone(r + 1, m, gap);
    }
  }

  /** By the time m intervals have passed, m more announcements have been sent. */
  lemma EnoughSends(adapters: AdapterTable, link: Link, trace: seq<LiveEvent>, d: Time, now: Time, q: nat, m: nat)
    requires d >= 0 && WellTimed(adapters, link, trace + [Checks(now)], d)
    requires q < |Sends(trace)| && Sends(trace)[q] + m * (20_000_000_000 + d) < now
    ensures q + m < |Sends(trace)| && Sends(trace)[q + m] <= Sends(trace)[q] + m * (20_000_000_000 + d)
  {
    var all := trace + [Checks(now)];
    assert all[..|all| - 1] == trace;
    SendsKeepPace(adapters, link, trace, d);
    LastSendInTime(adapters, link, trace, d);
    PaceReaches(Sends(trace), 20_000_000_000 + d, now, q, m);
  }

  lemma MulMonotone(a: nat, b: nat, c: nat)
    requires a <= b
    ensures a * c <= b * c
  {}

  // -------------------------------------------------------------- the receiver

  /** The latest announcement heard. */
  lemma {:induction false} LatestHeard(adapters: AdapterTable, link: Link, trace: seq<LiveEvent>, d: Time)
    returns (q: nat)
    requires WellTimed(adapters, link, trace, d)
    requires exists p: nat :: HeardIn(trace, p)
    ensures HeardIn(trace, q) && q < |Sends(trace)|
    ensures forall p: nat :: HeardIn(trace, p) ==> p <= q
    decreases |trace|
  {
    var (front, last) := (trace[..|trace| - 1], trace[|trace| - 1]);
    assert forall i :: 0 <= i < |front| ==> trace[i] == front[i];
    assert |Sends(trace)| >= |Sends(front)|;
    forall p: nat ensures HeardIn(trace, p) <==> HeardIn(front, p) || (last.Hears? && last.announcement == p) {
      if last.Hears? && last.announcement == p {
        assert trace[|trace| - 1].Hears?;
      }
    }
    if exists p: nat :: HeardIn(front, p) {
      q := LatestHeard(adapters, link, front, d);
      if last.Hears? && last.announcement > q {
        q := last.announcement;
      }
    } else {
      q := last.announcement;
    }
  }

  lemma {:induction false} NodeNamingTimes(info: NetworkInfo, nodes: seq<Messages.Node>, id: RouteId)
    ensures forall i :: 0 <= i < |Matching(NodeNamings(info, nodes), id)| ==>
      Matching(NodeNamings(info, nodes), id)[i].time == info.receptionTime
    decreases |nodes|
  {
    if nodes != [] {
      assert NodeNamings(info, nodes)[1..] == NodeNamings(info, nodes[1..]);
      NodeNamingTimes(info, nodes[1..], id);
    }
  }

  /** Hearing an announcement names the direct route at that moment. */
  lemma HearingNamesDirect(adapters: AdapterTable, link: Link, event: LiveEvent)
    requires event.Hears? && FindByAddress(adapters, link.receiver).Some?
    ensures var named := Matching(Namings(adapters, ReceiverOps(link, event)[0]), DirectId(link));
      named != [] && named[|named| - 1].time == event.now
  {
    hide FindByAddress;
    var op := ReceiverOps(link, event)[0];
    var first := Naming(DirectId(link), event.now, [DIRECT_JUMP], None);
    assert Namings(adapters, op)[0] == first;
    assert Namings(adapters, op)[1..] == NodeNamings(op.info, op.nodes);
    NodeNamingTimes(op.info, op.nodes, DirectId(link));
    var later := Matching(NodeNamings(op.info, op.nodes), DirectId(link));
    assert Matching(Namings(adapters, op), DirectId(link)) == [first] + later;
  }

  lemma HistoryOfOps(adapters: AdapterTable, ops: seq<RouteOp>, op: RouteOp, id: RouteId)
    ensures History(adapters, ops + [op], id) == Join(History(adapters, ops, id), Matching(Namings(adapters, op), id))
  {
    hide Matching, Namings;
    assert (ops + [op])[..|ops|] == ops;
    JoinIsConcat(History(adapters, ops, id), Matching(Namings(adapters, op), id));
  }

  /** After hearing an announcement, the direct route's last naming is that very moment. */
  lemma HistoryAfterHearing(adapters: AdapterTable, link: Link, ops: seq<RouteOp>, event: LiveEvent)
    requires event.Hears? && FindByAddress(adapters, link.receiver).Some?
    ensures var history := History(adapters, ops + ReceiverOps(link, event), DirectId(link));
      history != [] && history[|history| - 1].time == event.now
  {
    hide FindByAddress, Matching, Namings, History;
    var op := ReceiverOps(link, event)[0];
    assert ReceiverOps(link, event) == [op];
    HearingNamesDirect(adapters, link, event);
    HistoryOfOps(adapters, ops, op, DirectId(link));
    JoinEnds(History(adapters, ops, DirectId(link)), Matching(Namings(adapters, op), DirectId(link)));
  }

  lemma JoinEnds(history: seq<Naming>, named: seq<Naming>)
    requires named != []
    ensures var all := Join(history, named); all != [] && all[|all| - 1] == named[|named| - 1]
  {}

  /** Every other event leaves the direct route's history alone. */
  lemma HistoryAfterOther(adapters: AdapterTable, link: Link, ops: seq<RouteOp>, event: LiveEvent)
    requires !event.Hears?
    requires event.Other? ==> Matching(Namings(adapters, event.op), DirectId(link)) == []
    ensures History(adapters, ops + ReceiverOps(link, event), DirectId(link)) == History(adapters, ops, DirectId(link))
  {
    hide History;
    if event.SenderTick? {
      JoinIsConcat(ops, []);
    } else {
      var op := ReceiverOps(link, event)[0];
      assert Matching(Namings(adapters, op), DirectId(link)) == [];
      hide Matching, Namings;
      HistoryOfOps(adapters, ops, op, DirectId(link));
    }
  }

  /** The direct route's last naming is not older than any announcement heard. */
  lemma {:induction false} LastNamingIsRecent(adapters: AdapterTable, link: Link, trace: seq<LiveEvent>, d: Time,
                                              q: nat)
    requires d >= 0 && WellTimed(adapters, link, trace, d) && HeardIn(trace, q) && q < |Sends(trace)|
    requires FindByAddress(adapters, link.receiver).Some?
    ensures var history := History(adapters, OpsOf(link, trace), DirectId(link));
      history != [] && history[|history| - 1].time >= Sends(trace)[q]
    decreases |trace|
  {
    hide FindByAddress, Matching, Namings, History, LastTick, ReceiverOps, Sends, HeardIn;
    assert trace != [] by { SendsUpTo(adapters, link, trace, d, q); }
    var (front, last) := (trace[..|trace| - 1], trace[|trace| - 1]);
    assert OpsOf(link, trace) == OpsOf(link, front) + ReceiverOps(link, last);
    if last.Hears? {
      hide OpsOf, WellTimed;
      HistoryAfterHearing(adapters, link, OpsOf(link, front), last);
      SendsUpTo(adapters, link, trace, d, q);
    } else {
      HeardBefore(adapters, link, trace, d, q);
      LastNamingIsRecent(adapters, link, front, d, q);
      HistoryAfterOther(adapters, link, OpsOf(link, front), last);
    }
  }

  lemma HeardBefore(adapters: AdapterTable, link: Link, trace: seq<LiveEvent>, d: Time, q: nat)
    requires WellTimed(adapters, link, trace, d) && HeardIn(trace, q) && !trace[|trace| - 1].Hears?
    ensures var front := trace[..|trace| - 1];
      HeardIn(front, q) && q < |Sends(front)| && Sends(front)[q] == Sends(trace)[q]
  {
    var front := trace[..|trace| - 1];
    var i :| 0 <= i < |trace| && trace[i].Hears? && trace[i].announcement == q;
    assert front[i] == trace[i];
    HeardWasSent(adapters, link, front, d, q);
  }

  lemma SendsUpTo(adapters: AdapterTable, link: Link, trace: seq<LiveEvent>, d: Time, q: nat)
    requires d >= 0 && WellTimed(adapters, link, trace, d) && q < |Sends(trace)|
    ensures trace != [] && Sends(trace)[q] <= trace[|trace| - 1].now
  {
    LastSendInTime(adapters, link, trace, d);
  }

  lemma {:induction false} HeardWasSent(adapters: AdapterTable, link: Link, trace: seq<LiveEvent>, d: Time, q: nat)
    requires WellTimed(adapters, link, trace, d) && HeardIn(trace, q)
    ensures q < |Sends(trace)|
    decreases |trace|
  {
    var (front, last) := (trace[..|trace| - 1], trace[|trace| - 1]);
    if !(last.Hears? && last.announcement == q) {
      var i :| 0 <= i < |trace| && trace[i].Hears? && trace[i].announcement == q;
      assert front[i] == trace[i];
      HeardWasSent(adapters, link, front, d, q);
    }
  }

  // --------------------------------------------------------------- the theorem

  /**
  Ticks at most d apart, delivery within `delay`, at most k announcements in a
  row lost, and (k + 1)(20 s + d) + delay below 90 s: once heard, the direct
  route is online after every update.
   */
  lemma DirectRouteStaysOnline(adapters: AdapterTable, link: Link, trace: seq<LiveEvent>, now: Time,
                               d: Time, delay: Time, k: nat)
    requires d >= 0 && delay >= 0 && LossesFit(d, delay, k)
    requires FindByAddress(adapters, link.receiver).Some?
    requires WellTimed(adapters, link, trace + [Checks(now)], d)
    requires LossBounded(trace, k, delay, now)
    requires exists q: nat :: HeardIn(trace, q)
    ensures var home := FindByAddress(adapters, link.receiver).value.guid;
      var entry := Entry(Run(adapters, OpsOf(link, trace + [Checks(now)])).table, home, DirectId(link));
      entry.Some? && entry.value.status.online
  {
    hide FindByAddress, Run, Entry, History, OpsOf, WellTimed, LossBounded, LossesFit, HeardIn;
    OpsThenCheck(adapters, link, trace, now, d);
    LastNamingInTime(adapters, link, trace, now, d, delay, k);
    RecentIsOnline(adapters, OpsOf(link, trace), now, DirectId(link));
  }

  lemma LastNamingInTime(adapters: AdapterTable, link: Link, trace: seq<LiveEvent>, now: Time,
                         d: Time, delay: Time, k: nat)
    requires d >= 0 && delay >= 0 && LossesFit(d, delay, k)
    requires FindByAddress(adapters, link.receiver).Some?
    requires WellTimed(adapters, link, trace, d) && WellTimed(adapters, link, trace + [Checks(now)], d)
    requires LossBounded(trace, k, delay, now)
    requires exists q: nat :: HeardIn(trace, q)
    ensures var history := History(adapters, OpsOf(link, trace), DirectId(link));
      history != [] && history[|history| - 1].time > now - 90_000_000_000
  {
    hide FindByAddress, History, OpsOf, WellTimed, LossBounded, LossesFit, Sends, HeardIn;
    var q := LatestHeard(adapters, link, trace, d);
    LatestIsRecent(adapters, link, trace, now, d, delay, k, q);
    LastNamingIsRecent(adapters, link, trace, d, q);
  }

  lemma RecentIsOnline(adapters: AdapterTable, ops: seq<RouteOp>, now: Time, id: RouteId)
    requires FindByAddress(adapters, id.adapter).Some?
    requires var history := History(adapters, ops, id);
      history != [] && history[|history| - 1].time > now - 90_000_000_000
    ensures var home := FindByAddress(adapters, id.adapter).value.guid;
      var entry := Entry(Run(adapters, ops + [Tick(now)]).table, home, id);
      entry.Some? && entry.value.status.online
  {
    hide FindByAddress, Run, Entry, History;
    EntryAfterUpdate(adapters, ops, now, id);
  }

  lemma OpsThenCheck(adapters: AdapterTable, link: Link, trace: seq<LiveEvent>, now: Time, d: Time)
    requires WellTimed(adapters, link, trace + [Checks(now)], d)
    ensures WellTimed(adapters, link, trace, d)
    ensures OpsOf(link, trace + [Checks(now)]) == OpsOf(link, trace) + [Tick(now)]
  {
    assert (trace + [Checks(now)])[..|trace|] == trace;
  }

  /** The latest announcement heard was sent less than 90 seconds ago, or a later one would have been heard. */
  lemma LatestIsRecent(adapters: AdapterTable, link: Link, trace: seq<LiveEvent>, now: Time,
                       d: Time, delay: Time, k: nat, q: nat)
    requires d >= 0 && delay >= 0 && LossesFit(d, delay, k)
    requires WellTimed(adapters, link, trace + [Checks(now)], d)
    requires LossBounded(trace, k, delay, now)
    requires q < |Sends(trace)| && forall p: nat :: HeardIn(trace, p) ==> p <= q
    ensures Sends(trace)[q] > now - 90_000_000_000
  {
    hide WellTimed, Sends, HeardIn;
    if Sends(trace)[q] <= now - 90_000_000_000 {
      EnoughSends(adapters, link, trace, d, now, q, k + 1);
      var s := q + 1;
      assert OneHeard(trace, s, k) by {
        assert s + k < |Sends(trace)| && Sends(trace)[s + k] + delay < now;
      }
      assert false;
    }
  }

  /** Three announcements in a row may be lost when 4 d + delay stays below 10 seconds. */
  lemma ThreeLossesTolerated(adapters: AdapterTable, link: Link, trace: seq<LiveEvent>, now: Time, d: Time, delay: Time)
    requires d >= 0 && delay >= 0 && 4 * d + delay < 10_000_000_000
    requires FindByAddress(adapters, link.receiver).Some?
    requires WellTimed(adapters, link, trace + [Checks(now)], d)
    requires LossBounded(trace, 3, delay, now)
    requires exists q: nat :: HeardIn(trace, q)
    ensures var home := FindByAddress(adapters, link.receiver).value.guid;
      var entry := Entry(Run(adapters, OpsOf(link, trace + [Checks(now)])).table, home, DirectId(link));
      entry.Some? && entry.value.status.online
  {
    DirectRouteStaysOnline(adapters, link, trace, now, d, delay, 3);
  }
}
