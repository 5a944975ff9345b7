/**
One reassembly stream per (sender, recipient) pair.

`PairsAreIndependent` says that whatever arrives for other pairs, a pair's
packets are those of its own chunks.
 */
module DataHandlers {
  import opened Bytes
  import opened Types
  import opened Sequences
  import opened Ordering
  import opened Messages
  import opened DataStreams

  datatype StreamId = StreamId(sender: Address, recipient: Address)

  /** The key order: by sender, then by recipient. */
  predicate StreamIdLeq(a: StreamId, b: StreamId) {
    a.sender < b.sender || (a.sender == b.sender && a.recipient <= b.recipient)
  }

  function AscendingIds(ids: set<StreamId>): (order: seq<StreamId>)
    ensures Enumerates(order, ids)
    ensures forall i, j :: 0 <= i < j < |order| ==> StreamIdLeq(order[i], order[j])
  {
    Sorted(ids, StreamIdLeq)
  }

  /** The states of all streams. */
  type View = map<StreamId, StreamState>

  /** The state a chunk for `id` meets: a missing stream is created empty. */
  function Slot(view: View, size: nat, id: StreamId): StreamState {
    if id in view then view[id] else StreamState([], size)
  }

  /** A chunk arrives for one stream; no other stream notices. */
  ghost predicate Arrived(size: nat, view: View, id: StreamId, chunk: seq<Byte>, view': View) {
    && view'.Keys == view.Keys + {id}
    && Received(Slot(view, size, id), chunk, view'[id])
    && forall other :: other in view && other != id ==> view'[other] == view[other]
  }

  /** One stream after its `process` call. */
  function Drained(hash: Digest, s: StreamState): StreamState {
    s.(bytes := Process(hash, s.bytes).1)
  }

  function Processed(hash: Digest, view: View): View {
    map id | id in view :: Drained(hash, view[id])
  }

  datatype StreamPackets = StreamPackets(id: StreamId, packets: seq<Packet>)

  function PacketsInOrder(hash: Digest, view: View, order: seq<StreamId>): (r: seq<StreamPackets>)
    requires forall id :: id in order ==> id in view
    ensures |r| == |order|
    ensures forall i :: 0 <= i < |order| ==> r[i] == StreamPackets(order[i], Process(hash, view[order[i]].bytes).0)
  {
    seq(|order|, i requires 0 <= i < |order| => StreamPackets(order[i], Process(hash, view[order[i]].bytes).0))
  }

  /** What one `process` call collects: an entry for every stream, in key order. */
  function Collected(hash: Digest, view: View): seq<StreamPackets> {
    PacketsInOrder(hash, view, AscendingIds(view.Keys))
  }

  class DataHandler {
    var streams: map<StreamId, DataStream>
    const bufferSize: nat
    const hash: Digest

    ghost predicate Valid()
      reads this, streams.Values
    {
      && (forall id :: id in streams ==> streams[id].Valid() && streams[id].hash == hash)
      && (forall i, j :: i in streams && j in streams && i != j ==> streams[i] != streams[j])
    }

    ghost function View(): View
      reads this, streams.Values
    {
      map id | id in streams :: streams[id].State()
    }

    constructor (bufferSize: nat, hash: Digest)
      ensures Valid() && View() == map[] && streams == map[]
      ensures this.bufferSize == bufferSize && this.hash == hash
    {
      streams := map[];
      this.bufferSize, this.hash := bufferSize, hash;
    }

    /** `find`, or insert an empty stream. */
    method EnsureStream(id: StreamId)
      requires Valid()
      modifies this`streams
      ensures Valid() && id in streams
      ensures fresh(streams.Values - old(streams.Values))
      ensures View() == old(View())[id := Slot(old(View()), bufferSize, id)]
    {
      if id !in streams {
        var stream := new DataStream(bufferSize, hash);
        streams := streams[id := stream];
      }
    }

    method HandleReceive(chunk: seq<Byte>, sender: Address, recipient: Address)
      requires Valid()
      modifies this, streams.Values
      ensures Valid() && fresh(streams.Values - old(streams.Values))
      ensures Arrived(bufferSize, old(View()), StreamId(sender, recipient), chunk, View())
      ensures StreamId(sender, recipient) !in old(streams) && |chunk| <= bufferSize ==>
        View()[StreamId(sender, recipient)] == StreamState(chunk, bufferSize)
    {
      var id := StreamId(sender, recipient);
      EnsureStream(id);
      streams[id].HandleReceive(chunk);
    }

    method DrainStream(id: StreamId) returns (packets: seq<Packet>)
      requires Valid() && id in streams
      modifies streams[id]
      ensures Valid()
      ensures packets == Process(hash, old(View())[id].bytes).0
      ensures View() == old(View())[id := Drained(hash, old(View())[id])]
    {
      hide Process;
      packets := streams[id].ProcessStream();
    }

    method ProcessStreams() returns (result: seq<StreamPackets>)
      requires Valid()
      modifies streams.Values
      ensures Valid()
      ensures View() == Processed(hash, old(View()))
      ensures result == Collected(hash, old(View()))
    {
      hide AscendingIds, Process, Drained, DrainedUpTo, PacketsInOrder, View, Processed, Valid, Enumerates;
      ghost var start := View();
      var order := AscendingIds(streams.Keys);
      ViewKeys();
      ghost var goal := Collected(hash, start);
      CollectedEntries(hash, start, order);
      DrainedStart(hash, start, order);
      result := [];
      for i := 0 to |order|
        invariant Valid()
        invariant View() == DrainedUpTo(hash, start, order, i)
        invariant |result| == i && forall k :: 0 <= k < i ==> result[k] == goal[k]
      {
        DrainedStep(hash, start, order, i);
        ViewKeys();
        var packets := DrainStream(order[i]);
        result := result + [StreamPackets(order[i], packets)];
      }
      DrainedAll(hash, start, order);
    }

    /** Nothing this handler reads has changed. */
    twostate lemma Untouched()
      requires old(Valid()) && unchanged(this) && forall s: DataStream :: s in streams.Values ==> unchanged(s)
      ensures Valid() && View() == old(View())
    {}

    lemma ViewKeys()
      ensures View().Keys == streams.Keys
    {}
  }

  /** The first i streams of the order drained. */
  ghost function DrainedUpTo(hash: Digest, view: View, order: seq<StreamId>, i: nat): View
    requires i <= |order| && forall id :: id in order ==> id in view
  {
    if i == 0 then view
    else DrainedUpTo(hash, view, order, i - 1)[order[i - 1] := Drained(hash, view[order[i - 1]])]
  }

  lemma DrainedStart(hash: Digest, view: View, order: seq<StreamId>)
    requires Enumerates(order, view.Keys)
    ensures (forall id :: id in order ==> id in view) && DrainedUpTo(hash, view, order, 0) == view
  {}

  /** Draining the next stream of the order: it has not been touched before. */
  lemma DrainedStep(hash: Digest, view: View, order: seq<StreamId>, i: nat)
    requires i < |order| && Enumerates(order, view.Keys)
    ensures forall id :: id in order ==> id in view
    ensures var (before, id) := (DrainedUpTo(hash, view, order, i), order[i]);
      && id in view && id in before && before[id] == view[id]
      && DrainedUpTo(hash, view, order, i + 1) == before[id := Drained(hash, view[id])]
  {
    hide Drained;
    DrainedEntries(hash, view, order, i);
    assert order[i] in view.Keys;
  }

  /** The entries of `Collected`, one for each stream. */
  lemma CollectedEntries(hash: Digest, view: View, order: seq<StreamId>)
    requires order == AscendingIds(view.Keys)
    ensures Enumerates(order, view.Keys)
    ensures |Collected(hash, view)| == |order|
    ensures forall i :: 0 <= i < |order| ==>
      order[i] in view && Collected(hash, view)[i] == StreamPackets(order[i], Process(hash, view[order[i]].bytes).0)
  {
    hide AscendingIds, Process;
  }

  /** Streams are collected by sender first and by recipient second, every stream once. */
  lemma CollectedInOrder(hash: Digest, view: View, i: nat, j: nat)
    requires i < j < |Collected(hash, view)|
    ensures var (a, b) := (Collected(hash, view)[i].id, Collected(hash, view)[j].id);
      a.sender < b.sender || (a.sender == b.sender && a.recipient < b.recipient)
  {
    var order := AscendingIds(view.Keys);
    CollectedEntries(hash, view, order);
    hide Collected;
    assert StreamIdLeq(order[i], order[j]) && order[i] != order[j];
  }

  lemma {:induction false} DrainedEntries(hash: Digest, view: View, order: seq<StreamId>, i: nat)
    requires i <= |order| && Enumerates(order, view.Keys)
    ensures var drained := DrainedUpTo(hash, view, order, i);
      && drained.Keys == view.Keys
      && (forall k :: 0 <= k < i ==> drained[order[k]] == Drained(hash, view[order[k]]))
      && (forall k :: i <= k < |order| ==> drained[order[k]] == view[order[k]])
    decreases i
  {
    hide Drained;
    if i > 0 {
      DrainedEntries(hash, view, order, i - 1);
    }
  }

  lemma DrainedAll(hash: Digest, view: View, order: seq<StreamId>)
    requires Enumerates(order, view.Keys)
    ensures DrainedUpTo(hash, view, order, |order|) == Processed(hash, view)
  {
    hide Drained;
    DrainedEntries(hash, view, order, |order|);
    forall id | id in view ensures DrainedUpTo(hash, view, order, |order|)[id] == Drained(hash, view[id]) {
      assert id in order;
    }
  }

  // --------------------------------------------------------------- independence

  datatype HandlerOp = Arrive(id: StreamId, chunk: seq<Byte>) | ProcessAll

  /** The views a run passes through. */
  ghost predicate HandlerRun(hash: Digest, size: nat, views: seq<View>, ops: seq<HandlerOp>) {
    && |views| == |ops| + 1
    && forall k :: 0 <= k < |ops| ==> HandlerStep(hash, size, views[k], ops[k], views[k + 1])
  }

  ghost predicate HandlerStep(hash: Digest, size: nat, view: View, op: HandlerOp, view': View) {
    match op
    case Arrive(id, chunk) => Arrived(size, view, id, chunk, view')
    case ProcessAll => view' == Processed(hash, view)
  }

  /** Everything a run collects for one pair. */
  function Delivered(hash: Digest, views: seq<View>, ops: seq<HandlerOp>, id: StreamId): seq<Packet>
    requires |views| == |ops| + 1
    decreases |ops|
  {
    if ops == [] then [] else
      (if ops[0].ProcessAll? && id in views[0] then Process(hash, views[0][id].bytes).0 else [])
      + Delivered(hash, views[1..], ops[1..], id)
  }

  /** The operations as one pair sees them. */
  function Project(ops: seq<HandlerOp>, id: StreamId): seq<StreamOp>
    decreases |ops|
  {
    if ops == [] then []
    else if ops[0].ProcessAll? then [ProcessNow] + Project(ops[1..], id)
    else if ops[0].id == id then [Receive(ops[0].chunk)] + Project(ops[1..], id)
    else Project(ops[1..], id)
  }

  lemma ProcessNothing(hash: Digest)
    ensures Process(hash, []) == ([], [])
  {}

  /** A pair whose own chunks fit its capacity gets what its own stream would deliver, whatever else happens. */
  lemma {:induction false} PairsAreIndependent(hash: Digest, size: nat, views: seq<View>, ops: seq<HandlerOp>,
                                               id: StreamId)
    requires HandlerRun(hash, size, views, ops)
    requires WithinCapacity(hash, Slot(views[0], size, id), Project(ops, id))
    ensures Delivered(hash, views, ops, id) == Run(hash, Slot(views[0], size, id), Project(ops, id)).0
    decreases |ops|
  {
    hide Process;
    if ops != [] {
      var (s, rest) := (Slot(views[0], size, id), Project(ops[1..], id));
      assert HandlerStep(hash, size, views[0], ops[0], views[1]);
      assert HandlerRun(hash, size, views[1..], ops[1..]);
      match ops[0]
      case Arrive(to, chunk) =>
        if to == id {
          assert Project(ops, id)[1..] == rest;
        }
        PairsAreIndependent(hash, size, views[1..], ops[1..], id);
      case ProcessAll =>
        assert Project(ops, id)[1..] == rest;
        ProcessNothing(hash);
        assert Slot(views[1], size, id) == Drained(hash, s);
        PairsAreIndependent(hash, size, views[1..], ops[1..], id);
    }
  }

  lemma {:induction false} ProjectEndsInProcess(ops: seq<HandlerOp>, id: StreamId)
    requires ops != [] && ops[|ops| - 1] == ProcessAll
    ensures var own := Project(ops, id); own != [] && own[|own| - 1] == ProcessNow
    decreases |ops|
  {
    if |ops| == 1 {
      assert ops[1..] == [];
    } else {
      ProjectEndsInProcess(ops[1..], id);
    }
  }

  /** Interleaved senders: each pair's packets come out whole, in order, and nothing else does. */
  lemma InterleavedReassembly(hash: Digest, size: nat, views: seq<View>, ops: seq<HandlerOp>, id: StreamId,
                              packets: seq<Packet>)
    requires HandlerRun(hash, size, views, ops) && id !in views[0]
    requires ops != [] && ops[|ops| - 1] == ProcessAll
    requires AllSendable(packets) && Chunks(Project(ops, id)) == EncodeAll(hash, packets)
    requires WithinCapacity(hash, StreamState([], size), Project(ops, id))
    ensures Delivered(hash, views, ops, id) == packets
  {
    hide Process, HandlerRun;
    ProjectEndsInProcess(ops, id);
    PairsAreIndependent(hash, size, views, ops, id);
    JoinIsConcat([], Chunks(Project(ops, id)));
    Reassembly(hash, StreamState([], size), Project(ops, id), packets);
  }
}
