/**
`network_handler`: encode-then-write on the way out, and on the way in the
loops over clients, streams, packets and messages that raise one event for
every decoded message.
 */
module NetworkHandlers {
  import opened Bytes
  import opened Types
  import opened Sequences
  import opened Ordering
  import opened Buffers
  import opened Messages
  import opened DataStreams
  import opened DataHandlers
  import PacketCodec

  /** An established client: bound to an adapter's MAC and address. */
  datatype Client = Client(mac: string, adapter: Address, multicast: Address, handler: DataHandler)

  /** Bytes written on a client: to the multicast group, or to one recipient. */
  datatype Datagram = Datagram(adapter: Address, recipient: Option<Address>, bytes: seq<Byte>)

  datatype NetworkEvent =
    | DiscoveryReceived(identifier: Short, nodes: seq<Node>, info: NetworkInfo)
    | DataReceived(identifier: Short, buffer: seq<Byte>, info: NetworkInfo)

  const TRANSMIT_SIZE := 4096
  const RECEIVE_SIZE := 4095
  const ANY_ADDRESS: Address := 0

  // ------------------------------------------------------------------- events

  function MessageEvent(message: Message, info: NetworkInfo): NetworkEvent {
    match message
    case Discovery(identifier, nodes) => DiscoveryReceived(identifier, nodes, info)
    case Data(identifier, buffer) => DataReceived(identifier, buffer, info)
  }

  function MessageEvents(messages: seq<Message>, info: NetworkInfo): (events: seq<NetworkEvent>)
    ensures |events| == |messages|
    ensures forall i :: 0 <= i < |messages| ==> events[i] == MessageEvent(messages[i], info)
  {
    if messages == [] then [] else
      MessageEvents(messages[..|messages| - 1], info) + [MessageEvent(messages[|messages| - 1], info)]
  }

  function PacketEvents(packets: seq<Packet>, info: NetworkInfo): seq<NetworkEvent> {
    if packets == [] then [] else
      PacketEvents(packets[..|packets| - 1], info) + MessageEvents(packets[|packets| - 1], info)
  }

  function InfoOf(id: StreamId, adapter: Address, now: Time): NetworkInfo {
    NetworkInfo(now, id.sender, id.recipient, adapter)
  }

  function StreamEvents(streams: seq<StreamPackets>, adapter: Address, now: Time): seq<NetworkEvent> {
    if streams == [] then [] else
      var last := streams[|streams| - 1];
      StreamEvents(streams[..|streams| - 1], adapter, now) + PacketEvents(last.packets, InfoOf(last.id, adapter, now))
  }

  /** What one `update` raises for clients whose streams look like `views`. */
  function ClientEvents(hash: Digest, clients: seq<Client>, views: seq<View>, now: Time): seq<NetworkEvent>
    requires |clients| == |views|
  {
    if clients == [] then [] else
      var n := |clients| - 1;
      ClientEvents(hash, clients[..n], views[..n], now)
      + StreamEvents(Collected(hash, views[n]), clients[n].adapter, now)
  }

  method DispatchMessages(messages: seq<Message>, info: NetworkInfo) returns (events: seq<NetworkEvent>)
    ensures events == MessageEvents(messages, info)
  {
    events := [];
    for i := 0 to |messages|
      invariant events == MessageEvents(messages[..i], info)
    {
      TakeFront(messages, i);
      var message := messages[i];
      if message.Discovery? {
        events := events + [DiscoveryReceived(message.identifier, message.nodes, info)];
      } else if message.Data? {
        events := events + [DataReceived(message.identifier, message.buffer, info)];
      }
    }
    TakeAll(messages);
  }

  /** The packets of one stream; every packet sets sender and receiver in the record it was given. */
  method DispatchPackets(packets: seq<Packet>, id: StreamId, start: NetworkInfo) returns (events: seq<NetworkEvent>)
    ensures events == PacketEvents(packets, InfoOf(id, start.adapter, start.receptionTime))
  {
    var info := start;
    events := [];
    for k := 0 to |packets|
      invariant info.receptionTime == start.receptionTime && info.adapter == start.adapter
      invariant events == PacketEvents(packets[..k], InfoOf(id, start.adapter, start.receptionTime))
    {
      TakeFront(packets, k);
      info := info.(sender := id.sender, receiver := id.recipient);
      var more := DispatchMessages(packets[k], info);
      events := events + more;
    }
    TakeAll(packets);
  }

  method DispatchStreams(streams: seq<StreamPackets>, adapter: Address, now: Time)
    returns (events: seq<NetworkEvent>)
    ensures events == StreamEvents(streams, adapter, now)
  {
    var info := NetworkInfo(now, ANY_ADDRESS, ANY_ADDRESS, adapter);
    events := [];
    for i := 0 to |streams|
      invariant events == StreamEvents(streams[..i], adapter, now)
    {
      TakeFront(streams, i);
      var more := DispatchPackets(streams[i].packets, streams[i].id, info);
      events := events + more;
    }
    TakeAll(streams);
  }

  // ------------------------------------------------------------------ the class

  ghost function ViewList(clients: seq<Client>): (views: seq<View>)
    reads set c | c in clients :: c.handler
    reads set c, s | c in clients && s in c.handler.streams.Values :: s
    ensures |views| == |clients|
    ensures forall i :: 0 <= i < |clients| ==> views[i] == clients[i].handler.View()
  {
    if clients == [] then [] else
      ViewList(clients[..|clients| - 1]) + [clients[|clients| - 1].handler.View()]
  }

  class NetworkHandler {
    var clients: seq<Client>
    var events: seq<NetworkEvent>
    var sent: seq<Datagram>
    const hash: Digest

    ghost function Handlers(): set<DataHandler>
      reads this
    {
      set i | 0 <= i < |clients| :: clients[i].handler
    }

    ghost function Streams(): set<DataStream>
      reads this, Handlers()
    {
      set i, s | 0 <= i < |clients| && s in clients[i].handler.streams.Values :: s
    }

    /** Every client has its own handler, and no two handlers share a stream. */
    ghost predicate Separate()
      reads this, Handlers()
    {
      forall i, j :: 0 <= i < |clients| && 0 <= j < |clients| && i != j ==>
        && clients[i].handler != clients[j].handler
        && clients[i].handler.streams.Values !! clients[j].handler.streams.Values
    }

    ghost predicate Valid()
      reads this, Handlers(), Streams()
    {
      && Separate()
      && forall i :: 0 <= i < |clients| ==> clients[i].handler.Valid() && clients[i].handler.hash == hash
    }

    constructor (clients: seq<Client>, hash: Digest)
      ensures this.clients == clients && this.hash == hash && events == [] && sent == []
    {
      this.clients, this.hash := clients, hash;
      events, sent := [], [];
    }

    /** The first client of a MAC, or the number of clients. */
    function ClientIndex(mac: string): (i: nat)
      reads this
      ensures i <= |clients|
      ensures i < |clients| ==> clients[i].mac == mac
      ensures forall k :: 0 <= k < i ==> clients[k].mac != mac
    {
      FirstClient(clients, mac)
    }

    method TransmitMulticast(mac: string, messages: seq<Message>)
      modifies this`sent
      ensures sent == old(sent) + Multicast(hash, clients, mac, messages)
      ensures sent == old(sent) +
        var i := ClientIndex(mac);
        if i == |clients| || clients[i].multicast == 0 then []
        else [Datagram(clients[i].adapter, None, Transmitted(hash, messages))]
    {
      var i := ClientIndex(mac);
      if i == |clients| {
        return;
      }
      if clients[i].multicast != ANY_ADDRESS {
        var bytes := EncodeForWrite(messages);
        sent := sent + [Datagram(clients[i].adapter, None, bytes)];
      }
    }

    method TransmitUnicast(mac: string, recipient: Address, messages: seq<Message>)
      modifies this`sent
      ensures var i := ClientIndex(mac);
        sent == old(sent) + if i == |clients| then [] else
          [Datagram(clients[i].adapter, Some(recipient), Transmitted(hash, messages))]
    {
      var i := ClientIndex(mac);
      if i == |clients| {
        return;
      }
      var bytes := EncodeForWrite(messages);
      sent := sent + [Datagram(clients[i].adapter, Some(recipient), bytes)];
    }

    /** The buffer is written whether or not the encoding succeeded. */
    method EncodeForWrite(messages: seq<Message>) returns (bytes: seq<Byte>)
      ensures bytes == Transmitted(hash, messages)
    {
      var buffer := new Buffer(TRANSMIT_SIZE);
      var success := PacketCodec.Encode(hash, buffer, messages);
      bytes := buffer.bytes[..buffer.writeOffset];
    }

    /** Draining one client leaves the others' streams and this handler in order. */
    method DrainClient(i: nat) returns (streams: seq<StreamPackets>)
      requires Valid() && i < |clients|
      modifies clients[i].handler.streams.Values
      ensures Valid()
      ensures streams == Collected(hash, old(clients[i].handler.View()))
      ensures clients[i].handler.View() == Processed(hash, old(clients[i].handler.View()))
      ensures forall k :: 0 <= k < |clients| && k != i ==> clients[k].handler.View() == old(clients[k].handler.View())
    {
      hide Collected, Processed, DataHandler.View, DataHandler.Valid;
      streams := clients[i].handler.ProcessStreams();
      forall k | 0 <= k < |clients| && k != i
        ensures clients[k].handler.Valid() && clients[k].handler.View() == old(clients[k].handler.View())
      {
        clients[k].handler.Untouched();
      }
    }

    /** The loop body of `update`: one client. */
    method UpdateClient(i: nat, now: Time)
      requires Valid() && i < |clients|
      modifies this`events, clients[i].handler.streams.Values
      ensures Valid()
      ensures events == old(events)
        + StreamEvents(Collected(hash, old(clients[i].handler.View())), clients[i].adapter, now)
      ensures clients[i].handler.View() == Processed(hash, old(clients[i].handler.View()))
      ensures forall k :: 0 <= k < |clients| && k != i ==> clients[k].handler.View() == old(clients[k].handler.View())
    {
      hide StreamEvents, Collected, Processed, DataHandler.View, DataHandler.Valid;
      var streams := DrainClient(i);
      var more := DispatchStreams(streams, clients[i].adapter, now);
      events := events + more;
    }

    /** The streams of the first i clients are drained, the others as they were. */
    ghost predicate DrainedUpTo(views: seq<View>, i: nat)
      reads this, Handlers(), Streams()
    {
      && |views| == |clients|
      && (forall k :: 0 <= k < i && k < |clients| ==> clients[k].handler.View() == Processed(hash, views[k]))
      && (forall k :: i <= k < |clients| ==> clients[k].handler.View() == views[k])
    }

    /** One more client, in front of what the loop of `update` still has to do. */
    method UpdateNext(i: nat, now: Time, ghost views: seq<View>, ghost log: seq<NetworkEvent>)
      requires Valid() && i < |clients| && DrainedUpTo(views, i)
      requires events == Join(log, EventsUpTo(hash, clients, views, i, now))
      modifies this`events, clients[i].handler.streams.Values
      ensures Valid() && DrainedUpTo(views, i + 1)
      ensures events == Join(log, EventsUpTo(hash, clients, views, i + 1, now))
    {
      hide Collected, Processed, Valid, DataHandler.View, StreamEvents, EventsUpTo;
      EventsUpToStep(hash, clients, views, i, now, log);
      UpdateClient(i, now);
    }

    /** Drains every stream of every client and raises their events in order. */
    method Update(now: Time)
      requires Valid()
      modifies this`events, Streams()
      ensures Valid()
      ensures events == old(events) + ClientEvents(hash, clients, old(ViewList(clients)), now)
      ensures forall i :: 0 <= i < |clients| ==>
        clients[i].handler.View() == Processed(hash, old(clients[i].handler.View()))
    {
      hide Processed, Valid, ViewList, DataHandler.View, EventsUpTo, DrainedUpTo, ClientEvents;
      ghost var views := ViewList(clients);
      ghost var log := events;
      EventsUpToEnds(hash, clients, views, now);
      NoneDrained();
      for i := 0 to |clients|
        invariant Valid() && DrainedUpTo(views, i)
        invariant events == Join(log, EventsUpTo(hash, clients, views, i, now))
      {
        UpdateNext(i, now, views, log);
      }
      JoinIsConcat(log, EventsUpTo(hash, clients, views, |clients|, now));
      AllDrained(views);
    }

    lemma NoneDrained()
      ensures DrainedUpTo(ViewList(clients), 0)
    {
      hide DataHandler.View;
    }

    lemma AllDrained(views: seq<View>)
      requires DrainedUpTo(views, |clients|)
      ensures forall i :: 0 <= i < |clients| ==> clients[i].handler.View() == Processed(hash, views[i])
    {
      hide Processed, DataHandler.View;
    }
  }

  /** The events of the first n clients. */
  ghost function EventsUpTo(hash: Digest, clients: seq<Client>, views: seq<View>, n: nat, now: Time): seq<NetworkEvent>
    requires n <= |clients| == |views|
  {
    ClientEvents(hash, clients[..n], views[..n], now)
  }

  lemma EventsUpToEnds(hash: Digest, clients: seq<Client>, views: seq<View>, now: Time)
    requires |clients| == |views|
    ensures EventsUpTo(hash, clients, views, 0, now) == []
    ensures EventsUpTo(hash, clients, views, |clients|, now) == ClientEvents(hash, clients, views, now)
  {
    TakeAll(clients);
    TakeAll(views);
  }

  lemma EventsUpToStep(hash: Digest, clients: seq<Client>, views: seq<View>, i: nat, now: Time, log: seq<NetworkEvent>)
    requires i < |clients| == |views|
    ensures var raised := StreamEvents(Collected(hash, views[i]), clients[i].adapter, now);
      && EventsUpTo(hash, clients, views, i + 1, now) == EventsUpTo(hash, clients, views, i, now) + raised
      && Join(log, EventsUpTo(hash, clients, views, i + 1, now))
           == Join(log, EventsUpTo(hash, clients, views, i, now)) + raised
  {
    var raised := StreamEvents(Collected(hash, views[i]), clients[i].adapter, now);
    hide StreamEvents, Collected;
    TakeFront(clients, i);
    TakeFront(views, i);
    JoinIsConcat(log, EventsUpTo(hash, clients, views, i, now));
    JoinIsConcat(log, EventsUpTo(hash, clients, views, i + 1, now));
    hide ClientEvents;
    Regroup(log, EventsUpTo(hash, clients, views, i, now), [], raised);
  }

  function FirstClient(clients: seq<Client>, mac: string): (i: nat)
    ensures i <= |clients|
    ensures i < |clients| ==> clients[i].mac == mac
    ensures forall k :: 0 <= k < i ==> clients[k].mac != mac
  {
    if clients == [] || clients[0].mac == mac then 0 else 1 + FirstClient(clients[1..], mac)
  }

  /** The bytes a transmission writes: the packet, or nothing when it does not fit the transmit buffer. */
  function Transmitted(hash: Digest, messages: seq<Message>): seq<Byte> {
    if PacketSize(messages) <= TRANSMIT_SIZE then EncodePacket(hash, messages) else []
  }

  function Multicast(hash: Digest, clients: seq<Client>, mac: string, messages: seq<Message>): seq<Datagram> {
    var i := FirstClient(clients, mac);
    if i == |clients| || clients[i].multicast == ANY_ADDRESS then []
    else [Datagram(clients[i].adapter, None, Transmitted(hash, messages))]
  }

  // ----------------------------------------------------- one event per message

  /** The event came in on this adapter for this (sender, recipient) pair. */
  predicate FromPair(event: NetworkEvent, adapter: Address, id: StreamId) {
    event.info.sender == id.sender && event.info.receiver == id.recipient && event.info.adapter == adapter
  }

  function Filter(events: seq<NetworkEvent>, adapter: Address, id: StreamId): seq<NetworkEvent> {
    if events == [] then [] else
      Filter(events[..|events| - 1], adapter, id)
      + if FromPair(events[|events| - 1], adapter, id) then [events[|events| - 1]] else []
  }

  lemma {:induction false} FilterConcat(first: seq<NetworkEvent>, second: seq<NetworkEvent>, adapter: Address,
                                        id: StreamId)
    ensures Filter(first + second, adapter, id) == Join(Filter(first, adapter, id), Filter(second, adapter, id))
    decreases |second|
  {
    if second == [] {
      assert first + second == first;
    } else {
      var front := second[..|second| - 1];
      FrontOfConcat(first, second);
      FilterConcat(first, front, adapter, id);
      JoinIsConcat(Filter(first, adapter, id), Filter(front, adapter, id));
      JoinIsConcat(Filter(first, adapter, id), Filter(second, adapter, id));
    }
  }

  lemma {:induction false} FilterAllOrNone(events: seq<NetworkEvent>, adapter: Address, id: StreamId, keep: bool)
    requires forall i :: 0 <= i < |events| ==> FromPair(events[i], adapter, id) == keep
    ensures Filter(events, adapter, id) == if keep then events else []
    decreases |events|
  {
    if events != [] {
      FilterAllOrNone(events[..|events| - 1], adapter, id, keep);
    }
  }

  lemma {:induction false} PacketEventsInfo(packets: seq<Packet>, info: NetworkInfo)
    ensures forall i :: 0 <= i < |PacketEvents(packets, info)| ==> PacketEvents(packets, info)[i].info == info
    decreases |packets|
  {
    if packets != [] {
      PacketEventsInfo(packets[..|packets| - 1], info);
    }
  }

  lemma PacketsFromPair(packets: seq<Packet>, info: NetworkInfo, adapter: Address, id: StreamId)
    ensures var own := info.sender == id.sender && info.receiver == id.recipient && info.adapter == adapter;
      Filter(PacketEvents(packets, info), adapter, id) == if own then PacketEvents(packets, info) else []
  {
    PacketEventsInfo(packets, info);
    FilterAllOrNone(PacketEvents(packets, info), adapter, id,
                    info.sender == id.sender && info.receiver == id.recipient && info.adapter == adapter);
  }

  /** The packets of a pair's entry, if there is one. */
  function PacketsIn(streams: seq<StreamPackets>, id: StreamId): seq<Packet> {
    if streams == [] then []
    else if streams[|streams| - 1].id == id then streams[|streams| - 1].packets
    else PacketsIn(streams[..|streams| - 1], id)
  }

  lemma {:induction false} PacketsInEntry(streams: seq<StreamPackets>, id: StreamId)
    requires forall i, j :: 0 <= i < j < |streams| ==> streams[i].id != streams[j].id
    ensures forall i :: 0 <= i < |streams| && streams[i].id == id ==> PacketsIn(streams, id) == streams[i].packets
    ensures (forall i :: 0 <= i < |streams| ==> streams[i].id != id) ==> PacketsIn(streams, id) == []
    decreases |streams|
  {
    if streams != [] {
      PacketsInEntry(streams[..|streams| - 1], id);
    }
  }

  /** A pair's share in a list of streams: the events of its own entry, or none. */
  lemma {:induction false} EventsOfList(streams: seq<StreamPackets>, from: Address, now: Time, adapter: Address,
                                        id: StreamId)
    requires forall i, j :: 0 <= i < j < |streams| ==> streams[i].id != streams[j].id
    ensures Filter(StreamEvents(streams, from, now), adapter, id) ==
      if from == adapter then PacketEvents(PacketsIn(streams, id), InfoOf(id, from, now)) else []
    decreases |streams|
  {
    if streams != [] {
      var (front, last) := (streams[..|streams| - 1], streams[|streams| - 1]);
      PacketsInEntry(front, id);
      hide PacketEvents, Filter, FromPair;
      var info := InfoOf(last.id, from, now);
      EventsOfList(front, from, now, adapter, id);
      FilterConcat(StreamEvents(front, from, now), PacketEvents(last.packets, info), adapter, id);
      PacketsFromPair(last.packets, info, adapter, id);
      NoPacketsNoEvents(info);
    }
  }

  lemma NoPacketsNoEvents(info: NetworkInfo)
    ensures PacketEvents([], info) == []
  {}

  /** The packets a `process` call takes from one pair's stream. */
  function PacketsOf(hash: Digest, view: View, id: StreamId): seq<Packet> {
    if id in view then Process(hash, view[id].bytes).0 else []
  }

  /** What one handler's `process` call raises for a pair: the events of its own packets, nobody else's. */
  lemma EventsOfStream(hash: Digest, view: View, from: Address, now: Time, adapter: Address, id: StreamId)
    ensures Filter(StreamEvents(Collected(hash, view), from, now), adapter, id) ==
      if from == adapter
      then PacketEvents(PacketsOf(hash, view, id), NetworkInfo(now, id.sender, id.recipient, from)) else []
  {
    var order := AscendingIds(view.Keys);
    var streams := Collected(hash, view);
    CollectedEntries(hash, view, order);
    DistinctEntries(view, order, streams, id);
    PacketsInEntry(streams, id);
    assert PacketsIn(streams, id) == PacketsOf(hash, view, id);
    hide PacketsOf, AscendingIds, Process, Collected, Filter, StreamEvents, Enumerates, PacketEvents, PacketsIn;
    EventsOfList(streams, from, now, adapter, id);
  }

  lemma DistinctEntries(view: View, order: seq<StreamId>, streams: seq<StreamPackets>, id: StreamId)
    requires Enumerates(order, view.Keys) && |streams| == |order|
    requires forall i :: 0 <= i < |order| ==> streams[i].id == order[i]
    ensures forall i, j :: 0 <= i < j < |streams| ==> streams[i].id != streams[j].id
    ensures id in view <==> exists i :: 0 <= i < |streams| && streams[i].id == id
  {
    if id in view {
      assert id in order;
      var i :| 0 <= i < |order| && order[i] == id;
      assert streams[i].id == id;
    }
    forall i | 0 <= i < |streams| && streams[i].id == id ensures id in view {
      assert order[i] in order;
    }
  }

  /** No two clients sit on the same adapter. */
  ghost predicate OnePerAdapter(clients: seq<Client>) {
    forall i, j :: 0 <= i < j < |clients| ==> clients[i].adapter != clients[j].adapter
  }

  /** What the first n clients raise for a pair on a client's adapter comes from that client's stream alone. */
  lemma {:induction false} EventsOfClients(hash: Digest, clients: seq<Client>, views: seq<View>, now: Time, c: nat,
                                           id: StreamId, n: nat)
    requires n <= |clients| == |views| && c < |clients| && OnePerAdapter(clients)
    ensures Filter(EventsUpTo(hash, clients, views, n, now), clients[c].adapter, id) ==
      if c < n then PacketEvents(PacketsOf(hash, views[c], id), InfoOf(id, clients[c].adapter, now)) else []
    decreases n
  {
    hide Filter, EventsUpTo, PacketsOf, OnePerAdapter, PacketEvents, Collected, StreamEvents;
    if n == 0 {
      NoClientsNoEvents(hash, clients, views, now, clients[c].adapter, id);
    } else {
      var k := n - 1;
      var raised := StreamEvents(Collected(hash, views[k]), clients[k].adapter, now);
      EventsOfClients(hash, clients, views, now, c, id, k);
      EventsUpToStep(hash, clients, views, k, now, []);
      FilterConcat(EventsUpTo(hash, clients, views, k, now), raised, clients[c].adapter, id);
      EventsOfStream(hash, views[k], clients[k].adapter, now, clients[c].adapter, id);
      AdaptersDiffer(clients, k, c);
    }
  }

  lemma NoClientsNoEvents(hash: Digest, clients: seq<Client>, views: seq<View>, now: Time, adapter: Address,
                          id: StreamId)
    requires |clients| == |views|
    ensures Filter(EventsUpTo(hash, clients, views, 0, now), adapter, id) == []
  {
    EventsUpToEnds(hash, clients, views, now);
  }

  lemma AdaptersDiffer(clients: seq<Client>, k: nat, c: nat)
    requires OnePerAdapter(clients) && k < |clients| && c < |clients|
    ensures clients[k].adapter == clients[c].adapter <==> k == c
  {}

  /** All messages of a list of packets, in order. */
  function Flatten(packets: seq<Packet>): seq<Message> {
    if packets == [] then [] else Flatten(packets[..|packets| - 1]) + packets[|packets| - 1]
  }

  lemma {:induction false} FlattenConcat(first: seq<Packet>, second: seq<Packet>)
    ensures Flatten(first + second) == Flatten(first) + Flatten(second)
    decreases |second|
  {
    if second == [] {
      assert first + second == first;
    } else {
      var (front, last) := (second[..|second| - 1], second[|second| - 1]);
      FrontOfConcat(first, second);
      FlattenConcat(first, front);
      Regroup(Flatten(first), Flatten(front), [], last);
    }
  }

  /** The message an event carries. */
  function MessageOf(event: NetworkEvent): Message {
    match event
    case DiscoveryReceived(identifier, nodes, _) => Discovery(identifier, nodes)
    case DataReceived(identifier, buffer, _) => Data(identifier, buffer)
  }

  function MessagesOf(events: seq<NetworkEvent>): (messages: seq<Message>)
    ensures |messages| == |events|
  {
    seq(|events|, i requires 0 <= i < |events| => MessageOf(events[i]))
  }

  lemma MessagesConcat(first: seq<NetworkEvent>, second: seq<NetworkEvent>)
    ensures MessagesOf(first + second) == MessagesOf(first) + MessagesOf(second)
  {}

  /** Exactly one event for each decoded message, in order, with the message in it. */
  lemma {:induction false} OneEventPerMessage(packets: seq<Packet>, info: NetworkInfo)
    ensures MessagesOf(PacketEvents(packets, info)) == Flatten(packets)
    decreases |packets|
  {
    if packets != [] {
      var (front, last) := (packets[..|packets| - 1], packets[|packets| - 1]);
      OneEventPerMessage(front, info);
      assert MessagesOf(MessageEvents(last, info)) == last;
      MessagesConcat(PacketEvents(front, info), MessageEvents(last, info));
    }
  }

  // ------------------------------------------------------- runs of the dispatcher

  /** A chunk reaches one client's handler, or `update` drains them all. */
  datatype DispatchOp = ChunkAt(client: nat, id: StreamId, chunk: seq<Byte>) | UpdateAt(now: Time)

  ghost predicate DispatchStep(hash: Digest, size: nat, views: seq<View>, op: DispatchOp, views': seq<View>) {
    && |views'| == |views|
    && match op
       case ChunkAt(c, id, chunk) =>
         && c < |views| && Arrived(size, views[c], id, chunk, views'[c])
         && forall k :: 0 <= k < |views| && k != c ==> views'[k] == views[k]
       case UpdateAt(_) => forall k :: 0 <= k < |views| ==> views'[k] == Processed(hash, views[k])
  }

  /** The states of all clients' streams a run passes through. */
  ghost predicate DispatchRun(hash: Digest, size: nat, states: seq<seq<View>>, ops: seq<DispatchOp>) {
    && |states| == |ops| + 1
    && (forall k :: 0 <= k < |states| ==> |states[k]| == |states[0]|)
    && forall k :: 0 <= k < |ops| ==> DispatchStep(hash, size, states[k], ops[k], states[k + 1])
  }

  /** Everything a run raises. */
  function EventLog(hash: Digest, clients: seq<Client>, states: seq<seq<View>>, ops: seq<DispatchOp>): seq<NetworkEvent>
    requires |states| == |ops| + 1 && forall k :: 0 <= k < |states| ==> |states[k]| == |clients|
    decreases |ops|
  {
    if ops == [] then [] else
      (if ops[0].UpdateAt? then ClientEvents(hash, clients, states[0], ops[0].now) else [])
      + EventLog(hash, clients, states[1..], ops[1..])
  }

  /** The operations as one pair of one client sees them. */
  function OpsOfPair(ops: seq<DispatchOp>, c: nat, id: StreamId): seq<StreamOp>
    decreases |ops|
  {
    if ops == [] then []
    else if ops[0].UpdateAt? then [ProcessNow] + OpsOfPair(ops[1..], c, id)
    else if ops[0].client == c && ops[0].id == id then [Receive(ops[0].chunk)] + OpsOfPair(ops[1..], c, id)
    else OpsOfPair(ops[1..], c, id)
  }

  /** What one step does to one pair's stream. */
  lemma DispatchStepAtPair(hash: Digest, size: nat, views: seq<View>, op: DispatchOp, views': seq<View>, c: nat,
                           id: StreamId)
    requires DispatchStep(hash, size, views, op, views') && c < |views|
    ensures var (s, s') := (Slot(views[c], size, id), Slot(views'[c], size, id));
      && PacketsOf(hash, views[c], id) == Process(hash, s.bytes).0
      && (op.UpdateAt? ==> s' == Drained(hash, s))
      && (op.ChunkAt? ==> if op.client == c && op.id == id then Received(s, op.chunk, s') else s' == s)
  {
    hide Process;
    ProcessNothing(hash);
  }

  lemma FirstOp(ops: seq<DispatchOp>, c: nat, id: StreamId)
    requires ops != []
    ensures var (own, rest) := (OpsOfPair(ops, c, id), OpsOfPair(ops[1..], c, id));
      if ops[0].UpdateAt? then own != [] && own[0] == ProcessNow && own[1..] == rest
      else if ops[0].client == c && ops[0].id == id then
        own != [] && own[0] == Receive(ops[0].chunk) && own[1..] == rest
      else own == rest
  {}

  /**
  Whatever arrives on other adapters and for other pairs, the events a pair
  raises in a run carry exactly the messages its own stream would deliver, in
  order, as long as its own chunks fit its capacity.
   */
  lemma {:induction false} RunRaisesMessages(hash: Digest, size: nat, clients: seq<Client>, states: seq<seq<View>>,
                                             ops: seq<DispatchOp>, c: nat, id: StreamId)
    requires DispatchRun(hash, size, states, ops) && |states[0]| == |clients|
    requires OnePerAdapter(clients) && c < |clients|
    requires WithinCapacity(hash, Slot(states[0][c], size, id), OpsOfPair(ops, c, id))
    ensures MessagesOf(Filter(EventLog(hash, clients, states, ops), clients[c].adapter, id)) ==
      Flatten(Run(hash, Slot(states[0][c], size, id), OpsOfPair(ops, c, id)).0)
    decreases |ops|
  {
    if ops != [] {
      var s := Slot(states[0][c], size, id);
      var adapter := clients[c].adapter;
      assert DispatchStep(hash, size, states[0], ops[0], states[1]);
      RestOfRun(hash, size, states, ops);
      DispatchStepAtPair(hash, size, states[0], ops[0], states[1], c, id);
      FirstOp(ops, c, id);
      hide Process, Slot, DispatchStep, DispatchRun, ClientEvents, PacketEvents, PacketsOf, OpsOfPair;
      if ops[0].UpdateAt? {
        var now := ops[0].now;
        var raised := ClientEvents(hash, clients, states[0], now);
        var later := EventLog(hash, clients, states[1..], ops[1..]);
        RunRaisesMessages(hash, size, clients, states[1..], ops[1..], c, id);
        FilterConcat(raised, later, adapter, id);
        EventsUpToEnds(hash, clients, states[0], now);
        EventsOfClients(hash, clients, states[0], now, c, id, |clients|);
        OneEventPerMessage(PacketsOf(hash, states[0][c], id), InfoOf(id, adapter, now));
        JoinIsConcat(Filter(raised, adapter, id), Filter(later, adapter, id));
        MessagesConcat(Filter(raised, adapter, id), Filter(later, adapter, id));
        FlattenConcat(Process(hash, s.bytes).0, Run(hash, Drained(hash, s), OpsOfPair(ops[1..], c, id)).0);
      } else {
        RunRaisesMessages(hash, size, clients, states[1..], ops[1..], c, id);
        JoinIsConcat([], EventLog(hash, clients, states[1..], ops[1..]));
      }
    }
  }

  lemma RestOfRun(hash: Digest, size: nat, states: seq<seq<View>>, ops: seq<DispatchOp>)
    requires DispatchRun(hash, size, states, ops) && ops != []
    ensures DispatchRun(hash, size, states[1..], ops[1..]) && |states[1]| == |states[0]|
  {
    hide DispatchStep;
    forall k | 0 <= k < |ops[1..]| ensures DispatchStep(hash, size, states[1..][k], ops[1..][k], states[1..][k + 1]) {
      assert DispatchStep(hash, size, states[k + 1], ops[k + 1], states[k + 2]);
    }
  }

  lemma {:induction false} PairEndsInProcess(ops: seq<DispatchOp>, c: nat, id: StreamId)
    requires ops != [] && ops[|ops| - 1].UpdateAt?
    ensures var own := OpsOfPair(ops, c, id); own != [] && own[|own| - 1] == ProcessNow
    decreases |ops|
  {
    if |ops| == 1 {
      assert ops[1..] == [];
    } else {
      PairEndsInProcess(ops[1..], c, id);
    }
  }

  /**
  Packets cut into any chunks, amid any other traffic on any adapter, in a run
  that ends in an `update`: one event for each of their messages, in order.
   */
  lemma RunRaisesPackets(hash: Digest, size: nat, clients: seq<Client>, states: seq<seq<View>>, ops: seq<DispatchOp>,
                         c: nat, id: StreamId, packets: seq<Packet>)
    requires DispatchRun(hash, size, states, ops) && |states[0]| == |clients|
    requires OnePerAdapter(clients) && c < |clients| && id !in states[0][c]
    requires ops != [] && ops[|ops| - 1].UpdateAt?
    requires AllSendable(packets) && Chunks(OpsOfPair(ops, c, id)) == EncodeAll(hash, packets)
    requires WithinCapacity(hash, StreamState([], size), OpsOfPair(ops, c, id))
    ensures MessagesOf(Filter(EventLog(hash, clients, states, ops), clients[c].adapter, id)) == Flatten(packets)
  {
    hide Process, DispatchRun, EventLog, Filter, MessagesOf, OnePerAdapter, EncodeAll, OpsOfPair;
    hide WithinCapacity, Chunks, AllSendable, Flatten, Run;
    var own := OpsOfPair(ops, c, id);
    PairEndsInProcess(ops, c, id);
    RunRaisesMessages(hash, size, clients, states, ops, c, id);
    JoinIsConcat([], Chunks(own));
    Reassembly(hash, StreamState([], size), own, packets);
  }

  // ---------------------------------------------------------------- end to end

  /**
  From one node's transmit call to another's stream: a packet written to a
  drained stream of the standard capacity comes out exactly when it is smaller
  than the transmit buffer. One that fills the 4096 bytes overfills the 4095 of
  the receiver, and one that does not fit them is sent as an empty datagram.
   */
  lemma TransmittedArrives(hash: Digest, messages: seq<Message>, s': StreamState)
    requires Received(StreamState([], RECEIVE_SIZE), Transmitted(hash, messages), s')
    ensures |Transmitted(hash, messages)| == if PacketSize(messages) <= 4096 then PacketSize(messages) else 0
    ensures Process(hash, s'.bytes) == if PacketSize(messages) <= 4095 then ([messages], []) else ([], [])
  {
    var s := StreamState([], RECEIVE_SIZE);
    if PacketSize(messages) <= TRANSMIT_SIZE {
      SmallPacketFits(messages);
      DatagramToDrainedStream(hash, s, messages, s');
    } else {
      hide EncodePacket;
      assert s'.bytes == [];
      ProcessNothing(hash);
    }
  }

  lemma DatagramToDrainedStream(hash: Digest, s: StreamState, messages: seq<Message>, s': StreamState)
    requires s.bytes == [] && Sendable(messages)
    requires Received(s, EncodePacket(hash, messages), s')
    ensures Process(hash, s'.bytes) == if PacketSize(messages) <= s.capacity then ([messages], []) else ([], [])
  {
    var packet := EncodePacket(hash, messages);
    if |packet| <= s.capacity {
      JoinIsConcat([], packet);
      JoinIsConcat(packet, []);
      WholePacketStep(hash, messages, []);
    } else {
      OverfullLosesAll(hash, s, packet, s');
    }
  }

  /** Events come client by client, in the order of the client list. */
  lemma {:induction false} EventsByClient(hash: Digest, clients: seq<Client>, views: seq<View>, now: Time, n: nat)
    requires n <= |clients| == |views|
    ensures ClientEvents(hash, clients, views, now) ==
      ClientEvents(hash, clients[..n], views[..n], now) + ClientEvents(hash, clients[n..], views[n..], now)
    decreases |clients|
  {
    hide StreamEvents, Collected;
    if n == |clients| {
      TakeAll(clients);
      TakeAll(views);
      JoinIsConcat(ClientEvents(hash, clients, views, now), []);
    } else {
      var last := |clients| - 1;
      var raised := StreamEvents(Collected(hash, views[last]), clients[last].adapter, now);
      EventsByClient(hash, clients[..last], views[..last], now, n);
      SliceParts(clients, n);
      SliceParts(views, n);
      Regroup(ClientEvents(hash, clients[..n], views[..n], now),
              ClientEvents(hash, clients[n..last], views[n..last], now), [], raised);
    }
  }

  lemma SliceParts<T>(s: seq<T>, n: nat)
    requires n < |s|
    ensures var last := |s| - 1;
      && s[..last][..n] == s[..n] && s[..last][n..] == s[n..last]
      && s[n..][..|s[n..]| - 1] == s[n..last] && s[n..][|s[n..]| - 1] == s[last]
  {}

  /** One client's events are those of its streams, on its adapter. */
  lemma OneClientEvents(hash: Digest, client: Client, view: View, now: Time)
    ensures ClientEvents(hash, [client], [view], now) == StreamEvents(Collected(hash, view), client.adapter, now)
  {
    hide StreamEvents, Collected;
    JoinIsConcat([], StreamEvents(Collected(hash, view), client.adapter, now));
  }
}
