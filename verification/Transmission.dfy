/**
`transmission_handler`: every 20 seconds each client announces the node and the
routes selected for its adapter. The lemmas follow an announcement through the
transmit buffer, the wire and the receiver's stream to its route manager.
 */
module Transmissions {
  import opened Bytes
  import opened Types
  import opened Sequences
  import opened Messages
  import opened DataStreams
  import opened DataHandlers
  import opened NetworkHandlers
  import opened AdapterManagers
  import opened Routes
  import opened RouteManagers
  import opened RouteHistory
  import Network

  const INTERVAL: Time := 20 * SECOND

  /** The message list one client announces. */
  function DiscoveryFor(nodeId: Short, table: Table, guid: string): seq<Message> {
    [Discovery(nodeId, Network.Advertised(FindRoutes(table, guid)))]
  }

  /** What the loop over clients sends: nothing for a client whose adapter is gone. */
  function Announcements(hash: Digest, nodeId: Short, adapters: AdapterTable, table: Table, all: seq<Client>,
                         clients: seq<Client>): seq<Datagram> {
    if clients == [] then [] else
      var (front, mac) := (clients[..|clients| - 1], clients[|clients| - 1].mac);
      Announcements(hash, nodeId, adapters, table, all, front)
      + if mac !in adapters then []
        else Multicast(hash, all, adapters[mac].mac, DiscoveryFor(nodeId, table, adapters[mac].guid))
  }

  class TransmissionHandler {
    var lastDiscovery: Time
    const nodeId: Short
    const adapterManager: AdapterManager
    const routeManager: RouteManager
    const networkHandler: NetworkHandler

    constructor (nodeId: Short, adapterManager: AdapterManager, routeManager: RouteManager,
                 networkHandler: NetworkHandler)
      ensures lastDiscovery == MIN_TIME && this.nodeId == nodeId && this.adapterManager == adapterManager
      ensures this.routeManager == routeManager && this.networkHandler == networkHandler
    {
      lastDiscovery := MIN_TIME;
      this.nodeId, this.adapterManager := nodeId, adapterManager;
      this.routeManager, this.networkHandler := routeManager, networkHandler;
    }

    /** The second test, meant for a clock that jumped forward, repeats the first and never fires. */
    method Update(now: Time)
      modifies this`lastDiscovery, networkHandler`sent
      ensures lastDiscovery == if old(lastDiscovery) + 20_000_000_000 < now then now else old(lastDiscovery)
      ensures now <= old(lastDiscovery) + 20_000_000_000 ==> networkHandler.sent == old(networkHandler.sent)
      ensures now > old(lastDiscovery) + 20_000_000_000 ==>
        Announced(networkHandler.hash, nodeId, adapterManager.adapters, routeManager.table, networkHandler.clients,
                  old(networkHandler.sent), networkHandler.sent)
      ensures networkHandler.sent == old(networkHandler.sent) +
        if old(lastDiscovery) + INTERVAL < now then
          Announcements(networkHandler.hash, nodeId, adapterManager.adapters, routeManager.table,
                        networkHandler.clients, networkHandler.clients)
        else []
    {
      hide Announcements;
      var nextDiscovery := lastDiscovery + INTERVAL;
      if nextDiscovery < now {
        TransmitDiscoveryMessage();
        lastDiscovery := now;
        return;
      }
      var forward := now - lastDiscovery;
      if forward > INTERVAL {
        assert false;
        return;
      }
    }

    method TransmitDiscoveryMessage()
      modifies networkHandler`sent
      ensures Announced(networkHandler.hash, nodeId, adapterManager.adapters, routeManager.table,
                        networkHandler.clients, old(networkHandler.sent), networkHandler.sent)
      ensures networkHandler.sent == old(networkHandler.sent) +
        Announcements(networkHandler.hash, nodeId, adapterManager.adapters, routeManager.table,
                      networkHandler.clients, networkHandler.clients)
    {
      hide FindRoutes, Multicast, Network.Advertised;
      var clients := networkHandler.clients;
      ghost var log := networkHandler.sent;
      ghost var adapters := adapterManager.adapters;
      for i := 0 to |clients|
        invariant networkHandler.sent == log +
          Announcements(networkHandler.hash, nodeId, adapters, routeManager.table, clients, clients[..i])
      {
        TakeFront(clients, i);
        var found := adapterManager.FindById(clients[i].mac);
        if found.Some? {
          var routes := routeManager.FindRoutesForAdapter(found.value.guid);
          var nodes := AdvertisedNodes(routes);
          networkHandler.TransmitMulticast(found.value.mac, [Discovery(nodeId, nodes)]);
        }
      }
      TakeAll(clients);
      IsAnnounced(networkHandler.hash, nodeId, adapters, routeManager.table, clients, log);
    }

    /** The loop that turns the selected routes into listed nodes. */
    method AdvertisedNodes(routes: seq<Route>) returns (nodes: seq<Node>)
      ensures nodes == Network.Advertised(routes) && |nodes| == |routes|
      ensures forall k :: 0 <= k < |routes| ==>
        && nodes[k].identifier == routes[k].identifier.node.id && nodes[k].address == routes[k].identifier.node.address
        && nodes[k].jumps == routes[k].status.jumps
    {
      nodes := [];
      for k := 0 to |routes|
        invariant |nodes| == k
        invariant forall j :: 0 <= j < k ==> nodes[j] == Network.Advertised(routes)[j]
      {
        var id := routes[k].identifier.node;
        nodes := nodes + [Node(id.id, id.address, routes[k].status.jumps)];
      }
    }
  }

  // -------------------------------------------------------- what is announced

  /** The client's adapter is known, and the client that serves the adapter's MAC has a group. */
  ghost predicate Announces(adapters: AdapterTable, clients: seq<Client>, i: nat) {
    && i < |clients| && clients[i].mac in adapters
    && var j := FirstClient(clients, adapters[clients[i].mac].mac);
       j < |clients| && clients[j].multicast != 0
  }

  /** The announcing ones among the first n clients, in order. */
  ghost predicate AnnouncingClients(adapters: AdapterTable, clients: seq<Client>, n: nat, who: seq<nat>) {
    && (forall a, b :: 0 <= a < b < |who| ==> who[a] < who[b])
    && (forall i: nat :: i in who <==> i < n && Announces(adapters, clients, i))
  }

  /** One multicast per announcing client, in client order, listing the routes selected for its adapter's guid. */
  ghost predicate SentInOrder(hash: Digest, nodeId: Short, adapters: AdapterTable, table: Table, clients: seq<Client>,
                              n: nat, sent: seq<Datagram>, who: seq<nat>)
    requires n <= |clients|
  {
    && |sent| == |who| && AnnouncingClients(adapters, clients, n, who)
    && forall k :: 0 <= k < |who| ==> IsMulticast(hash, nodeId, adapters, table, clients, who[k], sent[k])
  }

  ghost predicate IsMulticast(hash: Digest, nodeId: Short, adapters: AdapterTable, table: Table, clients: seq<Client>,
                              i: nat, datagram: Datagram) {
    && Announces(adapters, clients, i)
    && var adapter := adapters[clients[i].mac];
       var nodes := Network.Advertised(FindRoutes(table, adapter.guid));
       && datagram.adapter == clients[FirstClient(clients, adapter.mac)].adapter && datagram.recipient == None
       && datagram.bytes == Transmitted(hash, [Discovery(nodeId, nodes)])
  }

  /** The log grew by exactly the multicasts of the announcing clients. */
  ghost predicate Announced(hash: Digest, nodeId: Short, adapters: AdapterTable, table: Table, clients: seq<Client>,
                            log: seq<Datagram>, sent: seq<Datagram>) {
    && log <= sent
    && exists who :: SentInOrder(hash, nodeId, adapters, table, clients, |clients|, sent[|log|..], who)
  }

  /** What one more client adds: its multicast, or nothing. */
  lemma AnnouncementsStep(hash: Digest, nodeId: Short, adapters: AdapterTable, table: Table, clients: seq<Client>,
                          i: nat)
    returns (added: seq<Datagram>)
    requires i < |clients|
    ensures Announcements(hash, nodeId, adapters, table, clients, clients[..i + 1]) ==
      Join(Announcements(hash, nodeId, adapters, table, clients, clients[..i]), added)
    ensures if Announces(adapters, clients, i)
      then |added| == 1 && IsMulticast(hash, nodeId, adapters, table, clients, i, added[0]) else added == []
  {
    hide FindRoutes, Network.Advertised, Transmitted;
    TakeFront(clients, i);
    var mac := clients[i].mac;
    added := if mac !in adapters then []
      else Multicast(hash, clients, adapters[mac].mac, DiscoveryFor(nodeId, table, adapters[mac].guid));
    JoinIsConcat(Announcements(hash, nodeId, adapters, table, clients, clients[..i]), added);
  }

  lemma OneMoreClient(adapters: AdapterTable, clients: seq<Client>, i: nat, who: seq<nat>)
    requires AnnouncingClients(adapters, clients, i, who)
    ensures AnnouncingClients(adapters, clients, i + 1, if Announces(adapters, clients, i) then who + [i] else who)
  {
    hide Announces;
    if Announces(adapters, clients, i) {
      var all := who + [i];
      assert forall a :: 0 <= a < |who| ==> all[a] == who[a] && who[a] in who;
      forall j: nat ensures j in all <==> j < i + 1 && Announces(adapters, clients, j) {
        assert j in all <==> j in who || j == i;
      }
    } else {
      forall j: nat ensures j in who <==> j < i + 1 && Announces(adapters, clients, j) {}
    }
  }

  lemma OneMoreSent(hash: Digest, nodeId: Short, adapters: AdapterTable, table: Table, clients: seq<Client>, i: nat,
                    sent: seq<Datagram>, who: seq<nat>, datagram: Datagram)
    requires i < |clients| && SentInOrder(hash, nodeId, adapters, table, clients, i, sent, who)
    requires IsMulticast(hash, nodeId, adapters, table, clients, i, datagram)
    ensures SentInOrder(hash, nodeId, adapters, table, clients, i + 1, sent + [datagram], who + [i])
  {
    OneMoreClient(adapters, clients, i, who);
    assert Announces(adapters, clients, i);
    hide Announces, IsMulticast, AnnouncingClients;
    var (all, whos) := (sent + [datagram], who + [i]);
    forall k | 0 <= k < |whos| ensures IsMulticast(hash, nodeId, adapters, table, clients, whos[k], all[k]) {
      assert if k < |who| then whos[k] == who[k] && all[k] == sent[k] else whos[k] == i && all[k] == datagram;
    }
  }

  lemma NoneSent(hash: Digest, nodeId: Short, adapters: AdapterTable, table: Table, clients: seq<Client>, i: nat,
                 sent: seq<Datagram>, who: seq<nat>)
    requires i < |clients| && SentInOrder(hash, nodeId, adapters, table, clients, i, sent, who)
    requires !Announces(adapters, clients, i)
    ensures SentInOrder(hash, nodeId, adapters, table, clients, i + 1, sent, who)
  {
    OneMoreClient(adapters, clients, i, who);
    hide Announces, IsMulticast, AnnouncingClients;
  }

  lemma {:induction false} AnnouncementsExact(hash: Digest, nodeId: Short, adapters: AdapterTable, table: Table,
                                              clients: seq<Client>, n: nat)
    returns (who: seq<nat>)
    requires n <= |clients|
    ensures SentInOrder(hash, nodeId, adapters, table, clients, n,
                        Announcements(hash, nodeId, adapters, table, clients, clients[..n]), who)
    decreases n
  {
    if n == 0 {
      who := [];
    } else {
      hide SentInOrder, Announces, IsMulticast, Announcements;
      var i := n - 1;
      var sent := Announcements(hash, nodeId, adapters, table, clients, clients[..i]);
      who := AnnouncementsExact(hash, nodeId, adapters, table, clients, i);
      var added := AnnouncementsStep(hash, nodeId, adapters, table, clients, i);
      if Announces(adapters, clients, i) {
        assert added == [added[0]];
        JoinIsConcat(sent, added);
        OneMoreSent(hash, nodeId, adapters, table, clients, i, sent, who, added[0]);
        who := who + [i];
      } else {
        NoneSent(hash, nodeId, adapters, table, clients, i, sent, who);
      }
    }
  }

  lemma IsAnnounced(hash: Digest, nodeId: Short, adapters: AdapterTable, table: Table, clients: seq<Client>,
                    log: seq<Datagram>)
    ensures Announced(hash, nodeId, adapters, table, clients, log,
                      log + Announcements(hash, nodeId, adapters, table, clients, clients))
  {
    var added := Announcements(hash, nodeId, adapters, table, clients, clients);
    var who := AnnouncementsExact(hash, nodeId, adapters, table, clients, |clients|);
    TakeAll(clients);
    hide Announcements, SentInOrder;
    assert (log + added)[|log|..] == added;
  }

  /** The clients are those of their adapters, one for each. */
  ghost predicate OneClientPerAdapter(adapters: AdapterTable, clients: seq<Client>) {
    && WellKeyed(adapters)
    && (forall i, j :: 0 <= i < j < |clients| ==> clients[i].mac != clients[j].mac)
    && (forall i :: 0 <= i < |clients| && clients[i].mac in adapters ==>
          && Network.HasClient(adapters[clients[i].mac])
          && clients[i].adapter == Network.ClientAddress(adapters[clients[i].mac]))
  }

  /**
  With one client per adapter, what is sent is the network model's announcement
  for each client with a known adapter and a group, in client order, and nothing
  else.
   */
  lemma AnnouncesForEachClient(hash: Digest, nodeId: Short, adapters: AdapterTable, table: Table, clients: seq<Client>)
    returns (who: seq<nat>)
    requires OneClientPerAdapter(adapters, clients)
    ensures var sent := Announcements(hash, nodeId, adapters, table, clients, clients);
      && |sent| == |who|
      && (forall a, b :: 0 <= a < b < |who| ==> who[a] < who[b])
      && (forall i: nat :: i in who <==> i < |clients| && clients[i].mac in adapters && clients[i].multicast != 0)
      && forall k :: 0 <= k < |who| ==>
           && who[k] < |clients| && clients[who[k]].mac in adapters && Network.HasClient(adapters[clients[who[k]].mac])
           && var packet := Network.Announcement(nodeId, adapters[clients[who[k]].mac], table);
              sent[k] == Datagram(packet.sender, None, Transmitted(hash, WirePacket(packet)))
  {
    who := AnnouncementsExact(hash, nodeId, adapters, table, clients, |clients|);
    TakeAll(clients);
    hide Announcements, FindRoutes, Network.Advertised, Transmitted;
    forall i: nat | i < |clients| && clients[i].mac in adapters
      ensures FirstClient(clients, adapters[clients[i].mac].mac) == i {}
    var sent := Announcements(hash, nodeId, adapters, table, clients, clients);
    forall k | 0 <= k < |who|
      ensures && who[k] < |clients| && clients[who[k]].mac in adapters
        && Network.HasClient(adapters[clients[who[k]].mac])
        && var packet := Network.Announcement(nodeId, adapters[clients[who[k]].mac], table);
           sent[k] == Datagram(packet.sender, None, Transmitted(hash, WirePacket(packet)))
    {
      assert IsMulticast(hash, nodeId, adapters, table, clients, who[k], sent[k]);
    }
  }

  // ---------------------------------------------------------------- end to end

  /** The packet an announcement puts on the wire. */
  function WirePacket(packet: Network.Packet): seq<Message> {
    [Discovery(packet.identifier, packet.nodes)]
  }

  /** With one client per adapter, the client of an adapter sends exactly that adapter's announcement. */
  lemma ClientSendsAnnouncement(hash: Digest, nodeId: Short, adapters: AdapterTable, table: Table,
                                clients: seq<Client>, i: nat)
    requires i < |clients| && clients[i].mac in adapters && WellKeyed(adapters)
    requires forall k :: 0 <= k < i ==> clients[k].mac != clients[i].mac
    requires clients[i].multicast != ANY_ADDRESS
    requires var adapter := adapters[clients[i].mac];
      Network.HasClient(adapter) && clients[i].adapter == Network.ClientAddress(adapter)
    ensures var adapter := adapters[clients[i].mac];
      var packet := Network.Announcement(nodeId, adapter, table);
      Multicast(hash, clients, adapter.mac, DiscoveryFor(nodeId, table, adapter.guid))
        == [Datagram(packet.sender, None, Transmitted(hash, WirePacket(packet)))]
  {
    hide FindRoutes, Network.Advertised, Transmitted;
  }

  /**
  An announcement that fits the receive capacity reaches a drained stream of
  the receiver and raises exactly one event, the one that makes the route
  manager take the network's deliver step; a larger one raises none.
   */
  lemma AnnouncementIsHeard(hash: Digest, packet: Network.Packet, s': StreamState, receiver: Address, group: Address,
                            now: Time, adapters: AdapterTable, m: Manager)
    requires Received(StreamState([], RECEIVE_SIZE), Transmitted(hash, WirePacket(packet)), s')
    ensures var info := InfoOf(StreamId(packet.sender, group), receiver, now);
      var events := PacketEvents(Process(hash, s'.bytes).0, info);
      if PacketSize(WirePacket(packet)) <= RECEIVE_SIZE then
        && events == [DiscoveryReceived(packet.identifier, packet.nodes, info)]
        && Step(adapters, m, Heard(packet.identifier, packet.nodes, info))
             == Step(adapters, m, Network.Arrival(packet, receiver, now))
      else events == []
  {
    var info := InfoOf(StreamId(packet.sender, group), receiver, now);
    TransmittedArrives(hash, WirePacket(packet), s');
    hide Transmitted, Process, PacketSize, Received;
    if PacketSize(WirePacket(packet)) <= RECEIVE_SIZE {
      var packets := [WirePacket(packet)];
      assert packets[..0] == [] && PacketEvents(packets, info) == MessageEvents(WirePacket(packet), info);
      ReceiverIsIgnored(adapters, m, packet, info, Network.Arrival(packet, receiver, now).info);
    }
  }

  /** Processing a discovery message never looks at the receiver field. */
  lemma ReceiverIsIgnored(adapters: AdapterTable, m: Manager, packet: Network.Packet, a: NetworkInfo, b: NetworkInfo)
    requires a == b.(receiver := a.receiver)
    ensures Step(adapters, m, Heard(packet.identifier, packet.nodes, a))
         == Step(adapters, m, Heard(packet.identifier, packet.nodes, b))
  {
    var found := FindByAddress(adapters, a.adapter);
    hide FindByAddress, ProcessRoute;
    if found.Some? {
      var direct := ProcessRoute(m, found.value, a.receptionTime, SenderId(packet.identifier, a), [DIRECT_JUMP]);
      NodesIgnoreReceiver(direct, found.value, packet.nodes, a, b);
    }
  }

  lemma {:induction false} NodesIgnoreReceiver(m: Manager, adapter: Adapter, nodes: seq<Node>,
                                               a: NetworkInfo, b: NetworkInfo)
    requires a == b.(receiver := a.receiver)
    ensures ProcessNodes(m, adapter, a, nodes) == ProcessNodes(m, adapter, b, nodes)
    decreases |nodes|
  {
    hide ProcessRoute;
    if nodes != [] {
      NodesIgnoreReceiver(
        ProcessRoute(m, adapter, a.receptionTime, IndirectId(nodes[0], a), [DIRECT_JUMP] + nodes[0].jumps),
        adapter, nodes[1..], a, b);
    }
  }
}
