# discnet, modelled and proved in Dafny

discnet is a node-discovery protocol. Every node multicasts "discovery" packets on each of its adapters, reassembles
what it hears per sender, keeps a soft-state table of routes, and re-advertises the routes of one adapter on the others.
This project models the three layers of the protocol and proves what each of them promises to the next.

* **Wire layer.** `Bytes`, `Buffer`, `Messages` (the format as functions on byte sequences), `PacketCodec` (the codecs as
  loops over a cursor buffer), `DataStream` (incremental reassembly), `DataHandler` (one stream per sender and recipient),
  `NetworkHandler` (transmission and event dispatch).
* **Route layer.** `AdapterManager`, `Routes` (the table as a value), `RouteManager` (the class over it), `RouteHistory`
  (runs of one node), `RouteModel` (an observer fed by events), `Transmission` (the 20-second announcements).
* **Network layer.** `Network` (send, deliver, drop and tick steps over a topology), `NetworkBounds`, `Walks`, `Traces`,
  `Convergence` (discovery finds every route), `Cycles`, `Expiry`, `Schedules` and `Forgetting` (when a silent node is
  forgotten), `AnnouncementSizes`, `TwoLans` (a network that does not forget), `Liveness`, and `Traffic`, the
  simulator's nodes and routers.

Each class has the source's fields; its methods are proved against functions on values, and the lemmas are about those
functions. `dafny verify dfyconfig.toml` checks everything.

How the source is read:

* The checksum is an arbitrary function from bytes to a 32-bit word, of which only one fact about MD5 is used: the last
  word of the digest of the empty string (RFC 1321, section A.5) exceeds 4.
* Integers on the wire are big-endian; `ToBytes(n, v)` keeps the low n bytes, so the casts to 16 and 32 bits truncate as in
  the source. Sizes are unsigned 64-bit, the framing read is sign-extended, and the jump sum wraps at 32 bits (in C++ that
  overflow is undefined).
* `std::map` is a map walked in ascending key order. A network topology takes one client per enabled, addressed,
  non-loopback adapter, bound to its first address.
* Time is an integer number of nanoseconds, supplied by the caller. Locked methods are atomic steps.

Where the code departs from what its names, comments or constants suggest, the code is modelled and the exact condition
is proved:

* A data message reads back only if at least one byte follows it (`DecodeEncodeData`); in a packet the checksum does.
* The transmit buffer holds 4096 bytes, the receive stream 4095: a packet of exactly 4096 bytes is sent and always lost on
  a drained stream of the initial capacity, and one that does not encode is sent as an empty datagram
  (`TransmittedArrives`).
* Overfilling a stream puts zero bytes in front of its content and loses all of it (`OverfullLosesAll`).
* A packet that passes its checksum and then fails to decode leaves as many zero bytes behind as were unread at the
  failure. The next packet is delivered iff there are none (`NextAfterBadDecode`): always for packets below 1280 bytes
  and after four or more unread bytes, and otherwise unless the frame that one to three zero bytes shift passes its
  checksum by chance. Concrete packets leave four (`CommandPacketLosesNext`), three (`OverlongDataLosesNext`) and no
  bytes (`OverlongNodeKeepsNext`).
* A change of `m_loopback` alone is noticed but never stored: after any update the entry of a MAC is its last fetched
  adapter in full iff that does not differ in `m_loopback` alone from the entry in front of it (`LoopbackChangeIsLost`,
  `SingleLoopbackChangeIsLost`).
* The selection compares routes with the same identifier, and with a fixed adapter table no two stored routes share one:
  it returns every online route of the other adapters and never keeps only the shortest one to a node
  (`NothingIsDisplaced`).
* A node that falls silent is not always forgotten. With as many epochs of silence as there are links, or more, every run
  ends with all routes to it offline iff no cycle that never enters its address leads to it (`SilentNodeIsForgotten`).
  Around such a cycle the routes outlive any number of epochs in a run built from the start of the network
  (`LingeringRun`), whose nodes announce on all clients once a minute; two nodes that share two LANs with a third on one
  of them are a concrete case, small enough for every announcement to be heard (`LansNeverForget`).
* The branch of the transmission timer for a clock that moved forward is unreachable (`TransmissionHandler.Update`), as are
  both not-found branches of `process_persistent_route` (`RouteManager.StorePersistent`).
* `add_router` answers false in every case; linking an adapter that is already linked elsewhere leaves a stale
  participant (`AddLinkExact`).

## Model

| member | source | states |
|---|---|---|
| Buffers.Buffer.constructor | discnet/src/network/buffer.cpp:10-14 | a fresh buffer is empty and zero-filled |
| Buffers.Buffer.Read | discnet/src/network/buffer.cpp:111-128 | an integer that is fully unread is consumed; otherwise 0 and no movement; cursors stay ordered |
| Buffers.Buffer.ReadBuffer | discnet/src/network/buffer.cpp:146-163 | a span is returned only if strictly more bytes are unread |
| Buffers.Buffer.Append | discnet/src/network/buffer.cpp:130-144 | succeeds iff the bytes fit; adds exactly the big-endian bytes; a failure changes nothing |
| Buffers.Buffer.AppendSpan | discnet/src/network/buffer.cpp:165-178 | succeeds iff the span fits; adds exactly the span; a failure changes nothing |
| Buffers.Buffer.ResetRead | discnet/src/network/buffer.cpp:187-190 | everything written is unread again |
| Buffers.Buffer.ResetWrite | discnet/src/network/buffer.cpp:180-185 | nothing written, all bytes zero |
| Buffers.Buffer.Resize | discnet/src/network/buffer.cpp:192-197 | both cursors restart, old bytes stay in place, new room is zero |
| Buffers.ReadBuffer.Read | discnet/src/network/read_buffer.cpp:85-102 | value and next offset of an integer read |
| Buffers.ReadBuffer.ReadBuffer | discnet/src/network/read_buffer.cpp:61-78 | span and next offset of a span read |
| Buffers.ReaderReplacesBuffer | discnet/src/network/read_buffer.cpp:10-102 | for every sequence of reads and resets the non-copying reader gives the same values, spans and remaining counts as the buffer |
| Bytes.FromToBytes | include/discnet/typedefs.hpp:61-71 | writing an integer that fits and reading it back is the identity |
| Messages.ReadQuad | include/discnet/typedefs.hpp:61-71 | integers on the wire are big-endian, byte by byte |
| Messages.DecodeEncodeNode | discnet/src/network/messages/discovery_message.cpp:38-79 | a listed node with its jumps reads back, whatever follows, and is consumed exactly |
| Messages.DecodeEncodeDiscovery | discnet/src/network/messages/discovery_message.cpp:24-82 | a discovery message reads back through both nested loops |
| Messages.DecodeEncodeData | discnet/src/network/messages/data_message.cpp:16-48 | a data message reads back iff it is empty or a byte follows it; otherwise its content is dropped and left unread |
| Messages.DecodeEncodeMessages | discnet/src/network/messages/packet.cpp:124-188 | a message list reads back in order in front of a checksum |
| Messages.EncodedIsValid | discnet/src/network/messages/packet.cpp:42-80 | every encoded packet below 4 GiB passes validation, whatever follows it |
| Messages.DecodeEncodePacket | discnet/src/network/messages/packet.cpp:42-188 | decoding an encoded packet returns the same messages and leaves exactly the trailing bytes |
| Messages.DecodedMessagesFit | discnet/src/network/messages/packet.cpp:138-182 | whatever decodes has counts below 65536 |
| Messages.DecodeEncodeExact | discnet/src/network/messages/packet.cpp:42-188 | below 4 GiB the round trip holds iff every count and length fits 16 bits |
| Messages.SmallPacketFits | discnet/src/network/network_handler.cpp:64-74 | a packet below 64 KiB, so any packet of the transmit buffer, truncates no field |
| Messages.PacketLayout | discnet/src/network/messages/packet.cpp:82-122 | below 4 GiB: the size field is the length of the packet, then the message count, the messages, and the checksum of everything before it |
| Messages.MessageLayout | discnet/src/network/messages/header.cpp:14-25 | below 4 GiB: the size field is the length of the message itself, the type 1 for a discovery and 2 for data, then identifier, count and content |
| Messages.NodeLayout | discnet/src/network/messages/discovery_message.cpp:38-47 | a listed node has its identifier at byte 0, its address at 2, the jump count at 6 and jump k at 8 + 2k |
| Messages.ValidIff | discnet/src/network/messages/packet.cpp:42-80 | for bytes of any kind: too few for the declared size, a good checksum behind at least one byte, or a checksum failure |
| Messages.MessageFailures | discnet/src/network/messages/packet.cpp:138-182 | a message fails for a missing header, an unknown type or a missing body, in that order, and leaves what it then leaves; in no other case |
| Messages.JumpsAt | discnet/src/network/messages/discovery_message.cpp:71-76 | jumps beyond the end of the bytes read as 0, and an odd last byte stays unread |
| PacketCodec.EncodedDiscoverySize | discnet/src/network/messages/discovery_message.cpp:9-22 | the size summed up front is the length of the encoding |
| PacketCodec.EncodedDataSize | discnet/src/network/messages/data_message.cpp:9-14 | the size computed up front is the length of the encoding |
| PacketCodec.EncodeHeader | discnet/src/network/messages/header.cpp:14-25 | writes size and type iff six bytes are free |
| PacketCodec.DecodeHeader | discnet/src/network/messages/header.cpp:27-37 | fails without moving iff fewer than six bytes are unread |
| PacketCodec.EncodeDiscoveryMessage | discnet/src/network/messages/discovery_message.cpp:24-50 | all or nothing: the exact encoding iff it fits, otherwise an untouched buffer |
| PacketCodec.EncodeDataMessage | discnet/src/network/messages/data_message.cpp:16-31 | all or nothing: the exact encoding iff it fits, otherwise an untouched buffer |
| PacketCodec.AppendMessages | discnet/src/network/messages/packet.cpp:102-109 | an inner encode fails iff the messages do not all fit |
| PacketCodec.Encode | discnet/src/network/messages/packet.cpp:82-122 | succeeds iff the packet fits; no inner failure after the size check; writes exactly the packet into a fresh buffer, or nothing |
| PacketCodec.DecodeDiscoveryMessage | discnet/src/network/messages/discovery_message.cpp:52-82 | result and cursor on arbitrary bytes, including reads past the end |
| PacketCodec.DecodeDataMessage | discnet/src/network/messages/data_message.cpp:33-48 | result and cursor on arbitrary bytes |
| PacketCodec.Validate | discnet/src/network/messages/packet.cpp:42-80 | the error, or none, and the bytes left unread, for arbitrary bytes, declared sizes below 4 included |
| PacketCodec.Decode | discnet/src/network/messages/packet.cpp:124-188 | result and cursor on arbitrary bytes; terminates and stays in bounds |
| DataStreams.DataStream.HandleReceive | discnet/src/network/data_stream.cpp:99-115 | within capacity the chunk is appended; beyond it zeros go in front of the old content |
| DataStreams.DataStream.ProcessOnce | discnet/src/network/data_stream.cpp:38-93 | one iteration on arbitrary bytes: packet, remaining bytes, whether to go on |
| DataStreams.DataStream.ProcessStream | discnet/src/network/data_stream.cpp:30-97 | the loop ends on all bytes, with the packets and remainder of `Process` |
| DataStreams.WholePacketStep | discnet/src/network/data_stream.cpp:44-82 | a whole packet at the front is cut off exactly |
| DataStreams.PartialPacketStep | discnet/src/network/data_stream.cpp:83-93 | a proper prefix of a packet is kept and waits |
| DataStreams.ProcessPrefix | discnet/src/network/data_stream.cpp:30-97 | on any prefix of a packet stream one call delivers the whole packets in it and keeps the rest |
| DataStreams.Reassembly | discnet/src/network/data_stream.cpp:30-115 | any chunking and any interleaving of process calls ending in one delivers exactly the original packets in order and ends empty |
| DataStreams.ProcessEnding | discnet/src/network/data_stream.cpp:51-81 | what any call on any bytes leaves: an incomplete packet, nothing, or zeros for a packet that failed after its checksum |
| DataStreams.EmptiesIff | discnet/src/network/data_stream.cpp:51-81 | a call on any bytes leaves the stream empty after a checksum failure, after a success, or after a decode failure with nothing unread, and in no other case with a whole frame |
| DataStreams.Recovery | discnet/src/network/data_stream.cpp:51-75 | after any call that left the stream empty every packet received from then on is delivered as by a fresh stream |
| DataStreams.ZerosSwallow | discnet/src/network/data_stream.cpp:43-60 | four leading zero bytes lose everything behind them |
| DataStreams.NextAfterBadDecode | discnet/src/network/data_stream.cpp:43-81 | after a decode failure behind a good checksum the next packet is delivered iff nothing was left unread, and else lost: for every packet below 1280 bytes, after every four or more unread bytes, and otherwise unless the shifted frame passes its checksum |
| DataStreams.BadDecodeLosesNext | discnet/src/network/data_stream.cpp:55-81 | with four or more bytes unread any next delivery is lost, whole packet or not |
| DataStreams.CommandPacketLosesNext | discnet/src/network/messages/packet.cpp:179-181 | for every checksum function, one message of the unknown type 3 leaves four bytes and loses the next packet |
| DataStreams.OverlongDataLosesNext | discnet/src/network/messages/data_message.cpp:33-48 | for every checksum function, a data length one too large leaves three bytes and loses the next packet below 1280 bytes |
| DataStreams.OverlongNodeKeepsNext | discnet/src/network/messages/discovery_message.cpp:52-82 | for every checksum function, two jumps too many leave nothing, and the next packet arrives |
| DataStreams.OverfullLosesAll | discnet/src/network/data_stream.cpp:103-113 | a chunk beyond the capacity loses itself and all buffered bytes |
| DataStreams.DatagramDelivered | discnet/src/network/data_stream.cpp:99-115 | a packet in one datagram reaches a fresh stream iff it fits the capacity |
| DataStreams.CompleteIff | discnet/src/network/data_stream.cpp:43-47 | a stream waits until ten bytes and the declared size are there; a size of 2 GiB or more never is |
| DataStreams.OverfullLayout | discnet/src/network/data_stream.cpp:99-113 | an overfilled vector is twice the needed number of zeros and then everything buffered |
| DataHandlers.DataHandler.HandleReceive | discnet/src/network/data_handler.cpp:31-50 | only the stream of the pair changes; a missing one is created empty |
| DataHandlers.DataHandler.ProcessStreams | discnet/src/network/data_handler.cpp:16-29 | one entry per stream in key order, each with its own packets; every stream is drained |
| DataHandlers.CollectedInOrder | discnet/src/network/data_handler.cpp:16-29 | streams are collected once each, by sender and then by recipient |
| DataHandlers.PairsAreIndependent | discnet/src/network/data_handler.cpp:16-50 | in any interleaving a pair's packets are those of its own chunks alone, even while other pairs overflow |
| DataHandlers.InterleavedReassembly | discnet/src/network/data_handler.cpp:16-50 | so each pair's original packets come out, whole and in order |
| NetworkHandlers.DispatchStreams | discnet/src/network/network_handler.cpp:125-154 | the events of a collection of streams, the reused record always set for the stream at hand |
| NetworkHandlers.EventsOfStream | discnet/src/network/network_handler.cpp:132-152 | of what one `process` call collects, the events for a pair on an adapter are those of the packets its own stream yields, in order; none for a pair without a stream |
| NetworkHandlers.EventsByClient | discnet/src/network/network_handler.cpp:125-154 | the events of an update come client by client, in the order of the clients |
| NetworkHandlers.OneEventPerMessage | discnet/src/network/network_handler.cpp:139-151 | the events of a list of packets carry exactly their messages, in order |
| NetworkHandlers.RunRaisesMessages | discnet/src/network/network_handler.cpp:125-154 | in any run of chunks on any adapters for any pairs and of updates, the events raised for a pair carry exactly the messages its own stream delivers, in order |
| NetworkHandlers.RunRaisesPackets | discnet/src/network/network_handler.cpp:125-154 | so packets in any chunks amid any other traffic raise one event for each of their messages, in order, once an update has followed |
| NetworkHandlers.NetworkHandler.Update | discnet/src/network/network_handler.cpp:125-154 | every stream of every client is drained once and its events raised in order |
| NetworkHandlers.NetworkHandler.TransmitMulticast | discnet/src/network/network_handler.cpp:53-75 | nothing without a client or a group; otherwise the packet, or an empty datagram when it does not encode |
| NetworkHandlers.NetworkHandler.TransmitUnicast | discnet/src/network/network_handler.cpp:77-99 | the same towards one recipient, whatever the group |
| NetworkHandlers.TransmittedArrives | discnet/src/network/network_handler.cpp:64-74 | what is transmitted comes out of a drained stream of the standard capacity iff it is smaller than the transmit buffer |
| AdapterManagers.AdapterDiff | discnet/src/adapter_manager.cpp:89-125 | no change is reported iff the adapters agree on everything but `m_loopback` |
| AdapterManagers.DiffLists | discnet/src/adapter_manager.cpp:89-125 | the change list names a field iff the adapters differ in it |
| AdapterManagers.AdapterManager.UpdateAdapters | discnet/src/adapter_manager.cpp:134-199 | keys are the fetched MACs, entries follow the last fetched adapter, and the events replay the old table into the new one |
| AdapterManagers.UpdateFollowsFetch | discnet/src/adapter_manager.cpp:134-199 | the same for every table and every fetched list, duplicates included, each event legal when it fires |
| AdapterManagers.EventsInOrder | discnet/src/adapter_manager.cpp:134-199 | the new and changed adapters are raised as they stand in the fetched list, and then the removed ones by key |
| AdapterManagers.LoopbackChangeIsLost | discnet/src/adapter_manager.cpp:145-160 | for every fetched list, the last adapter of a MAC is stored in full iff it does not differ in `m_loopback` alone from the entry in front of it |
| AdapterManagers.SingleLoopbackChangeIsLost | discnet/src/adapter_manager.cpp:145-160 | for a MAC fetched once, iff it does not differ in `m_loopback` alone from the old table's entry |
| AdapterManagers.AdapterManager.FindAdapter | discnet/src/adapter_manager.cpp:212-225 | finds by address through the entries in key order |
| AdapterManagers.FindByAddressFinds | discnet/src/adapter_manager.cpp:212-225 | an address is found iff some adapter carries it, and then at the least such key |
| AdapterManagers.FindByAddressAnywhere | discnet/src/adapter_manager.cpp:212-225 | the same told by positions: an address counts wherever it stands in an address list |
| Routes.CostIsWrappedSum | discnet/src/route.cpp:12-17 | a cost is a signed 32-bit integer, a whole number of wraps away from the true sum |
| Routes.CostIsSum | discnet/src/route.cpp:12-17 | up to 32768 jumps the 32-bit sum is the true sum |
| Routes.UpdateRefreshesAll | discnet/src/route_manager.cpp:19-51 | a tick sets every online flag to what the timeout says and changes nothing else |
| Routes.OnlineExact | discnet/src/route.cpp:19-34 | a route is online iff it is persistent or was heard of, by either kind of message, less than 90 seconds ago |
| Routes.TickTellsChanges | discnet/src/route_manager.cpp:19-51 | told from the two tables alone: a tick raises one event for each route whose online flag changed, with the new entry and the old flag, in key order, and no other event |
| Routes.FindRoutesSelects | discnet/src/route_manager.cpp:165-198 | one route for each identifier with an online route on another adapter, none from the outbound adapter only, and none costlier than a candidate |
| Routes.ShorterMovesBehind | discnet/src/route_manager.cpp:176-194 | a strictly shorter route leaves the longer one's place and goes behind all others; at equal length the earlier one stays |
| RouteManagers.RouteManager.Update | discnet/src/route_manager.cpp:19-51 | every route refreshed, lists otherwise unchanged, one event for each changed flag, with the new entry and the old flag, and no other event |
| RouteManagers.RouteManager.ProcessDiscoveryMessage | discnet/src/route_manager.cpp:53-81 | unknown adapters change nothing; otherwise sender and listed nodes are processed in order |
| RouteManagers.RouteManager.ProcessPersistentRoute | discnet/src/route_manager.cpp:83-118 | the route is stored and its persistent flag set |
| RouteManagers.RouteManager.StorePersistent | discnet/src/route_manager.cpp:100-114 | neither lookup after storing can fail |
| RouteManagers.RouteManager.ProcessRouteMethod | discnet/src/route_manager.cpp:120-163 | a new route is appended and announced; a known one only gets a new discovery time |
| RouteManagers.RouteIsStored | discnet/src/route_manager.cpp:120-163 | after processing, the route is found in the list of its adapter |
| RouteManagers.RouteManager.FindRoutesForAdapter | discnet/src/route_manager.cpp:165-198 | split horizon and cheapest route per identifier, as in `FindRoutesSelects` |
| RouteHistory.HeardNames | discnet/src/route_manager.cpp:53-81 | what a message names, field by field: its sender at one jump of 256, then the listed nodes in order, each with 256 in front of its jumps; nothing on an unknown adapter |
| RouteHistory.RunReflects | discnet/src/route_manager.cpp:53-163 | in every reachable table an entry is the summary of its naming history |
| RouteHistory.StoredIffNamed | discnet/src/route_manager.cpp:53-163 | a route is stored iff some processed message named it on a known adapter |
| RouteHistory.StoredOnce | discnet/src/route_manager.cpp:120-163 | identifiers are unique across all lists |
| RouteHistory.AnnouncedOnce | discnet/src/route_manager.cpp:120-163 | in every run a route is announced as new once if some processed message named it, and never otherwise |
| RouteHistory.ProcessedIffKnown | discnet/src/route_manager.cpp:53-118 | both kinds of messages report success iff some adapter carries the address |
| RouteHistory.EntryAfterPersist | discnet/src/route_manager.cpp:83-118 | the entry after a persistent-route message: the metric as its only jump if the route is new, and else the new discovery time and flag |
| RouteHistory.RunKeepsMtu | discnet/src/route_manager.cpp:120-148 | in every reachable table a route has the mtu of the adapter it is stored for and is not silent |
| RouteHistory.NothingIsDisplaced | discnet/src/route_manager.cpp:165-198 | on every reachable table the selection is all online routes of the other lists, in key order; no comparison of lengths ever happens |
| RouteHistory.StoredAfterUpdate | discnet/src/route_manager.cpp:19-163 | after an update: jumps of the first naming, online iff persistent or last named less than 90 seconds ago |
| RouteHistory.EntryAfterUpdate | discnet/src/route_manager.cpp:19-163 | the same for any route on a known adapter, stored or not |
| RouteHistory.PersistentStaysOnline | discnet/src/route_manager.cpp:83-118 | an enabled persistent route is online after every later update until a disabling message names it |
| RouteModels.RouteModel.Update | discnet_sim/src/models/RouteModel.cpp:91-112 | the row of the identifier is overwritten, or a row appended |
| RouteModels.ObserverMirrorsTable | discnet_sim/src/simulator/node.cpp:59-60 | in every reachable state the observer has one row per stored route with its identifier, jumps and online flag |
| Transmissions.TransmissionHandler.Update | discnet/src/transmission_handler.cpp:22-40 | announces iff more than 20 seconds have passed, exactly the announcements below; the second test never fires |
| Transmissions.TransmissionHandler.TransmitDiscoveryMessage | discnet/src/transmission_handler.cpp:42-64 | one multicast, in client order, for each client whose adapter is known and whose MAC is served by a client with a group, listing the routes selected for the guid of the adapter; nothing else |
| Transmissions.AnnouncesForEachClient | discnet/src/transmission_handler.cpp:42-64 | with one client per adapter: exactly the announcement of the network model for each client with a known adapter and a group, in client order |
| Transmissions.ClientSendsAnnouncement | discnet/src/transmission_handler.cpp:42-64 | a client sends exactly the announcement the network model sends for its adapter |
| Transmissions.AnnouncementIsHeard | discnet/src/network/network_handler.cpp:125-154 | an announcement that fits raises one event at the receiver, the network model's deliver step; a larger one raises none |
| Network.ExtendWalk | discnet/src/route_manager.cpp:64-78 | prefixing the direct jump prefixes the receiving hop to the walk |
| Network.SelectedAvoidsSender | discnet/src/route_manager.cpp:165-198 | a route selected for an adapter never starts on that adapter |
| Network.ReachableIsSound | discnet/src/transmission_handler.cpp:42-64 | in every reachable network state each route's jumps are all 256 and count the hops of a real walk through its reporter to the owner of its id and address, never turning back on an adapter |
| NetworkBounds.TablesAreBounded | discnet/src/route_manager.cpp:120-163 | however long the network runs, a table holds at most adapters times (own adapter, neighbour) pairs |
| NetworkBounds.JumpListsAreBounded | discnet/src/route_manager.cpp:70-77 | jump lists never exceed adapters times links, so below 32768 the route comparison never overflows |
| Walks.ShortWalk | discnet/src/route_manager.cpp:165-198 | every walk that never turns back can be cut to at most as many hops as there are links, with the same first hop and end |
| Walks.RepeatIsCycle | discnet/src/route_manager.cpp:165-198 | a walk that takes a hop twice goes around a cycle |
| Walks.RepeatLingers | discnet/src/route_manager.cpp:165-198 | if it enters the address it leads to only at its end, so that the cycle never enters it, routes can linger there |
| Traces.HeardEntry | discnet/src/route_manager.cpp:53-81 | a message keeps a known route known, makes the routes it names known, online or not, and leaves every other entry alone |
| Traces.CrossingMakesKnown | discnet/src/route_manager.cpp:53-81 | what an announcement names when it leaves is known at the other end of the link after its delivery, and still online if it was |
| Convergence.WalkIsHeld | discnet/src/transmission_handler.cpp:42-64 | after r rounds, only consecutive ones tied in time, the route of every walk of at most r hops is online and heard of in the last round |
| Convergence.WalkStaysOnline | discnet/src/route.cpp:19-34 | and it is online in every state from then on while rounds go on, whatever is lost, delayed or repeated within them |
| Convergence.DiscoveryIsComplete | discnet/src/transmission_handler.cpp:42-64 | after as many rounds as there are links, and whatever follows, a node stores a route iff a walk that never turns back leads through its adapter and reporter to its node; while rounds go on it is online |
| Cycles.CycleKeepsRoutesOnline | discnet/src/route.cpp:19-34 | around a cycle every route to a node stays online lap after lap, however late, whether or not that node is ever heard again |
| Expiry.NothingNames | discnet/src/transmission_handler.cpp:53-59 | once the shorter routes to a silent node are offline and their last announcements delivered, nothing names a longer one again |
| Expiry.SilentNodeExpires | discnet/src/route_manager.cpp:19-51 | after r epochs of silence all routes to a node that no walk of more than r hops stands for, entering its address at its end only, are offline everywhere, for good |
| Expiry.ForgottenUnlessLingering | discnet/src/route.cpp:19-34 | where no cycle leads to the node without entering its address, all routes to it are offline after as many epochs as there are links |
| Schedules.ExtendByRound | discnet_app/src/application.cpp:53-59 | any run can go on with one more round of the update loop: all clocks tick, everyone announces, the chosen links deliver, all clocks tick |
| Forgetting.LingeringRun | discnet/src/transmission_handler.cpp:42-64 | where such a cycle exists, a run from the start of the network has any number of epochs of silence and still holds every route of the cycle to the silent node |
| Forgetting.SilentNodeIsForgotten | discnet/src/route_manager.cpp:19-51 | with as many epochs as there are links or more, every run ends with all routes to the silent node offline iff no such cycle exists |
| AnnouncementSizes.EveryAnnouncementFits | discnet/src/network/network_handler.cpp:64-74 | in every run each announcement in flight is below a size that adapters and links decide |
| AnnouncementSizes.HeardLingeringRun | discnet/src/network/network_handler.cpp:64-74 | where that size fits the receive capacity, no announcement in a run that outlives the silence is too large to be heard |
| TwoLans.LansNeverForget | discnet/src/transmission_handler.cpp:42-64 | a concrete network: for any number of epochs a run in which two nodes on two LANs still hold a silent third's routes, with no announcement too large to be heard |
| Liveness.SendsKeepPace | discnet/src/transmission_handler.cpp:22-40 | consecutive announcements are more than 20 seconds apart, and at most one tick more |
| Liveness.DirectRouteStaysOnline | discnet/src/route.cpp:19-34 | with (k+1)(20 s+d)+delay below 90 s a direct route heard once is online after every update despite k losses in a row |
| Liveness.ThreeLossesTolerated | discnet/src/route.cpp:19-34 | three losses in a row are tolerated when 4d+delay is below 10 seconds |
| Traffic.NetworkRouter.AddParticipant | discnet_sim/src/simulator/network_router.cpp:17-20 | an existing participant keeps its client |
| Traffic.NetworkRouter.SendData | discnet_sim/src/simulator/network_router.cpp:27-41 | fan-out to all participants but the sender |
| Traffic.TrafficManager.AddNodeEntry | discnet_sim/src/simulator/network_traffic_manager.cpp:59-72 | an unlinked entry stands last in the list of the node; nothing else changes |
| Traffic.TrafficManager.RemoveNodeEntries | discnet_sim/src/simulator/network_traffic_manager.cpp:74-93 | the node is gone and on no router its entries named; every other node and participant is as before |
| Traffic.TrafficManager.AddNewRouter | discnet_sim/src/simulator/network_traffic_manager.cpp:95-104 | the router is there, empty if it is new; the answer is always false |
| Traffic.TrafficManager.RemoveRouterAndLinks | discnet_sim/src/simulator/network_traffic_manager.cpp:106-120 | the router is gone and no entry names it; every other link and participant is as before |
| Traffic.TrafficManager.LinkAdapter | discnet_sim/src/simulator/network_traffic_manager.cpp:122-140 | if node, router and entry exist, the first entry of the adapter names the router and its client participates unless the node already did; otherwise nothing changes |
| Traffic.TrafficManager.UnlinkAdapter | discnet_sim/src/simulator/network_traffic_manager.cpp:142-167 | the first entry of the adapter names no router, and the node left the one it named; every other link and participant is as before |
| Traffic.TrafficManager.SendData | discnet_sim/src/simulator/network_traffic_manager.cpp:21-52 | the fan-outs of all entries bound to the sending address |
| Traffic.AddLinkExact | discnet_sim/src/simulator/network_traffic_manager.cpp:122-140 | linking keeps the maps consistent iff the adapter is on this router or on none while its node has no other adapter there |
| Traffic.AddLinkEffect | discnet_sim/src/simulator/network_traffic_manager.cpp:122-140 | what linking does to links and participants, for every state |
| Traffic.RemoveLinkEffect | discnet_sim/src/simulator/network_traffic_manager.cpp:142-167 | what unlinking does to links and participants, for every state |
| Traffic.RemoveNodeEffect | discnet_sim/src/simulator/network_traffic_manager.cpp:74-93 | what removing a node does to links and participants, for every state |
| Traffic.RemoveRouterEffect | discnet_sim/src/simulator/network_traffic_manager.cpp:106-120 | what removing a router does to links and participants, for every state |
| Traffic.RunsStayConsistent | discnet_sim/src/simulator/network_traffic_manager.cpp:59-167 | in every legal run participants are exactly the entries naming the router and no entry names a missing router |
| Traffic.MulticastReachesNeighbours | discnet_sim/src/simulator/network_router.cpp:27-41 | a multicast reaches every other node on the router exactly once, and nobody else |
| Traffic.DataSentReaches | discnet_sim/src/simulator/network_traffic_manager.cpp:21-52 | in every state a delivery is made iff some entry of the node with the sending address names a router on which another node has that client |

## Left out

- Sockets, threads and mutexes: a locked method is one step, and a datagram is a chunk handed to a stream.
- Starting, retrying and closing clients, and the adapter events that trigger it: a network handler starts from an established client list.
- Adapter fetchers: a fetch is an arbitrary adapter list.
- MD5 and SHA-256, logging, string formatting, configuration and the user interface other than the route model's rows.
- `transmission_handler::get_messages_for_adapter` and its queue: never called and never filled.
- `is_direct_node`, `contains`, `find_routes_on_adapter` and `adapters()`: one-line lookups.
- The discovery message handler and the discovery data handler: a forwarding wrapper and a stub.
- Receive and creation timestamps of a stream, router latency and drop rate: stored and never read.
- Unicast in the simulator: not implemented there.
- DataStreams.Reassembly: for runs within the constructed capacity; beyond it `OverfullLosesAll` says what happens to the bytes, and the capacity after growth is any value the library may choose.
- RouteHistory.RunReflects: for a fixed adapter table; routes of an adapter that is removed or renumbered stay in the table in the source as well.
- DataStreams.NextAfterBadDecode: for a packet of 1280 bytes or more behind one to three leftover zero bytes, a shifted frame that passes its checksum by chance is excluded; what it decodes to depends on the hash.
- Forgetting.LingeringRun: it delivers announcements of any size; `HeardLingeringRun` is the run for networks whose announcements stay within the receive capacity.
- Network.ReachableIsSound: without persistent-route messages, whose metric is arbitrary.
- Liveness.DirectRouteStaysOnline: an announcement too large for the receiver counts as lost.
