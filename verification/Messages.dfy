/**
The wire format: messages, the bytes they become, and what a decoder makes of
arbitrary bytes.

Encoders map a value to bytes. Decoders map the unread bytes to a result and
the bytes still unread afterwards, with the silent failures of the buffer's
reads. `DecodeEncodePacket` is the round trip; `DecodeEncodeExact` says
when it holds.
 */
module Messages {
  import opened Bytes
  import opened Buffers
  import opened Sequences

  datatype Node = Node(identifier: Short, address: Word, jumps: seq<Short>)

  datatype Message =
    | Discovery(identifier: Short, nodes: seq<Node>)
    | Data(identifier: Short, buffer: seq<Byte>)

  datatype Error =
    | HeaderMissing | DataMissing | ChecksumFailed
    | MessageHeaderMissing | UnknownType(kind: nat) | MessageTooShort

  datatype Result<+T> = Ok(value: T) | Err(error: Error)

  /** A decoder's result together with what it left unread. */
  datatype Decoded<+T> = Decoded(result: Result<T>, rest: seq<Byte>)

  /**
  The checksum: the last word of an MD5 digest. Of RFC 1321 only the digest of
  the empty string matters here (section A.5): its last word exceeds 4.
   */
  type Digest = hash: seq<Byte> -> Word | hash([]) > 4 witness (bytes: seq<Byte>) => 5

  const DISCOVERY_TYPE := 1
  const DATA_TYPE := 2
  const MESSAGE_HEADER_SIZE := 6
  const PACKET_HEADER_SIZE := 10
  const CHECKSUM_SIZE := 4

  // ---------------------------------------------------------------- encoding

  function EncodeJumps(jumps: seq<Short>): (b: seq<Byte>)
    ensures |b| == 2 * |jumps|
  {
    if jumps == [] then [] else ToBytes(2, jumps[0]) + EncodeJumps(jumps[1..])
  }

  function EncodeNode(node: Node): (b: seq<Byte>) {
    ToBytes(2, node.identifier) + ToBytes(4, node.address)
      + ToBytes(2, |node.jumps|) + EncodeJumps(node.jumps)
  }

  function EncodeNodes(nodes: seq<Node>): seq<Byte> {
    if nodes == [] then [] else EncodeNode(nodes[0]) + EncodeNodes(nodes[1..])
  }

  function EncodeBody(message: Message): seq<Byte> {
    match message
    case Discovery(identifier, nodes) =>
      ToBytes(2, identifier) + ToBytes(2, |nodes|) + EncodeNodes(nodes)
    case Data(identifier, buffer) =>
      ToBytes(2, identifier) + ToBytes(2, |buffer|) + buffer
  }

  function TypeOf(message: Message): Short {
    if message.Discovery? then DISCOVERY_TYPE else DATA_TYPE
  }

  function MessageSize(message: Message): nat {
    MESSAGE_HEADER_SIZE + |EncodeBody(message)|
  }

  function EncodeMessage(message: Message): (b: seq<Byte>)
    ensures |b| == MessageSize(message)
  {
    ToBytes(4, MessageSize(message)) + ToBytes(2, TypeOf(message)) + EncodeBody(message)
  }

  function EncodeMessages(messages: seq<Message>): seq<Byte> {
    if messages == [] then [] else EncodeMessage(messages[0]) + EncodeMessages(messages[1..])
  }

  function PacketSize(messages: seq<Message>): nat {
    PACKET_HEADER_SIZE + |EncodeMessages(messages)|
  }

  /** Everything the checksum covers. */
  function EncodeContent(messages: seq<Message>): (b: seq<Byte>)
    ensures |b| == PacketSize(messages) - CHECKSUM_SIZE
  {
    ToBytes(4, PacketSize(messages)) + ToBytes(2, |messages|) + EncodeMessages(messages)
  }

  function EncodePacket(hash: Digest, messages: seq<Message>): (b: seq<Byte>)
    ensures |b| == PacketSize(messages)
  {
    EncodeContent(messages) + ToBytes(CHECKSUM_SIZE, hash(EncodeContent(messages)))
  }

  // ---------------------------------------------------------------- decoding

  function DecodeJumps(unread: seq<Byte>, count: nat): (d: (seq<Short>, seq<Byte>))
    ensures |d.0| == count && |d.1| <= |unread|
    decreases count
  {
    if count == 0 then ([], unread) else
      var (jumps, rest) := DecodeJumps(AfterInt(unread, 2), count - 1);
      ([ReadShort(unread)] + jumps, rest)
  }

  function ReadShort(unread: seq<Byte>): Short {
    if |unread| >= 2 then FromBytesBound(unread[..2]); PowSizes(); FromBytes(unread[..2]) else 0
  }

  function ReadWord(unread: seq<Byte>): Word {
    if |unread| >= 4 then FromBytesBound(unread[..4]); PowSizes(); FromBytes(unread[..4]) else 0
  }

  function DecodeNode(unread: seq<Byte>): (d: (Node, seq<Byte>))
    ensures |d.1| <= |unread|
  {
    var afterId := AfterInt(unread, 2);
    var afterAddress := AfterInt(afterId, 4);
    var (jumps, rest) := DecodeJumps(AfterInt(afterAddress, 2), ReadShort(afterAddress));
    (Node(ReadShort(unread), ReadWord(afterId), jumps), rest)
  }

  function DecodeNodes(unread: seq<Byte>, count: nat): (d: (seq<Node>, seq<Byte>))
    ensures |d.0| == count && |d.1| <= |unread|
    decreases count
  {
    if count == 0 then ([], unread) else
      var (node, next) := DecodeNode(unread);
      var (nodes, rest) := DecodeNodes(next, count - 1);
      ([node] + nodes, rest)
  }

  function DecodeDiscovery(unread: seq<Byte>): (d: Decoded<Message>)
    ensures |d.rest| <= |unread|
  {
    if |unread| < 4 then Decoded(Err(MessageTooShort), unread) else
      var afterId := AfterInt(unread, 2);
      var (nodes, rest) := DecodeNodes(AfterInt(afterId, 2), ReadShort(afterId));
      Decoded(Ok(Discovery(ReadShort(unread), nodes)), rest)
  }

  function DecodeData(unread: seq<Byte>): (d: Decoded<Message>)
    ensures |d.rest| <= |unread|
  {
    if |unread| < 4 then Decoded(Err(MessageTooShort), unread) else
      var afterId := AfterInt(unread, 2);
      var size := ReadShort(afterId);
      var afterSize := AfterInt(afterId, 2);
      Decoded(Ok(Data(ReadShort(unread), ReadSpan(afterSize, size))), AfterSpan(afterSize, size))
  }

  function DecodeMessage(unread: seq<Byte>): (d: Decoded<Message>)
    ensures |d.rest| <= |unread|
  {
    if |unread| < MESSAGE_HEADER_SIZE then Decoded(Err(MessageHeaderMissing), unread) else
      var afterSize := AfterInt(unread, 4);
      var kind := ReadShort(afterSize);
      var body := AfterInt(afterSize, 2);
      if kind == DISCOVERY_TYPE then DecodeDiscovery(body)
      else if kind == DATA_TYPE then DecodeData(body)
      else Decoded(Err(UnknownType(kind)), body)
  }

  function DecodeMessages(unread: seq<Byte>, count: nat): (d: Decoded<seq<Message>>)
    ensures |d.rest| <= |unread|
    decreases count
  {
    if count == 0 then Decoded(Ok([]), unread) else
      var first := DecodeMessage(unread);
      if first.result.Err? then Decoded(Err(first.result.error), first.rest) else
      var others := DecodeMessages(first.rest, count - 1);
      if others.result.Err? then others else
      Decoded(Ok([first.result.value] + others.result.value), others.rest)
  }

  /** `size - 4` in 64-bit unsigned arithmetic. */
  function ContentLength(size: Word): nat {
    if size >= CHECKSUM_SIZE then size - CHECKSUM_SIZE else size - CHECKSUM_SIZE + 0x1_0000_0000_0000_0000
  }

  /** `written` is the whole buffer; the declared size is read at the cursor, everything else from index 0. */
  function ValidatePacket(hash: Digest, written: seq<Byte>, unread: seq<Byte>): Result<()> {
    if |unread| < 4 then Err(HeaderMissing) else
      var size := ReadWord(unread);
      if |written| < size then Err(DataMissing) else
      var content := ReadSpan(written, ContentLength(size));
      if ReadWord(AfterSpan(written, ContentLength(size))) != hash(content) then Err(ChecksumFailed)
      else Ok(())
  }

  /** What validation leaves unread: it stops at the first check that fails, and else behind the checksum. */
  function AfterValidate(written: seq<Byte>, unread: seq<Byte>): seq<Byte> {
    if |unread| < 4 then unread else
      var size := ReadWord(unread);
      if |written| < size then written else AfterInt(AfterSpan(written, ContentLength(size)), CHECKSUM_SIZE)
  }

  /** The message list of a packet that passed validation, and its checksum field. */
  function DecodeValidated(written: seq<Byte>): Decoded<seq<Message>> {
    var afterSize := AfterInt(written, 4);
    var messages := DecodeMessages(AfterInt(afterSize, 2), ReadShort(afterSize));
    if messages.result.Err? then messages else
    Decoded(messages.result, AfterInt(messages.rest, CHECKSUM_SIZE))
  }

  function DecodePacket(hash: Digest, written: seq<Byte>, unread: seq<Byte>): Decoded<seq<Message>> {
    var valid := ValidatePacket(hash, written, unread);
    if valid.Err? then Decoded(Err(valid.error), written) else DecodeValidated(written)
  }

  // -------------------------------------------------------------- round trip

  /** Every count and length fits the 16-bit field it is written to. */
  predicate NodeFits(node: Node) {
    |node.jumps| < 0x1_0000
  }

  predicate MessageFits(message: Message) {
    match message
    case Discovery(_, nodes) => |nodes| < 0x1_0000 && forall i :: 0 <= i < |nodes| ==> NodeFits(nodes[i])
    case Data(_, buffer) => |buffer| < 0x1_0000
  }

  predicate CountsFit(messages: seq<Message>) {
    |messages| < 0x1_0000 && forall i :: 0 <= i < |messages| ==> MessageFits(messages[i])
  }

  /** Reading back one integer that was just written. */
  lemma ReadBack(n: nat, v: nat, tail: seq<Byte>)
    requires v < Pow256(n)
    ensures ReadInt(ToBytes(n, v) + tail, n) == v
    ensures AfterInt(ToBytes(n, v) + tail, n) == tail
  {
    FromToBytes(n, v);
    assert (ToBytes(n, v) + tail)[..n] == ToBytes(n, v);
  }

  lemma ReadBackShort(v: Short, tail: seq<Byte>)
    ensures ReadShort(ToBytes(2, v) + tail) == v
    ensures AfterInt(ToBytes(2, v) + tail, 2) == tail
  {
    PowSizes();
    ReadBack(2, v, tail);
  }

  lemma ReadBackWord(v: Word, tail: seq<Byte>)
    ensures ReadWord(ToBytes(4, v) + tail) == v
    ensures AfterInt(ToBytes(4, v) + tail, 4) == tail
  {
    PowSizes();
    ReadBack(4, v, tail);
  }

  lemma {:induction false} DecodeEncodeJumps(jumps: seq<Short>, tail: seq<Byte>)
    ensures DecodeJumps(EncodeJumps(jumps) + tail, |jumps|) == (jumps, tail)
    decreases |jumps|
  {
    if jumps == [] {
      assert EncodeJumps(jumps) + tail == tail;
    } else {
      var others := EncodeJumps(jumps[1..]) + tail;
      Regroup(ToBytes(2, jumps[0]), EncodeJumps(jumps[1..]), [], tail);
      ReadBackShort(jumps[0], others);
      DecodeEncodeJumps(jumps[1..], tail);
      assert jumps == [jumps[0]] + jumps[1..];
    }
  }

  lemma DecodeEncodeNode(node: Node, tail: seq<Byte>)
    requires NodeFits(node)
    ensures DecodeNode(EncodeNode(node) + tail) == (node, tail)
  {
    var jumps := EncodeJumps(node.jumps) + tail;
    var count := ToBytes(2, |node.jumps|) + jumps;
    var address := ToBytes(4, node.address) + count;
    assert EncodeNode(node) + tail == ToBytes(2, node.identifier) + address;
    ReadBackShort(node.identifier, address);
    ReadBackWord(node.address, count);
    ReadBackShort(|node.jumps|, jumps);
    DecodeEncodeJumps(node.jumps, tail);
  }

  lemma {:induction false} DecodeEncodeNodes(nodes: seq<Node>, tail: seq<Byte>)
    requires forall i :: 0 <= i < |nodes| ==> NodeFits(nodes[i])
    ensures DecodeNodes(EncodeNodes(nodes) + tail, |nodes|) == (nodes, tail)
    decreases |nodes|
  {
    if nodes == [] {
      assert EncodeNodes(nodes) + tail == tail;
    } else {
      var others := EncodeNodes(nodes[1..]) + tail;
      Regroup(EncodeNode(nodes[0]), EncodeNodes(nodes[1..]), [], tail);
      DecodeEncodeNode(nodes[0], others);
      DecodeEncodeNodes(nodes[1..], tail);
      assert nodes == [nodes[0]] + nodes[1..];
    }
  }

  lemma DecodeEncodeDiscovery(identifier: Short, nodes: seq<Node>, tail: seq<Byte>)
    requires MessageFits(Discovery(identifier, nodes))
    ensures DecodeDiscovery(EncodeBody(Discovery(identifier, nodes)) + tail)
         == Decoded(Ok(Discovery(identifier, nodes)), tail)
  {
    var afterCount := EncodeNodes(nodes) + tail;
    var afterId := ToBytes(2, |nodes|) + afterCount;
    Regroup(ToBytes(2, identifier), ToBytes(2, |nodes|), EncodeNodes(nodes), tail);
    ReadBackShort(identifier, afterId);
    ReadBackShort(|nodes|, afterCount);
    DecodeEncodeNodes(nodes, tail);
  }

  /** A data message reads back only because at least one more byte follows it. */
  lemma DecodeEncodeData(identifier: Short, buffer: seq<Byte>, tail: seq<Byte>)
    requires MessageFits(Data(identifier, buffer))
    ensures DecodeData(EncodeBody(Data(identifier, buffer)) + tail) ==
      if tail != [] || buffer == [] then Decoded(Ok(Data(identifier, buffer)), tail)
      else Decoded(Ok(Data(identifier, [])), buffer)
  {
    var afterCount := buffer + tail;
    var afterId := ToBytes(2, |buffer|) + afterCount;
    Regroup(ToBytes(2, identifier), ToBytes(2, |buffer|), buffer, tail);
    ReadBackShort(identifier, afterId);
    ReadBackShort(|buffer|, afterCount);
    assert afterCount[..|buffer|] == buffer && afterCount[|buffer|..] == tail;
    assert tail == [] ==> afterCount == buffer;
  }

  lemma DecodeEncodeMessage(message: Message, tail: seq<Byte>)
    requires MessageFits(message)
    requires tail != []
    ensures DecodeMessage(EncodeMessage(message) + tail) == Decoded(Ok(message), tail)
  {
    var body := EncodeBody(message) + tail;
    var afterSize := ToBytes(2, TypeOf(message)) + body;
    var size := ToBytes(4, MessageSize(message));
    Regroup(size, ToBytes(2, TypeOf(message)), EncodeBody(message), tail);
    assert (size + afterSize)[4..] == afterSize;
    ReadBackShort(TypeOf(message), body);
    match message
    case Discovery(identifier, nodes) => DecodeEncodeDiscovery(identifier, nodes, tail);
    case Data(identifier, buffer) => DecodeEncodeData(identifier, buffer, tail);
  }

  lemma {:induction false} DecodeEncodeMessages(messages: seq<Message>, tail: seq<Byte>)
    requires forall i :: 0 <= i < |messages| ==> MessageFits(messages[i])
    requires tail != []
    ensures DecodeMessages(EncodeMessages(messages) + tail, |messages|) == Decoded(Ok(messages), tail)
    decreases |messages|
  {
    if messages == [] {
      assert EncodeMessages(messages) + tail == tail;
    } else {
      var others := EncodeMessages(messages[1..]) + tail;
      Regroup(EncodeMessage(messages[0]), EncodeMessages(messages[1..]), [], tail);
      DecodeEncodeMessage(messages[0], others);
      DecodeEncodeMessages(messages[1..], tail);
      assert messages == [messages[0]] + messages[1..];
    }
  }

  /** A packet followed by anything, cut at its size field, at its count field and at its checksum. */
  lemma PacketParts(hash: Digest, messages: seq<Message>, tail: seq<Byte>)
    ensures var checksum := ToBytes(CHECKSUM_SIZE, hash(EncodeContent(messages))) + tail;
      var afterCount := EncodeMessages(messages) + checksum;
      && EncodePacket(hash, messages) + tail == EncodeContent(messages) + checksum
      && EncodePacket(hash, messages) + tail
           == ToBytes(4, PacketSize(messages)) + (ToBytes(2, |messages|) + afterCount)
  {
    var checksum := ToBytes(CHECKSUM_SIZE, hash(EncodeContent(messages)));
    Regroup(EncodeContent(messages), checksum, [], tail);
    Regroup(ToBytes(4, PacketSize(messages)), ToBytes(2, |messages|), EncodeMessages(messages), checksum + tail);
  }

  /** An encoded packet passes validation whatever follows it and whatever its counts are. */
  lemma EncodedIsValid(hash: Digest, messages: seq<Message>, tail: seq<Byte>)
    requires PacketSize(messages) < 0x1_0000_0000
    ensures var written := EncodePacket(hash, messages) + tail;
      ReadWord(written) == PacketSize(messages) && ValidatePacket(hash, written, written) == Ok(())
  {
    var content := EncodeContent(messages);
    var checksum := ToBytes(CHECKSUM_SIZE, hash(content)) + tail;
    var afterCount := EncodeMessages(messages) + checksum;
    PacketParts(hash, messages, tail);
    ReadBackWord(PacketSize(messages), ToBytes(2, |messages|) + afterCount);
    assert (content + checksum)[..|content|] == content && (content + checksum)[|content|..] == checksum;
    ReadBackWord(hash(content), tail);
  }

  /** The round trip of a packet in a fresh buffer, whatever bytes follow it. */
  lemma DecodeEncodePacket(hash: Digest, messages: seq<Message>, tail: seq<Byte>)
    requires CountsFit(messages)
    requires PacketSize(messages) < 0x1_0000_0000
    ensures var written := EncodePacket(hash, messages) + tail;
      DecodePacket(hash, written, written) == Decoded(Ok(messages), tail)
  {
    var written := EncodePacket(hash, messages) + tail;
    var checksum := ToBytes(CHECKSUM_SIZE, hash(EncodeContent(messages))) + tail;
    var afterCount := EncodeMessages(messages) + checksum;
    EncodedIsValid(hash, messages, tail);
    PacketParts(hash, messages, tail);
    ReadBackWord(PacketSize(messages), ToBytes(2, |messages|) + afterCount);
    ReadBackShort(|messages|, afterCount);
    DecodeEncodeMessages(messages, checksum);
    ReadBackWord(hash(EncodeContent(messages)), tail);
  }

  lemma {:induction false} DecodedNodesFit(unread: seq<Byte>, count: nat)
    ensures forall i :: 0 <= i < count ==> NodeFits(DecodeNodes(unread, count).0[i])
    decreases count
  {
    if count > 0 {
      DecodedNodesFit(DecodeNode(unread).1, count - 1);
    }
  }

  lemma DecodedMessageFits(unread: seq<Byte>)
    requires DecodeMessage(unread).result.Ok?
    ensures MessageFits(DecodeMessage(unread).result.value)
  {
    var body := AfterInt(AfterInt(unread, 4), 2);
    if DecodeMessage(unread).result.value.Discovery? {
      DecodedNodesFit(AfterInt(AfterInt(body, 2), 2), ReadShort(AfterInt(body, 2)));
    }
  }

  /** Whatever a decoder returns has counts that fit: a count that does not fit never reads back. */
  lemma {:induction false} DecodedMessagesFit(unread: seq<Byte>, count: nat)
    requires DecodeMessages(unread, count).result.Ok?
    ensures var messages := DecodeMessages(unread, count).result.value;
      |messages| == count && forall i :: 0 <= i < count ==> MessageFits(messages[i])
    decreases count
  {
    hide DecodeMessage;
    if count > 0 {
      DecodedMessageFits(unread);
      DecodedMessagesFit(DecodeMessage(unread).rest, count - 1);
    }
  }

  /** For packets below 4 GiB the round trip holds exactly when every count fits 16 bits. */
  lemma DecodeEncodeExact(hash: Digest, messages: seq<Message>, tail: seq<Byte>)
    requires PacketSize(messages) < 0x1_0000_0000
    ensures var written := EncodePacket(hash, messages) + tail;
      DecodePacket(hash, written, written) == Decoded(Ok(messages), tail) <==> CountsFit(messages)
  {
    var written := EncodePacket(hash, messages) + tail;
    if CountsFit(messages) {
      DecodeEncodePacket(hash, messages, tail);
    } else if DecodePacket(hash, written, written) == Decoded(Ok(messages), tail) {
      var afterSize := AfterInt(written, 4);
      DecodedMessagesFit(AfterInt(afterSize, 2), ReadShort(afterSize));
      assert false;
    }
  }

  // ------------------------------------------------------ the transmit buffer

  lemma {:induction false} NodesSizeBound(nodes: seq<Node>)
    ensures |EncodeNodes(nodes)| >= 8 * |nodes|
    ensures forall i :: 0 <= i < |nodes| ==> |EncodeNodes(nodes)| >= 2 * |nodes[i].jumps|
    decreases |nodes|
  {
    if nodes != [] {
      NodesSizeBound(nodes[1..]);
      forall i | 0 <= i < |nodes| ensures |EncodeNodes(nodes)| >= 2 * |nodes[i].jumps| {
        assert i > 0 ==> nodes[i] == nodes[1..][i - 1];
      }
    }
  }

  lemma {:induction false} MessagesSizeBound(messages: seq<Message>)
    ensures |EncodeMessages(messages)| >= |messages|
    ensures forall i :: 0 <= i < |messages| ==> |EncodeMessages(messages)| >= |EncodeBody(messages[i])|
    decreases |messages|
  {
    if messages != [] {
      MessagesSizeBound(messages[1..]);
      forall i | 0 <= i < |messages| ensures |EncodeMessages(messages)| >= |EncodeBody(messages[i])| {
        assert i > 0 ==> messages[i] == messages[1..][i - 1];
      }
    }
  }

  /** A packet below 64 KiB, so any packet of the 4096-byte transmit buffer, truncates no field. */
  lemma SmallPacketFits(messages: seq<Message>)
    requires PacketSize(messages) < 0x1_0000
    ensures CountsFit(messages)
  {
    MessagesSizeBound(messages);
    forall i | 0 <= i < |messages| ensures MessageFits(messages[i]) {
      if messages[i].Discovery? {
        NodesSizeBound(messages[i].nodes);
      }
    }
  }

  // ------------------------------------------------- the fields, told from the bytes

  /** Two bytes, most significant first. */
  function Pair(high: int, low: int): int {
    0x100 * high + low
  }

  lemma ReadPair(unread: seq<Byte>)
    requires |unread| >= 2
    ensures ReadShort(unread) == Pair(unread[0], unread[1])
  {
    FromPair(unread[..2]);
  }

  lemma FromPair(two: seq<Byte>)
    requires |two| == 2
    ensures FromBytes(two) == Pair(two[0], two[1])
  {
    assert two[..1] == [two[0]];
    assert FromBytes([two[0]]) == two[0] by { assert [two[0]][..0] == []; }
  }

  /** Integers on the wire are big-endian. */
  lemma ReadQuad(unread: seq<Byte>)
    requires |unread| >= 4
    ensures ReadWord(unread) == 0x1_0000 * Pair(unread[0], unread[1]) + Pair(unread[2], unread[3])
  {
    var four := unread[..4];
    assert four[..3][..2] == unread[..2] && four[..3][2] == unread[2] && four[3] == unread[3];
    FromPair(unread[..2]);
    assert FromBytes(four[..3]) == 0x100 * FromBytes(unread[..2]) + unread[2];
  }

  /** Reading back a count of any size: only its low 16 bits were written. */
  lemma ReadBackLow(v: nat, tail: seq<Byte>)
    ensures ReadShort(ToBytes(2, v) + tail) == v % 0x1_0000
  {
    var two := ToBytes(2, v);
    assert two == ToBytes(1, v / 0x100) + [v % 0x100];
    assert ToBytes(1, v / 0x100) == ToBytes(0, v / 0x100 / 0x100) + [v / 0x100 % 0x100];
    ReadPair(two + tail);
    assert (two + tail)[0] == v / 0x100 % 0x100 && (two + tail)[1] == v % 0x100;
  }

  /** A packet: its size, its message count, the messages, and the checksum of everything before it. */
  lemma PacketLayout(hash: Digest, messages: seq<Message>)
    requires PacketSize(messages) < 0x1_0000_0000
    ensures var packet := EncodePacket(hash, messages);
      && ReadWord(packet) == |packet| && ReadShort(packet[4..]) == |messages| % 0x1_0000
      && packet[6..|packet| - 4] == EncodeMessages(messages)
      && ReadWord(packet[|packet| - 4..]) == hash(packet[..|packet| - 4])
  {
    var checksum := ToBytes(4, hash(EncodeContent(messages)));
    var packet := EncodePacket(hash, messages);
    var afterSize := ToBytes(2, |messages|) + (EncodeMessages(messages) + checksum);
    PacketParts(hash, messages, []);
    assert packet + [] == packet && checksum + [] == checksum;
    ReadBackWord(PacketSize(messages), afterSize);
    ReadBackLow(|messages|, EncodeMessages(messages) + checksum);
    ReadBackWord(hash(EncodeContent(messages)), []);
    PacketSlices(packet, EncodeContent(messages), checksum, afterSize, EncodeMessages(messages), ToBytes(4, |packet|),
                 ToBytes(2, |messages|));
  }

  lemma PacketSlices(packet: seq<Byte>, content: seq<Byte>, checksum: seq<Byte>, afterSize: seq<Byte>,
                     messages: seq<Byte>, size: seq<Byte>, count: seq<Byte>)
    requires packet == content + checksum == size + afterSize && afterSize == count + (messages + checksum)
    requires |size| == 4 && |count| == 2 && |checksum| == 4
    ensures packet[4..] == afterSize && packet[6..|packet| - 4] == messages
    ensures packet[..|packet| - 4] == content && packet[|packet| - 4..] == checksum
  {
    assert packet[6..] == messages + checksum by { assert packet[4..][2..] == packet[6..]; }
    assert packet[6..|packet| - 4] == packet[6..][..|messages|];
  }

  /** A message: its own length, type 1 for a discovery and 2 for data, its identifier, its count, and its content. */
  lemma MessageLayout(message: Message)
    requires MessageSize(message) < 0x1_0000_0000
    ensures var bytes := EncodeMessage(message);
      && ReadWord(bytes) == |bytes|
      && ReadShort(bytes[4..]) == (if message.Discovery? then 1 else 2)
      && ReadShort(bytes[6..]) == message.identifier
      && ReadShort(bytes[8..]) == (if message.Discovery? then |message.nodes| else |message.buffer|) % 0x1_0000
      && bytes[10..] == if message.Discovery? then EncodeNodes(message.nodes) else message.buffer
  {
    var count := if message.Discovery? then |message.nodes| else |message.buffer|;
    var content := if message.Discovery? then EncodeNodes(message.nodes) else message.buffer;
    FourFields(MessageSize(message), TypeOf(message), message.identifier, count, content);
  }

  lemma FourFields(size: Word, kind: Short, identifier: Short, count: nat, content: seq<Byte>)
    ensures var bytes := ToBytes(4, size) + ToBytes(2, kind) + (ToBytes(2, identifier) + ToBytes(2, count) + content);
      && ReadWord(bytes) == size && ReadShort(bytes[4..]) == kind && ReadShort(bytes[6..]) == identifier
      && ReadShort(bytes[8..]) == count % 0x1_0000 && bytes[10..] == content
  {
    var (a, b, c, d) := (ToBytes(4, size), ToBytes(2, kind), ToBytes(2, identifier), ToBytes(2, count));
    ReadBackWord(size, b + (c + (d + content)));
    ReadBackShort(kind, c + (d + content));
    ReadBackShort(identifier, d + content);
    ReadBackLow(count, content);
    hide ToBytes, ReadWord, ReadShort;
    FourParts(a, b, c, d, content);
  }

  lemma FourParts(a: seq<Byte>, b: seq<Byte>, c: seq<Byte>, d: seq<Byte>, rest: seq<Byte>)
    requires |a| == 4 && |b| == |c| == |d| == 2
    ensures var bytes := a + b + (c + d + rest);
      && bytes == a + (b + (c + (d + rest))) && bytes[4..] == b + (c + (d + rest))
      && bytes[6..] == c + (d + rest) && bytes[8..] == d + rest && bytes[10..] == rest
  {}

  /** A listed node: identifier, address, jump count, and its jumps, two bytes each. */
  lemma NodeLayout(node: Node, k: nat)
    requires k < |node.jumps|
    ensures var bytes := EncodeNode(node);
      && |bytes| == 8 + 2 * |node.jumps|
      && ReadShort(bytes) == node.identifier && ReadWord(bytes[2..]) == node.address
      && ReadShort(bytes[6..]) == |node.jumps| % 0x1_0000 && ReadShort(bytes[8 + 2 * k..]) == node.jumps[k]
  {
    var (a, b, c) := (ToBytes(2, node.identifier), ToBytes(4, node.address), ToBytes(2, |node.jumps|));
    var jumps := EncodeJumps(node.jumps);
    ReadBackShort(node.identifier, b + (c + jumps));
    ReadBackWord(node.address, c + jumps);
    ReadBackLow(|node.jumps|, jumps);
    JumpLayout(node.jumps, k);
    hide ToBytes, ReadWord, ReadShort, EncodeJumps;
    ThreeParts(a, b, c, jumps, 2 * k);
  }

  lemma ThreeParts(a: seq<Byte>, b: seq<Byte>, c: seq<Byte>, rest: seq<Byte>, at: nat)
    requires |a| == |c| == 2 && |b| == 4 && at <= |rest|
    ensures var bytes := a + b + c + rest;
      && bytes == a + (b + (c + rest)) && bytes[2..] == b + (c + rest)
      && bytes[6..] == c + rest && bytes[8 + at..] == rest[at..]
  {}

  lemma {:induction false} JumpLayout(jumps: seq<Short>, k: nat)
    requires k < |jumps|
    ensures ReadShort(EncodeJumps(jumps)[2 * k..]) == jumps[k]
    decreases k
  {
    var rest := EncodeJumps(jumps[1..]);
    if k == 0 {
      ReadBackShort(jumps[0], rest);
      assert EncodeJumps(jumps)[0..] == EncodeJumps(jumps);
    } else {
      JumpLayout(jumps[1..], k - 1);
      assert EncodeJumps(jumps)[2 * k..] == rest[2 * (k - 1)..];
    }
  }

  /** Nodes and messages follow each other in order. */
  lemma {:induction false} NodesInOrder(nodes: seq<Node>, more: seq<Node>)
    ensures EncodeNodes(nodes + more) == EncodeNodes(nodes) + EncodeNodes(more)
    decreases |nodes|
  {
    hide EncodeNode;
    if nodes == [] {
      assert nodes + more == more;
    } else {
      assert (nodes + more)[1..] == nodes[1..] + more;
      NodesInOrder(nodes[1..], more);
      Regroup(EncodeNode(nodes[0]), EncodeNodes(nodes[1..]), [], EncodeNodes(more));
    }
  }

  lemma {:induction false} MessagesInOrder(messages: seq<Message>, more: seq<Message>)
    ensures EncodeMessages(messages + more) == EncodeMessages(messages) + EncodeMessages(more)
    decreases |messages|
  {
    hide EncodeMessage;
    if messages == [] {
      assert messages + more == more;
    } else {
      assert (messages + more)[1..] == messages[1..] + more;
      MessagesInOrder(messages[1..], more);
      Regroup(EncodeMessage(messages[0]), EncodeMessages(messages[1..]), [], EncodeMessages(more));
    }
  }

  /** A frame with at least its size field, as validation judges it. */
  lemma ValidIff(hash: Digest, written: seq<Byte>)
    requires |written| >= 4 && |written| < 0x8000_0000_0000_0000
    ensures var size := ReadWord(written);
      ValidatePacket(hash, written, written) ==
        if size > |written| then Err(DataMissing)
        else if size >= 5 && ReadWord(written[size - 4..]) == hash(written[..size - 4]) then Ok(())
        else Err(ChecksumFailed)
  {
    var length := ContentLength(ReadWord(written));
    if ReadWord(written) < 5 {
      assert ReadSpan(written, length) == [];
      assert AfterSpan(written, length) == written;
    }
  }

  lemma TooShortToValidate(hash: Digest, written: seq<Byte>)
    requires |written| < 4
    ensures ValidatePacket(hash, written, written) == Err(HeaderMissing)
  {}

  /** What makes a message fail, and what it then leaves unread; with ten bytes and a known type none does. */
  lemma MessageFailures(unread: seq<Byte>)
    ensures var decoded := DecodeMessage(unread);
      if |unread| < 6 then decoded == Decoded(Err(MessageHeaderMissing), unread) else
        var kind := ReadShort(unread[4..]);
        if kind != 1 && kind != 2 then decoded == Decoded(Err(UnknownType(kind)), unread[6..])
        else if |unread| < 10 then decoded == Decoded(Err(MessageTooShort), unread[6..])
        else decoded.result.Ok? && (decoded.result.value.Discovery? <==> kind == 1)
  {
    if |unread| >= 6 {
      assert unread[4..][2..] == unread[6..];
      hide DecodeNodes;
    }
  }

  /** The jump at position k of `count` jumps read from these bytes. */
  function JumpAt(unread: seq<Byte>, k: nat): int {
    if 2 * k + 2 <= |unread| then Pair(unread[2 * k], unread[2 * k + 1]) else 0
  }

  /** What `count` jumps leave unread: an odd byte at the end, at least. */
  function AfterJumps(unread: seq<Byte>, count: nat): seq<Byte> {
    if 2 * count <= |unread| then unread[2 * count..] else unread[|unread| - |unread| % 2..]
  }

  lemma JumpAtNext(unread: seq<Byte>, k: nat)
    requires k > 0
    ensures JumpAt(unread, k) == JumpAt(AfterInt(unread, 2), k - 1)
  {}

  lemma AfterJumpsNext(unread: seq<Byte>, count: nat)
    requires count > 0
    ensures AfterJumps(unread, count) == AfterJumps(AfterInt(unread, 2), count - 1)
  {
    if |unread| >= 2 {
      var at := if 2 * count <= |unread| then 2 * count else |unread| - |unread| % 2;
      DropTwice(unread, at);
    }
  }

  lemma DropTwice(unread: seq<Byte>, at: nat)
    requires 2 <= at <= |unread|
    ensures unread[2..][at - 2..] == unread[at..]
  {}

  /** Jumps beyond the end of the bytes read as 0, and an odd byte at the end stays unread. */
  lemma {:induction false} JumpsAt(unread: seq<Byte>, count: nat)
    ensures DecodeJumps(unread, count).1 == AfterJumps(unread, count)
    ensures forall k :: 0 <= k < count ==> DecodeJumps(unread, count).0[k] == JumpAt(unread, k)
    decreases count
  {
    hide ReadShort, JumpAt, AfterJumps, AfterInt;
    if count == 0 {
      assert DecodeJumps(unread, 0).1 == AfterJumps(unread, 0) by { NoJumps(unread); }
    } else {
      var next := AfterInt(unread, 2);
      JumpsAt(next, count - 1);
      AfterJumpsNext(unread, count);
      FirstJump(unread);
      forall k | 0 <= k < count ensures DecodeJumps(unread, count).0[k] == JumpAt(unread, k) {
        if k > 0 {
          JumpAtNext(unread, k);
        }
      }
    }
  }

  lemma NoJumps(unread: seq<Byte>)
    ensures AfterJumps(unread, 0) == unread
  {}

  lemma FirstJump(unread: seq<Byte>)
    ensures ReadShort(unread) == JumpAt(unread, 0)
  {
    if |unread| >= 2 {
      ReadPair(unread);
    }
  }
}
