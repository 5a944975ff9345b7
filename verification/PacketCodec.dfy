/**
The codecs, as the loops over a cursor buffer that they are. Every encoder is
tied to the wire format of module Messages, and every decoder to what that
module says arbitrary bytes decode to.
 */
module PacketCodec {
  import opened Bytes
  import opened Buffers
  import opened Messages
  import opened Sequences

  /** A message written piece by piece. */
  lemma Pieces(start: seq<Byte>, size: seq<Byte>, kind: seq<Byte>, id: seq<Byte>, count: seq<Byte>, data: seq<Byte>)
    ensures start + (size + kind) + id + count + data == start + (size + kind + (id + count + data))
  {}

  lemma NodePieces(start: seq<Byte>, node: Node)
    ensures start + ToBytes(2, node.identifier) + ToBytes(4, node.address) + ToBytes(2, |node.jumps|)
              + EncodeJumps(node.jumps)
         == start + EncodeNode(node)
  {
    var (id, address, count, jumps) :=
      (ToBytes(2, node.identifier), ToBytes(4, node.address), ToBytes(2, |node.jumps|), EncodeJumps(node.jumps));
    assert start + id + address + count + jumps == start + (id + address + count + jumps);
  }

  method EncodedDiscoverySize(identifier: Short, nodes: seq<Node>) returns (size: nat)
    ensures size == MessageSize(Discovery(identifier, nodes))
  {
    var fixedSize := 2 + 2 + 8 * |nodes|;
    var dynamicSize := 0;
    for i := 0 to |nodes|
      invariant |EncodeNodes(nodes)| == 8 * i + dynamicSize + |EncodeNodes(nodes[i..])|
    {
      dynamicSize := dynamicSize + 2 * |nodes[i].jumps|;
      assert nodes[i..][1..] == nodes[i + 1..];
    }
    size := MESSAGE_HEADER_SIZE + fixedSize + dynamicSize;
  }

  function EncodedDataSize(identifier: Short, buffer: seq<Byte>): (size: nat)
    ensures size == MessageSize(Data(identifier, buffer))
  {
    MESSAGE_HEADER_SIZE + (4 + |buffer|)
  }

  method EncodedSize(message: Message) returns (size: nat)
    ensures size == MessageSize(message)
  {
    match message {
      case Discovery(identifier, nodes) => size := EncodedDiscoverySize(identifier, nodes);
      case Data(identifier, buffer) => size := EncodedDataSize(identifier, buffer);
    }
  }

  method EncodeHeader(buffer: Buffer, size: nat, kind: Short) returns (ok: bool)
    requires buffer.Valid()
    modifies buffer`writeOffset, buffer`written, buffer`unread, buffer.bytes
    ensures buffer.Valid()
    ensures ok == (MESSAGE_HEADER_SIZE <= old(buffer.RemainingBytes()))
    ensures buffer.written == old(buffer.written) + if ok then ToBytes(4, size) + ToBytes(2, kind) else []
    ensures !ok ==> buffer.bytes[..] == old(buffer.bytes[..])
  {
    if buffer.RemainingBytes() < MESSAGE_HEADER_SIZE {
      return false;
    }
    ok := buffer.Append(4, size);
    ok := buffer.Append(2, kind);
    ok := true;
  }

  method EncodeDiscoveryMessage(buffer: Buffer, identifier: Short, nodes: seq<Node>) returns (ok: bool)
    requires buffer.Valid()
    modifies buffer`writeOffset, buffer`written, buffer`unread, buffer.bytes
    ensures buffer.Valid()
    ensures ok == (MessageSize(Discovery(identifier, nodes)) <= old(buffer.RemainingBytes()))
    ensures buffer.written == old(buffer.written) + if ok then EncodeMessage(Discovery(identifier, nodes)) else []
    ensures !ok ==> buffer.bytes[..] == old(buffer.bytes[..])
  {
    ghost var start := buffer.written;
    ghost var whole := EncodeMessage(Discovery(identifier, nodes));
    var size := EncodedDiscoverySize(identifier, nodes);
    if buffer.RemainingBytes() < size {
      return false;
    }
    ok := EncodeHeader(buffer, size, DISCOVERY_TYPE);
    ok := buffer.Append(2, identifier);
    ok := buffer.Append(2, |nodes|);
    Pieces(start, ToBytes(4, size), ToBytes(2, DISCOVERY_TYPE), ToBytes(2, identifier), ToBytes(2, |nodes|),
           EncodeNodes(nodes));
    assert nodes[0..] == nodes;
    for i := 0 to |nodes|
      invariant buffer.Valid()
      invariant buffer.written + EncodeNodes(nodes[i..]) == start + whole
    {
      ghost var before := buffer.written;
      ghost var later := EncodeNodes(nodes[i + 1..]);
      var node := nodes[i];
      assert EncodeNodes(nodes[i..]) == EncodeNode(node) + later by {
        assert nodes[i..][1..] == nodes[i + 1..];
      }
      ok := EncodeOneNode(buffer, node, later);
      Regroup(before, EncodeNode(node), [], later);
    }
    assert buffer.written + EncodeNodes(nodes[|nodes|..]) == buffer.written;
    ok := true;
  }

  /** The body of the node loop; `later` is what the rest of the loop still has to write. */
  method EncodeOneNode(buffer: Buffer, node: Node, ghost later: seq<Byte>) returns (ok: bool)
    requires buffer.Valid()
    requires |EncodeNode(node)| + |later| <= buffer.RemainingBytes()
    modifies buffer`writeOffset, buffer`written, buffer`unread, buffer.bytes
    ensures buffer.Valid() && ok
    ensures buffer.written == old(buffer.written) + EncodeNode(node)
  {
    ghost var start := buffer.written;
    ok := buffer.Append(2, node.identifier);
    ok := buffer.Append(4, node.address);
    ok := buffer.Append(2, |node.jumps|);
    NodePieces(start, node);
    assert node.jumps[0..] == node.jumps;
    for i := 0 to |node.jumps|
      invariant buffer.Valid()
      invariant buffer.written + EncodeJumps(node.jumps[i..]) == start + EncodeNode(node)
    {
      ghost var before := buffer.written;
      assert node.jumps[i..][1..] == node.jumps[i + 1..];
      ok := buffer.Append(2, node.jumps[i]);
      Regroup(before, ToBytes(2, node.jumps[i]), [], EncodeJumps(node.jumps[i + 1..]));
    }
    assert buffer.written + EncodeJumps(node.jumps[|node.jumps|..]) == buffer.written;
    ok := true;
  }

  method EncodeDataMessage(buffer: Buffer, identifier: Short, data: seq<Byte>) returns (ok: bool)
    requires buffer.Valid()
    modifies buffer`writeOffset, buffer`written, buffer`unread, buffer.bytes
    ensures buffer.Valid()
    ensures ok == (MessageSize(Data(identifier, data)) <= old(buffer.RemainingBytes()))
    ensures buffer.written == old(buffer.written) + if ok then EncodeMessage(Data(identifier, data)) else []
    ensures !ok ==> buffer.bytes[..] == old(buffer.bytes[..])
  {
    ghost var start := buffer.written;
    var size := EncodedDataSize(identifier, data);
    if buffer.RemainingBytes() < size {
      return false;
    }
    ok := EncodeHeader(buffer, size, DATA_TYPE);
    ok := buffer.Append(2, identifier);
    ok := buffer.Append(2, |data|);
    ok := buffer.AppendSpan(data);
    Pieces(start, ToBytes(4, size), ToBytes(2, DATA_TYPE), ToBytes(2, identifier), ToBytes(2, |data|), data);
    ok := true;
  }

  method EncodeOneMessage(buffer: Buffer, message: Message) returns (ok: bool)
    requires buffer.Valid()
    modifies buffer`writeOffset, buffer`written, buffer`unread, buffer.bytes
    ensures buffer.Valid()
    ensures ok == (MessageSize(message) <= old(buffer.RemainingBytes()))
    ensures buffer.written == old(buffer.written) + if ok then EncodeMessage(message) else []
    ensures !ok ==> buffer.bytes[..] == old(buffer.bytes[..])
  {
    match message {
      case Discovery(identifier, nodes) => ok := EncodeDiscoveryMessage(buffer, identifier, nodes);
      case Data(identifier, data) => ok := EncodeDataMessage(buffer, identifier, data);
    }
  }

  method EncodedPacketSize(messages: seq<Message>) returns (total: nat)
    ensures total == PacketSize(messages)
  {
    total := PACKET_HEADER_SIZE;
    assert messages[0..] == messages;
    for i := 0 to |messages|
      invariant total + |EncodeMessages(messages[i..])| == PacketSize(messages)
    {
      var size := EncodedSize(messages[i]);
      total := total + size;
      assert messages[i..][1..] == messages[i + 1..];
    }
  }

  /** The message loop: it stops at the first failure, and there is one exactly when the rest does not fit. */
  method AppendMessages(buffer: Buffer, messages: seq<Message>) returns (ok: bool)
    requires buffer.Valid()
    modifies buffer`writeOffset, buffer`written, buffer`unread, buffer.bytes
    ensures buffer.Valid()
    ensures ok == (|EncodeMessages(messages)| <= old(buffer.RemainingBytes()))
    ensures ok ==> buffer.written == old(buffer.written) + EncodeMessages(messages)
  {
    ghost var goal := buffer.written + EncodeMessages(messages);
    assert messages[0..] == messages;
    for i := 0 to |messages|
      invariant buffer.Valid()
      invariant buffer.written + EncodeMessages(messages[i..]) == goal
    {
      ghost var before := buffer.written;
      assert messages[i..][1..] == messages[i + 1..];
      ok := EncodeOneMessage(buffer, messages[i]);
      if !ok {
        assert |goal| == |before| + |EncodeMessages(messages[i..])|;
        return false;
      }
      Regroup(before, EncodeMessage(messages[i]), [], EncodeMessages(messages[i + 1..]));
    }
    assert buffer.written + EncodeMessages(messages[|messages|..]) == buffer.written;
    ok := true;
  }

  /**
  All or nothing. The checksum covers the buffer from index 0, so the bytes
  written are a packet exactly when the buffer was fresh.
   */
  method Encode(hash: Digest, buffer: Buffer, messages: seq<Message>) returns (ok: bool)
    requires buffer.Valid()
    modifies buffer`writeOffset, buffer`written, buffer`unread, buffer.bytes
    ensures buffer.Valid()
    ensures ok == (PacketSize(messages) <= old(buffer.RemainingBytes()))
    ensures ok ==> var covered := old(buffer.written) + EncodeContent(messages);
      buffer.written == covered + ToBytes(CHECKSUM_SIZE, hash(covered))
    ensures ok && old(buffer.written) == [] ==> buffer.written == EncodePacket(hash, messages)
    ensures !ok ==> buffer.bytes[..] == old(buffer.bytes[..]) && buffer.written == old(buffer.written)
  {
    ghost var start := buffer.written;
    var total := EncodedPacketSize(messages);
    if total > buffer.RemainingBytes() {
      return false;
    }
    ok := buffer.Append(4, total);
    ok := buffer.Append(2, |messages|);
    ok := AppendMessages(buffer, messages);
    if !ok {
      assert false;  // the size check above leaves no inner failure
      return false;
    }
    Regroup(start, ToBytes(4, total), ToBytes(2, |messages|), EncodeMessages(messages));
    Regroup(ToBytes(4, total), ToBytes(2, |messages|), [], EncodeMessages(messages));
    var content := buffer.bytes[..buffer.writeOffset];
    assert content == start + EncodeContent(messages);
    ok := buffer.Append(CHECKSUM_SIZE, hash(content));
    assert start == [] ==> start + EncodeContent(messages) == EncodeContent(messages);
    ok := true;
  }

  // ---------------------------------------------------------------- decoding

  method DecodeHeader(buffer: Buffer) returns (r: Result<(nat, nat)>)
    requires buffer.Valid()
    modifies buffer`readOffset, buffer`unread
    ensures buffer.Valid()
    ensures var unread := old(buffer.unread);
      if |unread| < MESSAGE_HEADER_SIZE then
        r == Err(MessageHeaderMissing) && buffer.unread == unread
      else
        && r == Ok((ReadWord(unread), ReadShort(AfterInt(unread, 4))))
        && buffer.unread == AfterInt(AfterInt(unread, 4), 2)
  {
    if buffer.BytesLeftToRead() < MESSAGE_HEADER_SIZE {
      return Err(MessageHeaderMissing);
    }
    var size := buffer.Read(4);
    var kind := buffer.Read(2);
    r := Ok((size, kind));
  }

  method DecodeDiscoveryMessage(buffer: Buffer) returns (r: Result<Message>)
    requires buffer.Valid()
    modifies buffer`readOffset, buffer`unread
    ensures buffer.Valid()
    ensures Decoded(r, buffer.unread) == DecodeDiscovery(old(buffer.unread))
  {
    if buffer.BytesLeftToRead() < 4 {
      return Err(MessageTooShort);
    }
    PowSizes();
    var identifier := buffer.Read(2);
    var size := buffer.Read(2);
    ghost var start := buffer.unread;
    var nodes: seq<Node> := [];
    for i := 0 to size
      invariant buffer.Valid()
      invariant DecodeNodes(start, size).0 == Join(nodes, DecodeNodes(buffer.unread, size - i).0)
      invariant DecodeNodes(start, size).1 == DecodeNodes(buffer.unread, size - i).1
    {
      ghost var before := buffer.unread;
      ghost var done := nodes;
      var node := DecodeOneNode(buffer);
      nodes := nodes + [node];
      JoinStep(done, node, DecodeNodes(buffer.unread, size - i - 1).0);
    }
    assert nodes == DecodeNodes(start, size).0;
    r := Ok(Discovery(identifier, nodes));
  }

  method DecodeOneNode(buffer: Buffer) returns (node: Node)
    requires buffer.Valid()
    modifies buffer`readOffset, buffer`unread
    ensures buffer.Valid()
    ensures (node, buffer.unread) == DecodeNode(old(buffer.unread))
  {
    hide DecodeJumps, FromBytes;
    PowSizes();
    var identifier := buffer.Read(2);
    var address := buffer.Read(4);
    var count := buffer.Read(2);
    var jumps := CollectJumps(buffer, count);
    node := Node(identifier, address, jumps);
  }

  method CollectJumps(buffer: Buffer, count: nat) returns (jumps: seq<Short>)
    requires buffer.Valid()
    modifies buffer`readOffset, buffer`unread
    ensures buffer.Valid()
    ensures (jumps, buffer.unread) == DecodeJumps(old(buffer.unread), count)
  {
    ghost var whole := DecodeJumps(buffer.unread, count);
    jumps := [];
    for i := 0 to count
      invariant buffer.Valid()
      invariant whole.0 == Join(jumps, DecodeJumps(buffer.unread, count - i).0)
      invariant whole.1 == DecodeJumps(buffer.unread, count - i).1
    {
      ghost var done := jumps;
      PowSizes();
      var jump := buffer.Read(2);
      jumps := jumps + [jump];
      JoinStep(done, jump, DecodeJumps(buffer.unread, count - i - 1).0);
    }
  }

  method DecodeDataMessage(buffer: Buffer) returns (r: Result<Message>)
    requires buffer.Valid()
    modifies buffer`readOffset, buffer`unread
    ensures buffer.Valid()
    ensures Decoded(r, buffer.unread) == DecodeData(old(buffer.unread))
  {
    if buffer.BytesLeftToRead() < 4 {
      return Err(MessageTooShort);
    }
    PowSizes();
    var identifier := buffer.Read(2);
    var size := buffer.Read(2);
    var data := buffer.ReadBuffer(size);
    r := Ok(Data(identifier, data));
  }

  method Validate(hash: Digest, buffer: Buffer) returns (r: Result<()>)
    requires buffer.Valid()
    modifies buffer`readOffset, buffer`unread
    ensures buffer.Valid()
    ensures r == ValidatePacket(hash, buffer.written, old(buffer.unread))
    ensures buffer.unread == AfterValidate(buffer.written, old(buffer.unread))
  {
    if buffer.BytesLeftToRead() < 4 {
      return Err(HeaderMissing);
    }
    PowSizes();
    var size := buffer.Read(4);
    buffer.ResetRead();
    if buffer.BytesLeftToRead() < size {
      return Err(DataMissing);
    }
    var content := buffer.ReadBuffer(ContentLength(size));
    var checksum := buffer.Read(4);
    if checksum != hash(content) {
      return Err(ChecksumFailed);
    }
    r := Ok(());
  }

  method DecodeOneMessage(buffer: Buffer) returns (r: Result<Message>)
    requires buffer.Valid()
    modifies buffer`readOffset, buffer`unread
    ensures buffer.Valid()
    ensures Decoded(r, buffer.unread) == DecodeMessage(old(buffer.unread))
  {
    var header := DecodeHeader(buffer);
    if header.Err? {
      return Err(header.error);
    }
    if header.value.1 == DISCOVERY_TYPE {
      r := DecodeDiscoveryMessage(buffer);
    } else if header.value.1 == DATA_TYPE {
      r := DecodeDataMessage(buffer);
    } else {
      r := Err(UnknownType(header.value.1));
    }
  }

  /** A decoded list in front of what the rest of the loop decodes. */
  ghost function Then(messages: seq<Message>, others: Decoded<seq<Message>>): Decoded<seq<Message>> {
    if others.result.Err? then others else Decoded(Ok(Join(messages, others.result.value)), others.rest)
  }

  lemma ThenStep(messages: seq<Message>, unread: seq<Byte>, count: nat)
    requires count > 0
    ensures var first := DecodeMessage(unread);
      Then(messages, DecodeMessages(unread, count)) ==
        if first.result.Err? then Decoded(Err(first.result.error), first.rest)
        else Then(messages + [first.result.value], DecodeMessages(first.rest, count - 1))
  {
    var first := DecodeMessage(unread);
    if first.result.Ok? {
      var others := DecodeMessages(first.rest, count - 1).result;
      if others.Ok? {
        JoinStep(messages, first.result.value, others.value);
      }
    }
  }

  /** The first failing message ends the loop and leaves the cursor behind what it consumed. */
  method CollectMessages(buffer: Buffer, count: nat) returns (r: Result<seq<Message>>)
    requires buffer.Valid()
    modifies buffer`readOffset, buffer`unread
    ensures buffer.Valid()
    ensures Decoded(r, buffer.unread) == DecodeMessages(old(buffer.unread), count)
  {
    hide DecodeMessage;
    ghost var whole := DecodeMessages(buffer.unread, count);
    var messages: seq<Message> := [];
    for i := 0 to count
      invariant buffer.Valid()
      invariant whole == Then(messages, DecodeMessages(buffer.unread, count - i))
    {
      ThenStep(messages, buffer.unread, count - i);
      var message := DecodeOneMessage(buffer);
      if message.Err? {
        return Err(message.error);
      }
      messages := messages + [message.value];
    }
    r := Ok(messages);
  }

  /** The part of decoding after validation. */
  method DecodeContent(buffer: Buffer, ghost written: seq<Byte>) returns (r: Result<seq<Message>>)
    requires buffer.Valid() && buffer.unread == written
    modifies buffer`readOffset, buffer`unread
    ensures buffer.Valid()
    ensures Decoded(r, buffer.unread) == DecodeValidated(written)
  {
    PowSizes();
    var size := buffer.Read(4);
    var count := buffer.Read(2);
    r := CollectMessages(buffer, count);
    if r.Err? {
      return;
    }
    var checksum := buffer.Read(CHECKSUM_SIZE);
  }

  method Decode(hash: Digest, buffer: Buffer) returns (r: Result<seq<Message>>)
    requires buffer.Valid()
    modifies buffer`readOffset, buffer`unread
    ensures buffer.Valid()
    ensures Decoded(r, buffer.unread) == DecodePacket(hash, old(buffer.written), old(buffer.unread))
  {
    ghost var written := buffer.written;
    var valid := Validate(hash, buffer);
    buffer.ResetRead();
    if valid.Err? {
      return Err(valid.error);
    }
    r := DecodeContent(buffer, written);
  }
}
