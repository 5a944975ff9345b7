/**
Incremental reassembly: a byte stream cut into packets.

`ProcessStep` is one iteration of the loop in `data_stream::process`, `Process`
the whole loop. `Reassembly` says that a stream fed any chunks of a
concatenation of packets, processed at any moments, delivers exactly those
packets; the lemmas after it say what malformed input and an overfull buffer do.
 */
module DataStreams {
  import opened Bytes
  import opened Buffers
  import opened Messages
  import opened Sequences
  import PacketCodec

  type Packet = seq<Message>

  /** The unread bytes and the capacity of the vector that holds them. */
  datatype StreamState = StreamState(bytes: seq<Byte>, capacity: nat)

  /** One iteration: what it decoded, what it leaves in the stream, whether the loop goes on. */
  datatype Round = Round(packets: seq<Packet>, bytes: seq<Byte>, more: bool)

  /** A signed 32-bit read widened to an unsigned 64-bit size. */
  function SignExtended(v: Word): nat {
    if v < 0x8000_0000 then v else v + 0xFFFF_FFFF_0000_0000
  }

  predicate Complete(bytes: seq<Byte>) {
    |bytes| >= PACKET_HEADER_SIZE && |bytes| >= SignExtended(ReadWord(bytes))
  }

  /**
  The stream after a decode, and whether the loop goes on: a failed decode
  clears the vector, and the shift-and-resize below then finds it empty.
   */
  function Retained(bytes: seq<Byte>, ok: bool, remaining: nat): (seq<Byte>, bool) {
    var kept := if ok then bytes else [];
    if remaining >= |bytes| then (kept, false)
    else if remaining == 0 then ([], false)
    else (ShiftAndResize(kept, |bytes| - remaining, remaining), ok)
  }

  /** `shift_left` by n, a no-op past the end, then a zero-filling `resize`. */
  function ShiftAndResize(kept: seq<Byte>, n: nat, size: nat): (r: seq<Byte>)
    ensures |r| == size
  {
    var shifted := if n < |kept| then kept[n..] else kept;
    if size <= |shifted| then shifted[..size] else Join(shifted, Zeros(size - |shifted|))
  }

  function ProcessStep(hash: Digest, bytes: seq<Byte>): Round {
    if !Complete(bytes) then Round([], bytes, false) else
      var decoded := DecodePacket(hash, bytes, bytes);
      var packets := if decoded.result.Ok? then [decoded.result.value] else [];
      var (kept, more) := Retained(bytes, decoded.result.Ok?, |decoded.rest|);
      Round(packets, kept, more)
  }

  lemma StepOnIncomplete(hash: Digest, bytes: seq<Byte>)
    requires !Complete(bytes)
    ensures ProcessStep(hash, bytes) == Round([], bytes, false)
  {}

  lemma StepOnComplete(hash: Digest, bytes: seq<Byte>, packet: Result<Packet>, rest: seq<Byte>)
    requires Complete(bytes) && Decoded(packet, rest) == DecodePacket(hash, bytes, bytes)
    ensures var (kept, more) := Retained(bytes, packet.Ok?, |rest|);
      ProcessStep(hash, bytes) == Round(if packet.Ok? then [packet.value] else [], kept, more)
  {
    hide DecodePacket, Retained;
  }

  /** A continuing iteration shrinks the stream. */
  lemma RoundShrinks(hash: Digest, bytes: seq<Byte>)
    ensures var round := ProcessStep(hash, bytes); round.more ==> |round.bytes| < |bytes|
  {
  }

  function Process(hash: Digest, bytes: seq<Byte>): (seq<Packet>, seq<Byte>)
    decreases |bytes|
  {
    var round := ProcessStep(hash, bytes);
    if !round.more then (round.packets, round.bytes) else
      var (packets, rest) := Process(hash, round.bytes);
      (Join(round.packets, packets), rest)
  }

  /** Packets delivered by the iterations before. */
  ghost function Before(packets: seq<Packet>, later: (seq<Packet>, seq<Byte>)): (seq<Packet>, seq<Byte>) {
    (Join(packets, later.0), later.1)
  }

  lemma BeforeStep(hash: Digest, packets: seq<Packet>, bytes: seq<Byte>)
    ensures var round := ProcessStep(hash, bytes);
      var next := if round.packets == [] then packets else packets + [round.packets[0]];
      Before(packets, Process(hash, bytes)) ==
        if round.more then Before(next, Process(hash, round.bytes)) else (next, round.bytes)
  {
    hide DecodePacket;
    var round := ProcessStep(hash, bytes);
    if round.packets != [] {
      assert round.packets == [round.packets[0]];
      JoinStep(packets, round.packets[0], Process(hash, round.bytes).0);
      JoinStep(packets, round.packets[0], []);
    }
  }

  /**
  A chunk arrives. When it does not fit, the new vector starts with twice the
  needed number of zero bytes; its capacity is the library's choice.
   */
  ghost predicate Received(s: StreamState, chunk: seq<Byte>, s': StreamState) {
    var needed := |chunk| + |s.bytes|;
    if needed <= s.capacity then
      s' == s.(bytes := s.bytes + chunk)
    else
      s'.bytes == Zeros(2 * needed) + s.bytes + chunk && |s'.bytes| <= s'.capacity
  }

  class DataStream {
    var bytes: seq<Byte>
    var capacity: nat
    const hash: Digest

    ghost predicate Valid()
      reads this
    {
      |bytes| <= capacity
    }

    ghost function State(): StreamState
      reads this
    {
      StreamState(bytes, capacity)
    }

    constructor (bufferSize: nat, hash: Digest)
      ensures Valid() && State() == StreamState([], bufferSize) && this.hash == hash
    {
      bytes, capacity := [], bufferSize;
      this.hash := hash;
    }

    method HandleReceive(chunk: seq<Byte>)
      requires Valid()
      modifies this
      ensures Valid() && Received(old(State()), chunk, State())
    {
      var needed := |chunk| + |bytes|;
      if needed > capacity {
        bytes := Zeros(2 * needed) + bytes;
        var grown: nat :| grown >= |bytes| + |chunk|;
        capacity := grown;
      }
      bytes := bytes + chunk;
    }

    /** The second half of the loop body: update the read buffer. */
    method Retain(ok: bool, remaining: nat) returns (readMore: bool)
      requires Valid()
      modifies this`bytes
      ensures Valid()
      ensures (bytes, readMore) == Retained(old(bytes), ok, remaining)
    {
      readMore := true;
      var size := |bytes|;
      if !ok {
        bytes := [];
        readMore := false;
      }
      if remaining >= size {
        readMore := false;
      } else if remaining == 0 {
        bytes := [];
        readMore := false;
      } else {
        bytes := ShiftAndResize(bytes, size - remaining, remaining);
      }
    }

    /** A buffer that holds a whole packet: decode it and keep what is behind it. */
    method DecodeOnce(buffer: Buffer) returns (packet: Result<Packet>, readMore: bool)
      requires Valid() && Complete(bytes)
      requires buffer.Valid() && buffer.written == bytes && buffer.unread == bytes
      modifies this`bytes, buffer`readOffset, buffer`unread
      ensures Valid()
      ensures ProcessStep(hash, old(bytes)) ==
        Round(if packet.Ok? then [packet.value] else [], bytes, readMore)
    {
      hide Complete, ProcessStep, DecodePacket, Retained;
      packet := PacketCodec.Decode(hash, buffer);
      StepOnComplete(hash, bytes, packet, buffer.unread);
      var remaining := buffer.BytesLeftToRead();
      readMore := Retain(packet.Ok?, remaining);
    }

    /** The stream's bytes in a cursor buffer of exactly their size. */
    method Buffered() returns (buffer: Buffer)
      ensures fresh(buffer) && fresh(buffer.bytes)
      ensures buffer.Valid() && buffer.written == bytes && buffer.unread == bytes
    {
      buffer := new Buffer(|bytes|);
      var fits := buffer.AppendSpan(bytes);
    }

    /** The framing read: is a whole packet there? The cursor is back at the start afterwards. */
    method HoldsPacket(buffer: Buffer) returns (complete: bool)
      requires buffer.Valid() && buffer.unread == buffer.written
      modifies buffer`readOffset, buffer`unread
      ensures buffer.Valid() && buffer.unread == buffer.written
      ensures complete == Complete(buffer.written)
    {
      var bufferSize := buffer.BytesLeftToRead();
      if bufferSize < PACKET_HEADER_SIZE {
        return false;
      }
      PowSizes();
      var size := buffer.Read(4);
      buffer.ResetRead();
      complete := bufferSize >= SignExtended(size);
    }

    /** The body of the loop. */
    method ProcessOnce() returns (packet: Result<Packet>, readMore: bool)
      requires Valid()
      modifies this`bytes
      ensures Valid()
      ensures ProcessStep(hash, old(bytes)) ==
        Round(if packet.Ok? then [packet.value] else [], bytes, readMore)
    {
      hide Buffer.Valid, Complete, ProcessStep, DecodePacket, Retained;
      var buffer := Buffered();
      var complete := HoldsPacket(buffer);
      if complete {
        packet, readMore := DecodeOnce(buffer);
      } else {
        StepOnIncomplete(hash, bytes);
        packet, readMore := Err(DataMissing), false;
      }
    }

    method ProcessStream() returns (packets: seq<Packet>)
      requires Valid()
      modifies this`bytes
      ensures Valid()
      ensures (packets, bytes) == Process(hash, old(bytes))
    {
      packets := [];
      var readMore := true;
      ghost var goal := Process(hash, bytes);
      while readMore
        invariant Valid()
        invariant goal == if readMore then Before(packets, Process(hash, bytes)) else (packets, bytes)
        decreases readMore, |bytes|
      {
        RoundShrinks(hash, bytes);
        BeforeStep(hash, packets, bytes);
        var packet;
        packet, readMore := ProcessOnce();
        if packet.Ok? {
          packets := packets + [packet.value];
        }
      }
    }
  }

  // -------------------------------------------------------------- reassembly

  datatype StreamOp = Receive(chunk: seq<Byte>) | ProcessNow

  /** Every chunk fits in the capacity the stream was constructed with. */
  predicate WithinCapacity(hash: Digest, s: StreamState, ops: seq<StreamOp>)
    decreases |ops|
  {
    ops == [] || (
      match ops[0]
      case Receive(chunk) =>
        && |chunk| + |s.bytes| <= s.capacity
        && WithinCapacity(hash, s.(bytes := s.bytes + chunk), ops[1..])
      case ProcessNow => WithinCapacity(hash, s.(bytes := Process(hash, s.bytes).1), ops[1..]))
  }

  /** All packets delivered by a run, in order, and the final state. */
  function Run(hash: Digest, s: StreamState, ops: seq<StreamOp>): (seq<Packet>, StreamState)
    requires WithinCapacity(hash, s, ops)
    decreases |ops|
  {
    if ops == [] then ([], s) else
      match ops[0]
      case Receive(chunk) => Run(hash, s.(bytes := s.bytes + chunk), ops[1..])
      case ProcessNow =>
        var (packets, rest) := Process(hash, s.bytes);
        var (later, last) := Run(hash, s.(bytes := rest), ops[1..]);
        (packets + later, last)
  }

  function Chunks(ops: seq<StreamOp>): seq<Byte> {
    if ops == [] then [] else (if ops[0].Receive? then ops[0].chunk else []) + Chunks(ops[1..])
  }

  function EncodeAll(hash: Digest, packets: seq<Packet>): seq<Byte> {
    if packets == [] then [] else EncodePacket(hash, packets[0]) + EncodeAll(hash, packets[1..])
  }

  /** The framing read is signed, so a packet must stay below 2 GiB. */
  predicate Sendable(messages: Packet) {
    CountsFit(messages) && PacketSize(messages) < 0x8000_0000
  }

  predicate AllSendable(packets: seq<Packet>) {
    forall i :: 0 <= i < |packets| ==> Sendable(packets[i])
  }

  /** A whole packet at the front is cut off, whatever follows. */
  lemma WholePacketStep(hash: Digest, messages: Packet, tail: seq<Byte>)
    requires Sendable(messages)
    ensures ProcessStep(hash, EncodePacket(hash, messages) + tail) == Round([messages], tail, tail != [])
  {
    var bytes := EncodePacket(hash, messages) + tail;
    EncodedIsValid(hash, messages, tail);
    DecodeEncodePacket(hash, messages, tail);
    assert bytes[|EncodePacket(hash, messages)|..] == tail;
  }

  /** A proper prefix of a packet waits. */
  lemma PartialPacketStep(hash: Digest, messages: Packet, bytes: seq<Byte>, missing: seq<Byte>)
    requires Sendable(messages)
    requires bytes + missing == EncodePacket(hash, messages)
    requires missing != []
    ensures ProcessStep(hash, bytes) == Round([], bytes, false)
  {
    var packet := EncodePacket(hash, messages);
    assert packet + [] == packet;
    EncodedIsValid(hash, messages, []);
    if |bytes| >= PACKET_HEADER_SIZE {
      assert bytes[..4] == packet[..4];
    }
  }

  /** Bytes that start a concatenation either stop inside its first packet or continue behind it. */
  lemma CutFirst(packet: seq<Byte>, others: seq<Byte>, bytes: seq<Byte>, future: seq<Byte>)
    requires bytes + future == packet + others
    ensures if |bytes| < |packet| then bytes + packet[|bytes|..] == packet && future != []
      else bytes == packet + bytes[|packet|..] && bytes[|packet|..] + future == others
  {
    var all := packet + others;
    if |bytes| < |packet| {
      assert bytes == all[..|bytes|] == packet[..|bytes|];
    } else {
      assert packet == all[..|packet|] == bytes[..|packet|];
      assert others == all[|packet|..] == (bytes + future)[|packet|..] == bytes[|packet|..] + future;
    }
  }

  /** `bytes`, then `future`, is this list of packets; a process call delivered a prefix of it. */
  ghost predicate Delivers(hash: Digest, packets: seq<Packet>, future: seq<Byte>, result: (seq<Packet>, seq<Byte>)) {
    var (done, rest) := result;
    && |done| <= |packets| && done == packets[..|done|]
    && rest + future == EncodeAll(hash, packets[|done|..])
    && (future == [] ==> |done| == |packets| && rest == [])
  }

  lemma DeliversFirst(hash: Digest, packets: seq<Packet>, future: seq<Byte>, done: seq<Packet>, rest: seq<Byte>)
    requires packets != []
    requires Delivers(hash, packets[1..], future, (done, rest))
    ensures Delivers(hash, packets, future, ([packets[0]] + done, rest))
  {
    hide EncodeAll;
    SplitFirst(packets, |done|);
  }

  /** One `process` call on a prefix of the stream: the packets that are whole, and the rest stays. */
  lemma {:induction false} ProcessPrefix(hash: Digest, packets: seq<Packet>, bytes: seq<Byte>, future: seq<Byte>)
    requires AllSendable(packets)
    requires bytes + future == EncodeAll(hash, packets)
    ensures Delivers(hash, packets, future, Process(hash, bytes))
    decreases |packets|
  {
    if packets == [] {
      assert bytes == [];
    } else {
      var packet := EncodePacket(hash, packets[0]);
      CutFirst(packet, EncodeAll(hash, packets[1..]), bytes, future);
      if |bytes| < |packet| {
        PartialPacketStep(hash, packets[0], bytes, packet[|bytes|..]);
        assert packets[0..] == packets;
      } else {
        var tail := bytes[|packet|..];
        WholePacketStep(hash, packets[0], tail);
        if tail == [] {
          LastPacket(hash, packets, future);
        } else {
          ProcessPrefix(hash, packets[1..], tail, future);
          DeliversFirst(hash, packets, future, Process(hash, tail).0, Process(hash, tail).1);
        }
      }
    }
  }

  lemma LastPacket(hash: Digest, packets: seq<Packet>, future: seq<Byte>)
    requires packets != [] && [] + future == EncodeAll(hash, packets[1..])
    ensures Delivers(hash, packets, future, ([packets[0]], []))
  {
    assert packets[1..] != [] ==> |EncodeAll(hash, packets[1..])| >= PACKET_HEADER_SIZE;
    assert future == [] ==> packets[1..] == [];
  }

  /** Any chunking, any interleaving of `process` calls ending in one: exactly the original packets. */
  lemma {:induction false} Reassembly(hash: Digest, s: StreamState, ops: seq<StreamOp>, packets: seq<Packet>)
    requires AllSendable(packets)
    requires ops != [] && ops[|ops| - 1] == ProcessNow
    requires WithinCapacity(hash, s, ops)
    requires s.bytes + Chunks(ops) == EncodeAll(hash, packets)
    ensures Run(hash, s, ops) == (packets, s.(bytes := []))
    decreases |ops|
  {
    hide Process, EncodeAll;
    var later := Chunks(ops[1..]);
    match ops[0]
    case Receive(chunk) =>
      Regroup(s.bytes, chunk, [], later);
      Reassembly(hash, s.(bytes := s.bytes + chunk), ops[1..], packets);
    case ProcessNow =>
      assert Chunks(ops) == later;
      ProcessPrefix(hash, packets, s.bytes, later);
      var (done, rest) := Process(hash, s.bytes);
      assert done + packets[|done|..] == packets;
      if |ops| == 1 {
        assert later == [];
        assert done == packets;
        assert done + [] == done;
      } else {
        Reassembly(hash, s.(bytes := rest), ops[1..], packets[|done|..]);
      }
  }

  // ---------------------------------------------------------- malformed input

  /** What the last iteration of a `process` call looks at. */
  function LastInput(hash: Digest, bytes: seq<Byte>): seq<Byte>
    decreases |bytes|
  {
    var round := ProcessStep(hash, bytes);
    if round.more then LastInput(hash, round.bytes) else bytes
  }

  /**
  What any `process` call on any bytes leaves behind: an incomplete packet, or
  nothing, or, when a packet passed its checksum and then failed to decode, as
  many zero bytes as were unread at the failure.
   */
  lemma {:induction false} ProcessEnding(hash: Digest, bytes: seq<Byte>)
    ensures var last := LastInput(hash, bytes);
      var decoded := DecodePacket(hash, last, last);
      Process(hash, bytes).1 ==
        if !Complete(last) then last
        else if ValidatePacket(hash, last, last).Err? || decoded.result.Ok? then []
        else Zeros(|decoded.rest|)
    decreases |bytes|
  {
    var round := ProcessStep(hash, bytes);
    if round.more {
      ProcessEnding(hash, round.bytes);
    } else if Complete(bytes) && ValidatePacket(hash, bytes, bytes).Ok? {
      assert |DecodePacket(hash, bytes, bytes).rest| < |bytes|;
    }
  }

  /** When a `process` call leaves the stream empty: a checksum failure always does, a decode failure may. */
  lemma EmptiesIff(hash: Digest, bytes: seq<Byte>)
    ensures var last := LastInput(hash, bytes);
      var decoded := DecodePacket(hash, last, last);
      Process(hash, bytes).1 == [] <==>
        if !Complete(last) then last == []
        else ValidatePacket(hash, last, last).Err? || decoded.result.Ok? || decoded.rest == []
  {
    ProcessEnding(hash, bytes);
  }

  /** After a call that leaves the stream empty, by whatever failure, it behaves like a fresh one. */
  lemma Recovery(hash: Digest, s: StreamState, ops: seq<StreamOp>, packets: seq<Packet>)
    requires Process(hash, s.bytes).1 == []
    requires AllSendable(packets)
    requires ops != [] && ops[|ops| - 1] == ProcessNow
    requires Chunks(ops) == EncodeAll(hash, packets)
    requires WithinCapacity(hash, s.(bytes := []), ops)
    ensures WithinCapacity(hash, s, [ProcessNow] + ops)
    ensures Run(hash, s, [ProcessNow] + ops) == (Process(hash, s.bytes).0 + packets, s.(bytes := []))
  {
    hide EncodeAll, Process;
    assert ([ProcessNow] + ops)[1..] == ops;
    assert [] + Chunks(ops) == Chunks(ops);
    Reassembly(hash, s.(bytes := []), ops, packets);
  }

  /** A frame that fails its checksum takes everything buffered with it. */
  lemma BadFrameLosesAll(hash: Digest, bytes: seq<Byte>)
    requires Complete(bytes) && ValidatePacket(hash, bytes, bytes).Err?
    ensures Process(hash, bytes) == ([], [])
  {
    hide ValidatePacket;
  }

  /** A declared size of 4 or less leaves no content, and no such size is the checksum of no content. */
  lemma TinySizeFails(hash: Digest, bytes: seq<Byte>)
    requires |bytes| >= PACKET_HEADER_SIZE && |bytes| < 0x8000_0000_0000_0000
    requires ReadWord(bytes) <= CHECKSUM_SIZE
    ensures Complete(bytes) && ValidatePacket(hash, bytes, bytes).Err?
  {
    var length := ContentLength(ReadWord(bytes));
    assert ReadSpan(bytes, length) == [];
    assert AfterSpan(bytes, length) == bytes;
  }

  lemma SizeBehindManyZeros(z: nat, next: seq<Byte>)
    requires z >= 4
    ensures ReadWord(Zeros(z) + next) == 0
  {
    assert (Zeros(z) + next)[..4] == Zeros(4);
    FromZeros(4);
  }

  /** Behind fewer than four zero bytes the size field is read shifted: its low bytes are cut off. */
  lemma SizeBehindFewZeros(z: nat, size: Word, tail: seq<Byte>)
    requires z <= 4
    ensures ReadWord(Zeros(z) + (ToBytes(4, size) + tail)) == HighPart(size, z)
  {
    TakeAcross(Zeros(z), ToBytes(4, size), tail, 4);
    LeadingBytes(4, size, z);
    ZerosInFront(z, ToBytes(4 - z, HighPart(size, z)));
    hide Zeros, ToBytes, HighPart;
    PowSizes();
    HighPartBound(4, size, z);
    FromToBytes(4 - z, HighPart(size, z));
  }

  /** Four or more leading zero bytes read as a packet of size 0: everything buffered behind them is lost. */
  lemma ZerosSwallow(hash: Digest, z: nat, behind: seq<Byte>)
    requires z >= 4 && z + |behind| >= PACKET_HEADER_SIZE
    requires z + |behind| < 0x8000_0000_0000_0000
    ensures Process(hash, Zeros(z) + behind) == ([], [])
  {
    SizeBehindManyZeros(z, behind);
    TinySizeFails(hash, Zeros(z) + behind);
    BadFrameLosesAll(hash, Zeros(z) + behind);
  }

  /**
  A packet behind z leftover zero bytes is framed by whatever size they make of
  its first bytes; here the frame so read happens to pass its checksum.
   */
  predicate Misread(hash: Digest, z: nat, next: seq<Byte>) {
    var frame := Zeros(z) + next;
    z > 0 && ValidatePacket(hash, frame, frame).Ok?
  }

  /** It never happens behind four zero bytes or more, nor to a packet below 1280 bytes. */
  lemma ShortIsNotMisread(hash: Digest, z: nat, messages: Packet)
    requires Sendable(messages) && z + PacketSize(messages) < 0x8000_0000_0000_0000
    requires z >= 4 || PacketSize(messages) < 1280
    ensures !Misread(hash, z, EncodePacket(hash, messages))
  {
    if z > 0 {
      var next := EncodePacket(hash, messages);
      if z >= 4 {
        SizeBehindManyZeros(z, next);
      } else {
        PacketParts(hash, messages, []);
        assert next + [] == next;
        SizeBehindFewZeros(z, PacketSize(messages), next[4..]);
        assert HighPart(PacketSize(messages), z) <= 4;
      }
      TinySizeFails(hash, Zeros(z) + next);
    }
  }

  /** What a `process` call makes of leftover zero bytes and one packet behind them. */
  lemma PacketBehindZeros(hash: Digest, z: nat, messages: Packet)
    requires Sendable(messages) && z + PacketSize(messages) < 0x8000_0000_0000_0000
    requires !Misread(hash, z, EncodePacket(hash, messages))
    ensures Process(hash, Zeros(z) + EncodePacket(hash, messages)) == (if z == 0 then [messages] else [], [])
  {
    var next := EncodePacket(hash, messages);
    var frame := Zeros(z) + next;
    if z == 0 {
      assert frame == next + [];
      WholePacketStep(hash, messages, []);
    } else {
      if z >= 4 {
        SizeBehindManyZeros(z, next);
      } else {
        PacketParts(hash, messages, []);
        assert next + [] == next;
        SizeBehindFewZeros(z, PacketSize(messages), next[4..]);
      }
      BadFrameLosesAll(hash, frame);
    }
  }

  /** A packet passed its checksum and then failed to decode. */
  predicate FailsInDecode(hash: Digest, last: seq<Byte>) {
    Complete(last) && ValidatePacket(hash, last, last).Ok? && DecodePacket(hash, last, last).result.Err?
  }

  /**
  After a decode failure behind a good checksum the next packet is delivered iff
  the failure left nothing unread; otherwise it is lost. That holds for every
  packet below 1280 bytes, for every packet after four or more unread bytes, and
  else unless the shifted frame passes its checksum by chance.
   */
  lemma NextAfterBadDecode(hash: Digest, bytes: seq<Byte>, messages: Packet)
    requires FailsInDecode(hash, LastInput(hash, bytes)) && Sendable(messages)
    requires var last := LastInput(hash, bytes);
      |DecodePacket(hash, last, last).rest| + PacketSize(messages) < 0x8000_0000_0000_0000
    ensures var last := LastInput(hash, bytes);
      var unread := |DecodePacket(hash, last, last).rest|;
      var next := EncodePacket(hash, messages);
      !Misread(hash, unread, next) || PacketSize(messages) < 1280 || unread >= 4 ==>
        Process(hash, Process(hash, bytes).1 + next) == (if unread == 0 then [messages] else [], [])
  {
    var last := LastInput(hash, bytes);
    var unread := |DecodePacket(hash, last, last).rest|;
    var next := EncodePacket(hash, messages);
    ProcessEnding(hash, bytes);
    hide LastInput, DecodePacket, ValidatePacket, EncodePacket, Process, Misread;
    assert Zeros(0) == [];
    if PacketSize(messages) < 1280 || unread >= 4 {
      ShortIsNotMisread(hash, unread, messages);
    }
    if !Misread(hash, unread, next) {
      PacketBehindZeros(hash, unread, messages);
    }
  }

  /** Four or more unread bytes take any next delivery down, whole packet or not. */
  lemma BadDecodeLosesNext(hash: Digest, bytes: seq<Byte>, next: seq<Byte>)
    requires FailsInDecode(hash, LastInput(hash, bytes))
    requires |DecodePacket(hash, LastInput(hash, bytes), LastInput(hash, bytes)).rest| >= 4
    requires PACKET_HEADER_SIZE <= |next|
    requires |DecodePacket(hash, LastInput(hash, bytes), LastInput(hash, bytes)).rest| + |next| < 0x8000_0000_0000_0000
    ensures Process(hash, Process(hash, bytes).1 + next) == ([], [])
  {
    ProcessEnding(hash, bytes);
    var last := LastInput(hash, bytes);
    ZerosSwallow(hash, |DecodePacket(hash, last, last).rest|, next);
  }

  // Three concrete packets, correctly checksummed, that fail in decoding.

  /** A frame with a correct size, some message count and some message bytes. */
  function Frame(hash: Digest, count: Short, body: seq<Byte>): seq<Byte> {
    var content := ToBytes(4, |body| + PACKET_HEADER_SIZE) + (ToBytes(2, count) + body);
    content + ToBytes(4, hash(content))
  }

  /** The checksum of a frame, as the decoder sees it behind the message bytes. */
  function FrameChecksum(hash: Digest, count: Short, body: seq<Byte>): seq<Byte> {
    ToBytes(4, hash(ToBytes(4, |body| + PACKET_HEADER_SIZE) + (ToBytes(2, count) + body)))
  }

  /** A frame cut at its size field and at its checksum. */
  lemma FrameParts(hash: Digest, count: Short, body: seq<Byte>)
    requires |body| < 1000
    ensures var bytes := Frame(hash, count, body);
      && |bytes| == ReadWord(bytes) == |body| + PACKET_HEADER_SIZE
      && bytes == ToBytes(4, |bytes|) + (ToBytes(2, count) + (body + FrameChecksum(hash, count, body)))
      && ValidatePacket(hash, bytes, bytes) == Ok(())
  {
    var size := |body| + PACKET_HEADER_SIZE;
    var checksum := FrameChecksum(hash, count, body);
    var content := ToBytes(4, size) + (ToBytes(2, count) + body);
    var bytes := Frame(hash, count, body);
    var afterSize := ToBytes(2, count) + (body + checksum);
    assert bytes == content + checksum == ToBytes(4, size) + afterSize;
    ReadBackWord(size, afterSize);
    assert bytes[..size - 4] == content && bytes[size - 4..] == checksum;
    ReadBackWord(hash(content), []);
    assert checksum + [] == checksum;
  }

  /** When the messages of a frame do not decode, one `process` call ends in just that failure. */
  lemma FrameFails(hash: Digest, count: Short, body: seq<Byte>, error: Error, rest: seq<Byte>)
    requires |body| < 1000
    requires DecodeMessages(body + FrameChecksum(hash, count, body), count) == Decoded(Err(error), rest)
    ensures var bytes := Frame(hash, count, body);
      && LastInput(hash, bytes) == bytes && FailsInDecode(hash, bytes)
      && DecodePacket(hash, bytes, bytes).rest == rest
      && Process(hash, bytes) == ([], Zeros(|rest|))
  {
    var bytes := Frame(hash, count, body);
    FrameParts(hash, count, body);
    var afterCount := body + FrameChecksum(hash, count, body);
    ReadBackWord(|bytes|, ToBytes(2, count) + afterCount);
    ReadBackShort(count, afterCount);
    hide ToBytes, FrameChecksum, ValidatePacket, Frame, DecodeMessages;
    assert DecodePacket(hash, bytes, bytes) == Decoded(Err(error), rest);
    hide DecodePacket;
    assert !ProcessStep(hash, bytes).more;
    ProcessEnding(hash, bytes);
  }

  lemma DecodeHeaderThenBody(size: Word, kind: Short, body: seq<Byte>)
    ensures DecodeMessage(ToBytes(4, size) + (ToBytes(2, kind) + body)) ==
      if kind == DISCOVERY_TYPE then DecodeDiscovery(body)
      else if kind == DATA_TYPE then DecodeData(body)
      else Decoded(Err(UnknownType(kind)), body)
  {
    ReadBackWord(size, ToBytes(2, kind) + body);
    ReadBackShort(kind, body);
    hide ToBytes, DecodeDiscovery, DecodeData;
  }

  /** A first message that decodes, and too few bytes left for the header of a second. */
  lemma SecondHeaderMissing(bytes: seq<Byte>, first: Message, rest: seq<Byte>)
    requires DecodeMessage(bytes) == Decoded(Ok(first), rest) && |rest| < MESSAGE_HEADER_SIZE
    ensures DecodeMessages(bytes, 2) == Decoded(Err(MessageHeaderMissing), rest)
  {
    assert DecodeMessage(rest) == Decoded(Err(MessageHeaderMissing), rest);
    hide DecodeMessage;
    assert DecodeMessages(rest, 1) == Decoded(Err(MessageHeaderMissing), rest);
  }

  /** One message of the undecoded type 3. */
  function CommandBody(): seq<Byte> {
    ToBytes(4, 6) + ToBytes(2, 3)
  }

  /** A data message whose length is one too large, in front of a second message that is not there. */
  function OverlongData(): seq<Byte> {
    ToBytes(4, 11) + (ToBytes(2, DATA_TYPE) + (ToBytes(2, 7) + (ToBytes(2, 2) + [9])))
  }

  /** A listed node with two jumps too many, in front of a second message that is not there. */
  function OverlongNode(): seq<Byte> {
    ToBytes(4, 18) + (ToBytes(2, DISCOVERY_TYPE) + (ToBytes(2, 7) + (ToBytes(2, 1)
      + (ToBytes(2, 8) + (ToBytes(4, 5) + ToBytes(2, 2))))))
  }

  lemma CommandBodyFails(checksum: seq<Byte>)
    ensures DecodeMessages(CommandBody() + checksum, 1) == Decoded(Err(UnknownType(3)), checksum)
  {
    var bytes := CommandBody() + checksum;
    assert bytes == ToBytes(4, 6) + (ToBytes(2, 3) + checksum);
    DecodeHeaderThenBody(6, 3, checksum);
    hide DecodeMessage;
  }

  lemma DecodeDataFields(identifier: Short, size: Short, data: seq<Byte>)
    ensures DecodeData(ToBytes(2, identifier) + (ToBytes(2, size) + data))
         == Decoded(Ok(Data(identifier, ReadSpan(data, size))), AfterSpan(data, size))
  {
    ReadBackShort(identifier, ToBytes(2, size) + data);
    ReadBackShort(size, data);
    hide ToBytes, ReadShort;
  }

  lemma OverlongDataBytes(checksum: seq<Byte>)
    ensures OverlongData() + checksum ==
      ToBytes(4, 11) + (ToBytes(2, DATA_TYPE) + (ToBytes(2, 7) + (ToBytes(2, 2) + ([9] + checksum))))
  {
    var (a, b, c, d) := (ToBytes(4, 11), ToBytes(2, DATA_TYPE), ToBytes(2, 7), ToBytes(2, 2));
    hide ToBytes;
    MoveTail(a, b + (c + (d + [9])), checksum);
    MoveTail(b, c + (d + [9]), checksum);
    MoveTail(c, d + [9], checksum);
    MoveTail(d, [9], checksum);
  }

  lemma MoveTail(a: seq<Byte>, b: seq<Byte>, tail: seq<Byte>)
    ensures a + b + tail == a + (b + tail)
  {}

  lemma OverlongDataFails(checksum: seq<Byte>)
    requires |checksum| == 4
    ensures DecodeMessages(OverlongData() + checksum, 2) == Decoded(Err(MessageHeaderMissing), checksum[1..])
  {
    var data := [9] + checksum;
    var body := ToBytes(2, 7) + (ToBytes(2, 2) + data);
    var bytes := ToBytes(4, 11) + (ToBytes(2, DATA_TYPE) + body);
    OverlongDataBytes(checksum);
    assert data[2..] == checksum[1..];
    hide ToBytes, OverlongData, DecodeMessage, DecodeMessages, DecodeData, ReadSpan;
    DecodeHeaderThenBody(11, DATA_TYPE, body);
    DecodeDataFields(7, 2, data);
    SecondHeaderMissing(bytes, Data(7, ReadSpan(data, 2)), checksum[1..]);
  }

  /** The count of a list with one node that declares two jumps, when only four bytes are behind it. */
  lemma DecodeShortNode(identifier: Short, address: Word, jumps: seq<Byte>)
    requires |jumps| == 4
    ensures DecodeNodes(ToBytes(2, identifier) + (ToBytes(4, address) + (ToBytes(2, 2) + jumps)), 1).1 == []
  {
    var afterAddress := ToBytes(2, 2) + jumps;
    var afterId := ToBytes(4, address) + afterAddress;
    ReadBackShort(identifier, afterId);
    ReadBackWord(address, afterAddress);
    ReadBackShort(2, jumps);
    hide ToBytes, ReadShort, ReadWord;
    assert DecodeJumps(AfterInt(jumps, 2), 1).1 == [];
    assert DecodeJumps(jumps, 2).1 == [];
    assert DecodeNode(ToBytes(2, identifier) + afterId).1 == [];
  }

  lemma DecodeDiscoveryFields(identifier: Short, count: Short, nodes: seq<Byte>)
    ensures var (list, rest) := DecodeNodes(nodes, count);
      DecodeDiscovery(ToBytes(2, identifier) + (ToBytes(2, count) + nodes))
        == Decoded(Ok(Discovery(identifier, list)), rest)
  {
    ReadBackShort(identifier, ToBytes(2, count) + nodes);
    ReadBackShort(count, nodes);
    hide ToBytes, ReadShort, DecodeNodes;
  }

  lemma OverlongNodeBytes(checksum: seq<Byte>)
    ensures OverlongNode() + checksum ==
      ToBytes(4, 18) + (ToBytes(2, DISCOVERY_TYPE) + (ToBytes(2, 7) + (ToBytes(2, 1)
        + (ToBytes(2, 8) + (ToBytes(4, 5) + (ToBytes(2, 2) + checksum))))))
  {
    var (a, b, c, d) := (ToBytes(4, 18), ToBytes(2, DISCOVERY_TYPE), ToBytes(2, 7), ToBytes(2, 1));
    var (e, f, g) := (ToBytes(2, 8), ToBytes(4, 5), ToBytes(2, 2));
    hide ToBytes;
    MoveTail(a, b + (c + (d + (e + (f + g)))), checksum);
    MoveTail(b, c + (d + (e + (f + g))), checksum);
    MoveTail(c, d + (e + (f + g)), checksum);
    MoveTail(d, e + (f + g), checksum);
    MoveTail(e, f + g, checksum);
    MoveTail(f, g, checksum);
  }

  lemma OverlongNodeFails(checksum: seq<Byte>)
    requires |checksum| == 4
    ensures DecodeMessages(OverlongNode() + checksum, 2) == Decoded(Err(MessageHeaderMissing), [])
  {
    var nodes := ToBytes(2, 8) + (ToBytes(4, 5) + (ToBytes(2, 2) + checksum));
    var body := ToBytes(2, 7) + (ToBytes(2, 1) + nodes);
    OverlongNodeBytes(checksum);
    DecodeHeaderThenBody(18, DISCOVERY_TYPE, body);
    DecodeDiscoveryFields(7, 1, nodes);
    DecodeShortNode(8, 5, checksum);
    hide ToBytes, OverlongNode, DecodeMessage, DecodeMessages, DecodeNodes, DecodeDiscovery;
    SecondHeaderMissing(OverlongNode() + checksum, Discovery(7, DecodeNodes(nodes, 1).0), []);
  }

  /** An unknown message type leaves the four checksum bytes unread. */
  lemma CommandPacketLosesNext(hash: Digest, messages: Packet)
    requires Sendable(messages)
    ensures Process(hash, Frame(hash, 1, CommandBody())) == ([], Zeros(4))
    ensures Process(hash, Zeros(4) + EncodePacket(hash, messages)) == ([], [])
  {
    var checksum := FrameChecksum(hash, 1, CommandBody());
    CommandBodyFails(checksum);
    hide Process, Frame, FrameChecksum, DecodeMessages, EncodePacket;
    FrameFails(hash, 1, CommandBody(), UnknownType(3), checksum);
    ZerosSwallow(hash, 4, EncodePacket(hash, messages));
  }

  /** A data message that eats one checksum byte leaves three unread. */
  lemma OverlongDataLosesNext(hash: Digest, messages: Packet)
    requires Sendable(messages) && PacketSize(messages) < 1280
    ensures Process(hash, Frame(hash, 2, OverlongData())) == ([], Zeros(3))
    ensures Process(hash, Zeros(3) + EncodePacket(hash, messages)) == ([], [])
  {
    var checksum := FrameChecksum(hash, 2, OverlongData());
    OverlongDataFails(checksum);
    hide Process, Frame, FrameChecksum, DecodeMessages, EncodePacket, Misread;
    FrameFails(hash, 2, OverlongData(), MessageHeaderMissing, checksum[1..]);
    ShortIsNotMisread(hash, 3, messages);
    PacketBehindZeros(hash, 3, messages);
  }

  /** A node that eats the whole checksum leaves nothing unread, and the next packet arrives. */
  lemma OverlongNodeKeepsNext(hash: Digest, messages: Packet)
    requires Sendable(messages)
    ensures Process(hash, Frame(hash, 2, OverlongNode())) == ([], [])
    ensures Process(hash, [] + EncodePacket(hash, messages)) == ([messages], [])
  {
    var checksum := FrameChecksum(hash, 2, OverlongNode());
    OverlongNodeFails(checksum);
    hide Process, Frame, FrameChecksum, DecodeMessages, EncodePacket;
    FrameFails(hash, 2, OverlongNode(), MessageHeaderMissing, []);
    assert Zeros(0) == [];
    PacketBehindZeros(hash, 0, messages);
  }

  // ----------------------------------------------------------- the capacity

  /** A chunk that overfills the vector loses itself and everything buffered before it. */
  lemma OverfullLosesAll(hash: Digest, s: StreamState, chunk: seq<Byte>, s': StreamState)
    requires Received(s, chunk, s')
    requires |chunk| + |s.bytes| > s.capacity
    requires 4 <= |chunk| + |s.bytes| < 0x1000_0000_0000_0000
    ensures Process(hash, s'.bytes) == ([], [])
  {
    var needed := |chunk| + |s.bytes|;
    assert s'.bytes == Zeros(2 * needed) + (s.bytes + chunk);
    ZerosSwallow(hash, 2 * needed, s.bytes + chunk);
  }

  /** One packet in one datagram reaches a fresh stream exactly when it fits the stream's capacity. */
  lemma DatagramDelivered(hash: Digest, capacity: nat, messages: Packet, s': StreamState)
    requires Sendable(messages)
    requires Received(StreamState([], capacity), EncodePacket(hash, messages), s')
    ensures Process(hash, s'.bytes).0 == [messages] <==> PacketSize(messages) <= capacity
  {
    var packet := EncodePacket(hash, messages);
    if |packet| <= capacity {
      assert [] + packet == packet == packet + [];
      WholePacketStep(hash, messages, []);
    } else {
      OverfullLosesAll(hash, StreamState([], capacity), packet, s');
    }
  }

  /** A stream waits until ten bytes and the declared size are there; a size with its sign bit set never comes. */
  lemma CompleteIff(bytes: seq<Byte>)
    requires |bytes| < 0x8000_0000_0000_0000
    ensures Complete(bytes) <==> |bytes| >= 10 && ReadWord(bytes) <= |bytes| && ReadWord(bytes) < 0x8000_0000
  {}

  lemma IncompleteWaits(hash: Digest, bytes: seq<Byte>)
    requires !Complete(bytes)
    ensures Process(hash, bytes) == ([], bytes)
  {
    StepOnIncomplete(hash, bytes);
  }

  /** The bytes of an overfilled vector: twice the needed number of zeros, then everything that was buffered or came. */
  lemma OverfullLayout(s: StreamState, chunk: seq<Byte>, s': StreamState)
    requires Received(s, chunk, s') && |chunk| + |s.bytes| > s.capacity
    ensures var needed := |chunk| + |s.bytes|;
      && |s'.bytes| == 3 * needed && |s'.bytes| <= s'.capacity
      && (forall k :: 0 <= k < 2 * needed ==> s'.bytes[k] == 0)
      && s'.bytes[2 * needed..] == s.bytes + chunk
  {
    var needed := |chunk| + |s.bytes|;
    assert s'.bytes == Zeros(2 * needed) + (s.bytes + chunk);
  }
}
