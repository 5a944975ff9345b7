/**
The cursor buffer and its non-copying reader.

The read functions below are the meaning of a read on the bytes that are still
unread: integer reads that do not fit return 0 and leave the cursor alone, and
`ReadSpan` wants strictly more bytes than it returns.
 */
module Buffers {
  import opened Bytes
  import opened Sequences

  function ReadInt(unread: seq<Byte>, n: nat): nat {
    if |unread| >= n then FromBytes(unread[..n]) else 0
  }

  function AfterInt(unread: seq<Byte>, n: nat): seq<Byte> {
    if |unread| >= n then unread[n..] else unread
  }

  function ReadSpan(unread: seq<Byte>, n: nat): seq<Byte> {
    if |unread| > n then unread[..n] else []
  }

  function AfterSpan(unread: seq<Byte>, n: nat): seq<Byte> {
    if |unread| > n then unread[n..] else unread
  }

  class Buffer {
    var bytes: array<Byte>
    var writeOffset: nat
    var readOffset: nat
    /** The bytes appended so far, and those of them still unread. */
    ghost var written: seq<Byte>
    ghost var unread: seq<Byte>

    /** read cursor <= write cursor <= capacity */
    ghost predicate Valid()
      reads this, bytes
    {
      && readOffset <= writeOffset <= bytes.Length
      && written == bytes[..writeOffset]
      && unread == bytes[readOffset..writeOffset]
    }

    constructor (size: nat)
      ensures Valid() && fresh(bytes)
      ensures bytes.Length == size && written == [] && unread == []
      ensures bytes[..] == Zeros(size)
    {
      bytes := new Byte[size](_ => 0);
      writeOffset, readOffset, written, unread := 0, 0, [], [];
    }

    function Size(): nat
      reads this
    {
      bytes.Length
    }

    function RemainingBytes(): (r: nat)
      requires Valid()
      reads this, bytes
      ensures r == bytes.Length - |written|
    {
      bytes.Length - writeOffset
    }

    function BytesLeftToRead(): (r: nat)
      requires Valid()
      reads this, bytes
      ensures r == |unread|
    {
      if readOffset >= writeOffset then 0 else writeOffset - readOffset
    }

    method Read(n: nat) returns (v: nat)
      requires Valid() && n > 0
      modifies this`readOffset, this`unread
      ensures Valid()
      ensures v == ReadInt(old(unread), n)
      ensures unread == AfterInt(old(unread), n)
      ensures v < Pow256(n)
    {
      v := 0;
      if readOffset >= writeOffset {
        return;
      }
      var remaining := writeOffset - readOffset;
      if remaining >= n {
        v := FromBytes(bytes[readOffset..readOffset + n]);
        assert bytes[readOffset..readOffset + n] == unread[..n];
        FromBytesBound(unread[..n]);
        readOffset, unread := readOffset + n, unread[n..];
      }
    }

    method ReadBuffer(length: nat) returns (span: seq<Byte>)
      requires Valid()
      modifies this`readOffset, this`unread
      ensures Valid()
      ensures span == ReadSpan(old(unread), length)
      ensures unread == AfterSpan(old(unread), length)
    {
      if readOffset >= writeOffset {
        return [];
      }
      var remaining := writeOffset - readOffset;
      if remaining > length {
        span := bytes[readOffset..readOffset + length];
        readOffset, unread := readOffset + length, unread[length..];
      } else {
        span := [];
      }
    }

    /** `append(const buffer_span_t&)`; the integer overloads are `Append` below. */
    method AppendSpan(data: seq<Byte>) returns (ok: bool)
      requires Valid()
      modifies this`writeOffset, this`written, this`unread, bytes
      ensures Valid()
      ensures ok == (|data| <= old(RemainingBytes()))
      ensures ok ==> written == Join(old(written), data) && unread == Join(old(unread), data)
      ensures !ok ==> bytes[..] == old(bytes[..]) && written == old(written) && unread == old(unread)
    {
      if |data| > RemainingBytes() {
        return false;
      }
      var w := writeOffset;
      forall i | 0 <= i < |data| {
        bytes[w + i] := data[i];
      }
      writeOffset := w + |data|;
      JoinIsConcat(written, data);
      JoinIsConcat(unread, data);
      written, unread := written + data, unread + data;
      ok := true;
    }

    method Append(n: nat, v: nat) returns (ok: bool)
      requires Valid()
      modifies this`writeOffset, this`written, this`unread, bytes
      ensures Valid()
      ensures ok == (n <= old(RemainingBytes()))
      ensures ok ==> written == old(written) + ToBytes(n, v)
      ensures !ok ==> bytes[..] == old(bytes[..]) && written == old(written) && unread == old(unread)
    {
      JoinIsConcat(written, ToBytes(n, v));
      ok := AppendSpan(ToBytes(n, v));
    }

    method ResetRead()
      requires Valid()
      modifies this`readOffset, this`unread
      ensures Valid() && unread == written
    {
      readOffset, unread := 0, written;
    }

    method ResetWrite()
      requires Valid()
      modifies this`readOffset, this`writeOffset, this`written, this`unread, bytes
      ensures Valid() && written == [] && bytes[..] == Zeros(bytes.Length)
    {
      writeOffset, readOffset, written, unread := 0, 0, [], [];
      forall i | 0 <= i < bytes.Length {
        bytes[i] := 0;
      }
    }

    /** Both cursors go back to 0, the old content stays in place, new room is zero-filled. */
    method Resize(newSize: nat)
      requires Valid()
      modifies this
      ensures Valid() && written == [] && bytes.Length == newSize && fresh(bytes)
      ensures forall i :: 0 <= i < newSize ==>
        bytes[i] == if i < |old(bytes[..])| then old(bytes[..])[i] else 0
    {
      var was := bytes[..];
      bytes := new Byte[newSize](i => if 0 <= i < |was| then was[i] else 0);
      writeOffset, readOffset, written, unread := 0, 0, [], [];
    }
  }

  /** `read_buffer_t` in its own terms: a value (or span) and the next offset. */
  function SpanReadInt(span: seq<Byte>, offset: nat, n: nat): (nat, nat) {
    if offset + n <= |span| then (FromBytes(span[offset..offset + n]), offset + n) else (0, offset)
  }

  function SpanReadBytes(span: seq<Byte>, offset: nat, n: nat): (seq<Byte>, nat) {
    if offset + n < |span| then (span[offset..offset + n], offset + n) else ([], offset)
  }

  /** `read_buffer_t`: a span owned by someone else and a cursor into it. */
  class ReadBuffer {
    const span: seq<Byte>
    var readOffset: nat

    constructor (span: seq<Byte>)
      ensures this.span == span && readOffset == 0
    {
      this.span := span;
      readOffset := 0;
    }

    function BytesLeftToRead(): nat
      reads this
    {
      if readOffset >= |span| then 0 else |span| - readOffset
    }

    method Read(n: nat) returns (v: nat)
      requires n > 0
      modifies this
      ensures (v, readOffset) == SpanReadInt(span, old(readOffset), n)
    {
      v := 0;
      if readOffset >= |span| {
        return;
      }
      var remaining := |span| - readOffset;
      if remaining >= n {
        v := FromBytes(span[readOffset..readOffset + n]);
        readOffset := readOffset + n;
      }
    }

    method ReadBuffer(length: nat) returns (result: seq<Byte>)
      modifies this
      ensures (result, readOffset) == SpanReadBytes(span, old(readOffset), length)
    {
      if readOffset >= |span| {
        return [];
      }
      var remaining := |span| - readOffset;
      if remaining > length {
        result := span[readOffset..readOffset + length];
        readOffset := readOffset + length;
      } else {
        result := [];
      }
    }

    method ResetRead()
      modifies this
      ensures readOffset == 0
    {
      readOffset := 0;
    }
  }

  datatype ReadOp = Int(size: nat) | Span(length: nat) | Reset

  datatype ReadResult = Value(v: nat, left: nat) | Bytes(span: seq<Byte>, left: nat) | Restarted(left: nat)

  /** One operation of a `buffer_t` holding `written`: its answer and what is unread next. */
  function BufferStep(written: seq<Byte>, unread: seq<Byte>, op: ReadOp): (ReadResult, seq<Byte>) {
    match op
    case Int(n) => var next := AfterInt(unread, n); (Value(ReadInt(unread, n), |next|), next)
    case Span(n) => var next := AfterSpan(unread, n); (Bytes(ReadSpan(unread, n), |next|), next)
    case Reset => (Restarted(|written|), written)
  }

  /** One operation of a `read_buffer_t` over `span`: its answer and the next offset. */
  function SpanStep(span: seq<Byte>, offset: nat, op: ReadOp): (ReadResult, nat) {
    match op
    case Int(n) =>
      var (v, next) := SpanReadInt(span, offset, n);
      (Value(v, if next >= |span| then 0 else |span| - next), next)
    case Span(n) =>
      var (v, next) := SpanReadBytes(span, offset, n);
      (Bytes(v, if next >= |span| then 0 else |span| - next), next)
    case Reset => (Restarted(|span|), 0)
  }

  function BufferRun(written: seq<Byte>, unread: seq<Byte>, ops: seq<ReadOp>): seq<ReadResult>
    decreases |ops|
  {
    if ops == [] then [] else
      var (answer, next) := BufferStep(written, unread, ops[0]);
      [answer] + BufferRun(written, next, ops[1..])
  }

  function SpanRun(span: seq<Byte>, offset: nat, ops: seq<ReadOp>): seq<ReadResult>
    decreases |ops|
  {
    if ops == [] then [] else
      var (answer, next) := SpanStep(span, offset, ops[0]);
      [answer] + SpanRun(span, next, ops[1..])
  }

  lemma SameStep(written: seq<Byte>, offset: nat, op: ReadOp)
    requires offset <= |written|
    ensures var (answer, next) := SpanStep(written, offset, op);
      next <= |written| && BufferStep(written, written[offset..], op) == (answer, written[next..])
  {
    var unread := written[offset..];
    if !op.Reset? {
      var n := if op.Int? then op.size else op.length;
      if offset + n <= |written| {
        assert unread[..n] == written[offset..offset + n];
        assert unread[n..] == written[offset + n..];
      }
    }
  }

  /** The reader can replace the buffer: same values, spans and remaining counts on every run. */
  lemma {:induction false} ReaderReplacesBuffer(written: seq<Byte>, offset: nat, ops: seq<ReadOp>)
    requires offset <= |written|
    ensures SpanRun(written, offset, ops) == BufferRun(written, written[offset..], ops)
    decreases |ops|
  {
    if ops != [] {
      SameStep(written, offset, ops[0]);
      ReaderReplacesBuffer(written, SpanStep(written, offset, ops[0]).1, ops[1..]);
    }
  }
}
