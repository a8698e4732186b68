/**
 * The value-level meaning of a BytesFIFO: what it holds (its unread bytes,
 * oldest first) and how many bytes it may hold, with the effect of each
 * operation written as a function on that value. The class in module Fifo
 * is proved to follow these functions; the properties the test suite relies
 * on (saturation, FIFO order, content-preserving resize) are proved here.
 */
module FifoSpec {

  /** One byte, as stored in the buffer and passed to write/read. */
  newtype byte = x: int | 0 <= x < 256

  function Min(a: int, b: int): int
  {
    if a <= b then a else b
  }

  /** The abstract state: the buffered bytes, oldest first, and the capacity. */
  datatype Buffer = Buffer(contents: seq<byte>, capacity: int)
  {
    /** Capacity is at least one and the occupancy never exceeds it. */
    predicate Valid()
    {
      1 <= capacity && |contents| <= capacity
    }

    function Len(): nat
    {
      |contents|
    }

    function Free(): int
    {
      capacity - |contents|
    }

    predicate IsEmpty()
    {
      contents == []
    }

    predicate IsFull()
    {
      |contents| == capacity
    }
  }

  /** A freshly constructed buffer of the given capacity. */
  function Fresh(capacity: int): (f: Buffer)
    requires capacity >= 1
    ensures f.Valid() && f.capacity == capacity
    ensures f.IsEmpty() && f.Len() == 0 && f.Free() == capacity && !f.IsFull()
  {
    Buffer([], capacity)
  }

  /**
   * How many leading bytes of `data` fit: all of them if there is room,
   * otherwise exactly the free space.
   */
  function Accepted(free: nat, data: seq<byte>): (k: nat)
    ensures k <= |data| && k <= free
    ensures k == |data| || k == free
  {
    if |data| <= free then |data| else free
  }

  datatype WriteResult = WriteResult(fifo: Buffer, written: nat)

  /**
   * write(data): append the leading bytes that fit, never evicting anything
   * already buffered, and report how many were taken.
   */
  function Write(f: Buffer, data: seq<byte>): (r: WriteResult)
    requires f.Valid()
    ensures r.fifo.Valid() && r.fifo.capacity == f.capacity
    ensures r.written <= |data| && r.written <= f.Free()
    ensures r.fifo.contents == f.contents + data[..r.written]
    ensures r.written == |data| || r.fifo.IsFull()
    ensures f.IsFull() ==> r.written == 0 && r.fifo == f
  {
    var k := Accepted(f.Free(), data);
    WriteResult(Buffer(f.contents + data[..k], f.capacity), k)
  }

  /**
   * How many bytes read(n) takes out of `len` buffered bytes: a negative
   * request means "everything", otherwise the request capped by `len`.
   */
  function ReadCount(n: int, len: nat): (k: nat)
    ensures k <= len
    ensures n < 0 ==> k == len
    ensures n >= 0 ==> k <= n && (k == n || k == len)
  {
    if n < 0 then len else Min(n, len)
  }

  datatype ReadResult = ReadResult(fifo: Buffer, data: seq<byte>)

  /** read(n): remove and return the oldest ReadCount(n, len) bytes. */
  function Read(f: Buffer, n: int): (r: ReadResult)
    requires f.Valid()
    ensures r.fifo.Valid() && r.fifo.capacity == f.capacity
    ensures r.data + r.fifo.contents == f.contents
    ensures n < 0 ==> r.data == f.contents && r.fifo.IsEmpty()
    ensures n >= 0 ==> |r.data| <= n && (|r.data| == n || r.fifo.IsEmpty())
    ensures n == 0 ==> r.data == [] && r.fifo == f
    ensures f.IsEmpty() ==> r.data == [] && r.fifo == f
  {
    var k := ReadCount(n, |f.contents|);
    ReadResult(Buffer(f.contents[k..], f.capacity), f.contents[..k])
  }

  datatype Option<T> = None | Some(value: T)

  /**
   * resize(c): rejected (None, the ValueError case) when c < 1 or c is less
   * than the occupancy; otherwise the same bytes in the same order under the
   * new capacity.
   */
  function Resize(f: Buffer, c: int): (r: Option<Buffer>)
    requires f.Valid()
    ensures r.Some? <==> 1 <= c && f.Len() <= c
    ensures r.Some? ==> r.value.Valid() && r.value.capacity == c && r.value.contents == f.contents
  {
    if c < 1 || c < |f.contents| then None else Some(Buffer(f.contents, c))
  }

  /** Resizing back to the old capacity restores the buffer exactly. */
  lemma ResizeRoundTrip(f: Buffer, c: int)
    requires f.Valid() && Resize(f, c).Some?
    ensures Resize(Resize(f, c).value, f.capacity) == Some(f)
  {
  }

  /** Two reads of a and b bytes take out the same bytes as one read of a + b. */
  lemma ReadSplit(f: Buffer, a: nat, b: nat)
    requires f.Valid()
    ensures var r1 := Read(f, a); var r2 := Read(r1.fifo, b); var r := Read(f, a + b);
            r1.data + r2.data == r.data && r2.fifo == r.fifo
  {
  }

  /** Writing into an empty buffer and reading everything back returns the accepted prefix. */
  lemma WriteThenReadAll(capacity: int, data: seq<byte>)
    requires capacity >= 1
    ensures var w := Write(Fresh(capacity), data);
            w.written == Min(|data|, capacity) && Read(w.fifo, -1).data == data[..w.written]
  {
  }

  /** One call on the buffer, as the test suite makes them. */
  datatype Op = WriteOp(bytes: seq<byte>) | ReadOp(n: int) | ResizeOp(c: int)

  /**
   * The outcome of a run of calls: the final buffer, every byte the reads
   * returned (in order) and every byte the writes accepted (in order).
   */
  datatype Trace = Trace(last: Buffer, consumed: seq<byte>, accepted: seq<byte>)

  function Step(f: Buffer, op: Op): (t: Trace)
    requires f.Valid()
  {
    match op
    case WriteOp(bytes) =>
      var w := Write(f, bytes);
      Trace(w.fifo, [], bytes[..w.written])
    case ReadOp(n) =>
      var r := Read(f, n);
      Trace(r.fifo, r.data, [])
    case ResizeOp(c) =>
      var r := Resize(f, c);
      Trace(if r.Some? then r.value else f, [], [])
  }

  function Run(f: Buffer, ops: seq<Op>): (t: Trace)
    requires f.Valid()
    ensures t.last.Valid()
    decreases |ops|
  {
    if ops == [] then Trace(f, [], [])
    else
      var s := Step(f, ops[0]);
      assert s.last.Valid() by { StepValid(f, ops[0]); }
      var rest := Run(s.last, ops[1..]);
      Trace(rest.last, s.consumed + rest.consumed, s.accepted + rest.accepted)
  }

  /** Each single call keeps the buffer valid and loses or invents no byte. */
  lemma StepValid(f: Buffer, op: Op)
    requires f.Valid()
    ensures Step(f, op).last.Valid()
    ensures f.contents + Step(f, op).accepted == Step(f, op).consumed + Step(f, op).last.contents
  {
    match op
    case WriteOp(bytes) =>
    case ReadOp(n) =>
    case ResizeOp(c) =>
  }

  /**
   * FIFO order over any run of writes, reads and resizes: the bytes held at
   * the start followed by every accepted byte are exactly the bytes read
   * out followed by the bytes still held. Nothing is dropped, duplicated or
   * reordered, whatever the wrap-around or resizing in between.
   */
  lemma {:induction false} RunIsFifo(f: Buffer, ops: seq<Op>)
    requires f.Valid()
    ensures f.contents + Run(f, ops).accepted == Run(f, ops).consumed + Run(f, ops).last.contents
    decreases |ops|
  {
    if ops != [] {
      var s := Step(f, ops[0]);
      StepValid(f, ops[0]);
      var rest := Run(s.last, ops[1..]);
      RunIsFifo(s.last, ops[1..]);
      assert Run(f, ops) == Trace(rest.last, s.consumed + rest.consumed, s.accepted + rest.accepted);
      Chain(f.contents, s.accepted, rest.accepted, s.consumed, s.last.contents, rest.consumed, rest.last.contents);
    }
  }

  /** Two no-loss steps in a row compose into one: the bookkeeping step of RunIsFifo. */
  lemma Chain<T>(held: seq<T>, in1: seq<T>, in2: seq<T>, out1: seq<T>, mid: seq<T>, out2: seq<T>, left: seq<T>)
    requires held + in1 == out1 + mid
    requires mid + in2 == out2 + left
    ensures held + (in1 + in2) == (out1 + out2) + left
  {
    calc {
      held + (in1 + in2);
      (held + in1) + in2;
      (out1 + mid) + in2;
      out1 + (mid + in2);
      out1 + (out2 + left);
    }
  }

  /**
   * Starting from an empty buffer, whatever the reads returned is a prefix of
   * what the writes accepted, and the buffer holds the rest.
   */
  lemma {:induction false} ReadsArePrefixOfWrites(capacity: int, ops: seq<Op>)
    requires capacity >= 1
    ensures var t := Run(Fresh(capacity), ops);
            t.consumed <= t.accepted && t.accepted == t.consumed + t.last.contents
  {
    RunIsFifo(Fresh(capacity), ops);
    var t := Run(Fresh(capacity), ops);
    assert [] + t.accepted == t.accepted;
  }
}
