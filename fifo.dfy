/**
 * fifo.BytesFIFO: a fixed-capacity circular byte buffer. The bytes live in
 * one array; `start` is the slot of the oldest unread byte and `count` how
 * many bytes are buffered, so the unread window runs from `start` for
 * `count` slots, wrapping past the last slot to slot 0. Every operation is
 * proved to do to the abstract state what the matching function of module
 * FifoSpec says.
 */
module Fifo {
  import FifoSpec

  type byte = FifoSpec.byte

  /** Position p reduced into 0 .. n-1, for p below 2n: the ring's modular step. */
  function Wrap(p: nat, n: nat): (q: nat)
    requires p < 2 * n
    ensures q < n && q == p % n
  {
    if p < n then p else p - n
  }

  class BytesFifo {
    /** Backing storage; its length is the capacity. */
    var buf: array<byte>
    /** Slot of the oldest unread byte. */
    var start: nat
    /** Number of unread bytes. */
    var count: nat

    /** The unread bytes, oldest first. */
    ghost var Contents: seq<byte>

    /**
     * The object invariant: capacity at least one, 0 <= count <= capacity,
     * and the i-th unread byte sits in slot (start + i) mod capacity.
     */
    ghost predicate Valid()
      reads this, buf
    {
      1 <= buf.Length && start < buf.Length && count <= buf.Length &&
      |Contents| == count &&
      forall i :: 0 <= i < count ==> Contents[i] == buf[Wrap(start + i, buf.Length)]
    }

    /** The abstract value of this buffer. */
    ghost function State(): (f: FifoSpec.Buffer)
      reads this, buf
      requires Valid()
      ensures f.Valid()
    {
      FifoSpec.Buffer(Contents, buf.Length)
    }

    /** BytesFIFO(capacity): an empty buffer of the given capacity. */
    constructor (capacity: int)
      requires capacity >= 1
      ensures Valid() && fresh(buf) && start == 0
      ensures State() == FifoSpec.Fresh(capacity)
    {
      buf := new byte[capacity];
      start, count := 0, 0;
      Contents := [];
    }

    /** len(f): the number of unread bytes. */
    function Len(): (n: nat)
      reads this, buf
      requires Valid()
      ensures n == |Contents| && n <= Capacity()
    {
      count
    }

    /** capacity(): the most bytes the buffer can hold. */
    function Capacity(): (c: nat)
      reads this, buf
      requires Valid()
      ensures c == State().capacity && c >= 1
    {
      buf.Length
    }

    /** free(): how many more bytes a write can accept. */
    function Free(): (k: nat)
      reads this, buf
      requires Valid()
      ensures k == State().Free() && k + Len() == Capacity()
    {
      buf.Length - count
    }

    /** empty(): no unread byte. */
    function Empty(): (e: bool)
      reads this, buf
      requires Valid()
      ensures e <==> Contents == []
      ensures e <==> Free() == Capacity()
    {
      count == 0
    }

    /** full(): as many unread bytes as the capacity. */
    function Full(): (b: bool)
      reads this, buf
      requires Valid()
      ensures b <==> |Contents| == Capacity()
      ensures b <==> Free() == 0
    {
      count == buf.Length
    }

    /** bool(f): true exactly when some byte is buffered. */
    function NonZero(): (b: bool)
      reads this, buf
      requires Valid()
      ensures b <==> !Empty()
      ensures b <==> |Contents| > 0
    {
      count > 0
    }

    /**
     * write(data): store the leading bytes of data that fit in the free
     * space, after the newest byte, wrapping at the end of the array; return
     * how many were stored. Nothing already buffered is overwritten.
     */
    method Write(data: seq<byte>) returns (written: nat)
      requires Valid()
      modifies this, buf
      ensures Valid() && buf == old(buf) && start == old(start)
      ensures written == FifoSpec.Write(old(State()), data).written
      ensures State() == FifoSpec.Write(old(State()), data).fifo
      ensures Contents == old(Contents) + data[..written]
    {
      written := FifoSpec.Accepted(buf.Length - count, data);
      var i := 0;
      while i < written
        invariant 0 <= i <= written
        invariant buf == old(buf) && start == old(start)
        invariant count == old(count) + i
        invariant Valid()
        invariant Contents == old(Contents) + data[..i]
      {
        buf[Wrap(start + count, buf.Length)] := data[i];
        Contents := Contents + [data[i]];
        count := count + 1;
        i := i + 1;
      }
    }

    /**
     * read(n): remove and return the oldest min(n, len) bytes, in the order
     * they were written; a negative n, or none at all, means every byte.
     */
    method Read(n: int := -1) returns (data: seq<byte>)
      requires Valid()
      modifies this
      ensures Valid() && buf == old(buf)
      ensures data == FifoSpec.Read(old(State()), n).data
      ensures State() == FifoSpec.Read(old(State()), n).fifo
      ensures start == Wrap(old(start) + |data|, buf.Length)
    {
      var k := FifoSpec.ReadCount(n, count);
      data := [];
      var i := 0;
      while i < k
        invariant 0 <= i <= k <= old(count)
        invariant buf == old(buf)
        invariant count == old(count) - i
        invariant start == Wrap(old(start) + i, buf.Length)
        invariant Valid()
        invariant data == old(Contents)[..i]
        invariant Contents == old(Contents)[i..]
      {
        data := data + [buf[start]];
        Contents := Contents[1..];
        start := Wrap(start + 1, buf.Length);
        count := count - 1;
        i := i + 1;
      }
      assert old(State()) == FifoSpec.Buffer(old(Contents), buf.Length);
    }

    /**
     * resize(c): fail (the ValueError case, ok == false) with nothing changed
     * when c < 1 or c is below the number of buffered bytes; otherwise move
     * the buffered bytes, in order, to the front of a new array of length c.
     */
    method Resize(c: int) returns (ok: bool)
      requires Valid()
      modifies this
      ensures Valid()
      ensures ok <==> FifoSpec.Resize(old(State()), c).Some?
      ensures ok ==> State() == FifoSpec.Resize(old(State()), c).value
      ensures ok ==> fresh(buf) && start == 0
      ensures !ok ==> buf == old(buf) && start == old(start) && State() == old(State())
    {
      if c < 1 || c < count {
        return false;
      }
      var storage := new byte[c];
      var i := 0;
      while i < count
        modifies storage
        invariant 0 <= i <= count <= c
        invariant forall j :: 0 <= j < i ==> storage[j] == Contents[j]
      {
        storage[i] := buf[Wrap(start + i, buf.Length)];
        i := i + 1;
      }
      buf, start := storage, 0;
      ok := true;
    }
  }
}
