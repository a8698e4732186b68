/**
 * The test suite's scenarios, replayed against the class. Each method
 * builds a buffer of capacity 10 (the suite's fixture) or the capacity
 * named, makes the same calls as one test, and promises in its ensures
 * what that test asserts. The byte strings of the tests are generalised to
 * any bytes of the same length, so a scenario holds for "hamsalad" as for
 * every other 8-byte input.
 */
module FifoScenarios {
  import FifoSpec
  import Fifo

  type byte = FifoSpec.byte

  /** test_fifo_empty, test_len_zero, test_free, test_read_empty, test_capacity. */
  method FreshBuffer(capacity: int)
    returns (empty: bool, len: nat, free: nat, cap: nat, first: seq<byte>, second: seq<byte>, emptyAfter: bool)
    requires capacity >= 1
    ensures empty && len == 0 && free == capacity && cap == capacity
    ensures first == [] && second == [] && emptyAfter
  {
    var f := new Fifo.BytesFifo(capacity);
    empty, len, free, cap := f.Empty(), f.Len(), f.Free(), f.Capacity();
    first := f.Read(20);
    second := f.Read(5);
    emptyAfter := f.Empty();
  }

  /** test_fifo_not_empty, test_len_positive. */
  method WriteMakesNonEmpty(d: seq<byte>) returns (empty: bool, len: nat)
    requires |d| == 3
    ensures !empty && len == 3
  {
    var f := new Fifo.BytesFifo(10);
    var _ := f.Write(d);
    empty, len := f.Empty(), f.Len();
  }

  /** test_fifo_write_then_read: write 8, then read 5 three times. */
  method WriteThenRead(d: seq<byte>) returns (w: nat, r1: seq<byte>, r2: seq<byte>, r3: seq<byte>)
    requires |d| == 8
    ensures w == 8 && r1 == d[..5] && r2 == d[5..] && r3 == []
  {
    var f := new Fifo.BytesFifo(10);
    w := f.Write(d);
    r1 := f.Read(5);
    r2 := f.Read(5);
    r3 := f.Read(5);
  }

  /** test_write_to_end: a 16-byte write into 10 free slots stores 10. */
  method WriteToEnd(d: seq<byte>) returns (w: nat, len: nat, r1: seq<byte>, r2: seq<byte>)
    requires |d| == 16
    ensures w == 10 && len == 10 && r1 == d[..10] && r2 == []
  {
    var f := new Fifo.BytesFifo(10);
    w := f.Write(d);
    assert f.Contents == d[..10];
    len := f.Len();
    r1 := f.Read(50);
    r2 := f.Read(50);
  }

  /** test_write_wrap: after draining 5 bytes, an 8-byte write wraps. */
  method WriteWrap(a: seq<byte>, b: seq<byte>) returns (w1: nat, r1: seq<byte>, w2: nat, r2: seq<byte>)
    requires |a| == 5 && |b| == 8
    ensures w1 == 5 && r1 == a && w2 == 8 && r2 == b
  {
    var f := new Fifo.BytesFifo(10);
    w1 := f.Write(a);
    r1 := f.Read(5);
    w2 := f.Write(b);
    r2 := f.Read(50);
  }

  /** test_write_read_wrap: a partial read, then a write past the array's end. */
  method WriteReadWrap(a: seq<byte>, b: seq<byte>) returns (w1: nat, r1: seq<byte>, w2: nat, r2: seq<byte>)
    requires |a| == 8 && |b| == 8
    ensures w1 == 8 && r1 == a[..6] && w2 == 8 && r2 == a[6..] + b
  {
    var f := new Fifo.BytesFifo(10);
    w1 := f.Write(a);
    r1 := f.Read(6);
    w2 := f.Write(b);
    r2 := f.Read(50);
  }

  /** test_read_0: read(0) returns nothing and consumes nothing. */
  method ReadZero(d: seq<byte>) returns (w: nat, r0: seq<byte>, r1: seq<byte>)
    requires |d| == 5
    ensures w == 5 && r0 == [] && r1 == d
  {
    var f := new Fifo.BytesFifo(10);
    w := f.Write(d);
    assert f.Contents == d;
    r0 := f.Read(0);
    r1 := f.Read(5);
  }

  /** test_full: full only once the tenth byte is in. */
  method FullAtCapacity(a: seq<byte>, b: seq<byte>) returns (full0: bool, full1: bool, full2: bool)
    requires |a| == 9 && |b| == 1
    ensures !full0 && !full1 && full2
  {
    var f := new Fifo.BytesFifo(10);
    full0 := f.Full();
    var _ := f.Write(a);
    full1 := f.Full();
    var _ := f.Write(b);
    full2 := f.Full();
  }

  /** test_nonzero: bool(f) follows whether a byte is buffered. */
  method Truthiness(d: seq<byte>) returns (b0: bool, b1: bool, b2: bool)
    requires |d| == 1
    ensures !b0 && b1 && !b2
  {
    var f := new Fifo.BytesFifo(10);
    b0 := f.NonZero();
    var _ := f.Write(d);
    b1 := f.NonZero();
    var _ := f.Read(1);
    b2 := f.NonZero();
  }

  /** test_resize_raise_less_than_1: capacities 0, -1 and -100 are rejected. */
  method ResizeBelowOne() returns (ok0: bool, ok1: bool, ok2: bool, cap: nat)
    ensures !ok0 && !ok1 && !ok2 && cap == 10
  {
    var f := new Fifo.BytesFifo(10);
    ok0 := f.Resize(0);
    ok1 := f.Resize(-1);
    ok2 := f.Resize(-100);
    cap := f.Capacity();
  }

  /** test_resize_raise_too_small: with 6 bytes held, 5, 4, 1 and 0 are rejected and nothing changes. */
  method ResizeBelowLength(d: seq<byte>) returns (ok5: bool, ok4: bool, ok1: bool, ok0: bool, cap: nat, rest: seq<byte>)
    requires |d| == 6
    ensures !ok5 && !ok4 && !ok1 && !ok0 && cap == 10 && rest == d
  {
    var f := new Fifo.BytesFifo(10);
    var _ := f.Write(d);
    ok5 := f.Resize(5);
    ok4 := f.Resize(4);
    ok1 := f.Resize(1);
    ok0 := f.Resize(0);
    cap := f.Capacity();
    rest := f.Read();
  }

  /** test_resize_empty_smaller (c = 1) and test_resize_empty_larger (c = 50). */
  method ResizeEmpty(c: int) returns (ok: bool, empty: bool, r: seq<byte>, cap: nat)
    requires c >= 1
    ensures ok && empty && r == [] && cap == c
  {
    var f := new Fifo.BytesFifo(10);
    ok := f.Resize(c);
    empty := f.Empty();
    r := f.Read(1);
    cap := f.Capacity();
  }

  /** test_resize_larger_write: after growing to 20, a 15-byte write fits whole. */
  method ResizeLargerWrite(d: seq<byte>) returns (len: nat, r: seq<byte>)
    requires |d| == 15
    ensures len == 15 && r == d
  {
    var f := new Fifo.BytesFifo(10);
    var _ := f.Resize(20);
    var _ := f.Write(d);
    len := f.Len();
    r := f.Read(f.Len());
  }

  /** test_resize_larger_fill: after growing to 20, a 25-byte write stores 20. */
  method ResizeLargerFill(d: seq<byte>) returns (len: nat, r: seq<byte>)
    requires |d| == 25
    ensures len == 20 && r == d[..20]
  {
    var f := new Fifo.BytesFifo(10);
    var _ := f.Resize(20);
    var _ := f.Write(d);
    len := f.Len();
    r := f.Read(25);
  }

  /** test_resize_larger_retain_contiguous and test_resize_smaller_retain_contiguous. */
  method ResizeRetainContiguous(d: seq<byte>, c: int) returns (ok: bool, len: nat, r1: seq<byte>, r2: seq<byte>)
    requires |d| <= 10 && |d| <= c && 1 <= c
    ensures ok && len == |d| && r1 == d && r2 == []
  {
    var f := new Fifo.BytesFifo(10);
    var _ := f.Write(d);
    ok := f.Resize(c);
    len := f.Len();
    r1 := f.Read(20);
    r2 := f.Read(20);
  }

  /**
   * test_resize_smaller_retain_noncontiguous, test_resize_larger_retain_noncontiguous
   * and test_resize_full_larger_retain_noncontiguous: after 9 bytes in and
   * out, the next write starts in the last slot and wraps to slot 0; a
   * resize to any capacity that holds it keeps the bytes in order.
   */
  method ResizeRetainWrapped(a: seq<byte>, b: seq<byte>, c: int)
    returns (r0: seq<byte>, w: nat, lenBefore: nat, fullBefore: bool, wrapped: bool,
             ok: bool, len: nat, r1: seq<byte>, empty: bool)
    requires |a| == 9 && 2 <= |b| <= 10 && |b| <= c
    ensures r0 == a && w == |b| && lenBefore == |b| && (fullBefore <==> |b| == 10) && wrapped
    ensures ok && len == |b| && r1 == b && empty
  {
    var f := new Fifo.BytesFifo(10);
    var _ := f.Write(a);
    r0 := f.Read(9);
    w := f.Write(b);
    lenBefore, fullBefore := f.Len(), f.Full();
    wrapped := f.start + f.count > f.buf.Length;
    ok := f.Resize(c);
    len := f.Len();
    r1 := f.Read(c);
    empty := f.Empty();
  }

  /** test_read_negative (n = -1) and test_read_default (no argument). */
  method ReadEverything(d: seq<byte>) returns (rNeg: seq<byte>, rDefault: seq<byte>)
    requires |d| == 9
    ensures rNeg == d && rDefault == d
  {
    var f := new Fifo.BytesFifo(10);
    var _ := f.Write(d);
    rNeg := f.Read(-1);
    var g := new Fifo.BytesFifo(10);
    var _ := g.Write(d);
    rDefault := g.Read();
  }
}
