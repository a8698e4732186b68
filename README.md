# byte-fifo in Dafny

A model of `fifo.BytesFIFO`, a fixed-capacity circular byte buffer, as its
test suite (`test_fifo.py`) pins it down: a constructor taking a capacity,
`write(data)` that stores only the leading bytes that fit and returns their
number, `read(n)` that removes and returns the oldest `min(n, len)` bytes
(everything for a negative or omitted `n`, nothing for `0`), `resize(c)` that
changes the capacity while keeping the buffered bytes in order and rejects
`c < 1` or `c < len`, and the queries `len`, `free`, `capacity`, `empty`,
`full` and truthiness.

Three modules:

- `FifoSpec` (`fifo_spec.dfy`): the value-level meaning. A `Buffer` is the
  buffered bytes (oldest first) plus the capacity; `Write`, `Read` and
  `Resize` are functions on it whose contracts state saturation, FIFO order,
  the read-count rules and the resize rejection rule. A run of calls (`Op`,
  `Step`, `Run`) is modelled so that FIFO order over any mix of writes, reads
  and resizes is proved once (`RunIsFifo`).
- `Fifo` (`fifo.dfy`): class `BytesFifo`, the buffer itself — an
  `array<byte>` of length capacity, a `start` slot and a `count`, with the
  unread window wrapping past the last slot. A ghost `Contents` is tied to
  the array by `Valid()`; every method is proved to move the abstract state
  exactly as the matching `FifoSpec` function says. `Resize` allocates a new
  array, copies the window in logical order to slot 0, then swaps.
- `FifoScenarios` (`fifo_scenarios.dfy`): each test body replayed against the
  class, with the test's byte strings generalised to any bytes of the same
  length, and the values each test asserts returned as out-parameters and
  stated in `ensures`.

## Model

| member | source | states |
|---|---|---|
| `FifoSpec.Fresh` | test_fifo.py:5-25 | a new buffer of capacity c is valid, empty, has length 0, free space c, and is not full |
| `FifoSpec.Accepted` | test_fifo.py:33-37 | write takes no more than the data and no more than the free space, and takes all of the data unless it fills the free space |
| `FifoSpec.Write` | test_fifo.py:27-37 | the accepted bytes are the leading ones, appended after the old contents (nothing evicted); the count is at most the free space; either all data is taken or the buffer ends full; a full buffer takes 0 and is unchanged |
| `FifoSpec.ReadCount` | test_fifo.py:163-169 | a negative request takes every buffered byte; otherwise at most n bytes, and exactly n unless the buffer runs out |
| `FifoSpec.Read` | test_fifo.py:27-31 | the bytes returned followed by the bytes left are the old contents (oldest out first); negative n drains everything; n >= 0 returns at most n and fewer only if the buffer is emptied; read(0) and a read of an empty buffer return nothing and change nothing |
| `FifoSpec.Resize` | test_fifo.py:79-101 | rejected exactly when c < 1 or c < len; on success the capacity is c and the contents are unchanged |
| `FifoSpec.ResizeRoundTrip` | test_fifo.py:122-127 | a successful resize followed by a resize back to the old capacity restores the buffer exactly |
| `FifoSpec.ReadSplit` | test_fifo.py:27-31 | reading a bytes then b bytes returns the same bytes and leaves the same buffer as reading a + b at once |
| `FifoSpec.WriteThenReadAll` | test_fifo.py:109-113 | into a fresh buffer of capacity c, write accepts min(len(data), c) and read() gives back exactly that prefix |
| `FifoSpec.Run` | test_fifo.py:4-6 | any run of writes, reads and resizes from a valid buffer ends in a valid buffer (1 <= capacity, 0 <= len <= capacity) |
| `FifoSpec.StepValid` | test_fifo.py:45-49 | one write, read or resize keeps the buffer valid and neither loses nor invents a byte |
| `FifoSpec.RunIsFifo` | test_fifo.py:39-49 | over any run of calls, old contents + all accepted bytes == all bytes read + contents left: nothing dropped, duplicated or reordered |
| `FifoSpec.ReadsArePrefixOfWrites` | test_fifo.py:39-49 | from an empty buffer, what the reads returned is a prefix of what the writes accepted, and the buffer holds the rest |
| `Fifo.Wrap` | test_fifo.py:132-133 | position p's slot, p mod capacity, for p below twice the capacity |
| `Fifo.BytesFifo.constructor` | test_fifo.py:5-6 | the new object is valid, owns a fresh array, and its state is the empty buffer of the given capacity |
| `Fifo.BytesFifo.Len` | test_fifo.py:17-22 | len is the number of unread bytes and never exceeds the capacity |
| `Fifo.BytesFifo.Capacity` | test_fifo.py:75-77 | capacity is the abstract capacity and at least 1 |
| `Fifo.BytesFifo.Free` | test_fifo.py:24-25 | free is capacity minus len |
| `Fifo.BytesFifo.Empty` | test_fifo.py:8-15 | empty holds exactly when no byte is buffered, i.e. when free == capacity |
| `Fifo.BytesFifo.Full` | test_fifo.py:61-66 | full holds exactly when len == capacity, i.e. when free == 0 |
| `Fifo.BytesFifo.NonZero` | test_fifo.py:68-73 | bool(f) holds exactly when the buffer is not empty |
| `Fifo.BytesFifo.Write` | test_fifo.py:27-49 | the array write, wrapping at its end, leaves the abstract state and the count exactly as `FifoSpec.Write`; contents become old contents + the accepted prefix; the read cursor does not move |
| `Fifo.BytesFifo.Read` | test_fifo.py:51-59 | the bytes returned and the new abstract state are exactly those of `FifoSpec.Read`; the read cursor advances by the count, wrapping |
| `Fifo.BytesFifo.Resize` | test_fifo.py:129-161 | ok exactly when `FifoSpec.Resize` accepts; on success the new state is its result, in a fresh array starting at slot 0; on failure array, cursor and state are unchanged |
| `FifoScenarios.FreshBuffer` | test_fifo.py:8-25 | a fresh buffer is empty with len 0, free and capacity equal to its size, and reads of 20 and 5 return nothing |
| `FifoScenarios.WriteMakesNonEmpty` | test_fifo.py:13-22 | after writing 3 bytes the buffer is not empty and len is 3 |
| `FifoScenarios.WriteThenRead` | test_fifo.py:27-31 | writing 8 bytes returns 8; reads of 5 give the first 5, the last 3, then nothing |
| `FifoScenarios.WriteToEnd` | test_fifo.py:33-37 | a 16-byte write into capacity 10 returns 10, len is 10, read(50) gives the first 10, then nothing |
| `FifoScenarios.WriteWrap` | test_fifo.py:39-43 | after 5 bytes in and out, an 8-byte write returns 8 and reads back intact |
| `FifoScenarios.WriteReadWrap` | test_fifo.py:45-49 | write 8, read 6, write 8 (past the array's end): read(50) gives the 2 left followed by the 8 new bytes |
| `FifoScenarios.ReadZero` | test_fifo.py:56-59 | read(0) returns nothing and a following read(5) still returns all 5 bytes |
| `FifoScenarios.FullAtCapacity` | test_fifo.py:61-66 | not full when empty or with 9 bytes; full with 10 |
| `FifoScenarios.Truthiness` | test_fifo.py:68-73 | false when empty, true after writing one byte, false after reading it |
| `FifoScenarios.ResizeBelowOne` | test_fifo.py:79-82 | resize to 0, -1 and -100 all fail and the capacity stays 10 |
| `FifoScenarios.ResizeBelowLength` | test_fifo.py:84-89 | with 6 bytes held, resize to 5, 4, 1 and 0 fail, capacity stays 10 and the 6 bytes are still there |
| `FifoScenarios.ResizeEmpty` | test_fifo.py:91-101 | an empty buffer resizes to any c >= 1, stays empty, reads nothing, and reports capacity c |
| `FifoScenarios.ResizeLargerWrite` | test_fifo.py:103-107 | after growing to 20, a 15-byte write is stored whole and read back |
| `FifoScenarios.ResizeLargerFill` | test_fifo.py:109-113 | after growing to 20, a 25-byte write stores the first 20 |
| `FifoScenarios.ResizeRetainContiguous` | test_fifo.py:115-127 | an unwrapped window survives a resize up or down to any capacity that holds it, with len and bytes unchanged |
| `FifoScenarios.ResizeRetainWrapped` | test_fifo.py:129-161 | after 9 bytes in and out, the next write wraps past the array's end; before the resize len is the bytes written and full holds exactly when they are 10; a resize to any capacity that holds it keeps len and the bytes in order, and reading them empties the buffer |
| `FifoScenarios.ReadEverything` | test_fifo.py:163-169 | read(-1) and read() with no argument both return every buffered byte |

## Left out

- `fifo.py` is not part of this model: only its test suite is. The buffer is modelled as a start slot plus a count over one array; no claim is made about that file's own variable names or how it copies bytes (the model copies one byte at a time).
- `Fifo.BytesFifo.constructor`: a capacity of at least 1 is a precondition, because a Dafny constructor cannot fail; what construction does with a smaller capacity is not modelled, and test_fifo.py never builds such a buffer.
- Resize's `ValueError` is modelled as the result `ok == false` (and `None` in `FifoSpec.Resize`), not as an exception.
- `read`'s default is -1 (everything), which returns the same bytes as a default equal to the capacity, since the length never exceeds the capacity.
- Writing into a full buffer refuses the extra bytes and keeps the buffered ones (test_fifo.py:33-37); nothing is evicted.
- Python's `bytes` versus `memoryview`, the `__len__`/`__bool__` protocol and the `unittest` harness are not modelled; `len(f)` and `bool(f)` are the functions `Len` and `NonZero`.
- Thread safety: the buffer is single-threaded; concurrent access is not modelled.
