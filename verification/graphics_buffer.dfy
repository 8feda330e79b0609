/**
 * GPU buffers (core/graphics_buffer/graphics_buffer.cpp). A buffer owns one
 * backend buffer, or one per frame in flight when it is double-buffered.
 * The backend buffers are modelled by their bytes; creating one yields a
 * zero-filled buffer of the requested size.
 */
module GraphicsBuffers {
  import opened Bytes

  /** The part of a buffer a write touches. */
  datatype Range = Range(offset: nat, size: nat)

  /**
   * The clamping of SetData (lines 28-29): the offset is cut to the buffer
   * size and the size to what is left after the offset.
   */
  function ClampWrite(offset: nat, size: nat, total: nat): (r: Range)
    ensures r.offset <= total && r.offset + r.size <= total
    ensures r.offset <= offset && r.size <= size
    ensures offset + size <= total ==> r == Range(offset, size)
    ensures offset >= total ==> r.size == 0
    ensures offset <= total && offset + size > total ==> r == Range(offset, total - offset)
  {
    var o := if offset < total then offset else total;
    Range(o, if size < total - o then size else total - o)
  }

  /** Clamping a clamped write changes nothing. */
  lemma ClampIdempotent(offset: nat, size: nat, total: nat)
    ensures var r := ClampWrite(offset, size, total);
      ClampWrite(r.offset, r.size, total) == r
  {
  }

  /** A clamped write is the largest write that starts at the clamped offset and stays inside the buffer. */
  lemma ClampLargest(offset: nat, size: nat, total: nat, k: nat)
    requires k <= size && ClampWrite(offset, size, total).offset + k <= total
    ensures k <= ClampWrite(offset, size, total).size
  {
  }

  function Zeros(n: nat): (r: seq<byte>)
    ensures |r| == n && forall i :: 0 <= i < n ==> r[i] == 0
  {
    seq(n, _ => 0)
  }

  /** `data` stored over `contents` from `at`. */
  function Write(contents: seq<byte>, at: nat, data: seq<byte>): (r: seq<byte>)
    requires at + |data| <= |contents|
    ensures |r| == |contents|
    ensures r[at..at + |data|] == data
    ensures forall i :: 0 <= i < |r| && !(at <= i < at + |data|) ==> r[i] == contents[i]
  {
    contents[..at] + data + contents[at + |data|..]
  }

  /** The index of the backend buffer used in frame `frame`. */
  function CurrentIndex(doubleBuffered: bool, frame: nat): nat
  {
    if doubleBuffered then frame else 0
  }

  /** The number of backend buffers (lines 10-14): all frames when double-buffered, else only the first. */
  function BufferCount(doubleBuffered: bool, framesInFlight: nat): (r: nat)
    requires framesInFlight >= 1
    ensures r >= 1 && r <= framesInFlight
    ensures doubleBuffered ==> r == framesInFlight
    ensures !doubleBuffered ==> r == 1
  {
    if doubleBuffered then framesInFlight else 1
  }

  /**
   * Resize as written copies the old size in bytes into the new buffer
   * (line 47), whatever the new size.
   */
  function CopyLengthAsWritten(oldSize: nat, newSize: nat): nat
  {
    oldSize
  }

  /** Shrinking a 16-byte buffer to 8 bytes copies 16 bytes into an 8-byte buffer. */
  lemma ShrinkCopyOverflows()
    ensures CopyLengthAsWritten(16, 8) > 8
  {
  }

  /** The bytes Resize carries over: the old contents, as far as they fit in the new buffer. */
  function CopyLength(oldSize: nat, newSize: nat): (r: nat)
    ensures r <= oldSize && r <= newSize
    ensures oldSize <= newSize ==> r == oldSize
    ensures newSize <= oldSize ==> r == newSize
  {
    if oldSize <= newSize then oldSize else newSize
  }

  /** A backend buffer after Resize: the carried-over bytes, then zeros. */
  function Resized(b: seq<byte>, newSize: nat): (r: seq<byte>)
    ensures |r| == newSize
    ensures r[..CopyLength(|b|, newSize)] == b[..CopyLength(|b|, newSize)]
  {
    var n := CopyLength(|b|, newSize);
    b[..n] + Zeros(newSize - n)
  }

  /** Growing keeps every old byte in place. */
  lemma GrowKeepsContents(b: seq<byte>, newSize: nat)
    requires |b| <= newSize
    ensures Resized(b, newSize)[..|b|] == b
  {
  }

  class GraphicsBuffer {
    var size: nat
    const doubleBuffered: bool
    const framesInFlight: nat
    /** The backend buffers: index 0, and one per further frame when double-buffered. */
    var buffers: seq<seq<byte>>

    /** Every backend buffer that exists holds exactly `size` bytes. */
    ghost predicate Valid()
      reads this
    {
      framesInFlight >= 1
      && |buffers| == BufferCount(doubleBuffered, framesInFlight)
      && forall i :: 0 <= i < |buffers| ==> |buffers[i]| == size
    }

    /** The constructor (lines 5-15). */
    constructor(size: nat, doubleBuffered: bool, framesInFlight: nat)
      requires framesInFlight >= 1
      ensures Valid()
      ensures this.size == size && this.doubleBuffered == doubleBuffered && this.framesInFlight == framesInFlight
      ensures forall i :: 0 <= i < |buffers| ==> buffers[i] == Zeros(size)
    {
      this.size := size;
      this.doubleBuffered := doubleBuffered;
      this.framesInFlight := framesInFlight;
      var created: seq<seq<byte>> := [];
      var i := 0;
      while i < framesInFlight
        invariant 0 <= i <= framesInFlight
        invariant |created| == if doubleBuffered then i else if i == 0 then 0 else 1
        invariant forall j :: 0 <= j < |created| ==> created[j] == Zeros(size)
      {
        if i == 0 || doubleBuffered {
          created := created + [Zeros(size)];
        }
        i := i + 1;
      }
      buffers := created;
    }

    /**
     * SetData (lines 26-32): the clamped write goes to the backend buffer of
     * the current frame; `data` holds the `size` bytes the caller passes.
     */
    method SetData(data: seq<byte>, offset: nat, size: nat, frame: nat)
      requires Valid() && size <= |data| && frame < framesInFlight
      modifies this
      ensures Valid() && this.size == old(this.size)
      ensures var r := ClampWrite(offset, size, this.size);
        var k := CurrentIndex(doubleBuffered, frame);
        buffers == old(buffers)[k := Write(old(buffers)[k], r.offset, data[..r.size])]
    {
      var r := ClampWrite(offset, size, this.size);
      var k := CurrentIndex(doubleBuffered, frame);
      buffers := buffers[k := Write(buffers[k], r.offset, data[..r.size])];
    }

    /**
     * Resize (lines 34-54): nothing happens for size 0 or the current size;
     * otherwise each backend buffer is replaced by a new one holding the
     * carried-over bytes, and the size changes.
     */
    method Resize(newSize: nat)
      requires Valid()
      modifies this
      ensures Valid()
      ensures newSize == 0 || newSize == old(size) ==> size == old(size) && buffers == old(buffers)
      ensures newSize > 0 && newSize != old(size) ==>
        size == newSize && |buffers| == |old(buffers)|
        && forall i :: 0 <= i < |buffers| ==> buffers[i] == Resized(old(buffers)[i], newSize)
    {
      if newSize > 0 && size != newSize {
        ghost var before := buffers;
        var i := 0;
        while i < framesInFlight
          invariant 0 <= i <= framesInFlight && |buffers| == |before|
          invariant forall j :: 0 <= j < |buffers| ==>
            buffers[j] == if j < i then Resized(before[j], newSize) else before[j]
          invariant !doubleBuffered ==> i <= 1
        {
          if i != 0 && !doubleBuffered {
            break;
          }
          buffers := buffers[i := Resized(buffers[i], newSize)];
          i := i + 1;
        }
        size := newSize;
      }
    }
  }
}

/**
 * A buffer of `capacity` equal slots written round-robin
 * (core/graphics_buffer/ring_buffer.cpp).
 */
module RingBuffers {
  import opened Bytes
  import opened GraphicsBuffers

  /**
   * AlignSize (lines 5-14): rounds `size` up to a multiple of the backend's
   * constant-buffer offset alignment; an alignment of 0 leaves it as is.
   */
  function AlignSize(size: nat, alignment: nat): (r: nat)
    ensures alignment == 0 || size % alignment == 0 ==> r == size
    ensures alignment != 0 ==> r % alignment == 0 && size <= r < size + alignment
  {
    if alignment != 0 && size % alignment != 0 then
      RoundUpFacts(size, alignment);
      (size / alignment + 1) * alignment
    else size
  }

  lemma RoundUpFacts(size: nat, a: nat)
    requires a != 0 && size % a != 0
    ensures var r := (size / a + 1) * a; r % a == 0 && size < r < size + a
  {
    var q := size / a;
    assert size == q * a + size % a;
    assert (q + 1) * a == q * a + a;
    ModOfMultiple(q + 1, a);
  }

  lemma ModOfMultiple(k: nat, a: nat)
    requires a != 0
    ensures (k * a) % a == 0
  {
    ModUnique(k * a, a, k, 0);
  }

  /** The remainder is determined by any decomposition x == q * a + r with 0 <= r < a. */
  lemma ModUnique(x: nat, a: nat, q: nat, r: nat)
    requires a != 0 && x == q * a + r && r < a
    ensures x % a == r && x / a == q
  {
    var q' := x / a;
    var r' := x % a;
    assert x == q' * a + r';
    if q' < q {
      MulMono(q' + 1, q, a);
    } else if q < q' {
      MulMono(q + 1, q', a);
    }
  }

  /** The aligned size is the least multiple of the alignment that holds `size`. */
  lemma AlignSizeLeast(size: nat, alignment: nat, m: nat)
    requires alignment != 0 && m % alignment == 0 && size <= m
    ensures AlignSize(size, alignment) <= m
  {
    var r := AlignSize(size, alignment);
    if r > m {
      MultiplesApart(m, r, alignment);
    }
  }

  lemma MultiplesApart(m: nat, r: nat, a: nat)
    requires a != 0 && m % a == 0 && r % a == 0 && m < r
    ensures m + a <= r
  {
    var p := m / a;
    var q := r / a;
    assert m == p * a && r == q * a;
    assert p < q;
    MulMono(p + 1, q, a);
  }

  lemma MulMono(x: nat, y: nat, a: nat)
    requires x <= y
    ensures x * a <= y * a
  {
  }

  /** Where a write to `slot` at `offset` lands. */
  function WritePosition(elementSize: nat, slot: nat, offset: nat): nat
  {
    elementSize * slot + offset
  }

  /** Writes that fit in their slot touch disjoint parts of the buffer when their slots differ. */
  lemma SlotWritesDisjoint(elementSize: nat, s1: nat, s2: nat, o1: nat, n1: nat, o2: nat, n2: nat)
    requires s1 < s2 && o1 + n1 <= elementSize && o2 + n2 <= elementSize
    ensures WritePosition(elementSize, s1, o1) + n1 <= WritePosition(elementSize, s2, o2)
  {
    MulMono(s1 + 1, s2, elementSize);
    assert elementSize * (s1 + 1) == elementSize * s1 + elementSize;
  }

  /** A write that fits its slot stays inside a buffer of capacity slots. */
  lemma SlotWriteInside(elementSize: nat, capacity: nat, slot: nat, offset: nat, size: nat)
    requires slot < capacity && offset + size <= elementSize
    ensures WritePosition(elementSize, slot, offset) + size <= elementSize * capacity
  {
    MulMono(slot + 1, capacity, elementSize);
    assert elementSize * (slot + 1) == elementSize * slot + elementSize;
  }

  /** The slot the next write goes to (line 25). */
  function NextSlot(current: int, capacity: nat): (r: nat)
    requires capacity > 0 && -1 <= current < capacity
    ensures r < capacity
    ensures current == -1 ==> r == 0
    ensures current + 1 < capacity ==> r == current + 1
    ensures current == capacity - 1 ==> r == 0
  {
    (current + 1) % capacity
  }

  /** The slot after n writes to a fresh ring buffer: the n-th write goes to slot (n - 1) mod capacity. */
  function SlotAfter(n: nat, capacity: nat): (r: int)
    requires capacity > 0
    ensures -1 <= r < capacity
  {
    if n == 0 then -1 else NextSlot(SlotAfter(n - 1, capacity), capacity)
  }

  lemma {:induction false} SlotAfterIsMod(n: nat, capacity: nat)
    requires capacity > 0 && n > 0
    ensures SlotAfter(n, capacity) == (n - 1) % capacity
  {
    if n > 1 {
      SlotAfterIsMod(n - 1, capacity);
      ModSucc(n - 2, capacity);
    }
  }

  /** Adding one after reducing is adding one before. */
  lemma ModSucc(k: nat, c: nat)
    requires c > 0
    ensures (k % c + 1) % c == (k + 1) % c
  {
    var q := k / c;
    var r := k % c;
    assert k == q * c + r;
    if r + 1 < c {
      ModUnique(k + 1, c, q, r + 1);
      ModUnique(r + 1, c, 0, r + 1);
    } else {
      assert k + 1 == (q + 1) * c + 0;
      ModUnique(k + 1, c, q + 1, 0);
      ModUnique(r + 1, c, 1, 0);
    }
  }

  class RingBuffer {
    const elementSize: nat
    const capacity: nat
    var currentOffset: int
    const buffer: GraphicsBuffer

    ghost predicate Valid()
      reads this, buffer
    {
      buffer.Valid() && buffer.size == elementSize * capacity && -1 <= currentOffset < capacity
    }

    /**
     * The constructor (lines 16-21): slots of the aligned element size, a
     * backend buffer for all of them, and no slot written yet.
     */
    constructor(elementSize: nat, elementsCount: nat, alignment: nat, framesInFlight: nat)
      requires framesInFlight >= 1
      ensures Valid() && fresh(buffer)
      ensures this.elementSize == AlignSize(elementSize, alignment) && capacity == elementsCount
      ensures currentOffset == -1 && buffer.size == this.elementSize * capacity
    {
      var aligned := AlignSize(elementSize, alignment);
      this.elementSize := aligned;
      capacity := elementsCount;
      currentOffset := -1;
      buffer := new GraphicsBuffer(aligned * elementsCount, false, framesInFlight);
    }

    /** SetData (lines 23-27): moves to the next slot, then writes at `offset` inside it. */
    method SetData(data: seq<byte>, offset: nat, size: nat, frame: nat)
      requires Valid() && capacity > 0 && size <= |data| && frame < buffer.framesInFlight
      modifies this, buffer
      ensures Valid()
      ensures currentOffset == NextSlot(old(currentOffset), capacity)
      ensures var r := ClampWrite(WritePosition(elementSize, currentOffset, offset), size, buffer.size);
        var k := CurrentIndex(buffer.doubleBuffered, frame);
        buffer.buffers == old(buffer.buffers)[k := Write(old(buffer.buffers)[k], r.offset, data[..r.size])]
    {
      currentOffset := NextSlot(currentOffset, capacity);
      buffer.SetData(data, WritePosition(elementSize, currentOffset, offset), size, frame);
    }
  }
}

/**
 * A uniform buffer of fixed size (core/uniform_block/uniform_block.cpp).
 * Its backend calls are recorded in `calls`.
 */
module UniformBlocks {
  import opened Bytes
  import opened GraphicsBuffers

  /** The backend buffer id 0, GraphicsBackendBuffer::NONE. */
  const NONE: nat := 0

  datatype BackendCall =
    | BindBuffer(buffer: nat)
    | SetBufferData(size: nat)
    | BindBufferRange(binding: int, buffer: nat, offset: nat, size: nat)
    | SetBufferSubData(offset: nat, size: nat)

  /** A call that touches bytes [offset, offset + size) stays below `total`. */
  predicate InsideBlock(c: BackendCall, total: nat)
  {
    match c
    case BindBuffer(_) => true
    case SetBufferData(size) => size == total
    case BindBufferRange(_, _, offset, size) => offset + size <= total
    case SetBufferSubData(offset, size) => offset + size <= total
  }

  class UniformBlock {
    const size: nat
    const buffer: nat
    var contents: seq<byte>
    var calls: seq<BackendCall>

    /** The buffer holds `size` bytes and every call so far stayed inside them. */
    ghost predicate Valid()
      reads this
    {
      |contents| == size && forall i :: 0 <= i < |calls| ==> InsideBlock(calls[i], size)
    }

    /** The constructor (lines 8-15): records the size and allocates that many bytes. */
    constructor(size: nat, buffer: nat)
      ensures Valid() && this.size == size && this.buffer == buffer
      ensures calls == [BindBuffer(buffer), SetBufferData(size), BindBuffer(NONE)]
    {
      this.size := size;
      this.buffer := buffer;
      contents := Zeros(size);
      calls := [BindBuffer(buffer), SetBufferData(size), BindBuffer(NONE)];
    }

    /** Bind (lines 22-27): binds the whole block, [0, size). */
    method Bind(binding: int)
      requires Valid()
      modifies this
      ensures Valid() && contents == old(contents)
      ensures calls == old(calls) + [BindBuffer(buffer), BindBufferRange(binding, buffer, 0, size), BindBuffer(NONE)]
    {
      calls := calls + [BindBuffer(buffer), BindBufferRange(binding, buffer, 0, size), BindBuffer(NONE)];
    }

    /** SetData (lines 29-37): the clamped write, between binding the block and unbinding it. */
    method SetData(data: seq<byte>, offset: nat, size: nat)
      requires Valid() && size <= |data|
      modifies this
      ensures Valid()
      ensures var r := ClampWrite(offset, size, this.size);
        contents == Write(old(contents), r.offset, data[..r.size])
        && calls == old(calls) + [BindBuffer(buffer), SetBufferSubData(r.offset, r.size), BindBuffer(NONE)]
    {
      var r := ClampWrite(offset, size, this.size);
      contents := Write(contents, r.offset, data[..r.size]);
      calls := calls + [BindBuffer(buffer), SetBufferSubData(r.offset, r.size), BindBuffer(NONE)];
    }
  }
}
