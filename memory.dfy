/** The engine's allocators, with addresses as integer offsets: a bump allocator for
    per-frame data, an arena of blocks, a pool of fixed-size slots, and per-subsystem
    budgets. Every allocator keeps allocation statistics. */
module Memory {
  import opened Common

  /** The largest size `Layout::from_size_align(size, 16)` accepts: rounded up to 16 it
      must not exceed `isize::MAX`. */
  const MAX_LAYOUT_SIZE: int := 0x8000_0000_0000_0000 - 16

  predicate IsPowerOfTwo(n: nat)
  {
    if n == 0 then false else if n == 1 then true else n % 2 == 0 && IsPowerOfTwo(n / 2)
  }

  /** The least multiple of `align` that is at least `x`. For a power-of-two `align`
      this is what `(x + align - 1) & !(align - 1)` computes: the mask clears the bits
      below `align`, that is, subtracts the remainder modulo `align`. */
  function AlignUp(x: nat, align: nat): (r: nat)
    requires align >= 1
    ensures r % align == 0 && x <= r < x + align
  {
    var v := x + align - 1;
    var q := v / align;
    DivModUnique(q * align, align, q, 0);
    q * align
  }

  /** Division with remainder is unique. */
  lemma DivModUnique(x: int, a: int, q: int, r: int)
    requires a >= 1 && 0 <= r < a && x == q * a + r
    ensures x / a == q && x % a == r
  {
    var d, m := x / a, x % a;
    assert (q - d) * a == m - r;
    if q - d >= 1 {
      MulAtLeast(q - d, a);
    } else if d - q >= 1 {
      MulAtLeast(d - q, a);
    }
  }

  lemma {:induction false} MulAtLeast(k: int, a: int)
    requires k >= 1 && a >= 1
    ensures k * a >= a
  {
    if k > 1 {
      MulAtLeast(k - 1, a);
      assert k * a == (k - 1) * a + a;
    }
  }

  /** Allocation statistics (`MemoryStats`): bytes currently allocated, the peak of that
      figure, and the number of allocations. The counters are atomics that wrap. */
  class MemoryStats {
    var allocatedBytes: usize
    var peak: usize
    var allocationCount: usize

    /** The peak bounds the current figure. */
    ghost predicate Valid()
      reads this
    {
      allocatedBytes <= peak
    }

    constructor ()
      ensures Valid()
      ensures allocatedBytes == 0 && peak == 0 && allocationCount == 0
    {
      allocatedBytes := 0;
      peak := 0;
      allocationCount := 0;
    }

    /** `record_alloc`: adds `size` to the current figure and one to the count, and
        raises the peak to the new current figure. */
    method RecordAlloc(size: usize)
      modifies this
      ensures allocatedBytes == WrappingAdd(old(allocatedBytes), size)
      ensures allocationCount == WrappingAdd(old(allocationCount), 1)
      ensures peak == Max(old(peak), allocatedBytes)
      ensures Valid()
      ensures old(allocatedBytes) + size < U64_MODULUS ==> allocatedBytes == old(allocatedBytes) + size
    {
      allocatedBytes := WrappingAdd(allocatedBytes, size);
      var newSize := allocatedBytes;
      allocationCount := WrappingAdd(allocationCount, 1);
      if newSize > peak {
        peak := newSize;
      }
    }

    /** `record_dealloc`: lowers the current figure; the peak stays. */
    method RecordDealloc(size: usize)
      modifies this
      ensures allocatedBytes == WrappingSub(old(allocatedBytes), size)
      ensures peak == old(peak) && allocationCount == old(allocationCount)
      ensures old(Valid()) && size <= old(allocatedBytes) ==> Valid() && allocatedBytes == old(allocatedBytes) - size
    {
      allocatedBytes := WrappingSub(allocatedBytes, size);
    }

    method Reset()
      modifies this
      ensures Valid()
      ensures allocatedBytes == 0 && peak == 0 && allocationCount == 0
    {
      allocatedBytes := 0;
      peak := 0;
      allocationCount := 0;
    }
  }

  /** One step of the bump allocator as the source writes it, in release-mode `usize`
      arithmetic: the align-up sum and the end of the allocation wrap modulo 2^64.
      The result is the aligned offset handed out and the new offset. */
  function BumpAsWritten(offset: usize, capacity: usize, size: usize, align: usize): (r: Option<(usize, usize)>)
    requires IsPowerOfTwo(Max(align, 1))
    ensures r.Some? ==> r.value.1 <= capacity
  {
    var a := Max(align, 1);
    var v := WrappingAdd(offset, a - 1);
    var aligned := v - v % a;
    var newOffset := WrappingAdd(aligned, size);
    if newOffset > capacity then None else Some((aligned, newOffset))
  }

  /** The same step in unbounded arithmetic: it fails exactly when the aligned
      allocation does not end within the capacity. */
  function Bump(offset: usize, capacity: usize, size: usize, align: usize): (r: Option<(usize, usize)>)
    requires IsPowerOfTwo(Max(align, 1))
    ensures r.None? <==> AlignUp(offset, Max(align, 1)) + size > capacity
    ensures r.Some? ==> var (aligned, newOffset) := r.value;
      && offset <= aligned && aligned % Max(align, 1) == 0
      && newOffset == aligned + size <= capacity
  {
    var aligned := AlignUp(offset, Max(align, 1));
    if aligned + size > capacity then None else Some((aligned, aligned + size))
  }

  /** Clearing the remainder of `x + a - 1` modulo `a` rounds `x` up to a multiple of `a`. */
  lemma MaskIsAlignUp(x: nat, a: nat)
    requires a >= 1
    ensures var v := x + a - 1; v - v % a == AlignUp(x, a)
  {
    var v := x + a - 1;
    assert v == (v / a) * a + v % a;
  }

  /** When neither sum wraps around, the source's step is the intended one. */
  lemma BumpAsWrittenAgrees(offset: usize, capacity: usize, size: usize, align: usize)
    requires IsPowerOfTwo(Max(align, 1))
    requires offset + Max(align, 1) - 1 < U64_MODULUS
    requires AlignUp(offset, Max(align, 1)) + size < U64_MODULUS
    ensures BumpAsWritten(offset, capacity, size, align) == Bump(offset, capacity, size, align)
  {
    var a := Max(align, 1);
    MaskIsAlignUp(offset, a);
    var aligned := AlignUp(offset, a);
    assert WrappingAdd(aligned, size) == aligned + size;
  }

  /** With the offset at 100 of 1024, a request for 2^64 - 50 bytes wraps the end of the
      allocation around to 50: the source hands out offset 100 although the request
      cannot fit, and moves the offset backwards. */
  lemma BumpAsWrittenAcceptsOversizedRequest()
    ensures BumpAsWritten(100, 1024, U64_MODULUS - 50, 1) == Some((100, 50))
    ensures Bump(100, 1024, U64_MODULUS - 50, 1) == None
  {
    assert AlignUp(100, 1) == 100;
  }

  /** The bump allocator for per-frame data (`FrameAllocator`): allocations advance an
      offset into a block of `capacity` bytes until `reset` frees them all at once. */
  class FrameAllocator {
    const capacity: usize
    var offset: usize
    const stats: MemoryStats

    /** The offset stays within the block, and the bytes handed out since the last reset
        (which never exceed the offset) bound the statistics. */
    ghost predicate Valid()
      reads this, stats
    {
      && offset <= capacity
      && stats.allocatedBytes <= offset
      && stats.Valid() && stats.peak <= capacity
    }

    constructor (capacity: usize)
      requires capacity <= MAX_LAYOUT_SIZE
      ensures Valid() && fresh(stats)
      ensures this.capacity == capacity && offset == 0
      ensures stats.allocatedBytes == 0 && stats.peak == 0 && stats.allocationCount == 0
    {
      this.capacity := capacity;
      offset := 0;
      stats := new MemoryStats();
    }

    /** `alloc`: hands out the first offset at or after the current one that is a
        multiple of the alignment (0 counts as 1), if `size` bytes fit from there. */
    method Alloc(size: usize, align: usize) returns (r: Option<usize>)
      requires Valid() && IsPowerOfTwo(Max(align, 1))
      modifies this, stats
      ensures Valid()
      ensures r.None? <==> Bump(old(offset), capacity, size, align).None?
      ensures r.Some? ==> Bump(old(offset), capacity, size, align) == Some((r.value, offset))
      ensures r.Some? ==>
        && stats.allocatedBytes == old(stats.allocatedBytes) + size
        && stats.allocationCount == WrappingAdd(old(stats.allocationCount), 1)
        && stats.peak == Max(old(stats.peak), stats.allocatedBytes)
      ensures r.None? ==> offset == old(offset) && unchanged(stats)
    {
      var a := Max(align, 1);
      var aligned := AlignUp(offset, a);
      if aligned + size > capacity {
        return None;
      }
      offset := aligned + size;
      stats.RecordAlloc(size);
      r := Some(aligned);
    }

    /** `reset`: frees every allocation of the frame. */
    method Reset()
      requires Valid()
      modifies this, stats
      ensures Valid()
      ensures offset == 0 && stats.allocatedBytes == 0 && stats.peak == 0 && stats.allocationCount == 0
    {
      offset := 0;
      stats.Reset();
    }

    function Used(): (n: usize)
      reads this, stats
      ensures Valid() ==> n <= capacity
    {
      offset
    }

    function Remaining(): (n: usize)
      requires Valid()
      reads this, stats
      ensures n + Used() == capacity
    {
      capacity - offset
    }
  }

  /** Two frame allocations of 100 and 200 bytes take at least 300 bytes, and a reset
      frees them; a 100-byte block refuses 100 more bytes after 50. */
  method FrameAllocatorScenario()
  {
    var frame := new FrameAllocator(1024);
    var p1 := frame.Alloc(100, 8);
    assert AlignUp(0, 8) == 0;
    assert p1 == Some(0);
    var p2 := frame.Alloc(200, 16);
    assert AlignUp(100, 16) == 112;
    assert p2 == Some(112);
    assert frame.Used() >= 300;
    frame.Reset();
    assert frame.Used() == 0;

    var small := new FrameAllocator(100);
    var q1 := small.Alloc(50, 8);
    assert q1.Some?;
    assert AlignUp(50, 8) == 56;
    var q2 := small.Alloc(100, 8);
    assert q2.None?;
  }

  /** A block of an arena (`ArenaBlock`): its capacity and the offset of its free space. */
  datatype ArenaBlock = ArenaBlock(capacity: usize, offset: usize)
  {
    /** `ArenaBlock::alloc` on the block as a value: the offset it hands out, if any, and
        the block afterwards. It is the bump step of the frame allocator, without the
        `max(1)` on the alignment. */
    function Alloc(size: usize, align: usize): (r: (Option<usize>, ArenaBlock))
      requires IsPowerOfTwo(align)
      ensures r.0.None? <==> Bump(offset, capacity, size, align).None?
      ensures r.0.None? ==> r.1 == this
      ensures r.0.Some? ==> Bump(offset, capacity, size, align) == Some((r.0.value, r.1.offset))
      ensures r.1.capacity == capacity
    {
      match Bump(offset, capacity, size, align)
      case None => (None, this)
      case Some((aligned, newOffset)) => (Some(aligned), this.(offset := newOffset))
    }

    /** `ArenaBlock::alloc` as the source writes it, in release-mode `usize`
        arithmetic: with a power-of-two alignment it is the wrapping bump step. */
    function AllocAsWritten(size: usize, align: usize): (r: (Option<usize>, ArenaBlock))
      requires IsPowerOfTwo(align)
      ensures r.0.None? <==> BumpAsWritten(offset, capacity, size, align).None?
      ensures r.0.None? ==> r.1 == this
      ensures r.0.Some? ==> BumpAsWritten(offset, capacity, size, align) == Some((r.0.value, r.1.offset))
      ensures r.1.capacity == capacity
    {
      match BumpAsWritten(offset, capacity, size, align)
      case None => (None, this)
      case Some((aligned, newOffset)) => (Some(aligned), this.(offset := newOffset))
    }
  }

  /** When neither sum wraps around, a block allocates as the source writes it. */
  lemma ArenaBlockAsWrittenAgrees(b: ArenaBlock, size: usize, align: usize)
    requires IsPowerOfTwo(align)
    requires b.offset + align - 1 < U64_MODULUS
    requires AlignUp(b.offset, align) + size < U64_MODULUS
    ensures b.AllocAsWritten(size, align) == b.Alloc(size, align)
  {
    BumpAsWrittenAgrees(b.offset, b.capacity, size, align);
  }

  /** In a block of 1024 bytes with 100 used, a request for 2^64 - 50 bytes wraps the end
      around to 50: the source's block hands out offset 100 and moves its offset back to
      50, while the corrected block refuses, and the new block the arena would then
      need is too large for a `Layout`. */
  lemma ArenaBlockAsWrittenAcceptsOversizedRequest()
    ensures ArenaBlock(1024, 100).AllocAsWritten(U64_MODULUS - 50, 1) == (Some(100), ArenaBlock(1024, 50))
    ensures ArenaBlock(1024, 100).Alloc(U64_MODULUS - 50, 1) == (None, ArenaBlock(1024, 100))
    ensures Max(1024, U64_MODULUS - 50) > MAX_LAYOUT_SIZE
  {
    BumpAsWrittenAcceptsOversizedRequest();
  }

  /** Large requests never fail in a fresh block: one of at least `size` bytes has room
      for them at offset 0. */
  lemma FreshBlockFits(blockSize: usize, size: usize, align: usize)
    requires IsPowerOfTwo(align) && size <= blockSize
    ensures ArenaBlock(blockSize, 0).Alloc(size, align) == (Some(0), ArenaBlock(blockSize, size))
  {
    DivModUnique(align - 1, align, 0, align - 1);
    assert AlignUp(0, align) == 0;
  }

  /** The arena (`ArenaAllocator`): a list of blocks, allocations going to the current
      one, and a new block whenever the current one is full. */
  class ArenaAllocator {
    var blocks: seq<ArenaBlock>
    var currentBlock: nat
    const blockSize: usize
    const stats: MemoryStats

    ghost predicate Valid()
      reads this, stats
    {
      && |blocks| >= 1 && currentBlock < |blocks|
      && (forall i :: 0 <= i < |blocks| ==> blocks[i].offset <= blocks[i].capacity)
      && stats.Valid()
    }

    constructor (blockSize: usize)
      requires blockSize <= MAX_LAYOUT_SIZE
      ensures Valid() && fresh(stats)
      ensures this.blockSize == blockSize
      ensures blocks == [ArenaBlock(blockSize, 0)] && currentBlock == 0
      ensures stats.allocatedBytes == 0 && stats.peak == 0 && stats.allocationCount == 0
    {
      this.blockSize := blockSize;
      blocks := [ArenaBlock(blockSize, 0)];
      currentBlock := 0;
      stats := new MemoryStats();
    }

    /** `alloc`: tries the current block; when it is full, appends a block of
        `max(block_size, size)` bytes, makes it current and allocates at its start.
        The result names the block and the offset within it; it is never `None`. */
    method Alloc(size: usize, align: usize) returns (r: Option<(nat, usize)>)
      requires Valid() && IsPowerOfTwo(align)
      requires blocks[currentBlock].Alloc(size, align).0.None? ==> Max(blockSize, size) <= MAX_LAYOUT_SIZE
      modifies this, stats
      ensures Valid() && r.Some?
      ensures old(blocks[currentBlock].Alloc(size, align)).0.Some? ==>
        && blocks == old(blocks[currentBlock := blocks[currentBlock].Alloc(size, align).1])
        && currentBlock == old(currentBlock)
        && r == Some((currentBlock, old(blocks[currentBlock].Alloc(size, align)).0.value))
      ensures old(blocks[currentBlock].Alloc(size, align)).0.None? ==>
        && blocks == old(blocks) + [ArenaBlock(Max(blockSize, size), size)]
        && currentBlock == |blocks| - 1 && r == Some((currentBlock, 0))
      ensures stats.allocatedBytes == WrappingAdd(old(stats.allocatedBytes), size)
      ensures stats.allocationCount == WrappingAdd(old(stats.allocationCount), 1)
      ensures stats.peak == Max(old(stats.peak), stats.allocatedBytes)
    {
      var (p, b) := blocks[currentBlock].Alloc(size, align);
      if p.Some? {
        blocks := blocks[currentBlock := b];
        stats.RecordAlloc(size);
        return Some((currentBlock, p.value));
      }
      var newBlockSize := Max(blockSize, size);
      FreshBlockFits(newBlockSize, size, align);
      var (q, nb) := ArenaBlock(newBlockSize, 0).Alloc(size, align);
      blocks := blocks + [nb];
      currentBlock := |blocks| - 1;
      stats.RecordAlloc(size);
      r := Some((currentBlock, q.value));
    }

    /** `reset`: empties every block, then keeps only the first one. */
    method Reset()
      requires Valid()
      modifies this, stats
      ensures Valid()
      ensures blocks == [ArenaBlock(old(blocks[0].capacity), 0)] && currentBlock == 0
      ensures stats.allocatedBytes == 0 && stats.peak == 0 && stats.allocationCount == 0
    {
      var i := 0;
      while i < |blocks|
        invariant 0 <= i <= |blocks| == old(|blocks|)
        invariant forall j :: 0 <= j < i ==> blocks[j] == old(blocks[j]).(offset := 0)
        invariant forall j :: i <= j < |blocks| ==> blocks[j] == old(blocks[j])
      {
        blocks := blocks[i := blocks[i].(offset := 0)];
        i := i + 1;
      }
      blocks := blocks[..1];
      currentBlock := 0;
      stats.Reset();
    }
  }

  /** Two 64-byte allocations share the first 256-byte block; a 512-byte one gets a block of its own. */
  method ArenaScenario()
  {
    var arena := new ArenaAllocator(256);
    var p1 := arena.Alloc(64, 8);
    assert p1 == Some((0, 0));
    assert arena.blocks == [ArenaBlock(256, 64)];
    var p2 := arena.Alloc(64, 8);
    assert p2 == Some((0, 64));
    assert arena.blocks == [ArenaBlock(256, 128)];
    var p3 := arena.Alloc(512, 8);
    assert p3 == Some((1, 0)) && arena.blocks[1] == ArenaBlock(512, 512);
    arena.Reset();
    assert arena.blocks == [ArenaBlock(256, 0)];
  }

  /** A slot of a pool: the chunk it lies in and its position there. */
  datatype Slot = Slot(chunk: nat, index: nat)

  /** The slots of a fresh chunk that go to the free list: all but the first, in order. */
  function SpareSlots(chunk: nat, chunkSize: nat): (r: seq<Slot>)
    requires chunkSize >= 1
    ensures |r| == chunkSize - 1
    ensures forall k :: 0 <= k < |r| ==> r[k] == Slot(chunk, k + 1)
  {
    seq(chunkSize - 1, k requires 0 <= k < chunkSize - 1 => Slot(chunk, k + 1))
  }

  /** Every slot of every chunk is either handed out (`live`) or on the free list, never
      both, and the free list holds each slot once. */
  ghost predicate PoolInv(chunkCount: nat, chunkSize: nat, freeList: seq<Slot>, live: set<Slot>)
  {
    && NoDuplicates(freeList)
    && (forall k :: 0 <= k < |freeList| ==>
          freeList[k].chunk < chunkCount && freeList[k].index < chunkSize && freeList[k] !in live)
    && (forall s :: s in live ==> s.chunk < chunkCount && s.index < chunkSize)
    && (forall c, i :: 0 <= c < chunkCount && 0 <= i < chunkSize ==>
          Slot(c, i) in live || Slot(c, i) in freeList)
  }

  lemma PopKeepsPoolInv(chunkCount: nat, chunkSize: nat, freeList: seq<Slot>, live: set<Slot>)
    requires PoolInv(chunkCount, chunkSize, freeList, live) && freeList != []
    ensures var s := freeList[|freeList| - 1];
      s !in live && PoolInv(chunkCount, chunkSize, freeList[..|freeList| - 1], live + {s})
  {
    var s := freeList[|freeList| - 1];
    var rest := freeList[..|freeList| - 1];
    forall c, i | 0 <= c < chunkCount && 0 <= i < chunkSize
      ensures Slot(c, i) in live + {s} || Slot(c, i) in rest
    {
      if Slot(c, i) !in live && Slot(c, i) != s {
        var k :| 0 <= k < |freeList| && freeList[k] == Slot(c, i);
        assert k < |freeList| - 1 && rest[k] == freeList[k];
      }
    }
  }

  lemma NewChunkKeepsPoolInv(chunkCount: nat, chunkSize: nat, live: set<Slot>)
    requires chunkSize >= 1 && PoolInv(chunkCount, chunkSize, [], live)
    ensures Slot(chunkCount, 0) !in live
    ensures PoolInv(chunkCount + 1, chunkSize, SpareSlots(chunkCount, chunkSize), live + {Slot(chunkCount, 0)})
  {
    var free := SpareSlots(chunkCount, chunkSize);
    forall c, i | 0 <= c < chunkCount + 1 && 0 <= i < chunkSize
      ensures Slot(c, i) in live + {Slot(chunkCount, 0)} || Slot(c, i) in free
    {
      if c == chunkCount && i > 0 {
        assert free[i - 1] == Slot(c, i);
      }
    }
  }

  lemma PushKeepsPoolInv(chunkCount: nat, chunkSize: nat, freeList: seq<Slot>, live: set<Slot>, s: Slot)
    requires PoolInv(chunkCount, chunkSize, freeList, live) && s in live
    ensures PoolInv(chunkCount, chunkSize, freeList + [s], live - {s})
  {
    var free := freeList + [s];
    forall c, i | 0 <= c < chunkCount && 0 <= i < chunkSize
      ensures Slot(c, i) in live - {s} || Slot(c, i) in free
    {
      if Slot(c, i) != s && Slot(c, i) !in live {
        var k :| 0 <= k < |freeList| && freeList[k] == Slot(c, i);
        assert free[k] == freeList[k];
      }
    }
  }

  /** The pool of fixed-size slots (`PoolAllocator<T>`), with `elementSize` standing for
      `size_of::<T>()`. Freed slots are kept on a free list and reused last-in, first-out. */
  class PoolAllocator {
    const elementSize: usize
    const chunkSize: usize
    /** The number of chunks allocated, each of `chunkSize` slots. */
    var chunkCount: nat
    var freeList: seq<Slot>
    /** The slots handed out and not yet returned. */
    ghost var live: set<Slot>
    const stats: MemoryStats

    ghost predicate Valid()
      reads this
    {
      chunkSize >= 16 && PoolInv(chunkCount, chunkSize, freeList, live)
    }

    /** `new`: the chunk size is raised to at least 16; no chunk is allocated yet. */
    constructor (chunkSize: usize, elementSize: usize)
      ensures Valid() && fresh(stats)
      ensures this.chunkSize == Max(chunkSize, 16) && this.elementSize == elementSize
      ensures chunkCount == 0 && freeList == [] && live == {}
      ensures stats.allocatedBytes == 0 && stats.peak == 0 && stats.allocationCount == 0
    {
      this.chunkSize := Max(chunkSize, 16);
      this.elementSize := elementSize;
      chunkCount := 0;
      freeList := [];
      live := {};
      stats := new MemoryStats();
    }

    /** `alloc`: pops the most recently freed slot; with an empty free list it allocates a
        chunk, hands out its first slot and puts the others on the free list in order. */
    method Alloc() returns (s: Slot)
      requires Valid()
      modifies this, stats
      ensures Valid()
      ensures s !in old(live) && live == old(live) + {s}
      ensures old(freeList) != [] ==>
        && s == old(freeList[|freeList| - 1]) && freeList == old(freeList[..|freeList| - 1])
        && chunkCount == old(chunkCount)
      ensures old(freeList) == [] ==>
        && s == Slot(old(chunkCount), 0) && chunkCount == old(chunkCount) + 1
        && freeList == SpareSlots(old(chunkCount), chunkSize)
      ensures stats.allocatedBytes == WrappingAdd(old(stats.allocatedBytes), elementSize)
      ensures stats.allocationCount == WrappingAdd(old(stats.allocationCount), 1)
      ensures stats.peak == Max(old(stats.peak), stats.allocatedBytes)
    {
      if freeList != [] {
        s := freeList[|freeList| - 1];
        PopKeepsPoolInv(chunkCount, chunkSize, freeList, live);
        freeList := freeList[..|freeList| - 1];
        live := live + {s};
        stats.RecordAlloc(elementSize);
        return;
      }
      var c := chunkCount;
      NewChunkKeepsPoolInv(c, chunkSize, live);
      var spare := [];
      var i := 1;
      while i < chunkSize
        invariant 1 <= i <= chunkSize
        invariant spare == SpareSlots(c, i)
      {
        spare := spare + [Slot(c, i)];
        i := i + 1;
      }
      freeList := spare;
      s := Slot(c, 0);
      chunkCount := c + 1;
      live := live + {s};
      stats.RecordAlloc(elementSize);
    }

    /** `dealloc`: puts a slot handed out by this pool back on the free list. */
    method Dealloc(s: Slot)
      requires Valid() && s in live
      modifies this, stats
      ensures Valid()
      ensures freeList == old(freeList) + [s] && live == old(live) - {s}
      ensures chunkCount == old(chunkCount)
      ensures stats.allocatedBytes == WrappingSub(old(stats.allocatedBytes), elementSize)
      ensures stats.peak == old(stats.peak) && stats.allocationCount == old(stats.allocationCount)
    {
      PushKeepsPoolInv(chunkCount, chunkSize, freeList, live, s);
      freeList := freeList + [s];
      live := live - {s};
      stats.RecordDealloc(elementSize);
    }
  }

  /** Returning a slot to the pool makes it the next one handed out. */
  method PoolScenario()
  {
    var pool := new PoolAllocator(16, 8);
    var p1 := pool.Alloc();
    assert p1 == Slot(0, 0);
    var p2 := pool.Alloc();
    assert p2 == Slot(0, 15);
    pool.Dealloc(p1);
    var p3 := pool.Alloc();
    assert p3 == p1;
  }

  /** A subsystem's budget (`MemoryBudget`); the warning threshold is a float and left out. */
  datatype MemoryBudget = MemoryBudget(maxBytes: usize)

  /** The default budget: 256 MiB. */
  const DEFAULT_BUDGET: MemoryBudget := MemoryBudget(256 * 1024 * 1024)

  /** The budget check of `MemoryTracker::record_alloc` as written, in release-mode
      `usize` arithmetic: the prospective total wraps modulo 2^64. */
  function AdmitsAsWritten(current: usize, size: usize, budget: MemoryBudget): (ok: bool)
    ensures current + size < U64_MODULUS ==> (ok <==> current + size <= budget.maxBytes)
  {
    WrappingAdd(current, size) <= budget.maxBytes
  }

  /** The check as intended: the allocation must keep the total within the budget. */
  function Admits(current: usize, size: usize, budget: MemoryBudget): (ok: bool)
    ensures ok ==> WrappingAdd(current, size) == current + size <= budget.maxBytes
  {
    current + size <= budget.maxBytes
  }

  /** With 500 of 1000 bytes in use, a request for 2^64 - 100 bytes wraps the total
      around to 400, so the source admits it. */
  lemma AdmitsAsWrittenOversizedRequest()
    ensures AdmitsAsWritten(500, U64_MODULUS - 100, MemoryBudget(1000))
    ensures !Admits(500, U64_MODULUS - 100, MemoryBudget(1000))
  {
  }

  /** A tracked subsystem: its name, its statistics and its budget. */
  datatype Subsystem = Subsystem(name: string, stats: MemoryStats, budget: MemoryBudget)

  /** The tracker of per-subsystem budgets (`MemoryTracker`); a subsystem's id is its position. */
  class MemoryTracker {
    var subsystems: seq<Subsystem>

    ghost function StatsObjects(): set<MemoryStats>
      reads this
    {
      set i | 0 <= i < |subsystems| :: subsystems[i].stats
    }

    /** Every subsystem has statistics of its own. */
    ghost predicate Valid()
      reads this
    {
      forall i, j :: 0 <= i < j < |subsystems| ==> subsystems[i].stats != subsystems[j].stats
    }

    /** Every subsystem stays within its budget. */
    ghost predicate WithinBudgets()
      reads this, StatsObjects()
    {
      forall i :: 0 <= i < |subsystems| ==> subsystems[i].stats.allocatedBytes <= subsystems[i].budget.maxBytes
    }

    constructor ()
      ensures Valid() && subsystems == []
    {
      subsystems := [];
    }

    /** `register_subsystem`: appends a subsystem with fresh statistics; its id is the
        number of subsystems registered before it. */
    method RegisterSubsystem(name: string, budget: MemoryBudget) returns (id: nat)
      requires Valid()
      modifies this
      ensures Valid()
      ensures id == old(|subsystems|) && |subsystems| == id + 1 && subsystems[..id] == old(subsystems)
      ensures subsystems[id].name == name && subsystems[id].budget == budget && fresh(subsystems[id].stats)
      ensures subsystems[id].stats.allocatedBytes == 0 && subsystems[id].stats.peak == 0
      ensures subsystems[id].stats.allocationCount == 0
      ensures old(WithinBudgets()) ==> WithinBudgets()
    {
      var stats := new MemoryStats();
      id := |subsystems|;
      subsystems := subsystems + [Subsystem(name, stats, budget)];
    }

    /** `record_alloc`: refuses an unknown id and an allocation that would take the
        subsystem over its budget; otherwise records it. */
    method RecordAlloc(id: nat, size: usize) returns (ok: bool)
      requires Valid()
      modifies if id < |subsystems| then {subsystems[id].stats} else {}
      ensures ok <==> id < |subsystems| && Admits(old(subsystems[id].stats.allocatedBytes), size, subsystems[id].budget)
      ensures ok ==> var st := subsystems[id].stats;
        && st.allocatedBytes == old(st.allocatedBytes) + size
        && st.allocationCount == WrappingAdd(old(st.allocationCount), 1)
        && st.peak == Max(old(st.peak), st.allocatedBytes)
      ensures !ok ==> id >= |subsystems| || unchanged(subsystems[id].stats)
      ensures old(WithinBudgets()) ==> WithinBudgets()
    {
      if id >= |subsystems| {
        return false;
      }
      var sub := subsystems[id];
      if !Admits(sub.stats.allocatedBytes, size, sub.budget) {
        return false;
      }
      sub.stats.RecordAlloc(size);
      ok := true;
    }

    /** `record_dealloc`: lowers the subsystem's figure; an unknown id is ignored. */
    method RecordDealloc(id: nat, size: usize)
      requires Valid()
      modifies if id < |subsystems| then {subsystems[id].stats} else {}
      ensures id < |subsystems| ==> var st := subsystems[id].stats;
        && st.allocatedBytes == WrappingSub(old(st.allocatedBytes), size)
        && st.peak == old(st.peak) && st.allocationCount == old(st.allocationCount)
      ensures old(WithinBudgets()) && (id < |subsystems| ==> size <= old(subsystems[id].stats.allocatedBytes))
        ==> WithinBudgets()
    {
      if id < |subsystems| {
        subsystems[id].stats.RecordDealloc(size);
      }
    }
  }

  /** With a budget of 1000 bytes, 500 and 400 are admitted, 200 more is refused, and
      after 300 are freed it is admitted. */
  method TrackerScenario()
  {
    var tracker := new MemoryTracker();
    var id := tracker.RegisterSubsystem("test", MemoryBudget(1000));
    var a := tracker.RecordAlloc(id, 500);
    assert a;
    var b := tracker.RecordAlloc(id, 400);
    assert b;
    var c := tracker.RecordAlloc(id, 200);
    assert !c;
    tracker.RecordDealloc(id, 300);
    var d := tracker.RecordAlloc(id, 200);
    assert d;
  }

  /** Allocations of 100 and 200 bytes give a current figure and a peak of 300 over two
      allocations; freeing 100 lowers the figure and keeps the peak. */
  method StatsScenario()
  {
    var stats := new MemoryStats();
    stats.RecordAlloc(100);
    stats.RecordAlloc(200);
    assert stats.allocatedBytes == 300 && stats.peak == 300 && stats.allocationCount == 2;
    stats.RecordDealloc(100);
    assert stats.allocatedBytes == 200 && stats.peak == 300;
  }
}
