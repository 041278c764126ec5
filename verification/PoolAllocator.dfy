/** The memory pool as the program runs it: one object, updated in place, whose methods are
    proved against the byte-level pool of module MemPool, and the benchmark loops over it. */
module PoolAllocator {
  import opened Common
  import opened WordBytes
  import opened MemPool

  /** Store a pointer, least significant byte first. */
  method StoreWord(arena: array<Byte>, at: nat, value: nat)
    requires at + NODE_SIZE <= arena.Length
    modifies arena
    ensures arena[..] == Overwrite(old(arena[..]), at, Encode(value, NODE_SIZE))
  {
    var rest := value;
    ghost var word := Encode(value, NODE_SIZE);
    for k := 0 to NODE_SIZE
      invariant arena[..at] == old(arena[..at])
      invariant arena[at..at + k] == word[..k]
      invariant arena[at + k..] == old(arena[at + k..])
      invariant word[k..] == Encode(rest, NODE_SIZE - k)
    {
      assert word[k] == word[k..][0];
      assert word[k + 1..] == word[k..][1..];
      arena[at + k] := rest % 256;
      rest := rest / 256;
      assert arena[at..at + k + 1] == word[..k] + [word[k]];
    }
    assert arena[..] == arena[..at] + arena[at..at + NODE_SIZE] + arena[at + NODE_SIZE..];
  }

  /** Load a pointer. */
  method LoadWord(arena: array<Byte>, at: nat) returns (value: nat)
    requires at + NODE_SIZE <= arena.Length
    ensures value == Decode(arena[at..at + NODE_SIZE])
  {
    value := 0;
    var k := NODE_SIZE;
    while k > 0
      invariant 0 <= k <= NODE_SIZE
      invariant value == Decode(arena[at + k..at + NODE_SIZE])
    {
      k := k - 1;
      value := arena[at + k] + 256 * value;
      assert arena[at + k..at + NODE_SIZE][1..] == arena[at + k + 1..at + NODE_SIZE];
    }
  }

  /** n - 1, n - 2, ..., 0: the order in which the building loop leaves the free list. */
  function Descending(n: nat): (s: seq<nat>)
    ensures |s| == n && forall k :: 0 <= k < n ==> s[k] == n - 1 - k
  {
    if n == 0 then [] else [n - 1] + Descending(n - 1)
  }

  lemma DescendingPartition(n: nat)
    ensures Partition(n, Descending(n), {})
  {
    forall i: nat | i < n
      ensures i in Descending(n)
    {
      assert Descending(n)[n - 1 - i] == i;
    }
  }

  /** The size of the blocks made for a request: what was asked for, or room for a pointer. */
  function Clamp(requested: nat): (size: nat)
    ensures requested <= size && 8 <= size && (size == requested || size == 8)
  {
    if requested < NODE_SIZE then NODE_SIZE else requested
  }

  lemma BuildStart(p: Pool, count: nat)
    requires p.head == NULL
    ensures IsChain(p, count, p.head, Descending(0))
  {
  }

  /** One round of the building loop, on the bytes. */
  lemma BuildStep(p: Pool, count: nat, i: nat)
    requires Geometry(p, count) && i < count
    requires IsChain(p, count, p.head, Descending(i))
    ensures InArena(p, Address(p, i)) && Address(p, i) != NULL
    ensures Geometry(Free(p, Address(p, i)), count)
    ensures var q := Free(p, Address(p, i)); IsChain(q, count, q.head, Descending(i + 1))
  {
    FreePushes(p, count, i, Descending(i));
    assert Descending(i + 1) == [i] + Descending(i);
  }

  /** i * block_size, as pool_create computes it. */
  method BlockOffset(size: nat, i: nat) returns (at: nat)
    ensures at == Offset(size, i)
  {
    OffsetIsProduct(size, i);
    at := i * size;
  }

  /** The loop of pool_create that threads the free list through the blocks. */
  method BuildFreeList(memory: array<Byte>, size: nat, blockCount: nat, address: nat) returns (head: nat)
    requires Geometry(Pool(size, address, memory[..], NULL), blockCount)
    modifies memory
    ensures Geometry(Pool(size, address, memory[..], head), blockCount)
    ensures IsChain(Pool(size, address, memory[..], head), blockCount, head, Descending(blockCount))
  {
    hide Geometry, IsChain, Encode, Descending;
    head := NULL;
    ghost var p := Pool(size, address, memory[..], head);
    BuildStart(p, blockCount);
    for i := 0 to blockCount
      invariant p == Pool(size, address, memory[..], head)
      invariant Geometry(p, blockCount)
      invariant IsChain(p, blockCount, p.head, Descending(i))
    {
      BuildStep(p, blockCount, i);
      var at := BlockOffset(size, i);
      StoreWord(memory, at, head);
      head := address + at;
      p := Free(p, head);
    }
  }

  class MemoryPool {
    var blockSize: nat
    var freeListHead: nat
    var memoryStart: nat
    var memoryTotalSize: nat
    var arena: array<Byte>

    /** The number of blocks, the list the arena bytes spell out, and the blocks handed out. */
    ghost var count: nat
    ghost var free: seq<nat>
    ghost var live: set<nat>

    ghost function Bytes(): Pool
      reads this, arena
    {
      Pool(blockSize, memoryStart, arena[..], freeListHead)
    }

    ghost predicate Valid()
      reads this, arena
    {
      memoryTotalSize == arena.Length && Inv(Bytes(), count, free, live)
    }

    /** The successful part of pool_create, on memory found at the given address with any contents. */
    constructor (requested: nat, blockCount: nat, address: nat)
      requires address > NULL
      requires address + Offset(Clamp(requested), blockCount) <= ADDRESS_LIMIT
      ensures Valid() && fresh(arena)
      ensures requested <= blockSize && 8 <= blockSize && (blockSize == requested || blockSize == 8)
      ensures blockSize == Clamp(requested) && memoryStart == address && arena.Length == blockCount * blockSize
      ensures count == blockCount && free == Descending(blockCount) && live == {}
    {
      var size := requested;
      if size < NODE_SIZE {
        size := NODE_SIZE;
      }
      var total := BlockOffset(size, blockCount);
      OffsetIsProduct(size, blockCount);
      var memory := new Byte[total];
      var head := BuildFreeList(memory, size, blockCount, address);
      DescendingPartition(blockCount);
      blockSize, memoryTotalSize, memoryStart := size, total, address;
      freeListHead, arena := head, memory;
      count, free, live := blockCount, Descending(blockCount), {};
    }
  }

  /** What was asked for is what a client may use: the requested bytes of a live block lie in the arena, and
      those of two live blocks are disjoint. */
  lemma RequestedBytesDisjoint(p: Pool, count: nat, free: seq<nat>, live: set<nat>, requested: nat, i: nat, j: nat)
    requires Inv(p, count, free, live) && p.blockSize == Clamp(requested)
    requires i in live && j in live && i != j
    ensures p.start <= Address(p, i) && Address(p, i) + requested <= p.start + |p.mem|
    ensures Address(p, i) + requested <= Address(p, j) || Address(p, j) + requested <= Address(p, i)
  {
    BlockBounds(p, count, i);
    BlocksDisjoint(p, i, j);
  }

  /** pool_create. Whether the two allocations succeed, and where the arena lies, is the
      environment's choice; the caller keeps the product of the sizes within the address space. */
  method PoolCreate(requested: nat, blockCount: nat, structAllocated: bool, address: nat)
      returns (pool: MemoryPool?)
    requires address != NULL ==> address + Offset(Clamp(requested), blockCount) <= ADDRESS_LIMIT
    ensures pool == null <==> !structAllocated || address == NULL
    ensures pool != null ==>
      && fresh(pool) && fresh(pool.arena) && pool.Valid()
      && requested <= pool.blockSize && 8 <= pool.blockSize
      && (pool.blockSize == requested || pool.blockSize == 8)
      && pool.blockSize == Clamp(requested) && pool.memoryStart == address
      && pool.count == blockCount && pool.free == Descending(blockCount) && pool.live == {}
  {
    if !structAllocated {
      return null;
    }
    if address == NULL {
      return null;
    }
    pool := new MemoryPool(requested, blockCount, address);
  }

  /** pool_alloc: NULL for a missing pool or an empty list, else the block at the head. */
  method PoolAlloc(pool: MemoryPool?) returns (block: nat)
    requires pool != null ==> pool.Valid()
    modifies if pool == null then {} else {pool}
    ensures pool == null ==> block == NULL
    ensures pool != null ==>
      && pool.Valid()
      && pool.arena == old(pool.arena) && pool.count == old(pool.count)
      && pool.blockSize == old(pool.blockSize) && pool.memoryStart == old(pool.memoryStart)
      && (pool.Bytes(), block) == old(Alloc(pool.Bytes()))
      && (block == NULL <==> |old(pool.live)| == pool.count)
      && (pool.free, pool.live) == StackNext(old(pool.free), old(pool.live), Allocate)
      && (old(pool.free) != [] ==> block == Address(pool.Bytes(), old(pool.free)[0]))
  {
    if pool == null {
      return NULL;
    }
    AllocRefinesPop(pool.Bytes(), pool.count, pool.free, pool.live);
    if pool.freeListHead == NULL {
      return NULL;
    }
    block := pool.freeListHead;
    pool.freeListHead := LoadWord(pool.arena, block - pool.memoryStart);
    pool.live := pool.live + {pool.free[0]};
    pool.free := pool.free[1..];
  }

  /** pool_free: nothing for a missing pool or NULL, else the block becomes the head.
      The block must be one the caller holds; FreeKeepsAListIff shows why. */
  method PoolFree(pool: MemoryPool?, block: nat, ghost i: nat)
    requires pool != null ==> pool.Valid()
    requires pool != null && block != NULL ==> i in pool.live && block == Address(pool.Bytes(), i)
    modifies if pool == null then {} else {pool, pool.arena}
    ensures pool != null ==>
      && pool.Valid()
      && pool.arena == old(pool.arena) && pool.count == old(pool.count)
      && pool.blockSize == old(pool.blockSize) && pool.memoryStart == old(pool.memoryStart)
      && (block == NULL ==> pool.Bytes() == old(pool.Bytes()))
      && (block != NULL ==> old(InArena(pool.Bytes(), block)) && pool.Bytes() == old(Free(pool.Bytes(), block)))
      && (pool.free, pool.live)
          == StackNext(old(pool.free), old(pool.live), if block == NULL then ReleaseNull else Release(i))
  {
    if pool == null || block == NULL {
      return;
    }
    PushBlock(pool, block, i);
  }

  /** The block's first bytes take the old head, and the block becomes the head. */
  method PushBlock(pool: MemoryPool, block: nat, ghost i: nat)
    requires pool.Valid() && i in pool.live && block == Address(pool.Bytes(), i)
    modifies pool, pool.arena
    ensures pool.Valid() && old(InArena(pool.Bytes(), block)) && block != NULL
    ensures pool.arena == old(pool.arena) && pool.count == old(pool.count)
    ensures pool.blockSize == old(pool.blockSize) && pool.memoryStart == old(pool.memoryStart)
    ensures pool.Bytes() == old(Free(pool.Bytes(), block))
    ensures (pool.free, pool.live) == ([i] + old(pool.free), old(pool.live) - {i})
  {
    hide Inv, Overwrite, Address, Encode, Decode;
    ghost var before := pool.Bytes();
    FreeRefinesPush(before, pool.count, pool.free, pool.live, i);
    StoreWord(pool.arena, block - pool.memoryStart, pool.freeListHead);
    pool.freeListHead := block;
    pool.free := [i] + pool.free;
    pool.live := pool.live - {i};
    assert pool.Bytes() == Free(before, block);
  }

  /** A client fills a byte of a block it holds. */
  method ClientStore(pool: MemoryPool, i: nat, k: nat, b: Byte)
    requires pool.Valid() && i in pool.live && k < pool.blockSize
    modifies pool.arena
    ensures pool.Valid()
    ensures Address(old(pool.Bytes()), i) + k < pool.memoryStart + pool.arena.Length
    ensures pool.Bytes() == WriteByte(old(pool.Bytes()), Address(old(pool.Bytes()), i) + k, b)
  {
    hide Inv;
    ghost var before := pool.Bytes();
    ClientWriteKeepsPool(before, pool.count, pool.free, pool.live, i, k, b);
    var at := BlockOffset(pool.blockSize, i);
    pool.arena[at + k] := b;
    assert pool.arena[..] == WriteByte(before, Address(before, i) + k, b).mem;
  }

  // ---------------------------------------------------------------- benchmark

  function Min(a: nat, b: nat): nat { if a < b then a else b }

  function Reversed(s: seq<nat>): (r: seq<nat>)
    ensures |r| == |s|
  {
    if s == [] then [] else Reversed(s[1..]) + [s[0]]
  }

  lemma {:induction false} ReversedAt(s: seq<nat>, k: nat)
    requires k < |s|
    ensures Reversed(s)[k] == s[|s| - 1 - k]
  {
    if k == |s| - 1 {
    } else {
      ReversedAt(s[1..], k);
    }
  }

  /** The free list after n allocations and n frees in allocation order. */
  function AfterPass(free: seq<nat>, n: nat): seq<nat>
  {
    var k := Min(n, |free|);
    Reversed(free[..k]) + free[k..]
  }

  lemma ReversedTwice(s: seq<nat>)
    ensures Reversed(Reversed(s)) == s
  {
    forall j | 0 <= j < |s|
      ensures Reversed(Reversed(s))[j] == s[j]
    {
      ReversedAt(Reversed(s), j);
      ReversedAt(s, |s| - 1 - j);
    }
  }

  lemma SplitBack(a: seq<nat>, b: seq<nat>)
    ensures (a + b)[..|a|] == a && (a + b)[|a|..] == b
  {
  }

  /** Two passes of the benchmark restore the free list. */
  lemma TwoPassesRestore(free: seq<nat>, n: nat)
    ensures AfterPass(AfterPass(free, n), n) == free
  {
    var k := Min(n, |free|);
    SplitBack(Reversed(free[..k]), free[k..]);
    ReversedTwice(free[..k]);
    assert free[..k] + free[k..] == free;
  }

  /** When every free block is taken, one pass turns the list round. */
  lemma FullPassReverses(free: seq<nat>, n: nat)
    requires n >= |free|
    ensures AfterPass(free, n) == Reversed(free)
  {
    assert free[..|free|] == free;
  }

  /** A fresh pool lists its blocks from the highest down, and after one full pass from the lowest up. */
  lemma AscendingAfterPass(n: nat)
    ensures |AfterPass(Descending(n), n)| == n
    ensures forall j :: 0 <= j < n ==> AfterPass(Descending(n), n)[j] == j
  {
    FullPassReverses(Descending(n), n);
    forall j | 0 <= j < n
      ensures Reversed(Descending(n))[j] == j
    {
      ReversedAt(Descending(n), j);
    }
  }

  lemma ReversedSnoc(free: seq<nat>, i: nat)
    requires i < |free|
    ensures Reversed(free[..i + 1]) == [free[i]] + Reversed(free[..i])
  {
    forall j | 0 <= j < i + 1
      ensures Reversed(free[..i + 1])[j] == ([free[i]] + Reversed(free[..i]))[j]
    {
      ReversedAt(free[..i + 1], j);
      if j > 0 {
        ReversedAt(free[..i], j - 1);
      }
    }
  }

  /** The stack of free blocks and the live set after i allocations. */
  function Allocated(free: seq<nat>, live: set<nat>, i: nat): (seq<nat>, set<nat>)
  {
    var k := Min(i, |free|);
    (free[k..], live + Elements(free[..k]))
  }

  lemma AllocatedStep(free: seq<nat>, live: set<nat>, i: nat)
    ensures var (f, l) := Allocated(free, live, i);
      && StackNext(f, l, Allocate) == Allocated(free, live, i + 1)
      && (f != [] <==> i < |free|)
      && (i < |free| ==> f[0] == free[i])
  {
    if i < |free| {
      assert free[..i + 1] == free[..i] + [free[i]];
      assert live + Elements(free[..i + 1]) == live + Elements(free[..i]) + {free[i]};
      assert free[i..][1..] == free[i + 1..];
    }
  }

  /** The same after the first i of the taken blocks have been freed again. */
  function Returned(taken: seq<nat>, free: seq<nat>, rest: set<nat>, i: nat): (seq<nat>, set<nat>)
  {
    var k := Min(i, |taken|);
    (Reversed(taken[..k]) + free, rest + Elements(taken[k..]))
  }

  lemma ReturnedStep(taken: seq<nat>, free: seq<nat>, rest: set<nat>, i: nat)
    requires NoDuplicates(taken) && Elements(taken) !! rest
    ensures var (f, l) := Returned(taken, free, rest, i);
      && StackNext(f, l, if i < |taken| then Release(taken[i]) else ReleaseNull) == Returned(taken, free, rest, i + 1)
      && (i < |taken| ==> taken[i] in l)
  {
    if i < |taken| {
      ReversedSnoc(taken, i);
      assert taken[i..] == [taken[i]] + taken[i + 1..];
      assert taken[i] !in taken[i + 1..];
      assert taken[i] in Elements(taken);
      assert rest + Elements(taken[i..]) - {taken[i]} == rest + Elements(taken[i + 1..]);
      assert [taken[i]] + (Reversed(taken[..i]) + free) == Reversed(taken[..i + 1]) + free;
    }
  }

  /** What the j-th allocation of a pass returns. */
  function Pointer(p: Pool, free: seq<nat>, j: nat): nat
  {
    if j < |free| then Address(p, free[j]) else NULL
  }

  function Pointers(p: Pool, free: seq<nat>, n: nat): (ptrs: seq<nat>)
    ensures |ptrs| == n
  {
    if n == 0 then [] else Pointers(p, free, n - 1) + [Pointer(p, free, n - 1)]
  }

  lemma {:induction false} PointersAt(p: Pool, free: seq<nat>, n: nat, j: nat)
    requires j < n
    ensures Pointers(p, free, n)[j] == Pointer(p, free, j)
  {
    if j == n - 1 {
    } else {
      PointersAt(p, free, n - 1, j);
    }
  }

  /** The first n pointers of a pass depend on the first n free blocks and the geometry alone. */
  lemma {:induction false} PointersFrame(p: Pool, q: Pool, free: seq<nat>, taken: seq<nat>, n: nat)
    requires p.start == q.start && p.blockSize == q.blockSize
    requires n <= |free| ==> n <= |taken| && taken[..n] == free[..n]
    requires n > |free| ==> taken == free
    ensures Pointers(p, free, n) == Pointers(q, taken, n)
  {
    if n == 0 {
    } else {
      if n <= |free| {
        assert taken[..n][..n - 1] == taken[..n - 1] && free[..n][..n - 1] == free[..n - 1];
        assert taken[n - 1] == taken[..n][n - 1] == free[..n][n - 1] == free[n - 1];
      }
      PointersFrame(p, q, free, taken, n - 1);
    }
  }

  /** One allocation of a pass. */
  method AllocateNext(pool: MemoryPool, ghost free: seq<nat>, ghost live: set<nat>, ghost i: nat) returns (block: nat)
    requires pool.Valid() && (pool.free, pool.live) == Allocated(free, live, i)
    modifies pool
    ensures pool.Valid() && pool.count == old(pool.count) && pool.arena == old(pool.arena)
    ensures pool.blockSize == old(pool.blockSize) && pool.memoryStart == old(pool.memoryStart)
    ensures (pool.free, pool.live) == Allocated(free, live, i + 1)
    ensures block == Pointer(pool.Bytes(), free, i)
  {
    AllocatedStep(free, live, i);
    BlocksConserved(pool.count, pool.free, pool.live);
    block := PoolAlloc(pool);
  }

  /** The first loop of benchmark_mempool: as many allocations as there are pointers. */
  method AllocateAll(pool: MemoryPool, ptrs: array<nat>)
    requires pool.Valid()
    modifies pool, ptrs
    ensures pool.Valid() && pool.count == old(pool.count) && pool.arena == old(pool.arena)
    ensures pool.blockSize == old(pool.blockSize) && pool.memoryStart == old(pool.memoryStart)
    ensures (pool.free, pool.live) == Allocated(old(pool.free), old(pool.live), ptrs.Length)
    ensures ptrs[..] == Pointers(old(pool.Bytes()), old(pool.free), ptrs.Length)
  {
    hide Inv;
    ghost var free, live, bytes := pool.free, pool.live, pool.Bytes();
    ghost var expected := Pointers(bytes, free, ptrs.Length);
    assert live + Elements(free[..0]) == live;
    for i := 0 to ptrs.Length
      invariant pool.Valid() && pool.arena == old(pool.arena) && pool.count == old(pool.count)
      invariant pool.blockSize == bytes.blockSize && pool.memoryStart == bytes.start
      invariant (pool.free, pool.live) == Allocated(free, live, i)
      invariant forall j :: 0 <= j < i ==> ptrs[j] == expected[j]
    {
      var block := AllocateNext(pool, free, live, i);
      PointersAt(bytes, free, ptrs.Length, i);
      ptrs[i] := block;
    }
  }

  /** The second loop: free the pointers in the order in which they were allocated. */
  method FreeAll(pool: MemoryPool, ptrs: array<nat>, ghost taken: seq<nat>, ghost rest: set<nat>)
    requires pool.Valid() && |taken| <= ptrs.Length && NoDuplicates(taken)
    requires pool.live == rest + Elements(taken) && Elements(taken) !! rest
    requires ptrs[..] == Pointers(pool.Bytes(), taken, ptrs.Length)
    modifies pool, pool.arena
    ensures pool.Valid() && pool.count == old(pool.count) && pool.arena == old(pool.arena)
    ensures pool.blockSize == old(pool.blockSize) && pool.memoryStart == old(pool.memoryStart)
    ensures (pool.free, pool.live) == Returned(taken, old(pool.free), rest, ptrs.Length)
  {
    ghost var free, bytes, pointers := pool.free, pool.Bytes(), ptrs[..];
    assert taken[0..] == taken && Reversed(taken[..0]) + free == free;
    for i := 0 to ptrs.Length
      invariant pool.Valid() && pool.arena == old(pool.arena) && pool.count == old(pool.count)
      invariant pool.blockSize == bytes.blockSize && pool.memoryStart == bytes.start
      invariant (pool.free, pool.live) == Returned(taken, free, rest, i)
    {
      ReturnedStep(taken, free, rest, i);
      var block := ptrs[..][i];
      PointersAt(bytes, taken, ptrs.Length, i);
      assert block == Pointer(bytes, taken, i);
      PoolFree(pool, block, if i < |taken| then taken[i] else 0);
    }
  }

  /** The blocks a pass takes are distinct and were not live. */
  lemma TakenBlocks(count: nat, free: seq<nat>, live: set<nat>, k: nat)
    requires Partition(count, free, live) && k <= |free|
    ensures NoDuplicates(free[..k]) && Elements(free[..k]) !! live
  {
    assert forall x :: x in free[..k] ==> x in free;
  }

  /** Allocating and returning everything amounts to a pass. */
  lemma ReturnedIsPass(free: seq<nat>, live: set<nat>, n: nat)
    ensures var k := Min(n, |free|);
      Returned(free[..k], free[k..], live, n) == (AfterPass(free, n), live)
  {
    var k := Min(n, |free|);
    assert free[..k][..k] == free[..k] && free[..k][k..] == [];
    assert live + Elements([]) == live;
  }

  /** The two loops of benchmark_mempool over a pool and an array of pointers. */
  method BenchmarkMempool(pool: MemoryPool, ptrs: array<nat>)
    requires pool.Valid()
    modifies pool, pool.arena, ptrs
    ensures pool.Valid() && pool.count == old(pool.count) && pool.live == old(pool.live)
    ensures pool.arena == old(pool.arena)
    ensures pool.blockSize == old(pool.blockSize) && pool.memoryStart == old(pool.memoryStart)
    ensures pool.free == AfterPass(old(pool.free), ptrs.Length)
    ensures ptrs[..] == Pointers(old(pool.Bytes()), old(pool.free), ptrs.Length)
  {
    ghost var free, live := pool.free, pool.live;
    ghost var k := Min(ptrs.Length, |free|);
    TakenBlocks(pool.count, free, live, k);
    PrefixFits(free, ptrs.Length);
    ReturnedIsPass(free, live, ptrs.Length);
    hide Inv, AfterPass, Returned, Pointers, NoDuplicates, Elements, Min;
    AllocateAll(pool, ptrs);
    PointersFrame(old(pool.Bytes()), pool.Bytes(), free, free[..k], ptrs.Length);
    FreeAll(pool, ptrs, free[..k], live);
  }

  lemma PrefixFits(free: seq<nat>, n: nat)
    ensures var k := Min(n, |free|);
      && k <= n
      && (n <= |free| ==> n <= |free[..k]| && free[..k][..n] == free[..n])
      && (n > |free| ==> free[..k] == free)
  {
  }

  lemma PointersOfFreshPool(p: Pool, n: nat)
    ensures forall j :: 0 <= j < n ==> Pointers(p, Descending(n), n)[j] == p.start + Offset(p.blockSize, n - 1 - j)
  {
    forall j | 0 <= j < n
      ensures Pointers(p, Descending(n), n)[j] == p.start + Offset(p.blockSize, n - 1 - j)
    {
      PointersAt(p, Descending(n), n, j);
    }
  }

  lemma PointersOfTurnedPool(p: Pool, n: nat)
    ensures forall j :: 0 <= j < n ==>
      Pointers(p, AfterPass(Descending(n), n), n)[j] == p.start + Offset(p.blockSize, j)
  {
    hide AfterPass;
    AscendingAfterPass(n);
    forall j | 0 <= j < n
      ensures Pointers(p, AfterPass(Descending(n), n), n)[j] == p.start + Offset(p.blockSize, j)
    {
      PointersAt(p, AfterPass(Descending(n), n), n, j);
    }
  }

  /** Blocks at successive offsets are as far apart as the request asked for. */
  lemma SpacedOut(down: seq<nat>, up: seq<nat>, requested: nat, address: nat)
    requires |down| == |up|
    requires forall j :: 0 <= j < |up| ==> down[j] == address + Offset(Clamp(requested), |up| - 1 - j)
    requires forall j :: 0 <= j < |up| ==> up[j] == address + Offset(Clamp(requested), j)
    ensures forall i, j :: 0 <= i < j < |up| ==> down[j] + requested <= down[i] && up[i] + requested <= up[j]
  {
    hide Offset;
    forall i, j | 0 <= i < j < |up|
      ensures down[j] + requested <= down[i] && up[i] + requested <= up[j]
    {
      OffsetSteps(Clamp(requested), |up| - 1 - j, |up| - 1 - i);
      OffsetSteps(Clamp(requested), i, j);
    }
  }

  /** benchmark_mempool on a pool made for it: the first pass hands out every block once, from the
      highest address down, and a second pass from the lowest up. */
  method BenchmarkFreshPool(requested: nat, n: nat, address: nat) returns (first: array<nat>, second: array<nat>)
    requires address > NULL && address + Offset(Clamp(requested), n) <= ADDRESS_LIMIT
    ensures first.Length == second.Length == n
    ensures forall j :: 0 <= j < n ==> first[j] == address + Offset(Clamp(requested), n - 1 - j)
    ensures forall j :: 0 <= j < n ==> second[j] == address + Offset(Clamp(requested), j)
    ensures forall i, j :: 0 <= i < j < n ==> first[j] + requested <= first[i] && second[i] + requested <= second[j]
  {
    hide Inv, AfterPass, Clamp, Offset, Descending, Pointers;
    var pool := new MemoryPool(requested, n, address);
    first, second := new nat[n], new nat[n];
    PointersOfFreshPool(pool.Bytes(), n);
    BenchmarkMempool(pool, first);
    PointersOfTurnedPool(pool.Bytes(), n);
    BenchmarkMempool(pool, second);
    assert forall j :: 0 <= j < n ==> first[..][j] == first[j] && second[..][j] == second[j];
    SpacedOut(first[..], second[..], requested, address);
  }
}
