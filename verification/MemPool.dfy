/** The fixed-block memory pool as bytes: the free list lives inside the blocks it lists.

    A pool is an arena of count * blockSize bytes at address start. The first eight bytes of
    a free block hold the address of the next free block, and address 0 ends the list. A block
    that has been handed out belongs to the client, who may store anything in all of its bytes. */
module MemPool {
  import opened Common
  import opened WordBytes

  const NULL: nat := 0
  const NODE_SIZE: nat := 8
  const ADDRESS_LIMIT: nat := 0x1_0000_0000_0000_0000

  datatype Pool = Pool(blockSize: nat, start: nat, mem: seq<Byte>, head: nat)

  /** Where block i begins in an arena of blocks of b bytes: i times b, kept as a sum. */
  function Offset(b: nat, i: nat): nat
    decreases i
  {
    if i == 0 then 0 else Offset(b, i - 1) + b
  }

  lemma {:induction false} OffsetIsProduct(b: nat, i: nat)
    ensures Offset(b, i) == i * b
  {
    if i == 0 {
    } else {
      OffsetIsProduct(b, i - 1);
    }
  }

  lemma {:induction false} OffsetSteps(b: nat, i: nat, j: nat)
    requires i < j
    ensures Offset(b, i) + b <= Offset(b, j)
    decreases j
  {
    if i == j - 1 {
    } else {
      OffsetSteps(b, i, j - 1);
    }
  }

  function Address(p: Pool, i: nat): nat { p.start + Offset(p.blockSize, i) }

  predicate InArena(p: Pool, a: nat)
  {
    p.start <= a && a + NODE_SIZE <= p.start + |p.mem|
  }

  /** The pointer stored at address a. */
  function Link(p: Pool, a: nat): nat
    requires InArena(p, a)
  {
    Decode(p.mem[a - p.start..a - p.start + NODE_SIZE])
  }

  /** Following stored pointers from a visits exactly the blocks of list, in order, and ends at NULL. */
  predicate IsChain(p: Pool, count: nat, a: nat, list: seq<nat>)
    decreases |list|
  {
    if list == [] then a == NULL
    else
      && list[0] < count
      && a == Address(p, list[0])
      && InArena(p, a)
      && IsChain(p, count, Link(p, a), list[1..])
  }

  predicate Geometry(p: Pool, count: nat)
  {
    && p.blockSize >= NODE_SIZE
    && p.start > NULL
    && |p.mem| == Offset(p.blockSize, count)
    && p.start + |p.mem| <= ADDRESS_LIMIT
  }

  predicate NoDuplicates(s: seq<nat>)
  {
    forall i, j :: 0 <= i < j < |s| ==> s[i] != s[j]
  }

  /** The blocks are split between the free list, as stored in the arena, and the client. */
  predicate Partition(count: nat, free: seq<nat>, live: set<nat>)
  {
    && NoDuplicates(free)
    && (forall i :: i in free ==> i < count && i !in live)
    && (forall i :: i in live ==> i < count)
    && (forall i: nat :: i < count ==> i in free || i in live)
  }

  predicate Inv(p: Pool, count: nat, free: seq<nat>, live: set<nat>)
  {
    && Geometry(p, count)
    && Partition(count, free, live)
    && IsChain(p, count, p.head, free)
  }

  // ---------------------------------------------------------------- stores

  lemma OverwriteElsewhere(mem: seq<Byte>, at: nat, bytes: seq<Byte>, lo: nat, hi: nat)
    requires at + |bytes| <= |mem| && lo <= hi <= |mem|
    requires hi <= at || at + |bytes| <= lo
    ensures Overwrite(mem, at, bytes)[lo..hi] == mem[lo..hi]
  {
    var r := Overwrite(mem, at, bytes);
    assert forall k | lo <= k < hi :: r[k] == mem[k];
  }

  function StoreLink(p: Pool, a: nat, target: nat): Pool
    requires InArena(p, a)
  {
    p.(mem := Overwrite(p.mem, a - p.start, Encode(target, NODE_SIZE)))
  }

  // ------------------------------------------------------------ operations

  /** pool_alloc on a pool that exists: pop the head of the list, or NULL when there is none. */
  function Alloc(p: Pool): (Pool, nat)
    requires p.head == NULL || InArena(p, p.head)
  {
    if p.head == NULL then (p, NULL) else (p.(head := Link(p, p.head)), p.head)
  }

  /** pool_free on a pool that exists: push the block, or nothing for NULL. */
  function Free(p: Pool, block: nat): Pool
    requires block == NULL || InArena(p, block)
  {
    if block == NULL then p else StoreLink(p, block, p.head).(head := block)
  }

  /** A client stores one byte. */
  function WriteByte(p: Pool, a: nat, b: Byte): Pool
    requires p.start <= a < p.start + |p.mem|
  {
    p.(mem := Overwrite(p.mem, a - p.start, [b]))
  }

  // -------------------------------------------------------------- geometry

  /** Blocks are disjoint byte ranges inside the arena. */
  lemma BlockBounds(p: Pool, count: nat, i: nat)
    requires Geometry(p, count) && i < count
    ensures Offset(p.blockSize, i) + p.blockSize <= |p.mem|
    ensures InArena(p, Address(p, i))
  {
    OffsetSteps(p.blockSize, i, count);
  }

  lemma BlocksDisjoint(p: Pool, i: nat, j: nat)
    requires i != j
    ensures
      || Offset(p.blockSize, i) + p.blockSize <= Offset(p.blockSize, j)
      || Offset(p.blockSize, j) + p.blockSize <= Offset(p.blockSize, i)
  {
    if i < j {
      OffsetSteps(p.blockSize, i, j);
    } else {
      OffsetSteps(p.blockSize, j, i);
    }
  }

  /** Every address the allocator can hand out names one block only. */
  lemma AddressInjective(p: Pool, i: nat, j: nat)
    requires p.blockSize > 0
    ensures Address(p, i) == Address(p, j) ==> i == j
  {
    if i != j {
      BlocksDisjoint(p, i, j);
    }
  }

  // ---------------------------------------------------------------- chains

  predicate SameLinks(p: Pool, q: Pool, blocks: seq<nat>)
  {
    forall i :: i in blocks && InArena(p, Address(p, i)) ==>
      InArena(q, Address(p, i)) && Link(q, Address(p, i)) == Link(p, Address(p, i))
  }

  lemma {:induction false} ChainFrame(p: Pool, q: Pool, count: nat, a: nat, list: seq<nat>)
    requires q.start == p.start && q.blockSize == p.blockSize
    requires SameLinks(p, q, list)
    requires IsChain(p, count, a, list)
    ensures IsChain(q, count, a, list)
    decreases |list|
  {
    if list == [] {
    } else {
      assert list[0] in list;
      assert forall i :: i in list[1..] ==> i in list;
      ChainFrame(p, q, count, Link(p, a), list[1..]);
    }
  }

  /** A chain is a matter of the arena alone, wherever the pool's head points. */
  lemma {:induction false} ChainIgnoresHead(p: Pool, head: nat, count: nat, a: nat, list: seq<nat>)
    requires IsChain(p, count, a, list)
    ensures IsChain(p.(head := head), count, a, list)
    decreases |list|
  {
    if list == [] {
    } else {
      ChainIgnoresHead(p, head, count, Link(p, a), list[1..]);
    }
  }

  /** The arena bytes determine the list: there is at most one chain from any address. */
  lemma {:induction false} ChainUnique(p: Pool, count: nat, a: nat, l: seq<nat>, m: seq<nat>)
    requires p.start > NULL && p.blockSize > 0
    requires IsChain(p, count, a, l) && IsChain(p, count, a, m)
    ensures l == m
    decreases |l|
  {
    if l == [] || m == [] {
    } else {
      AddressInjective(p, l[0], m[0]);
      ChainUnique(p, count, Link(p, a), l[1..], m[1..]);
      assert l == [l[0]] + l[1..] && m == [m[0]] + m[1..];
    }
  }

  /** Bytes stored inside block j leave the link of every other block alone. */
  lemma StoreKeepsOtherLinks(p: Pool, count: nat, j: nat, at: nat, bytes: seq<Byte>, i: nat)
    requires Geometry(p, count) && i < count && j < count && i != j
    requires Offset(p.blockSize, j) <= at && at + |bytes| <= Offset(p.blockSize, j) + p.blockSize
    ensures at + |bytes| <= |p.mem| && InArena(p, Address(p, i))
    ensures Link(p.(mem := Overwrite(p.mem, at, bytes)), Address(p, i)) == Link(p, Address(p, i))
  {
    BlockBounds(p, count, i);
    BlockBounds(p, count, j);
    BlocksDisjoint(p, i, j);
    OverwriteElsewhere(p.mem, at, bytes, Offset(p.blockSize, i), Offset(p.blockSize, i) + NODE_SIZE);
  }

  /** Bytes stored inside block j leave every chain that avoids j alone. */
  lemma StoreKeepsChain(p: Pool, count: nat, j: nat, at: nat, bytes: seq<Byte>, a: nat, list: seq<nat>)
    requires Geometry(p, count) && j < count && j !in list
    requires forall i :: i in list ==> i < count
    requires Offset(p.blockSize, j) <= at && at + |bytes| <= Offset(p.blockSize, j) + p.blockSize
    requires IsChain(p, count, a, list)
    ensures at + |bytes| <= |p.mem|
    ensures IsChain(p.(mem := Overwrite(p.mem, at, bytes)), count, a, list)
  {
    BlockBounds(p, count, j);
    var q := p.(mem := Overwrite(p.mem, at, bytes));
    forall i | i in list && InArena(p, Address(p, i))
      ensures InArena(q, Address(p, i)) && Link(q, Address(p, i)) == Link(p, Address(p, i))
    {
      StoreKeepsOtherLinks(p, count, j, at, bytes, i);
    }
    ChainFrame(p, q, count, a, list);
  }

  /** What was stored as a link is read back. */
  lemma StoreLinkReads(p: Pool, a: nat, target: nat)
    requires InArena(p, a) && target < ADDRESS_LIMIT
    ensures InArena(StoreLink(p, a, target), a)
    ensures Link(StoreLink(p, a, target), a) == target
  {
    var q := StoreLink(p, a, target);
    assert q.mem[a - p.start..a - p.start + NODE_SIZE] == Encode(target, NODE_SIZE);
    Pow256Word();
    DecodeEncode(target, NODE_SIZE);
  }

  /** The head of a stored chain is NULL or the address of its first block. */
  lemma HeadOf(p: Pool, count: nat, a: nat, list: seq<nat>)
    requires Geometry(p, count) && IsChain(p, count, a, list)
    ensures a < ADDRESS_LIMIT
    ensures a == NULL <==> list == []
    ensures a != NULL ==> InArena(p, a)
  {
    if list != [] {
      BlockBounds(p, count, list[0]);
    }
  }

  /** Linking block i in front of a chain that avoids it yields the longer chain. */
  lemma PushLink(p: Pool, count: nat, i: nat, a: nat, list: seq<nat>)
    requires Geometry(p, count) && i < count && i !in list
    requires forall j :: j in list ==> j < count
    requires IsChain(p, count, a, list)
    ensures InArena(p, Address(p, i))
    ensures IsChain(StoreLink(p, Address(p, i), a), count, Address(p, i), [i] + list)
  {
    BlockBounds(p, count, i);
    HeadOf(p, count, a, list);
    StoreLinkReads(p, Address(p, i), a);
    StoreKeepsChain(p, count, i, Offset(p.blockSize, i), Encode(a, NODE_SIZE), a, list);
    assert ([i] + list)[1..] == list;
  }

  // ------------------------------------------------- what each operation keeps

  /** pool_alloc refines popping a stack, and returns NULL exactly when every block is live. */
  lemma AllocRefinesPop(p: Pool, count: nat, free: seq<nat>, live: set<nat>)
    requires Inv(p, count, free, live)
    ensures p.head == NULL || InArena(p, p.head)
    ensures Alloc(p).1 == NULL <==> free == []
    ensures Alloc(p).1 == NULL <==> |live| == count
    ensures free == [] ==> Alloc(p).0 == p
    ensures free != [] ==>
      && Alloc(p).1 == Address(p, free[0])
      && Alloc(p).0.mem == p.mem
      && Inv(Alloc(p).0, count, free[1..], live + {free[0]})
  {
    HeadOf(p, count, p.head, free);
    BlocksConserved(count, free, live);
    if free != [] {
      assert forall i :: i in free <==> i == free[0] || i in free[1..];
      assert free[0] !in free[1..];
      ChainIgnoresHead(p, Link(p, p.head), count, Link(p, p.head), free[1..]);
    }
  }

  /** Freeing a block that is on no list puts it in front. */
  lemma FreePushes(p: Pool, count: nat, i: nat, list: seq<nat>)
    requires Geometry(p, count) && i < count && i !in list
    requires forall j :: j in list ==> j < count
    requires IsChain(p, count, p.head, list)
    ensures InArena(p, Address(p, i)) && Address(p, i) != NULL
    ensures Geometry(Free(p, Address(p, i)), count)
    ensures IsChain(Free(p, Address(p, i)), count, Address(p, i), [i] + list)
  {
    PushLink(p, count, i, p.head, list);
    ChainIgnoresHead(StoreLink(p, Address(p, i), p.head), Address(p, i), count, Address(p, i), [i] + list);
  }

  /** pool_free of a live block refines pushing it. */
  lemma FreeRefinesPush(p: Pool, count: nat, free: seq<nat>, live: set<nat>, i: nat)
    requires Inv(p, count, free, live) && i in live
    ensures InArena(p, Address(p, i)) && Address(p, i) != NULL
    ensures Inv(Free(p, Address(p, i)), count, [i] + free, live - {i})
  {
    FreePushes(p, count, i, free);
  }

  /** Whatever a client stores inside a block it holds, the free list is not disturbed. */
  lemma ClientWriteKeepsPool(p: Pool, count: nat, free: seq<nat>, live: set<nat>, i: nat, k: nat, b: Byte)
    requires Inv(p, count, free, live) && i in live && k < p.blockSize
    ensures Address(p, i) + k < p.start + |p.mem|
    ensures Inv(WriteByte(p, Address(p, i) + k, b), count, free, live)
  {
    BlockBounds(p, count, i);
    StoreKeepsChain(p, count, i, Offset(p.blockSize, i) + k, [b], p.head, free);
  }

  // ------------------------------------------------------------ conservation

  function Below(n: nat): (s: set<nat>)
    ensures forall i :: i in s <==> 0 <= i < n
  {
    if n == 0 then {} else Below(n - 1) + {n - 1}
  }

  lemma {:induction false} BelowSize(n: nat)
    ensures |Below(n)| == n
  {
    if n == 0 {
    } else {
      BelowSize(n - 1);
    }
  }

  function Elements(s: seq<nat>): set<nat> { set x | x in s }

  lemma {:induction false} ElementsSize(s: seq<nat>)
    requires NoDuplicates(s)
    ensures |Elements(s)| == |s|
  {
    if s == [] {
    } else {
      ElementsSize(s[1..]);
      assert s[0] !in s[1..];
      assert Elements(s) == {s[0]} + Elements(s[1..]);
    }
  }

  /** Free and live blocks together always number the blocks the pool was made with. */
  lemma BlocksConserved(count: nat, free: seq<nat>, live: set<nat>)
    requires Partition(count, free, live)
    ensures |free| + |live| == count
  {
    BelowSize(count);
    ElementsSize(free);
    assert Elements(free) !! live;
    assert Below(count) == Elements(free) + live;
  }

  /** Two different blocks never share a byte, and none reaches outside the arena. */
  lemma LiveBlocksSeparate(p: Pool, count: nat, free: seq<nat>, live: set<nat>, i: nat, j: nat, a: nat)
    requires Inv(p, count, free, live) && i in live && j in live && i != j
    requires Address(p, i) <= a < Address(p, i) + p.blockSize
    ensures p.start <= a < p.start + |p.mem|
    ensures !(Address(p, j) <= a < Address(p, j) + p.blockSize)
  {
    BlockBounds(p, count, i);
    BlocksDisjoint(p, i, j);
  }

  // ------------------------------------------------------------- whole runs

  datatype Event =
    | Allocate
    | Release(block: nat)
    | ReleaseNull
    | Store(block: nat, offset: nat, value: Byte)

  /** The pool next to the stack and the set of live blocks it should be refining. */
  datatype Client = Client(pool: Pool, free: seq<nat>, live: set<nat>)

  /** What the allocator leaves to its caller: free and store only into blocks you hold. */
  predicate Legal(c: Client, e: Event)
  {
    match e
    case Allocate => true
    case Release(i) => i in c.live
    case ReleaseNull => true
    case Store(i, k, _) => i in c.live && k < c.pool.blockSize
  }

  /** The abstract side of a step: a stack of free blocks and a set of live ones. */
  function StackNext(free: seq<nat>, live: set<nat>, e: Event): (seq<nat>, set<nat>)
  {
    match e
    case Allocate => if free == [] then (free, live) else (free[1..], live + {free[0]})
    case Release(i) => ([i] + free, live - {i})
    case ReleaseNull => (free, live)
    case Store(_, _, _) => (free, live)
  }

  function Next(c: Client, count: nat, e: Event): (r: Client)
    requires Inv(c.pool, count, c.free, c.live) && Legal(c, e)
    ensures Inv(r.pool, count, r.free, r.live)
    ensures (r.free, r.live) == StackNext(c.free, c.live, e)
    ensures r.pool.start == c.pool.start && r.pool.blockSize == c.pool.blockSize
  {
    var (free, live) := StackNext(c.free, c.live, e);
    match e
    case Allocate =>
      AllocRefinesPop(c.pool, count, c.free, c.live);
      Client(Alloc(c.pool).0, free, live)
    case Release(i) =>
      FreeRefinesPush(c.pool, count, c.free, c.live, i);
      Client(Free(c.pool, Address(c.pool, i)), free, live)
    case ReleaseNull =>
      Client(Free(c.pool, NULL), free, live)
    case Store(i, k, b) =>
      ClientWriteKeepsPool(c.pool, count, c.free, c.live, i, k, b);
      Client(WriteByte(c.pool, Address(c.pool, i) + k, b), free, live)
  }

  predicate LegalRun(c: Client, count: nat, es: seq<Event>)
    requires Inv(c.pool, count, c.free, c.live)
    decreases |es|
  {
    es == [] || (Legal(c, es[0]) && LegalRun(Next(c, count, es[0]), count, es[1..]))
  }

  function Run(c: Client, count: nat, es: seq<Event>): Client
    requires Inv(c.pool, count, c.free, c.live) && LegalRun(c, count, es)
    decreases |es|
  {
    if es == [] then c else Run(Next(c, count, es[0]), count, es[1..])
  }

  /** The stack alone, run over the same events. */
  function StackRun(free: seq<nat>, live: set<nat>, es: seq<Event>): (seq<nat>, set<nat>)
    decreases |es|
  {
    if es == [] then (free, live)
    else
      var (f, l) := StackNext(free, live, es[0]);
      StackRun(f, l, es[1..])
  }

  /** After any legal run the links stored in the arena visit exactly the blocks on the abstract
      stack, once each, no live block among them, and that reading of the bytes is the only one. */
  lemma {:induction false} RunRefinesStack(c: Client, count: nat, es: seq<Event>)
    requires Inv(c.pool, count, c.free, c.live) && LegalRun(c, count, es)
    ensures var r := Run(c, count, es);
      var (free, live) := StackRun(c.free, c.live, es);
      && Inv(r.pool, count, free, live)
      && |free| + |live| == count
      && (forall list :: IsChain(r.pool, count, r.pool.head, list) <==> list == free)
    decreases |es|
  {
    if es == [] {
      BlocksConserved(count, c.free, c.live);
      forall list | IsChain(c.pool, count, c.pool.head, list)
        ensures list == c.free
      {
        ChainUnique(c.pool, count, c.pool.head, list, c.free);
      }
    } else {
      RunRefinesStack(Next(c, count, es[0]), count, es[1..]);
    }
  }

  // ------------------------------------- the precondition pool_free leaves to its caller

  /** Walking from free[m] after block free[k] was freed again arrives at free[k] once more. */
  lemma {:induction false} WalkReaches(p: Pool, q: Pool, count: nat, free: seq<nat>, m: nat, k: nat, list: seq<nat>)
    requires m <= k < |free| && q.start == p.start > NULL && q.blockSize == p.blockSize > 0
    requires |q.mem| == |p.mem|
    requires IsChain(p, count, Address(p, free[m]), free[m..])
    requires SameLinks(p, q, free[m..k])
    requires IsChain(q, count, Address(p, free[m]), list)
    ensures k - m <= |list|
    ensures IsChain(q, count, Address(p, free[k]), list[k - m..])
    decreases k - m
  {
    hide Decode, Offset;
    if m < k {
      assert free[m..][0] == free[m] && free[m..][1..] == free[m + 1..];
      assert free[m] in free[m..k];
      assert forall i :: i in free[m + 1..k] ==> i in free[m..k];
      assert list != [];
      WalkReaches(p, q, count, free, m + 1, k, list[1..]);
      assert list[1..][k - m - 1..] == list[k - m..];
    } else {
      assert list[0..] == list;
    }
  }

  /** Some finite list of blocks is what the pool's links spell out. */
  ghost predicate HasList(p: Pool, count: nat)
  {
    exists list :: IsChain(p, count, p.head, list)
  }

  lemma DoubleFreeHasNoList(p: Pool, count: nat, free: seq<nat>, live: set<nat>, k: nat, list: seq<nat>)
    requires Inv(p, count, free, live) && k < |free|
    ensures InArena(p, Address(p, free[k]))
    ensures !IsChain(Free(p, Address(p, free[k])), count, Address(p, free[k]), list)
  {
    hide Encode, Decode, Offset;
    var i := free[k];
    assert i in free;
    BlockBounds(p, count, i);
    var a := Address(p, i);
    var q := Free(p, a);
    if IsChain(q, count, a, list) {
      HeadOf(p, count, p.head, free);
      StoreLinkReads(p, a, p.head);
      assert Link(q, a) == Link(StoreLink(p, a, p.head), a);
      forall j | j in free[0..k] && InArena(p, Address(p, j))
        ensures InArena(q, Address(p, j)) && Link(q, Address(p, j)) == Link(p, Address(p, j))
      {
        var m :| 0 <= m < k && free[m] == j;
        assert j in free && j != i;
        StoreKeepsOtherLinks(p, count, i, Offset(p.blockSize, i), Encode(p.head, NODE_SIZE), j);
        assert Link(q, Address(p, j)) == Link(StoreLink(p, a, p.head), Address(p, j));
      }
      assert free[0..] == free;
      WalkReaches(p, q, count, free, 0, k, list[1..]);
      ChainUnique(q, count, a, list, list[1..][k..]);
      assert false;
    }
  }

  /** Freeing a block leaves a list that ends if and only if the block was live. */
  lemma FreeKeepsAListIff(p: Pool, count: nat, free: seq<nat>, live: set<nat>, i: nat)
    requires Inv(p, count, free, live) && i < count
    ensures InArena(p, Address(p, i))
    ensures HasList(Free(p, Address(p, i)), count) <==> i in live
  {
    BlockBounds(p, count, i);
    var q := Free(p, Address(p, i));
    if i in live {
      FreeRefinesPush(p, count, free, live, i);
      assert IsChain(q, count, q.head, [i] + free);
    } else {
      var k :| 0 <= k < |free| && free[k] == i;
      forall list
        ensures !IsChain(q, count, Address(p, i), list)
      {
        DoubleFreeHasNoList(p, count, free, live, k, list);
      }
      assert q.head == Address(p, i);
    }
  }
}
