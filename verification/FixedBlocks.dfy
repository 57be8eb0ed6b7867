/** The fixed-block allocator `Allocator`: an intrusive free list over blocks taken one by one
    from the heap or from a pool. */
module FixedBlocks {
  import opened Basics
  import opened Words
  import opened Memory

  datatype Mode = HeapBlocks | HeapPool | StaticPool

  lemma Drop(s: set<nat>, b: nat)
    requires b in s
    ensures |s - {b}| + 1 == |s|
  {}

  /** i slots of the given size, added up. */
  function Times(i: nat, size: nat): nat {
    if i == 0 then 0 else Times(i - 1, size) + size
  }

  lemma {:induction false} TimesIsProduct(i: nat, size: nat)
    ensures Times(i, size) == i * size
  {
    if i > 0 { TimesIsProduct(i - 1, size); }
  }

  /** Address of pool slot i. */
  function Slot(pool: nat, size: nat, i: nat): nat {
    pool + Times(i, size)
  }

  /** Pool slots lie one after the other. */
  lemma {:induction false} SlotsApart(pool: nat, size: nat, i: nat, j: nat)
    requires i < j
    ensures Slot(pool, size, i) + size <= Slot(pool, size, j)
    decreases j
  {
    if i < j - 1 { SlotsApart(pool, size, i, j - 1); }
  }

  ghost predicate IsSlot(b: nat, pool: nat, size: nat, n: nat) {
    exists i: nat :: i < n && b == Slot(pool, size, i)
  }

  /** The next slot has not been handed out yet, and it lies inside a pool of max slots. */
  lemma NextSlot(pool: nat, size: nat, n: nat, max: nat)
    requires n < max && 0 < size
    ensures !IsSlot(Slot(pool, size, n), pool, size, n)
    ensures pool <= Slot(pool, size, n) && Slot(pool, size, n) + size <= pool + Times(max, size)
  {
    forall i: nat | i < n ensures Slot(pool, size, i) != Slot(pool, size, n) {
      SlotsApart(pool, size, i, n);
    }
    SlotsApart(pool, size, n, max);
  }

  lemma {:induction false} TimesSmaller(n: nat, size: nat, size': nat)
    requires size < size' && 0 < n
    ensures Times(n, size) < Times(n, size')
  {
    if n > 1 { TimesSmaller(n - 1, size, size'); }
  }

  /** A caller's pool of size x objects bytes holds all blocks of an allocator if and only if an
      object is at least a pointer long: shorter objects get pointer-sized blocks all the same. */
  lemma StaticPoolFits(pool: nat, size: nat, objects: nat)
    requires 0 < objects
    ensures (forall i: nat | i < objects ::
               Slot(pool, Max(size, WIDTH), i) + Max(size, WIDTH) <= pool + Times(objects, size))
            <==> WIDTH <= size
  {
    if WIDTH <= size {
      forall i: nat | i < objects ensures Slot(pool, size, i) + size <= pool + Times(objects, size) {
        SlotsApart(pool, size, i, objects);
      }
    } else {
      TimesSmaller(objects, size, WIDTH);
      var last: nat := objects - 1;
      assert Slot(pool, Max(size, WIDTH), last) + Max(size, WIDTH) > pool + Times(objects, size);
    }
  }

  /** What an allocator is built with: m_blockSize, m_objectsize, m_maxObjects,
      m_allocatorMode and m_pPool. */
  datatype Config = Config(blockSize: nat, objectSize: nat, maxObjects: nat, mode: Mode, pool: nat)

  /** b is an address that an allocator with n pool slots handed out may use as a block. */
  ghost predicate IsBlock(c: Config, regions: map<nat, nat>, n: nat, b: nat) {
    if c.mode == HeapBlocks then b in regions && regions[b] == c.blockSize
    else IsSlot(b, c.pool, c.blockSize, n)
  }

  ghost predicate Consistent(c: Config, regions: map<nat, nat>, n: nat) {
    && c.blockSize == Max(c.objectSize, WIDTH)
    && (c.mode == HeapBlocks <==> c.maxObjects == 0)
    && (c.mode != HeapBlocks ==>
          && c.pool in regions && Times(c.maxObjects, c.blockSize) <= regions[c.pool]
          && n <= c.maxObjects < UINT)
  }

  /** Blocks are valid and distinct: the free ones in list order, the others in use. */
  ghost predicate Owned(c: Config, regions: map<nat, nat>, n: nat, free: seq<nat>, used: set<nat>) {
    && NoRepeats(free)
    && (forall b | b in used :: b !in free)
    && NULL !in free && NULL !in used
    && (forall b | b in free :: IsBlock(c, regions, n, b))
    && (forall b | b in used :: IsBlock(c, regions, n, b))
  }

  /** Distinct blocks never overlap. */
  lemma BlocksApart(c: Config, regions: map<nat, nat>, n: nat, b: nat, d: nat)
    requires Apart(regions) && IsBlock(c, regions, n, b) && IsBlock(c, regions, n, d) && b != d
    ensures b + c.blockSize <= d || d + c.blockSize <= b
  {
    if c.mode != HeapBlocks {
      var i: nat :| i < n && b == Slot(c.pool, c.blockSize, i);
      var j: nat :| j < n && d == Slot(c.pool, c.blockSize, j);
      if i < j { SlotsApart(c.pool, c.blockSize, i, j); }
      if j < i { SlotsApart(c.pool, c.blockSize, j, i); }
    }
  }

  /** Every block lies inside one outstanding array: its own, or the pool. */
  lemma BlockInside(c: Config, regions: map<nat, nat>, n: nat, b: nat)
    requires Consistent(c, regions, n) && IsBlock(c, regions, n, b)
    ensures var r := if c.mode == HeapBlocks then b else c.pool;
            r in regions && r <= b && b + c.blockSize <= r + regions[r]
  {
    if c.mode != HeapBlocks {
      var i: nat :| i < n && b == Slot(c.pool, c.blockSize, i);
      SlotsApart(c.pool, c.blockSize, i, c.maxObjects);
      if i > 0 { SlotsApart(c.pool, c.blockSize, 0, i); }
    }
  }

  lemma BlockMapped(c: Config, mem: Mem, brk: nat, regions: map<nat, nat>, n: nat, b: nat)
    requires WellFormed(mem, brk, regions) && Consistent(c, regions, n) && IsBlock(c, regions, n, b)
    ensures forall x: nat | b <= x < b + c.blockSize :: x in mem
  {
    BlockInside(c, regions, n, b);
  }

  /** Returning b: it moves from the used blocks to the front of the free list. */
  lemma OwnedPush(c: Config, regions: map<nat, nat>, n: nat, free: seq<nat>, used: set<nat>, b: nat)
    requires Owned(c, regions, n, free, used) && b in used
    ensures Owned(c, regions, n, [b] + free, used - {b})
  {}

  lemma OwnedPop(c: Config, regions: map<nat, nat>, n: nat, free: seq<nat>, used: set<nat>)
    requires Owned(c, regions, n, free, used) && free != []
    ensures Owned(c, regions, n, free[1..], used + {free[0]})
  {}

  lemma OwnedNew(c: Config, regions: map<nat, nat>, n: nat, regions': map<nat, nat>, n': nat, used: set<nat>, b: nat)
    requires Owned(c, regions, n, [], used) && b != NULL
    requires forall d | d in used :: IsBlock(c, regions', n', d)
    requires IsBlock(c, regions', n', b)
    ensures Owned(c, regions', n', [], used + {b})
  {}

  lemma OwnedDelete(c: Config, regions: map<nat, nat>, n: nat, free: seq<nat>, used: set<nat>, b: nat)
    requires Owned(c, regions, n, free, used) && b in used && c.mode == HeapBlocks
    ensures Owned(c, regions - {b}, n, free, used - {b})
  {}

  lemma LinkPush(c: Config, m: Mem, regions: map<nat, nat>, n: nat, m': Mem, head: nat, free: seq<nat>, used: set<nat>, b: nat)
    requires Apart(regions) && c.blockSize >= WIDTH && Owned(c, regions, n, free, used) && b in used
    requires Chain(m, head, free) && Wrote(m, m', b, Link(head))
    ensures Chain(m', b, [b] + free)
  {
    forall d | d in free ensures b + WIDTH <= d || d + WIDTH <= b {
      BlocksApart(c, regions, n, b, d);
    }
    ChainPush(m, m', head, free, b);
  }

  /** Blocks obtained = in use + free = the most ever in use at once. */
  predicate Supply(mode: Mode, inUse: nat, idle: nat, peak: nat, blockCnt: nat, poolIndex: nat) {
    && peak == inUse + idle
    && (mode == HeapBlocks ==> blockCnt == Wrap(peak) && poolIndex == 0)
    && (mode != HeapBlocks ==> poolIndex == peak && blockCnt == 0)
  }

  /** b was not in use and now is. */
  ghost predicate Gained(used: set<nat>, used': set<nat>, b: nat) {
    b !in used && used' == used + {b} && |used'| == |used| + 1
  }

  class Allocator {
    const cfg: Config
    const heap: Heap
    var head: nat            // m_pHead
    var poolIndex: nat       // m_poolIndex
    var blockCnt: nat        // m_blockCnt
    var blocksInUse: nat     // m_blocksInUse
    var allocations: nat     // m_allocations
    var deallocations: nat   // m_deallocations

    ghost var free: seq<nat>   // blocks on the free list, head first
    ghost var used: set<nat>   // blocks handed out and not returned
    ghost var peak: nat        // most blocks ever handed out at once
    ghost var taken: nat       // calls of Allocate
    ghost var returned: nat    // calls of Deallocate
    ghost var misses: nat      // requests that an exhausted pool answered with NULL

    ghost predicate Exhausted()
      reads this
    {
      cfg.mode != HeapBlocks && free == [] && poolIndex == cfg.maxObjects
    }

    /** The free list is the chain of links from the head, and every block is accounted for. */
    ghost predicate Linked(mem: Mem, regions: map<nat, nat>)
      reads `poolIndex, `free, `used, `head
    {
      && Consistent(cfg, regions, poolIndex)
      && Owned(cfg, regions, poolIndex, free, used)
      && Chain(mem, head, free)
    }

    ghost predicate Valid()
      reads `poolIndex, `free, `used, `head, heap
    {
      heap.Valid() && Linked(heap.mem, heap.regions)
    }

    ghost predicate Supplied()
      reads `used, `free, `peak, `blockCnt, `poolIndex
    {
      Supply(cfg.mode, |used|, |free|, peak, blockCnt, poolIndex)
    }

    /** Conservation, and one call of Allocate or Deallocate per counter step. Every operation
        keeps this. */
    ghost predicate Counted()
      reads this
    {
      && Supplied()
      && |used| + misses == taken - returned
      && Tallied()
    }

    ghost predicate Tallied()
      reads this
    {
      Tally(taken, returned, blocksInUse, allocations, deallocations)
    }

    /** A caller-supplied pool is size x objects bytes long. */
    constructor (size: nat, objects: nat, memory: nat, heap: Heap)
      requires heap.Valid() && objects < UINT
      requires objects != 0 && memory != NULL ==>
                 size >= WIDTH && memory in heap.regions && heap.regions[memory] == Times(objects, size)
      modifies heap
      ensures Valid() && Counted() && this.heap == heap
      ensures cfg.blockSize == Max(size, WIDTH) && cfg.objectSize == size && cfg.maxObjects == objects
      ensures free == [] && used == {} && peak == misses == taken == returned == 0
      ensures cfg.mode == if objects == 0 then HeapBlocks else if memory == NULL then HeapPool else StaticPool
      ensures cfg.mode == HeapPool ==>
                cfg.pool !in old(heap.regions)
                && heap.regions == old(heap.regions)[cfg.pool := Times(objects, cfg.blockSize)]
      ensures cfg.mode == StaticPool ==> cfg.pool == memory
      ensures cfg.mode != HeapPool ==> heap.mem == old(heap.mem) && heap.regions == old(heap.regions) && heap.brk == old(heap.brk)
      ensures Extends(old(heap.mem), heap.mem)
    {
      this.heap := heap;
      head, poolIndex, blockCnt, blocksInUse, allocations, deallocations := NULL, 0, 0, 0, 0, 0;
      free, used, peak, misses, taken, returned := [], {}, 0, 0, 0, 0;
      var blockSize := Max(size, WIDTH);
      if objects != 0 {
        if memory != NULL {
          cfg := Config(blockSize, size, objects, StaticPool, memory);
        } else {
          var p := heap.New(Times(objects, blockSize));
          cfg := Config(blockSize, size, objects, HeapPool, p);
        }
      } else {
        cfg := Config(blockSize, size, objects, HeapBlocks, NULL);
      }
    }

    method Push(b: nat)
      requires Valid() && b in used
      modifies `head, `free, `used, heap`mem
      ensures Valid()
      ensures free == [b] + old(free) && used == old(used) - {b}
      ensures Wrote(old(heap.mem), heap.mem, b, Link(old(head)))
    {
      BlockMapped(cfg, heap.mem, heap.brk, heap.regions, poolIndex, b);
      heap.StorePtr(b, Link(head));
      LinkPush(cfg, old(heap.mem), heap.regions, poolIndex, heap.mem, head, free, used, b);
      OwnedPush(cfg, heap.regions, poolIndex, free, used, b);
      head := b;
      free := [b] + free;
      used := used - {b};
    }

    /** Takes the head of the free list, NULL when it is empty. */
    method Pop() returns (b: nat)
      requires Valid()
      modifies `head, `free, `used
      ensures Valid()
      ensures old(free) == [] ==> b == NULL && free == [] && used == old(used)
      ensures old(free) != [] ==>
                b != NULL && b == old(free)[0] && free == old(free)[1..] && Gained(old(used), used, b)
    {
      b := NULL;
      if head != NULL {
        OwnedPop(cfg, heap.regions, poolIndex, free, used);
        b := head;
        head := heap.mem[head].ptr.addr;
        free := free[1..];
        used := used + {b};
      }
    }

    /** The next pool slot. */
    method TakeSlot() returns (b: nat)
      requires Valid() && free == [] && cfg.mode != HeapBlocks && poolIndex < cfg.maxObjects
      modifies `poolIndex, `used
      ensures Valid()
      ensures b != NULL && Gained(old(used), used, b) && poolIndex == old(poolIndex) + 1
    {
      NextSlot(cfg.pool, cfg.blockSize, poolIndex, cfg.maxObjects);
      SlotsKept(cfg.pool, cfg.blockSize, poolIndex, used);
      b := Slot(cfg.pool, cfg.blockSize, poolIndex);
      OwnedNew(cfg, heap.regions, poolIndex, heap.regions, poolIndex + 1, used, b);
      poolIndex := poolIndex + 1;
      used := used + {b};
    }

    /** A new heap array. */
    method TakeArray() returns (b: nat)
      requires Valid() && free == [] && cfg.mode == HeapBlocks
      modifies `blockCnt, `used, heap
      ensures Valid()
      ensures b != NULL && Gained(old(used), used, b) && blockCnt == Inc(old(blockCnt))
      ensures b !in old(heap.regions) && heap.regions == old(heap.regions)[b := cfg.blockSize]
      ensures Extends(old(heap.mem), heap.mem)
    {
      blockCnt := Inc(blockCnt);
      b := heap.New(cfg.blockSize);
      OwnedNew(cfg, old(heap.regions), poolIndex, heap.regions, poolIndex, used, b);
      used := used + {b};
    }

    /** A block that was never handed out, NULL from an exhausted pool. */
    method Refill() returns (b: nat)
      requires Valid() && free == []
      modifies `used, `poolIndex, `blockCnt, `misses, heap
      ensures Valid()
      ensures old(Supplied()) ==> Supply(cfg.mode, |used|, 0, |used|, blockCnt, poolIndex)
      ensures old(Exhausted()) ==> b == NULL && used == old(used) && misses == old(misses) + 1
      ensures !old(Exhausted()) ==> b != NULL && Gained(old(used), used, b) && misses == old(misses)
      ensures cfg.mode == HeapBlocks ==>
                b !in old(heap.regions) && heap.regions == old(heap.regions)[b := cfg.blockSize]
      ensures cfg.mode != HeapBlocks ==> heap.mem == old(heap.mem) && heap.regions == old(heap.regions)
      ensures Extends(old(heap.mem), heap.mem)
    {
      hide Owned, Chain, Heap.Valid;
      b := NULL;
      if cfg.maxObjects != 0 {
        if poolIndex < cfg.maxObjects {
          b := TakeSlot();
        } else {
          misses := misses + 1;
        }
      } else {
        IncWrap(peak);
        b := TakeArray();
      }
    }

    /** A block from the free list or a new one; `peak` is the running maximum of blocks in use. */
    method Take() returns (b: nat)
      requires Valid()
      modifies `head, `free, `used, `poolIndex, `blockCnt, `peak, `misses, heap
      ensures Valid() && (old(Supplied()) ==> Supplied())
      ensures peak == Max(old(peak), |used|)
      ensures old(Exhausted()) ==> b == NULL && used == old(used) && misses == old(misses) + 1
      ensures !old(Exhausted()) ==> b != NULL && Gained(old(used), used, b) && misses == old(misses)
      ensures free == if old(free) == [] then [] else old(free)[1..]
      ensures old(free) != [] ==> b == old(free)[0]
      ensures cfg.mode == HeapBlocks && old(free) == [] ==>
                b !in old(heap.regions) && heap.regions == old(heap.regions)[b := cfg.blockSize]
      ensures cfg.mode != HeapBlocks || old(free) != [] ==>
                heap.mem == old(heap.mem) && heap.regions == old(heap.regions)
      ensures Extends(old(heap.mem), heap.mem)
    {
      hide Valid;
      b := Pop();
      if b == NULL {
        b := Refill();
      }
      peak := Max(peak, |used|);
    }

    /** A block for one object. An exhausted pool with a new-handler installed runs the handler
        and hands out NULL; without one the program stops. */
    method Allocate(size: nat, handler: bool) returns (b: nat)
      requires Valid() && size <= cfg.objectSize
      requires Exhausted() ==> handler
      modifies this, heap
      ensures Valid() && (old(Counted()) ==> Counted())
      ensures peak == Max(old(peak), |used|) && taken == old(taken) + 1 && returned == old(returned)
      ensures old(Exhausted()) ==> b == NULL && used == old(used) && misses == old(misses) + 1
      ensures !old(Exhausted()) ==> b != NULL && Gained(old(used), used, b) && misses == old(misses)
      ensures free == if old(free) == [] then [] else old(free)[1..]
      ensures old(free) != [] ==> b == old(free)[0]
      ensures cfg.mode == HeapBlocks && old(free) == [] ==>
                b !in old(heap.regions) && heap.regions == old(heap.regions)[b := cfg.blockSize]
      ensures cfg.mode != HeapBlocks || old(free) != [] ==>
                heap.mem == old(heap.mem) && heap.regions == old(heap.regions)
      ensures Extends(old(heap.mem), heap.mem)
    {
      hide Valid, Supplied;
      b := Take();
      CountTaken();
    }

    method CountTaken()
      modifies `blocksInUse, `allocations, `taken
      ensures old(Tallied()) ==> Tallied()
      ensures taken == old(taken) + 1
    {
      if Tallied() { TallyUp(taken, returned, blocksInUse, allocations, deallocations); }
      blocksInUse := Inc(blocksInUse);
      allocations := Inc(allocations);
      taken := taken + 1;
    }

    method Deallocate(b: nat)
      requires Valid() && b in used
      modifies this, heap`mem
      ensures Valid() && (old(Counted()) ==> Counted())
      ensures used == old(used) - {b} && free == [b] + old(free)
      ensures peak == old(peak) && misses == old(misses)
      ensures taken == old(taken) && returned == old(returned) + 1
      ensures Wrote(old(heap.mem), heap.mem, b, Link(old(head)))
    {
      hide Valid;
      Drop(used, b);
      Push(b);
      CountReturned();
    }

    method CountReturned()
      modifies `blocksInUse, `deallocations, `returned
      ensures old(Tallied()) && old(returned) < taken ==> Tallied()
      ensures returned == old(returned) + 1
    {
      if Tallied() && returned < taken { TallyDown(taken, returned, blocksInUse, allocations, deallocations); }
      blocksInUse := Dec(blocksInUse);
      deallocations := Inc(deallocations);
      returned := returned + 1;
    }

    /** One round of the heap-mode destructor: `delete[] (CHAR*)Pop()`. */
    method PopAndDelete()
      requires Valid() && cfg.mode == HeapBlocks && free != []
      modifies `head, `free, `used, heap
      ensures Valid() && free == old(free)[1..] && used == old(used)
      ensures heap.regions == old(heap.regions) - {old(free)[0]}
    {
      var b := Pop();
      label popped:
      OwnedDelete(cfg, heap.regions, poolIndex, free, used, b);
      heap.Delete(b);
      used := used - {b};
      assert used == old(used);
      ChainDelete(cfg, old@popped(heap.mem), old@popped(heap.regions), heap.mem, heap.regions, head, free, b);
    }

    lemma PoolKnown()
      requires Valid() && cfg.mode != HeapBlocks
      ensures cfg.pool in heap.regions
    {}

    lemma HeadIsFirst()
      requires Valid()
      ensures head != NULL <==> free != []
    {}

    /** The destructor gives back exactly the pool, or the blocks on the free list, each once.
        Blocks still in use are not freed. */
    method Destroy()
      requires Valid()
      modifies this, heap
      ensures heap.Valid()
      ensures cfg.mode == HeapPool ==> heap.regions == old(heap.regions) - {cfg.pool}
      ensures cfg.mode == StaticPool ==> heap.regions == old(heap.regions) && heap.mem == old(heap.mem)
      ensures cfg.mode == HeapBlocks ==>
                heap.regions == old(heap.regions) - (set b | b in old(free)) && free == []
    {
      hide Owned, Consistent, Chain;
      if cfg.mode == HeapPool {
        PoolKnown();
        heap.Delete(cfg.pool);
      } else if cfg.mode == HeapBlocks {
        ghost var gone: set<nat> := {};
        while head != NULL
          invariant Valid()
          invariant heap.regions == old(heap.regions) - gone
          invariant gone + (set b | b in free) == (set b | b in old(free))
          decreases free
        {
          HeadIsFirst();
          gone := gone + {free[0]};
          PopAndDelete();
        }
        HeadIsFirst();
      }
    }
  }

  lemma ChainDelete(c: Config, m: Mem, regions: map<nat, nat>, m': Mem, regions': map<nat, nat>, head: nat,
                    free: seq<nat>, b: nat)
    requires c.mode == HeapBlocks && c.blockSize >= WIDTH && Chain(m, head, free)
    requires forall d | d in free :: IsBlock(c, regions, 0, d) && d != b
    requires regions' == regions - {b} && forall d | d in regions' :: Same(m, m', d, regions'[d])
    ensures Chain(m', head, free)
  {
    forall d | d in free ensures Same(m, m', d, WIDTH) {
      assert IsBlock(c, regions, 0, d);
      assert Same(m, m', d, regions'[d]);
    }
    ChainFrame(m, m', head, free);
  }

  lemma SlotsKept(pool: nat, size: nat, n: nat, blocks: set<nat>)
    requires forall b | b in blocks :: IsSlot(b, pool, size, n)
    ensures forall b | b in blocks :: IsSlot(b, pool, size, n + 1)
    ensures IsSlot(Slot(pool, size, n), pool, size, n + 1)
  {
    forall b | b in blocks ensures IsSlot(b, pool, size, n + 1) {
      var i: nat :| i < n && b == Slot(pool, size, i);
    }
  }
}
