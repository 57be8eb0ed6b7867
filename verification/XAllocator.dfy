/** `xmalloc`, `xfree` and `xrealloc` on top of a bounded registry of fixed-block allocators.
    The word in front of each client block names the allocator that made it; while the block
    is free the same word is the free-list link. */
module XAllocators {
  import opened Basics
  import opened Words
  import opened SizeClass
  import opened Memory
  import opened FixedBlocks

  const MAX_ALLOCATORS: nat := 15

  /** What the client was promised for a live block. */
  datatype Grant = Grant(size: nat, owner: Allocator)

  /** Live blocks by address; the client holds the address behind the header. */
  type Ledger = map<nat, Grant>

  /** Client bytes in a block of allocator a. */
  function Client(a: Allocator): nat {
    if a.cfg.blockSize < HEADER then 0 else a.cfg.blockSize - HEADER
  }

  /** The promise behind a live block: a heap array of its owner's block size that holds the
      request, with a header that still names the owner. */
  ghost predicate Entry(b: nat, g: Grant, m: Mem, r: map<nat, nat>) {
    && b in r && r[b] == g.owner.cfg.blockSize && g.size + HEADER <= g.owner.cfg.blockSize
    && Holds(m, b, Owner(g.owner))
  }

  ghost predicate Entries(live: Ledger, m: Mem, r: map<nat, nat>) {
    forall b | b in live :: Entry(b, live[b], m, r)
  }

  /** Writing into a block outside the ledger keeps every entry. */
  lemma EntriesQuiet(live: Ledger, m: Mem, r: map<nat, nat>, m': Mem, r': map<nat, nat>, b: nat)
    requires Entries(live, m, r) && Quiet(m, m', r, b) && Grown(r, r') && b !in live
    ensures Entries(live, m', r')
  {
    forall q | q in live ensures Entry(q, live[q], m', r') {
      assert Entry(q, live[q], m, r);
      assert Same(m, m', q, r[q]);
    }
  }

  lemma EntriesLess(live: Ledger, m: Mem, r: map<nat, nat>, b: nat)
    requires Entries(live, m, r)
    ensures Entries(live - {b}, m, r)
  {}

  lemma EntriesMore(live: Ledger, m: Mem, r: map<nat, nat>, b: nat, g: Grant)
    requires Entries(live, m, r) && Entry(b, g, m, r)
    ensures Entries(live[b := g], m, r)
  {}

  /** Header and bytes of all these blocks are as before. */
  ghost predicate Intact(live: Ledger, m: Mem, m': Mem) {
    forall q | q in live :: Same(m, m', q, live[q].owner.cfg.blockSize)
  }

  lemma QuietIntact(live: Ledger, m: Mem, m': Mem, r: map<nat, nat>, b: nat)
    requires Entries(live, m, r) && Quiet(m, m', r, b)
    ensures Intact(live - {b}, m, m')
  {
    forall q | q in live && q != b ensures Same(m, m', q, live[q].owner.cfg.blockSize) {
      assert Entry(q, live[q], m, r);
    }
  }

  lemma IntactTrans(live: Ledger, m0: Mem, m1: Mem, m2: Mem)
    requires Intact(live, m0, m1) && Intact(live, m1, m2)
    ensures Intact(live, m0, m2)
  {
    forall q | q in live ensures Same(m0, m2, q, live[q].owner.cfg.blockSize) {
      SameTrans(m0, m1, m2, q, live[q].owner.cfg.blockSize);
    }
  }

  lemma IntactAt(live: Ledger, m: Mem, m': Mem, q: nat)
    requires Intact(live, m, m') && q in live
    ensures Same(m, m', q, live[q].owner.cfg.blockSize)
  {}

  lemma IntactPart(live: Ledger, part: Ledger, m: Mem, m': Mem)
    requires Intact(live, m, m') && forall q | q in part :: q in live && live[q] == part[q]
    ensures Intact(part, m, m')
  {}

  /** Live blocks never overlap: two clients can never see each other's bytes. */
  lemma LiveApart(live: Ledger, m: Mem, r: map<nat, nat>, b: nat, c: nat)
    requires Entries(live, m, r) && Apart(r) && b in live && c in live && b != c
    ensures b + HEADER + live[b].size <= c || c + HEADER + live[c].size <= b
  {
    assert Entry(b, live[b], m, r) && Entry(c, live[c], m, r);
  }

  /** b is a new live block for a request of the given size, of the least class that holds it. */
  ghost predicate Added(live: Ledger, live': Ledger, b: nat, size: nat) {
    && b != NULL && b !in live && b in live' && live'[b].size == size
    && live'[b].owner.cfg.blockSize == ClassFor(size + HEADER)
    && live' == live[b := live'[b]]
  }

  /** b replaces the live block c. */
  ghost predicate Replaced(live: Ledger, live': Ledger, c: nat, b: nat, size: nat) {
    && b != NULL && b !in live && c in live && b in live' && live'[b].size == size
    && live'[b].owner.cfg.blockSize == ClassFor(size + HEADER)
    && live' == live[b := live'[b]] - {c}
  }

  /** Per block class: blocks live now, and the most ever live at once. */
  datatype Books = Books(inUse: map<nat, nat>, peak: map<nat, nat>)

  function Get(m: map<nat, nat>, c: nat): nat {
    if c in m then m[c] else 0
  }

  /** One more live block of class c. */
  function Up(k: Books, c: nat): Books {
    var n := Get(k.inUse, c) + 1;
    Books(k.inUse[c := n], k.peak[c := Max(Get(k.peak, c), n)])
  }

  function Down(k: Books, c: nat): Books {
    k.(inUse := k.inUse[c := if Get(k.inUse, c) == 0 then 0 else Get(k.inUse, c) - 1])
  }

  /** The client got the pointer p to a new block b; every other block is as before. */
  ghost predicate Granted(live: Ledger, live': Ledger, k: Books, k': Books, m: Mem, m': Mem, p: nat, b: nat, size: nat) {
    && p == b + HEADER && Added(live, live', b, size) && Intact(live, m, m')
    && k' == Up(k, ClassFor(size + HEADER))
  }

  /** The block behind p is no longer live; every other block is as before. */
  ghost predicate Freed(live: Ledger, live': Ledger, k: Books, k': Books, m: Mem, m': Mem, p: nat) {
    && HEADER <= p && p - HEADER in live && live' == live - {p - HEADER} && Intact(live', m, m')
    && k' == Down(k, live[p - HEADER].owner.cfg.blockSize)
  }

  /** The block behind p was replaced by the block b behind r: the first min(old usable size, size)
      bytes moved, and every other block is as before. */
  ghost predicate Resized(live: Ledger, live': Ledger, k: Books, k': Books, m: Mem, m': Mem, p: nat, r: nat, b: nat,
                          size: nat)
  {
    && HEADER <= p && p - HEADER in live && r == b + HEADER
    && Replaced(live, live', p - HEADER, b, size) && Intact(live' - {b}, m, m')
    && Moved(m, m', r, p, Min(Client(live[p - HEADER].owner), size))
    && k' == Down(Up(k, ClassFor(size + HEADER)), live[p - HEADER].owner.cfg.blockSize)
  }

  ghost function SizesOf(allocs: seq<Allocator>): set<nat> {
    set a | a in allocs :: a.cfg.blockSize
  }

  /** The allocator's counters and lists agree with the books. */
  ghost predicate Account(a: Allocator, k: Books)
    reads a
  {
    && a.Counted() && a.misses == 0
    && a.taken - a.returned == Get(k.inUse, a.cfg.blockSize) && a.peak == Get(k.peak, a.cfg.blockSize)
  }

  class XAllocator {
    const heap: Heap
    const registry: array<Allocator?>   // _allocators
    ghost var allocs: seq<Allocator>    // the registered allocators, in registry order
    ghost var live: Ledger              // blocks handed out and not freed
    ghost var books: Books              // how many, per class

    constructor (heap: Heap)
      requires heap.Valid()
      ensures this.heap == heap && fresh(registry) && Valid() && Balanced()
      ensures allocs == [] && live == map[] && books == Books(map[], map[])
    {
      this.heap := heap;
      registry := new Allocator?[MAX_ALLOCATORS](i => null);
      allocs, live, books := [], map[], Books(map[], map[]);
    }

    predicate Serves(a: Allocator) {
      && a.heap == heap && a.cfg.mode == HeapBlocks
      && a.cfg.objectSize == a.cfg.blockSize && WIDTH <= a.cfg.blockSize
    }

    ghost predicate Distinct()
      reads `allocs
    {
      forall i, j | 0 <= i < j < |allocs| :: allocs[i].cfg.blockSize != allocs[j].cfg.blockSize
    }

    /** The registry is a null-terminated prefix with pairwise distinct block sizes. */
    ghost predicate Registered()
      reads `allocs, registry
    {
      && registry.Length == MAX_ALLOCATORS && |allocs| <= MAX_ALLOCATORS
      && (forall i | 0 <= i < |allocs| :: registry[i] == allocs[i])
      && (forall i | |allocs| <= i < MAX_ALLOCATORS :: registry[i] == null)
      && Distinct()
      && (forall a | a in allocs :: Serves(a))
    }

    /** Every registered allocator is intact in the given memory. */
    ghost predicate SoundAt(mem: Mem, regions: map<nat, nat>)
      reads `allocs, allocs
    {
      forall a | a in allocs :: Serves(a) && a.Linked(mem, regions)
    }

    ghost predicate Sound()
      reads `allocs, heap, allocs
    {
      heap.Valid() && SoundAt(heap.mem, heap.regions)
    }

    /** Live blocks are exactly the blocks in use. */
    ghost predicate Matched()
      reads `allocs, `live, allocs
    {
      && (forall b | b in live :: live[b].owner in allocs && b in live[b].owner.used)
      && (forall a, b | a in allocs && b in a.used :: b in live && live[b].owner == a)
    }

    /** Every allocator agrees with the books, and the books name no other class. */
    ghost predicate Balanced()
      reads `allocs, `books, allocs
    {
      && (forall a | a in allocs :: Account(a, books))
      && books.inUse.Keys <= SizesOf(allocs) && books.peak.Keys <= SizesOf(allocs)
    }

    ghost predicate Valid()
      reads `allocs, `live, registry, heap, allocs
    {
      Registered() && Sound() && Matched() && Entries(live, heap.mem, heap.regions)
    }

    /** The registry has an allocator for blocks of c bytes, or room for one. */
    ghost predicate CanServe(c: nat)
      reads `allocs
    {
      |allocs| < MAX_ALLOCATORS || exists a :: a in allocs && a.cfg.blockSize == c
    }

    // ----- registry

    method Find(c: nat) returns (r: Allocator?)
      requires Registered()
      ensures r == null ==> forall a | a in allocs :: a.cfg.blockSize != c
      ensures r != null ==> r in allocs && r.cfg.blockSize == c
    {
      for i := 0 to MAX_ALLOCATORS
        invariant forall j | 0 <= j < i && j < |allocs| :: allocs[j].cfg.blockSize != c
      {
        if registry[i] == null {
          return null;
        }
        if registry[i].cfg.blockSize == c {
          return registry[i];
        }
      }
      return null;
    }

    /** The loop always finds a free slot: running off the end is the fault. */
    method Insert(a: Allocator)
      requires Registered() && |allocs| < MAX_ALLOCATORS
      requires Serves(a) && forall b | b in allocs :: b.cfg.blockSize != a.cfg.blockSize
      modifies registry, `allocs
      ensures Registered() && allocs == old(allocs) + [a]
    {
      for i := 0 to MAX_ALLOCATORS
        invariant i <= |allocs|
        invariant Registered() && allocs == old(allocs)
      {
        if registry[i] == null {
          registry[i] := a;
          allocs := allocs + [a];
          return;
        }
      }
      assert false;
    }

    /** A new allocator for blocks of c bytes, put into the registry. */
    method Create(c: nat) returns (a: Allocator)
      requires Registered() && Sound() && |allocs| < MAX_ALLOCATORS && WIDTH <= c
      requires forall b | b in allocs :: b.cfg.blockSize != c
      modifies registry, `allocs, heap
      ensures Registered() && Sound()
      ensures allocs == old(allocs) + [a] && a.cfg.blockSize == c && fresh(a) && a.used == {}
      ensures a.Counted() && a.misses == a.peak == a.taken - a.returned == 0
      ensures heap.mem == old(heap.mem) && heap.regions == old(heap.regions)
    {
      a := new Allocator(c, 0, NULL, heap);
      Insert(a);
    }

    /** Equal block sizes always get the same allocator. */
    method GetAllocator(size: nat) returns (a: Allocator)
      requires Registered() && Sound()
      requires size + HEADER <= HALF && CanServe(ClassFor(size + HEADER))
      modifies registry, `allocs, heap
      ensures Registered() && Sound()
      ensures a in allocs && a.cfg.blockSize == ClassFor(size + HEADER)
      ensures allocs == old(allocs) || (allocs == old(allocs) + [a] && fresh(a) && a.used == {})
      ensures allocs == old(allocs) || (a.Counted() && a.misses == a.peak == a.taken - a.returned == 0)
      ensures heap.mem == old(heap.mem) && heap.regions == old(heap.regions)
    {
      Pow2Values();
      var c := BlockSizeFor(size);
      LeastClassUnique(c, ClassFor(size + HEADER), size + HEADER);
      var found := Find(c);
      if found == null {
        a := Create(c);
      } else {
        a := found;
      }
    }

    /** A new allocator is not in the books yet. */
    lemma BalancedNew(was: seq<Allocator>, a: Allocator)
      requires Registered() && allocs == was + [a] && a.Counted() && a.misses == a.peak == a.taken - a.returned == 0
      requires forall b | b in was :: Account(b, books)
      requires books.inUse.Keys <= SizesOf(was) && books.peak.Keys <= SizesOf(was)
      ensures Balanced()
    {
      hide Allocator.Counted;
      assert a == allocs[|was|];
      forall b | b in was ensures b.cfg.blockSize != a.cfg.blockSize {
        var i :| 0 <= i < |was| && was[i] == b;
        assert allocs[i] == b;
      }
      assert a.cfg.blockSize !in SizesOf(was) && SizesOf(was) <= SizesOf(allocs);
    }

    method Route(size: nat) returns (a: Allocator)
      requires Valid() && size + HEADER <= HALF && CanServe(ClassFor(size + HEADER))
      modifies registry, `allocs, heap
      ensures Valid() && a in allocs && a.cfg.blockSize == ClassFor(size + HEADER)
      ensures allocs == old(allocs) || (allocs == old(allocs) + [a] && fresh(a))
      ensures heap.mem == old(heap.mem) && heap.regions == old(heap.regions)
      ensures old(Balanced()) ==> Balanced()
    {
      hide Registered, Sound, Pow2, ClassFor, CanServe, Account;
      a := GetAllocator(size);
      if old(Balanced()) && allocs != old(allocs) { BalancedNew(old(allocs), a); }
    }

    // ----- what one allocator does leaves the others alone

    lemma SizesDiffer(a: Allocator, b: Allocator)
      requires Distinct() && a in allocs && b in allocs && a != b
      ensures a.cfg.blockSize != b.cfg.blockSize
    {}

    /** A block in use is a heap array of the allocator's block size. */
    lemma UsedRegion(a: Allocator, b: nat, m: Mem, r: map<nat, nat>)
      requires Serves(a) && a.Linked(m, r) && b in a.used
      ensures b in r && r[b] == a.cfg.blockSize
    {
      assert IsBlock(a.cfg, r, a.poolIndex, b);
    }

    /** An allocator whose blocks survive and whose links were not written stays intact. */
    lemma Kept(a: Allocator, m: Mem, r: map<nat, nat>, m': Mem, r': map<nat, nat>)
      requires Serves(a) && a.Linked(m, r) && Grown(r, r') && forall d | d in a.free :: Same(m, m', d, WIDTH)
      ensures a.Linked(m', r')
    {
      forall d | d in a.used || d in a.free ensures IsBlock(a.cfg, r', a.poolIndex, d) {
        assert IsBlock(a.cfg, r, a.poolIndex, d);
      }
      ChainFrame(m, m', a.head, a.free);
    }

    /** Writing into the block b of `a` leaves another allocator intact: blocks of different
        allocators differ because their sizes do. */
    lemma QuietKept(a: Allocator, b: nat, c: Allocator, m: Mem, m': Mem, r: map<nat, nat>)
      requires Distinct() && a in allocs && c in allocs && c != a && Serves(c) && c.Linked(m, r)
      requires b in r && r[b] == a.cfg.blockSize && Quiet(m, m', r, b)
      ensures c.Linked(m', r)
    {
      SizesDiffer(c, a);
      forall d | d in c.free ensures Same(m, m', d, WIDTH) {
        assert IsBlock(c.cfg, r, c.poolIndex, d);
        assert Same(m, m', d, r[d]);
      }
      Kept(c, m, r, m', r);
    }

    /** Writing into a block in use leaves its own allocator intact. */
    lemma QuietSelf(a: Allocator, b: nat, m: Mem, m': Mem, r: map<nat, nat>)
      requires Serves(a) && a.Linked(m, r) && b in a.used && Quiet(m, m', r, b)
      ensures a.Linked(m', r)
    {
      forall d | d in a.free ensures Same(m, m', d, WIDTH) {
        assert IsBlock(a.cfg, r, a.poolIndex, d);
        assert Same(m, m', d, r[d]);
      }
      Kept(a, m, r, m', r);
    }

    /** Writing into a block in use leaves every free list intact. */
    lemma QuietSound(a: Allocator, b: nat, m: Mem)
      requires SoundAt(m, heap.regions) && Distinct() && a in allocs && b in a.used && heap.Valid()
      requires Quiet(m, heap.mem, heap.regions, b)
      ensures Sound()
    {
      UsedRegion(a, b, m, heap.regions);
      QuietSelf(a, b, m, heap.mem, heap.regions);
      forall c | c in allocs && c != a ensures c.Linked(heap.mem, heap.regions) {
        QuietKept(a, b, c, m, heap.mem, heap.regions);
      }
    }

    // ----- xmalloc

    /** Counters after one block more. */
    twostate predicate Lent(a: Allocator)
      reads a
    {
      && a.misses == old(a.misses) && a.taken == old(a.taken) + 1 && a.returned == old(a.returned)
      && (old(a.Counted()) && a.misses == 0 ==> a.Counted() && a.peak == Max(old(a.peak), a.taken - a.returned))
    }

    /** Counters after one block less. */
    twostate predicate Repaid(a: Allocator)
      reads a
    {
      && a.misses == old(a.misses) && a.taken == old(a.taken) && a.returned == old(a.returned) + 1
      && (old(a.Counted()) ==> a.Counted()) && a.peak == old(a.peak)
    }

    method TakeBlock(a: Allocator, n: nat) returns (b: nat)
      requires a.Valid() && Serves(a) && n <= a.cfg.blockSize
      modifies heap, a
      ensures a.Valid() && b != NULL && Gained(old(a.used), a.used, b) && Lent(a)
      ensures Extends(old(heap.mem), heap.mem) && Grown(old(heap.regions), heap.regions)
      ensures b in heap.regions && heap.regions[b] == a.cfg.blockSize
    {
      b := a.Allocate(n, false);
      UsedRegion(a, b, heap.mem, heap.regions);
    }

    method Grab(a: Allocator, n: nat) returns (b: nat)
      requires Registered() && Sound() && a in allocs && n <= a.cfg.blockSize
      modifies heap, a
      ensures Registered() && Sound()
      ensures b != NULL && Gained(old(a.used), a.used, b) && Lent(a)
      ensures Extends(old(heap.mem), heap.mem) && Grown(old(heap.regions), heap.regions)
      ensures b in heap.regions && heap.regions[b] == a.cfg.blockSize
    {
      b := TakeBlock(a, n);
      forall c | c in allocs && c != a ensures c.Linked(heap.mem, heap.regions) {
        Kept(c, old(heap.mem), old(heap.regions), heap.mem, heap.regions);
      }
    }

    /** `set_block_allocator` */
    method Stamp(a: Allocator, b: nat) returns (p: nat)
      requires Registered() && Sound() && a in allocs && b in a.used
      modifies heap`mem
      ensures Registered() && Sound() && p == b + HEADER
      ensures Holds(heap.mem, b, Owner(a)) && Quiet(old(heap.mem), heap.mem, heap.regions, b)
    {
      UsedRegion(a, b, heap.mem, heap.regions);
      heap.StorePtr(b, Owner(a));
      WroteQuiet(old(heap.mem), heap.mem, heap.regions, b, Owner(a));
      QuietSound(a, b, old(heap.mem));
      p := b + HEADER;
    }

    /** A block of `a` with its header written; everything else keeps its bytes. */
    method Carve(a: Allocator, n: nat) returns (p: nat, ghost b: nat)
      requires Registered() && Sound() && a in allocs && n <= a.cfg.blockSize
      modifies heap, a
      ensures Registered() && Sound() && p == b + HEADER
      ensures b != NULL && Gained(old(a.used), a.used, b) && Lent(a) && Holds(heap.mem, b, Owner(a))
      ensures b in heap.regions && heap.regions[b] == a.cfg.blockSize && Grown(old(heap.regions), heap.regions)
      ensures Quiet(old(heap.mem), heap.mem, old(heap.regions), b)
    {
      var block := Grab(a, n);
      ghost var m := heap.mem;
      p := Stamp(a, block);
      b := block;
      GrownQuiet(old(heap.mem), m, heap.mem, old(heap.regions), heap.regions, b);
    }

    /** A block that `a` is not using is not live, unless another size of block. */
    lemma NotLive(a: Allocator)
      requires Valid() && a in allocs
      ensures forall b | b in live && b !in a.used :: b in heap.regions && heap.regions[b] != a.cfg.blockSize
    {
      forall b | b in live && b !in a.used ensures b in heap.regions && heap.regions[b] != a.cfg.blockSize {
        assert Entry(b, live[b], heap.mem, heap.regions);
        SizesDiffer(a, live[b].owner);
      }
    }

    lemma AllDiffer(a: Allocator)
      requires Valid() && a in allocs
      ensures forall c | c in allocs && c != a :: c.cfg.blockSize != a.cfg.blockSize
    {
      forall c | c in allocs && c != a ensures c.cfg.blockSize != a.cfg.blockSize { SizesDiffer(a, c); }
    }

    lemma OwnerKnown(b: nat)
      requires Valid() && b in live
      ensures live[b].owner in allocs
    {}

    /** The books after `a` lent one block more, k being the books before. */
    lemma BalancedUp(a: Allocator, k: Books)
      requires a in allocs && books == Up(k, a.cfg.blockSize) && OthersBalanced(a, k)
      requires a.Counted() && a.misses == 0 && a.taken - a.returned == Get(k.inUse, a.cfg.blockSize) + 1
      requires a.peak == Max(Get(k.peak, a.cfg.blockSize), Get(k.inUse, a.cfg.blockSize) + 1)
      ensures Balanced()
    {
      hide Allocator.Counted;
    }

    /** The books after `a` got one block back. */
    lemma BalancedDown(a: Allocator, k: Books)
      requires a in allocs && books == Down(k, a.cfg.blockSize) && OthersBalanced(a, k)
      requires a.Counted() && a.misses == 0 && a.taken - a.returned + 1 == Get(k.inUse, a.cfg.blockSize)
      requires a.peak == Get(k.peak, a.cfg.blockSize)
      ensures Balanced()
    {
      assert a.returned <= a.taken;
      hide Allocator.Counted;
    }

    /** All allocators but `a` agree with the books k, and are for other classes. */
    ghost predicate OthersBalanced(a: Allocator, k: Books)
      reads `allocs, allocs
    {
      && (forall c | c in allocs && c != a :: Account(c, k) && c.cfg.blockSize != a.cfg.blockSize)
      && k.inUse.Keys <= SizesOf(allocs) && k.peak.Keys <= SizesOf(allocs)
    }

    method Hand(a: Allocator, size: nat) returns (p: nat, ghost b: nat)
      requires Valid() && a in allocs && size + HEADER <= a.cfg.blockSize
      modifies `live, heap, a
      ensures Valid() && p == b + HEADER
      ensures b != NULL && b !in old(live) && live == old(live)[b := Grant(size, a)]
      ensures Intact(old(live), old(heap.mem), heap.mem) && Gained(old(a.used), a.used, b) && Lent(a)
    {
      hide Registered, Sound, Lent, Entries, Intact, Quiet;
      NotLive(a);
      p, b := Carve(a, HEADER + size);
      EntriesQuiet(live, old(heap.mem), old(heap.regions), heap.mem, heap.regions, b);
      QuietIntact(live, old(heap.mem), heap.mem, old(heap.regions), b);
      assert live - {b} == live;
      EntriesMore(live, heap.mem, heap.regions, b, Grant(size, a));
      live := live[b := Grant(size, a)];
    }

    /** A live block of `a` for the client, entered in the books. */
    method Issue(a: Allocator, size: nat) returns (p: nat, ghost b: nat)
      requires Valid() && a in allocs && size + HEADER <= a.cfg.blockSize
      modifies `live, `books, heap, a
      ensures Valid() && p == b + HEADER && books == Up(old(books), a.cfg.blockSize)
      ensures b != NULL && b !in old(live) && live == old(live)[b := Grant(size, a)]
      ensures Intact(old(live), old(heap.mem), heap.mem)
      ensures old(Balanced()) ==> Balanced()
    {
      hide Valid, Allocator.Counted, SizesOf, Intact, Gained, Up;
      AllDiffer(a);
      ghost var k := books;
      p, b := Hand(a, size);
      books := Up(books, a.cfg.blockSize);
      if old(Balanced()) { BalancedUp(a, k); }
    }

    /** The client gets p, just behind the header of block b. */
    method Xmalloc(size: nat) returns (p: nat, ghost b: nat)
      requires Valid() && size + HEADER <= HALF && CanServe(ClassFor(size + HEADER))
      modifies this, registry, heap, allocs
      ensures Valid() && Granted(old(live), live, old(books), books, old(heap.mem), heap.mem, p, b, size)
      ensures allocs == old(allocs) || (allocs == old(allocs) + [live[b].owner] && fresh(live[b].owner))
      ensures old(Balanced()) ==> Balanced()
    {
      hide Valid, Balanced, ClassFor, CanServe, Intact, Up;
      var a := Route(size);
      p, b := Issue(a, size);
    }

    // ----- xfree

    /** p is a pointer the client may use. */
    ghost predicate Live(p: nat)
      reads `live
    {
      HEADER <= p && p - HEADER in live
    }

    /** `get_block_allocator` */
    method OwnerOf(p: nat) returns (a: Allocator)
      requires Valid() && Live(p)
      ensures a == live[p - HEADER].owner && a in allocs
    {
      assert Entry(p - HEADER, live[p - HEADER], heap.mem, heap.regions);
      var w := heap.mem[p - HEADER];
      a := w.ptr.obj as Allocator;
    }

    method Return(a: Allocator, b: nat)
      requires Registered() && Sound() && a in allocs && b in a.used
      modifies a, heap`mem
      ensures Registered() && Sound() && a.used == old(a.used) - {b} && a.free == [b] + old(a.free) && Repaid(a)
      ensures Quiet(old(heap.mem), heap.mem, heap.regions, b)
    {
      UsedRegion(a, b, heap.mem, heap.regions);
      a.Deallocate(b);
      WroteQuiet(old(heap.mem), heap.mem, heap.regions, b, Link(old(a.head)));
      forall c | c in allocs && c != a ensures c.Linked(heap.mem, heap.regions) {
        QuietKept(a, b, c, old(heap.mem), heap.mem, heap.regions);
      }
    }

    /** The block goes to the front of its owner's free list, once. */
    method TakeBack(a: Allocator, b: nat)
      requires Valid() && b in live && live[b].owner == a
      modifies `live, a, heap`mem
      ensures Valid() && live == old(live) - {b} && a.free == [b] + old(a.free)
      ensures Intact(live, old(heap.mem), heap.mem) && Repaid(a)
    {
      hide Registered, Sound, Repaid, Entries, Intact, Quiet;
      EntriesLess(live, heap.mem, heap.regions, b);
      Return(a, b);
      live := live - {b};
      EntriesQuiet(live, old(heap.mem), heap.regions, heap.mem, heap.regions, b);
      QuietIntact(live, old(heap.mem), heap.mem, heap.regions, b);
      assert live - {b} == live;
    }

    method Release(a: Allocator, b: nat)
      requires Valid() && b in live && live[b].owner == a
      modifies `live, `books, a, heap`mem
      ensures Valid() && live == old(live) - {b} && a.free == [b] + old(a.free)
      ensures books == Down(old(books), a.cfg.blockSize)
      ensures Intact(live, old(heap.mem), heap.mem)
      ensures old(Balanced()) ==> Balanced()
    {
      hide Valid, Allocator.Counted, SizesOf, Intact, Down;
      OwnerKnown(b);
      AllDiffer(a);
      ghost var k := books;
      TakeBack(a, b);
      books := Down(books, a.cfg.blockSize);
      if old(Balanced()) { BalancedDown(a, k); }
    }

    method Xfree(p: nat)
      requires Valid() && (p == NULL || Live(p))
      modifies `live, `books, heap`mem, allocs
      ensures Valid()
      ensures p == NULL ==> live == old(live) && heap.mem == old(heap.mem) && books == old(books)
      ensures p != NULL ==> Freed(old(live), live, old(books), books, old(heap.mem), heap.mem, p)
      ensures p != NULL ==> var a := old(live)[p - HEADER].owner; a.free == [p - HEADER] + old(a.free)
      ensures old(Balanced()) ==> Balanced()
    {
      hide Valid, Balanced;
      if p == NULL {
        return;
      }
      var a := OwnerOf(p);
      Release(a, p - HEADER);
    }

    /** A live block keeps its promise and is on no free list, although header and link share a
        word. */
    lemma LiveFacts(b: nat)
      requires Valid() && b in live
      ensures live[b].size + HEADER <= live[b].owner.cfg.blockSize && Holds(heap.mem, b, Owner(live[b].owner))
      ensures forall a | a in allocs :: b !in a.free
    {
      assert Entry(b, live[b], heap.mem, heap.regions);
      forall a | a in allocs ensures b !in a.free {
        assert a.Linked(heap.mem, heap.regions);
        if b in a.free && a != live[b].owner {
          assert IsBlock(a.cfg, heap.regions, a.poolIndex, b);
          SizesDiffer(a, live[b].owner);
        }
      }
    }

    lemma BlocksApart(b: nat, c: nat)
      requires Valid() && b in live && c in live && b != c
      ensures b + HEADER + live[b].size <= c || c + HEADER + live[c].size <= b
    {
      hide Registered, SoundAt, Matched, Entries;
      LiveApart(live, heap.mem, heap.regions, b, c);
    }

    // ----- client writes

    /** Bytes the client may write behind the header of b. */
    ghost function Usable(b: nat): nat
      requires b in live
      reads `live
    {
      Client(live[b].owner)
    }

    /** Header and client bytes of a live block are mapped. */
    lemma LiveMapped(b: nat)
      requires Valid() && b in live
      ensures b in heap.regions && heap.regions[b] == live[b].owner.cfg.blockSize == Usable(b) + HEADER
      ensures forall x: nat | b <= x < b + heap.regions[b] :: x in heap.mem
    {
      assert Entry(b, live[b], heap.mem, heap.regions);
    }

    /** A write behind the header of b, and nowhere else, keeps every entry. */
    lemma WriteEntries(b: nat, m: Mem, m': Mem, r: map<nat, nat>, lo: nat, hi: nat)
      requires Entries(live, m, r) && b in live && b + HEADER <= lo && Confined(m, m', lo, hi) && Quiet(m, m', r, b)
      ensures Entries(live, m', r)
    {
      forall q | q in live ensures Entry(q, live[q], m', r) {
        assert Entry(q, live[q], m, r);
        assert q != b ==> Same(m, m', q, r[q]);
      }
    }

    lemma WriteQuiet(b: nat, m: Mem, lo: nat, hi: nat)
      requires Entries(live, m, heap.regions) && heap.Valid() && b in live && HEADER <= live[b].owner.cfg.blockSize
      requires b + HEADER <= lo && hi <= b + HEADER + Usable(b) && Confined(m, heap.mem, lo, hi)
      ensures Quiet(m, heap.mem, heap.regions, b)
    {
      assert Entry(b, live[b], m, heap.regions);
      ConfinedQuiet(m, heap.mem, heap.regions, b, lo, hi);
    }

    lemma LiveOwner(b: nat)
      requires Registered() && Matched() && b in live
      ensures live[b].owner in allocs && b in live[b].owner.used && HEADER <= live[b].owner.cfg.blockSize
      ensures Distinct()
    {}

    /** Writes behind the header of the live block b keep free lists, headers and other blocks. */
    lemma WriteValid(b: nat, m: Mem, lo: nat, hi: nat)
      requires Registered() && SoundAt(m, heap.regions) && Matched() && Entries(live, m, heap.regions)
      requires heap.Valid() && b in live && b + HEADER <= lo && hi <= b + HEADER + Usable(b)
      requires Confined(m, heap.mem, lo, hi)
      ensures Valid() && Intact(live - {b}, m, heap.mem)
    {
      hide Registered, SoundAt, Matched, Entries, Heap.Valid, Confined, Quiet, Distinct, Intact;
      LiveOwner(b);
      WriteQuiet(b, m, lo, hi);
      QuietSound(live[b].owner, b, m);
      QuietIntact(live, m, heap.mem, heap.regions, b);
      WriteEntries(b, m, heap.mem, heap.regions, lo, hi);
    }

    /** The client stores a byte inside its own block. */
    method Store(p: nat, i: nat, v: bv8)
      requires Valid() && Live(p) && i < Usable(p - HEADER)
      modifies heap`mem
      ensures Valid() && Stored(old(heap.mem), heap.mem, p + i, v)
      ensures Intact(live - {p - HEADER}, old(heap.mem), heap.mem)
    {
      hide SoundAt, Registered, Matched, Heap.Valid, Entries, Intact;
      LiveMapped(p - HEADER);
      heap.StoreByte(p + i, v);
      WriteValid(p - HEADER, old(heap.mem), p + i, p + i + 1);
    }

    lemma CopyReady(b: nat, c: nat, n: nat)
      requires Valid() && b in live && c in live && b != c && n <= Usable(b) && n <= Usable(c)
      ensures b + HEADER + n <= c || c + HEADER + n <= b
      ensures Mapped(heap.mem, b + HEADER, n) && Mapped(heap.mem, c + HEADER, n)
    {
      hide Registered, SoundAt, Matched, Entries, Mapped;
      LiveMapped(b);
      LiveMapped(c);
      MappedAll(heap.mem, b + HEADER, n);
      MappedAll(heap.mem, c + HEADER, n);
    }

    /** memcpy between the client bytes of two live blocks */
    method CopyClient(dst: nat, src: nat, n: nat)
      requires Valid() && Live(dst) && Live(src) && dst != src
      requires n <= Usable(dst - HEADER) && n <= Usable(src - HEADER)
      modifies heap`mem
      ensures Valid() && Moved(old(heap.mem), heap.mem, dst, src, n)
      ensures Intact(live - {dst - HEADER}, old(heap.mem), heap.mem)
    {
      hide SoundAt, Registered, Matched, Heap.Valid, Entries, Intact, Moved, Mapped, Confined;
      CopyReady(dst - HEADER, src - HEADER, n);
      heap.Copy(dst, src, n);
      WriteValid(dst - HEADER, old(heap.mem), dst, dst + n);
    }

    // ----- xrealloc

    lemma MovedOn(m0: Mem, m1: Mem, b: nat, c: nat, n: nat)
      requires b in live && n <= Usable(b) && HEADER <= live[b].owner.cfg.blockSize
      requires Moved(m0, m1, b + HEADER, c, n) && Same(m1, heap.mem, b, live[b].owner.cfg.blockSize)
      ensures Moved(m0, heap.mem, b + HEADER, c, n)
    {
      MovedKept(m0, m1, heap.mem, b + HEADER, c, n);
    }

    /** The second half of xrealloc: copy n bytes from src to dst, then free src. */
    method MoveAndFree(dst: nat, src: nat, n: nat)
      requires Valid() && Live(dst) && Live(src) && dst != src
      requires n <= Usable(dst - HEADER) && n <= Usable(src - HEADER)
      modifies `live, `books, heap`mem, allocs
      ensures Valid() && live == old(live) - {src - HEADER}
      ensures books == Down(old(books), old(live)[src - HEADER].owner.cfg.blockSize)
      ensures src - HEADER in old(live)[src - HEADER].owner.free
      ensures Moved(old(heap.mem), heap.mem, dst, src, n)
      ensures Intact(live - {dst - HEADER}, old(heap.mem), heap.mem)
      ensures old(Balanced()) ==> Balanced()
    {
      hide Valid, Balanced, Intact, Moved, Down;
      ghost var m0 := heap.mem;
      CopyClient(dst, src, n);
      ghost var m1 := heap.mem;
      Xfree(src);
      LiveMapped(dst - HEADER);
      IntactAt(live, m1, heap.mem, dst - HEADER);
      MovedOn(m0, m1, dst - HEADER, src, n);
      ghost var rest := live - {dst - HEADER};
      IntactPart(old(live) - {dst - HEADER}, rest, m0, m1);
      IntactPart(live, rest, m1, heap.mem);
      IntactTrans(rest, m0, m1, heap.mem);
    }

    lemma ClientMapped(c: nat, n: nat)
      requires Valid() && c in live && n <= Usable(c)
      ensures Mapped(heap.mem, c + HEADER, n)
    {
      LiveMapped(c);
      MappedAll(heap.mem, c + HEADER, n);
    }

    lemma OldSource(m0: Mem, m1: Mem, m2: Mem, g: Grant, dst: nat, c: nat, n: nat)
      requires Mapped(m0, c + HEADER, n) && n <= Client(g.owner) && Same(m0, m1, c, g.owner.cfg.blockSize)
      requires Moved(m1, m2, dst, c + HEADER, n)
      ensures Moved(m0, m2, dst, c + HEADER, n)
    {
      if n > 0 { MovedFrom(m0, m1, m2, dst, c + HEADER, n); }
    }

    /** xrealloc of a live block to a non-zero size: the bytes that fit move to a new block, the
        old block goes to its owner's free list, and no other block changes. */
    method Resize(p: nat, size: nat) returns (r: nat, ghost b: nat)
      requires Valid() && Live(p) && size + HEADER <= HALF && CanServe(ClassFor(size + HEADER))
      modifies this, registry, heap, allocs
      ensures Valid() && Resized(old(live), live, old(books), books, old(heap.mem), heap.mem, p, r, b, size)
      ensures allocs == old(allocs) || (allocs == old(allocs) + [live[b].owner] && fresh(live[b].owner))
      ensures p - HEADER in old(live)[p - HEADER].owner.free
      ensures old(Balanced()) ==> Balanced()
    {
      hide Valid, Intact, Moved, Mapped, ClassFor, CanServe, Balanced, Up, Down;
      ghost var m0, g := heap.mem, live[p - HEADER];
      var a := OwnerOf(p);
      var n := Min(Client(a), size);
      ClientMapped(p - HEADER, n);
      r, b := Xmalloc(size);
      ghost var m1 := heap.mem;
      MoveAndFree(r, p, n);
      IntactAt(old(live), m0, m1, p - HEADER);
      OldSource(m0, m1, heap.mem, g, r, p - HEADER, n);
      IntactPart(old(live), live - {b}, m0, m1);
      IntactTrans(live - {b}, m0, m1, heap.mem);
    }

    /** xrealloc. The result is NULL exactly when a live block is resized to nothing. */
    method Xrealloc(p: nat, size: nat) returns (r: nat, ghost b: nat)
      requires Valid() && (p == NULL || Live(p))
      requires p == NULL || size != 0 ==> size + HEADER <= HALF && CanServe(ClassFor(size + HEADER))
      modifies this, registry, heap, allocs
      ensures Valid() && (r == NULL <==> p != NULL && size == 0)
      ensures p == NULL ==> Granted(old(live), live, old(books), books, old(heap.mem), heap.mem, r, b, size)
      ensures p != NULL && size == 0 ==>
                Freed(old(live), live, old(books), books, old(heap.mem), heap.mem, p) && allocs == old(allocs)
      ensures p != NULL && size != 0 ==>
                Resized(old(live), live, old(books), books, old(heap.mem), heap.mem, p, r, b, size)
      ensures r != NULL ==> b in live
      ensures r != NULL ==> allocs == old(allocs) || (allocs == old(allocs) + [live[b].owner] && fresh(live[b].owner))
      ensures p != NULL ==> p - HEADER in old(live)[p - HEADER].owner.free
      ensures old(Balanced()) ==> Balanced()
    {
      hide Valid, ClassFor, CanServe, Moved, Intact, Balanced, Up, Down;
      if p == NULL {
        r, b := Xmalloc(size);
      } else if size == 0 {
        Xfree(p);
        r, b := NULL, NULL;
      } else {
        r, b := Resize(p, size);
      }
    }
  }
}
