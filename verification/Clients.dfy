/** Every client program of the allocator: any sequence of xmalloc, xfree, xrealloc and stores
    through its pointer variables reads back what it wrote. */
module Clients {
  import opened Basics
  import opened Words
  import opened SizeClass
  import opened Memory
  import opened FixedBlocks
  import opened XAllocators

  /** One call or store by a program with numbered pointer variables. */
  datatype Op =
    | Malloc(slot: nat, size: nat)
    | Free(slot: nat)
    | Realloc(slot: nat, size: nat)
    | Write(slot: nat, i: nat, v: bv8)

  /** What an ideal heap keeps for a pointer: the requested size and the bytes written. */
  datatype Object = Object(size: nat, bytes: map<nat, bv8>)

  /** Pointer variables that are not NULL. */
  type Ideal = map<nat, Object>

  /** Client bytes of the block that serves a request. */
  ghost function Capacity(size: nat): nat {
    ClassFor(size + HEADER) - HEADER
  }

  /** The ideal heap: objects are separate, a resize keeps the bytes below the new size. */
  ghost function Apply(s: Ideal, op: Op): Ideal {
    match op
    case Malloc(k, n) => s[k := Object(n, map[])]
    case Free(k) => s - {k}
    case Realloc(k, n) =>
      if k !in s then s[k := Object(n, map[])]
      else if n == 0 then s - {k}
      else s[k := Object(n, map i | i in s[k].bytes && i < n :: s[k].bytes[i])]
    case Write(k, i, v) =>
      if k in s && i < Capacity(s[k].size) then s[k := s[k].(bytes := s[k].bytes[i := v])] else s
  }

  ghost function ApplyAll(s: Ideal, ops: seq<Op>): Ideal {
    if ops == [] then s else Apply(ApplyAll(s, ops[..|ops| - 1]), ops[|ops| - 1])
  }

  /** Requests that fit in 32768 bytes, header included. */
  predicate Small(op: Op) {
    (op.Malloc? || op.Realloc?) ==> op.size + HEADER <= 32768
  }

  /** Requests that the size arithmetic can serve at all. */
  predicate Sane(op: Op) {
    (op.Malloc? || op.Realloc?) ==> op.size + HEADER <= HALF
  }

  /** The block class that an operation asks for, if it asks for a block. */
  ghost function Asks(s: Ideal, op: Op): set<nat> {
    match op
    case Malloc(k, n) => {ClassFor(n + HEADER)}
    case Realloc(k, n) => if k in s && n == 0 then {} else {ClassFor(n + HEADER)}
    case _ => {}
  }

  /** The class of an object's block. */
  ghost function ClassOf(o: Object): nat {
    ClassFor(o.size + HEADER)
  }

  /** What an operation does to the books: a resize holds both blocks for a moment. */
  ghost function Charge(k: Books, s: Ideal, op: Op): Books {
    match op
    case Malloc(_, n) => Up(k, ClassFor(n + HEADER))
    case Free(j) => if j in s then Down(k, ClassOf(s[j])) else k
    case Realloc(j, n) =>
      if j !in s then Up(k, ClassFor(n + HEADER))
      else Down(if n == 0 then k else Up(k, ClassFor(n + HEADER)), ClassOf(s[j]))
    case Write(_, _, _) => k
  }

  /** The books of a program. */
  ghost function Total(ops: seq<Op>): Books {
    if ops == [] then Books(map[], map[])
    else
      var before := ops[..|ops| - 1];
      Charge(Total(before), ApplyAll(map[], before), ops[|ops| - 1])
  }

  /** The classes a program asks for. */
  ghost function Demand(ops: seq<Op>): set<nat> {
    if ops == [] then {}
    else
      var before := ops[..|ops| - 1];
      Demand(before) + Asks(ApplyAll(map[], before), ops[|ops| - 1])
  }

  /** Pointer p holds the object o. */
  ghost predicate Mirror(p: nat, o: Object, live: Ledger, m: Mem) {
    && HEADER <= p && p - HEADER in live && live[p - HEADER].size == o.size
    && live[p - HEADER].owner.cfg.blockSize == Capacity(o.size) + HEADER
    && (forall i | i in o.bytes :: i < Capacity(o.size) && p + i in m && m[p + i] == Raw(o.bytes[i]))
  }

  /** The real heap holds the ideal one: distinct live blocks with the same bytes. */
  ghost predicate Mirrors(ptrs: map<nat, nat>, s: Ideal, live: Ledger, m: Mem) {
    && ptrs.Keys == s.Keys
    && (forall k, l | k in ptrs && l in ptrs && k != l :: ptrs[k] != ptrs[l])
    && (forall k | k in s :: Mirror(ptrs[k], s[k], live, m))
  }

  lemma MirrorKept(p: nat, o: Object, live: Ledger, m: Mem, live': Ledger, m': Mem)
    requires Mirror(p, o, live, m) && p - HEADER in live' && live'[p - HEADER] == live[p - HEADER]
    requires Same(m, m', p - HEADER, live[p - HEADER].owner.cfg.blockSize)
    ensures Mirror(p, o, live', m')
  {
    forall i | i in o.bytes ensures p + i in m' && m'[p + i] == Raw(o.bytes[i]) {
      assert p - HEADER <= p + i < p - HEADER + live[p - HEADER].owner.cfg.blockSize;
    }
  }

  lemma MirrorBlock(p: nat, o: Object, live: Ledger, m: Mem)
    requires Mirror(p, o, live, m)
    ensures HEADER <= p && p - HEADER in live
  {}

  lemma OtherKept(p: nat, o: Object, live: Ledger, m: Mem, live': Ledger, m': Mem, part: Ledger)
    requires Mirror(p, o, live, m) && p - HEADER in live' && live'[p - HEADER] == live[p - HEADER]
    requires p - HEADER in part && part[p - HEADER] == live[p - HEADER] && Intact(part, m, m')
    ensures Mirror(p, o, live', m')
  {
    MirrorKept(p, o, live, m, live', m');
  }

  // ----- registry capacity

  lemma {:induction false} Fewer(a: set<nat>, b: set<nat>)
    requires a <= b
    ensures |a| <= |b|
    decreases |b|
  {
    if x :| x in a { Fewer(a - {x}, b - {x}); }
  }

  /** The registered block sizes are exactly these classes. */
  ghost predicate Uses(allocs: seq<Allocator>, classes: set<nat>) {
    && (forall a | a in allocs :: a.cfg.blockSize in classes)
    && (forall c | c in classes :: exists a :: a in allocs && a.cfg.blockSize == c)
  }

  lemma {:induction false} OneEach(allocs: seq<Allocator>, classes: set<nat>)
    requires Uses(allocs, classes)
    requires forall i, j | 0 <= i < j < |allocs| :: allocs[i].cfg.blockSize != allocs[j].cfg.blockSize
    ensures |allocs| == |classes|
    decreases |allocs|
  {
    if allocs == [] {
      assert classes == {};
    } else {
      var rest, last := allocs[..|allocs| - 1], allocs[|allocs| - 1];
      var size := last.cfg.blockSize;
      assert last in allocs;
      forall a | a in rest ensures a.cfg.blockSize in classes - {size} {
        var i :| 0 <= i < |rest| && rest[i] == a;
        assert allocs[i] == a;
      }
      forall c | c in classes - {size} ensures exists a :: a in rest && a.cfg.blockSize == c {
        var a :| a in allocs && a.cfg.blockSize == c;
        assert a in rest;
      }
      OneEach(rest, classes - {size});
    }
  }

  /** insert_allocator stays inside its array if and only if at most fifteen classes are in use
      with the new one. */
  lemma ServedExactly(x: XAllocator, classes: set<nat>, c: nat)
    requires x.Registered() && Uses(x.allocs, classes)
    ensures x.CanServe(c) <==> |classes + {c}| <= MAX_ALLOCATORS
  {
    OneEach(x.allocs, classes);
    if c in classes {
      assert classes + {c} == classes;
    } else {
      assert |classes + {c}| == |classes| + 1;
      assert forall a | a in x.allocs :: a.cfg.blockSize != c;
    }
  }

  /** Small requests ask for at most the fifteen classes up to 32768 bytes. */
  lemma SmallAsks(s: Ideal, op: Op)
    requires Small(op)
    ensures Asks(s, op) <= CLASSES && Sane(op)
  {
    if op.Malloc? || op.Realloc? {
      SmallClass(op.size);
    }
  }

  lemma {:induction false} DemandWithin(ops: seq<Op>, classes: set<nat>)
    requires forall s, op | op in ops :: Asks(s, op) <= classes
    ensures Demand(ops) <= classes && |Demand(ops)| <= |classes|
  {
    hide Asks;
    if ops != [] {
      DemandWithin(ops[..|ops| - 1], classes);
    }
    Fewer(Demand(ops), classes);
  }

  /** A program of small requests always fits the registry. */
  lemma SmallDemand(ops: seq<Op>)
    requires forall op | op in ops :: Small(op)
    ensures |Demand(ops)| <= MAX_ALLOCATORS && forall op | op in ops :: Sane(op)
  {
    hide Asks, Demand, Sane, Small;
    forall s, op | op in ops ensures Asks(s, op) <= CLASSES { SmallAsks(s, op); }
    forall op | op in ops ensures Sane(op) { SmallAsks(map[], op); }
    DemandWithin(ops, CLASSES);
    ClassCount();
  }

  lemma SmallClass(size: nat)
    requires size + HEADER <= 32768
    ensures ClassFor(size + HEADER) in CLASSES && size + HEADER <= HALF
  {
    Pow2Values();
    var c := ClassFor(size + HEADER);
    SmallClasses(32768);
    assert IsClass(32768);
    SmallClasses(c);
  }

  /** The bound is tight: once all fifteen small classes are registered, a request can be served
      if and only if it fits in 32768 bytes, header included. */
  lemma FullRegistry(x: XAllocator, size: nat)
    requires x.Registered() && Uses(x.allocs, CLASSES)
    ensures x.CanServe(ClassFor(size + HEADER)) <==> size + HEADER <= 32768
  {
    var c := ClassFor(size + HEADER);
    if size + HEADER <= 32768 { SmallClass(size); } else { SmallClasses(c); }
    assert c in CLASSES <==> size + HEADER <= 32768;
    hide *;
    ServedExactly(x, CLASSES, c);
    ClassCount();
    OneMore(CLASSES, c);
  }

  lemma OneMore(s: set<nat>, c: nat)
    ensures |s + {c}| == if c in s then |s| else |s| + 1
  {
    if c in s { assert s + {c} == s; }
  }

  /** Running a longer program needs no fewer classes. */
  lemma {:induction false} DemandGrows(ops: seq<Op>, i: nat)
    requires i <= |ops|
    ensures Demand(ops[..i]) <= Demand(ops)
    decreases |ops|
  {
    if i == |ops| {
      assert ops[..i] == ops;
    } else {
      DemandGrows(ops[..|ops| - 1], i);
      assert ops[..|ops| - 1][..i] == ops[..i];
    }
  }

  // ----- one step of a program

  /** The allocator is sound, has one allocator per class, and mirrors the ideal heap. */
  ghost predicate Good(x: XAllocator, ptrs: map<nat, nat>, s: Ideal, classes: set<nat>)
    reads x, x.registry, x.heap, x.allocs
  {
    x.Valid() && Uses(x.allocs, classes) && Mirrors(ptrs, s, x.live, x.heap.mem)
  }

  lemma GoodServes(x: XAllocator, ptrs: map<nat, nat>, s: Ideal, classes: set<nat>, c: nat)
    requires Good(x, ptrs, s, classes)
    ensures x.CanServe(c) <==> |classes + {c}| <= MAX_ALLOCATORS
  {
    ServedExactly(x, classes, c);
  }

  /** Pointer p belongs to a live block of the right class for the object. */
  ghost predicate Backed(live: Ledger, p: nat, o: Object) {
    && HEADER <= p && p - HEADER in live && live[p - HEADER].owner.cfg.blockSize == ClassOf(o)
    && Client(live[p - HEADER].owner) == Capacity(o.size)
  }

  /** A non-NULL pointer variable holds a live block of the right capacity. */
  lemma GoodSlot(x: XAllocator, ptrs: map<nat, nat>, s: Ideal, classes: set<nat>, k: nat)
    requires Good(x, ptrs, s, classes) && k in ptrs
    ensures k in s && ptrs[k] != NULL && Backed(x.live, ptrs[k], s[k])
  {
    hide XAllocator.Valid;
    assert Mirror(ptrs[k], s[k], x.live, x.heap.mem);
  }

  lemma NoSlot(x: XAllocator, ptrs: map<nat, nat>, s: Ideal, classes: set<nat>, k: nat)
    requires Good(x, ptrs, s, classes) && k !in ptrs
    ensures k !in s
  {}

  lemma MirrorNew(live: Ledger, live': Ledger, m': Mem, b: nat, size: nat)
    requires Added(live, live', b, size)
    ensures Mirror(b + HEADER, Object(size, map[]), live', m')
  {
    assert size + HEADER <= ClassFor(size + HEADER);
  }

  lemma MirrorsAdded(ptrs: map<nat, nat>, s: Ideal, live: Ledger, m: Mem, live': Ledger, m': Mem,
                     k: nat, size: nat, b: nat)
    requires Mirrors(ptrs, s, live, m) && Added(live, live', b, size) && Intact(live, m, m')
    ensures Mirrors(ptrs[k := b + HEADER], s[k := Object(size, map[])], live', m')
  {
    MirrorNew(live, live', m', b, size);
    hide Mirror, ClassFor;
    forall l | l in s ensures Mirror(ptrs[l], s[l], live', m') && ptrs[l] != b + HEADER {
      MirrorBlock(ptrs[l], s[l], live, m);
      OtherKept(ptrs[l], s[l], live, m, live', m', live);
    }
  }

  lemma MirrorsFreed(ptrs: map<nat, nat>, s: Ideal, live: Ledger, m: Mem, live': Ledger, m': Mem, k: nat)
    requires Mirrors(ptrs, s, live, m) && k in ptrs
    requires live' == live - {ptrs[k] - HEADER} && Intact(live', m, m')
    ensures Mirrors(ptrs - {k}, s - {k}, live', m')
  {
    forall l | l in s && l != k ensures Mirror(ptrs[l], s[l], live', m') {
      assert Mirror(ptrs[k], s[k], live, m) && ptrs[l] != ptrs[k];
      MirrorKept(ptrs[l], s[l], live, m, live', m');
    }
  }

  /** The resized object keeps the bytes below the new size. */
  lemma MirrorMoved(p: nat, o: Object, live: Ledger, m: Mem, live': Ledger, m': Mem, b: nat, size: nat)
    requires Mirror(p, o, live, m) && Replaced(live, live', p - HEADER, b, size)
    requires Moved(m, m', b + HEADER, p, Min(Capacity(o.size), size))
    ensures Mirror(b + HEADER, Object(size, map i | i in o.bytes && i < size :: o.bytes[i]), live', m')
  {
    forall i | i in o.bytes && i < size ensures b + HEADER + i in m' && m'[b + HEADER + i] == Raw(o.bytes[i]) {
      MovedAt(m, m', b + HEADER, p, Min(Capacity(o.size), size), i);
    }
    assert size + HEADER <= ClassFor(size + HEADER);
  }

  lemma MirrorsReplaced(ptrs: map<nat, nat>, s: Ideal, live: Ledger, m: Mem, live': Ledger, m': Mem,
                        k: nat, size: nat, b: nat, p: nat, n: nat)
    requires Mirrors(ptrs, s, live, m) && k in ptrs && HEADER <= ptrs[k] && p == b + HEADER
    requires Replaced(live, live', ptrs[k] - HEADER, b, size) && Intact(live' - {b}, m, m')
    requires Moved(m, m', p, ptrs[k], n) && n == Min(Capacity(s[k].size), size) && size != 0
    ensures Mirrors(ptrs[k := p], Apply(s, Realloc(k, size)), live', m')
  {
    hide Mirror, ClassFor;
    assert Mirror(ptrs[k], s[k], live, m);
    MirrorMoved(ptrs[k], s[k], live, m, live', m', b, size);
    forall l | l in s && l != k ensures Mirror(ptrs[l], s[l], live', m') && ptrs[l] != b + HEADER {
      MirrorBlock(ptrs[l], s[l], live, m);
      OtherKept(ptrs[l], s[l], live, m, live', m', live' - {b});
    }
  }

  lemma MirrorsStored(ptrs: map<nat, nat>, s: Ideal, live: Ledger, m: Mem, m': Mem, k: nat, i: nat, v: bv8)
    requires Mirrors(ptrs, s, live, m) && k in ptrs && HEADER <= ptrs[k] && i < Capacity(s[k].size)
    requires Stored(m, m', ptrs[k] + i, v) && Intact(live - {ptrs[k] - HEADER}, m, m')
    ensures Mirrors(ptrs, Apply(s, Write(k, i, v)), live, m')
  {
    assert Mirror(ptrs[k], s[k], live, m);
    assert Mirror(ptrs[k], s[k].(bytes := s[k].bytes[i := v]), live, m');
    forall l | l in s && l != k ensures Mirror(ptrs[l], s[l], live, m') {
      OtherKept(ptrs[l], s[l], live, m, live, m', live - {ptrs[k] - HEADER});
    }
  }

  /** A request registers at most one more allocator, for its own class. */
  lemma UsesGrown(x: XAllocator, allocs: seq<Allocator>, classes: set<nat>, b: nat)
    requires x.Valid() && Uses(allocs, classes) && b in x.live
    requires x.allocs == allocs || x.allocs == allocs + [x.live[b].owner]
    ensures Uses(x.allocs, classes + {x.live[b].owner.cfg.blockSize})
  {
    var a := x.live[b].owner;
    assert a in x.allocs;
    forall c | c in classes + {a.cfg.blockSize} ensures exists d :: d in x.allocs && d.cfg.blockSize == c {
      if c in classes {
        var d :| d in allocs && d.cfg.blockSize == c;
        assert d in x.allocs;
      }
    }
  }

  lemma ReplacedOwner(live: Ledger, live': Ledger, c: nat, b: nat, size: nat)
    requires Replaced(live, live', c, b, size)
    ensures b in live' && live'[b].owner.cfg.blockSize == ClassFor(size + HEADER)
  {}

  /** Allocators registered since are new objects. */
  twostate predicate OnlyFresh(x: XAllocator)
    reads x
  {
    forall j | 0 <= j < |x.allocs| :: x.allocs[j] in old(x.allocs) || fresh(x.allocs[j])
  }

  method DoMalloc(x: XAllocator, ptrs: map<nat, nat>, k: nat, size: nat, ghost s: Ideal, ghost classes: set<nat>)
      returns (ptrs': map<nat, nat>)
    requires Good(x, ptrs, s, classes) && size + HEADER <= HALF
    requires |classes + {ClassFor(size + HEADER)}| <= MAX_ALLOCATORS
    modifies x, x.registry, x.heap, x.allocs
    ensures Good(x, ptrs', s[k := Object(size, map[])], classes + {ClassFor(size + HEADER)}) && OnlyFresh(x)
    ensures x.books == Up(old(x.books), ClassFor(size + HEADER))
    ensures old(x.Balanced()) ==> x.Balanced()
  {
    hide XAllocator.Valid, XAllocator.Balanced, Up, Down, Mirrors, ClassFor, XAllocator.CanServe, Uses;
    GoodServes(x, ptrs, s, classes, ClassFor(size + HEADER));
    var p, b := x.Xmalloc(size);
    UsesGrown(x, old(x.allocs), classes, b);
    ptrs' := ptrs[k := p];
    MirrorsAdded(ptrs, s, old(x.live), old(x.heap.mem), x.live, x.heap.mem, k, size, b);
  }

  method DoFree(x: XAllocator, ptrs: map<nat, nat>, k: nat, ghost s: Ideal, ghost classes: set<nat>)
      returns (ptrs': map<nat, nat>)
    requires Good(x, ptrs, s, classes)
    modifies x, x.heap, x.allocs
    ensures Good(x, ptrs', s - {k}, classes) && x.allocs == old(x.allocs)
    ensures x.books == Charge(old(x.books), s, Free(k))
    ensures old(x.Balanced()) ==> x.Balanced()
  {
    hide XAllocator.Valid, XAllocator.Balanced, Down, Uses;
    if k !in ptrs {
      x.Xfree(NULL);
      ptrs' := ptrs;
      assert s - {k} == s;
    } else {
      assert Mirror(ptrs[k], s[k], x.live, x.heap.mem);
      ghost var owner := x.live[ptrs[k] - HEADER].owner;
      assert owner.cfg.blockSize == ClassOf(s[k]);
      x.Xfree(ptrs[k]);
      ptrs' := ptrs - {k};
      MirrorsFreed(ptrs, s, old(x.live), old(x.heap.mem), x.live, x.heap.mem, k);
    }
  }

  method DoWrite(x: XAllocator, ptrs: map<nat, nat>, k: nat, i: nat, v: bv8, ghost s: Ideal, ghost classes: set<nat>)
    requires Good(x, ptrs, s, classes)
    modifies x.heap
    ensures Good(x, ptrs, Apply(s, Write(k, i, v)), classes)
    ensures old(x.Balanced()) ==> x.Balanced()
  {
    hide XAllocator.Valid, XAllocator.Balanced, Up, Down, Mirrors, ClassFor, XAllocator.CanServe, Capacity, Uses;
    if k in ptrs {
      GoodSlot(x, ptrs, s, classes, k);
      var a := x.OwnerOf(ptrs[k]);
      if i < Client(a) {
        x.Store(ptrs[k], i, v);
        MirrorsStored(ptrs, s, x.live, old(x.heap.mem), x.heap.mem, k, i, v);
      }
    } else {
      NoSlot(x, ptrs, s, classes, k);
    }
  }

  method DoRealloc(x: XAllocator, ptrs: map<nat, nat>, k: nat, size: nat, ghost s: Ideal, ghost classes: set<nat>)
      returns (ptrs': map<nat, nat>)
    requires Good(x, ptrs, s, classes) && size + HEADER <= HALF
    requires |classes + Asks(s, Realloc(k, size))| <= MAX_ALLOCATORS
    modifies x, x.registry, x.heap, x.allocs
    ensures Good(x, ptrs', Apply(s, Realloc(k, size)), classes + Asks(s, Realloc(k, size))) && OnlyFresh(x)
    ensures x.books == Charge(old(x.books), s, Realloc(k, size))
    ensures old(x.Balanced()) ==> x.Balanced()
  {
    hide Good, ClassFor, Up, Down, XAllocator.Balanced;
    if k !in ptrs {
      NoSlot(x, ptrs, s, classes, k);
      ptrs' := DoReallocNull(x, ptrs, k, size, s, classes);
    } else {
      GoodSlot(x, ptrs, s, classes, k);
      if size == 0 {
        ptrs' := DoReallocZero(x, ptrs, k, s, classes);
        assert classes + {} == classes;
      } else {
        ptrs' := DoResize(x, ptrs, k, size, s, classes);
      }
    }
  }

  method DoReallocNull(x: XAllocator, ptrs: map<nat, nat>, k: nat, size: nat, ghost s: Ideal, ghost classes: set<nat>)
      returns (ptrs': map<nat, nat>)
    requires Good(x, ptrs, s, classes) && size + HEADER <= HALF && k !in ptrs
    requires |classes + {ClassFor(size + HEADER)}| <= MAX_ALLOCATORS
    modifies x, x.registry, x.heap, x.allocs
    ensures Good(x, ptrs', s[k := Object(size, map[])], classes + {ClassFor(size + HEADER)}) && OnlyFresh(x)
    ensures x.books == Up(old(x.books), ClassFor(size + HEADER))
    ensures old(x.Balanced()) ==> x.Balanced()
  {
    hide XAllocator.Valid, XAllocator.Balanced, Up, Down, Mirrors, ClassFor, XAllocator.CanServe, Uses;
    GoodServes(x, ptrs, s, classes, ClassFor(size + HEADER));
    var p, b := x.Xrealloc(NULL, size);
    UsesGrown(x, old(x.allocs), classes, b);
    ptrs' := ptrs[k := p];
    MirrorsAdded(ptrs, s, old(x.live), old(x.heap.mem), x.live, x.heap.mem, k, size, b);
  }

  method DoReallocZero(x: XAllocator, ptrs: map<nat, nat>, k: nat, ghost s: Ideal, ghost classes: set<nat>)
      returns (ptrs': map<nat, nat>)
    requires Good(x, ptrs, s, classes) && k in ptrs
    modifies x, x.registry, x.heap, x.allocs
    ensures Good(x, ptrs', s - {k}, classes) && x.allocs == old(x.allocs)
    ensures k in s && x.books == Down(old(x.books), ClassOf(s[k]))
    ensures old(x.Balanced()) ==> x.Balanced()
  {
    hide XAllocator.Valid, XAllocator.Balanced, Up, Down, Mirrors, ClassFor, XAllocator.CanServe, Capacity, Uses;
    GoodSlot(x, ptrs, s, classes, k);
    var p, b := x.Xrealloc(ptrs[k], 0);
    ptrs' := ptrs - {k};
    MirrorsFreed(ptrs, s, old(x.live), old(x.heap.mem), x.live, x.heap.mem, k);
  }

  method DoResize(x: XAllocator, ptrs: map<nat, nat>, k: nat, size: nat, ghost s: Ideal, ghost classes: set<nat>)
      returns (ptrs': map<nat, nat>)
    requires Good(x, ptrs, s, classes) && size + HEADER <= HALF && k in ptrs && size != 0
    requires |classes + {ClassFor(size + HEADER)}| <= MAX_ALLOCATORS
    modifies x, x.registry, x.heap, x.allocs
    ensures Good(x, ptrs', Apply(s, Realloc(k, size)), classes + {ClassFor(size + HEADER)}) && OnlyFresh(x)
    ensures k in s && x.books == Down(Up(old(x.books), ClassFor(size + HEADER)), ClassOf(s[k]))
    ensures old(x.Balanced()) ==> x.Balanced()
  {
    hide XAllocator.Valid, XAllocator.Balanced, Up, Down, Mirrors, ClassFor, XAllocator.CanServe, Capacity, Apply, Min, Moved, Uses, Replaced, Intact;
    GoodServes(x, ptrs, s, classes, ClassFor(size + HEADER));
    GoodSlot(x, ptrs, s, classes, k);
    ghost var n := Min(x.Usable(ptrs[k] - HEADER), size);
    var p, b := x.Xrealloc(ptrs[k], size);
    ReplacedOwner(old(x.live), x.live, ptrs[k] - HEADER, b, size);
    UsesGrown(x, old(x.allocs), classes, b);
    ptrs' := ptrs[k := p];
    MirrorsReplaced(ptrs, s, old(x.live), old(x.heap.mem), x.live, x.heap.mem, k, size, b, p, n);
  }

  method Step(x: XAllocator, ptrs: map<nat, nat>, op: Op, ghost s: Ideal, ghost classes: set<nat>)
      returns (ptrs': map<nat, nat>)
    requires Good(x, ptrs, s, classes) && Sane(op) && |classes + Asks(s, op)| <= MAX_ALLOCATORS
    modifies x, x.registry, x.heap, x.allocs
    ensures Good(x, ptrs', Apply(s, op), classes + Asks(s, op)) && OnlyFresh(x)
    ensures x.books == Charge(old(x.books), s, op)
    ensures old(x.Balanced()) ==> x.Balanced()
  {
    hide Good, ClassFor, Up, Down, XAllocator.Balanced;
    assert classes + {} == classes;
    match op
    case Malloc(k, n) => ptrs' := DoMalloc(x, ptrs, k, n, s, classes);
    case Free(k) => ptrs' := DoFree(x, ptrs, k, s, classes);
    case Realloc(k, n) => ptrs' := DoRealloc(x, ptrs, k, n, s, classes);
    case Write(k, i, v) => DoWrite(x, ptrs, k, i, v, s, classes); ptrs' := ptrs;
  }

  /** The allocator after the first i operations of a program. */
  ghost predicate Reached(x: XAllocator, ptrs: map<nat, nat>, ops: seq<Op>, i: nat)
    requires i <= |ops|
    reads x, x.registry, x.heap, x.allocs
  {
    Good(x, ptrs, ApplyAll(map[], ops[..i]), Demand(ops[..i])) && x.books == Total(ops[..i]) && x.Balanced()
  }

  method Advance(x: XAllocator, ptrs: map<nat, nat>, ops: seq<Op>, i: nat) returns (ptrs': map<nat, nat>)
    requires i < |ops| && Reached(x, ptrs, ops, i) && Sane(ops[i]) && |Demand(ops)| <= MAX_ALLOCATORS
    modifies x, x.registry, x.heap, x.allocs
    ensures Reached(x, ptrs', ops, i + 1) && OnlyFresh(x)
  {
    hide Good, Sane, ApplyAll, Apply, Demand, Asks, Total, Charge, XAllocator.Balanced;
    PrefixStep(ops, i);
    ptrs' := Step(x, ptrs, ops[i], ApplyAll(map[], ops[..i]), Demand(ops[..i]));
  }

  lemma ReachedStart(x: XAllocator, ops: seq<Op>)
    requires x.Valid() && x.Balanced() && x.allocs == [] && x.live == map[] && x.books == Books(map[], map[])
    ensures Reached(x, map[], ops, 0)
  {
    hide XAllocator.Valid, XAllocator.Balanced;
    assert ops[..0] == [];
    GoodStart(x);
    Nothing();
  }

  lemma ReachedEnd(x: XAllocator, ptrs: map<nat, nat>, ops: seq<Op>)
    requires Reached(x, ptrs, ops, |ops|)
    ensures Good(x, ptrs, ApplyAll(map[], ops), Demand(ops)) && x.books == Total(ops) && x.Balanced()
  {
    hide Good, ApplyAll, Demand, Total, XAllocator.Balanced;
    assert ops[..|ops|] == ops;
  }

  /** Any program that asks for at most fifteen classes, small requests or not: every pointer
      variable ends as on the ideal heap, so every byte written reads back, whatever else was
      allocated, freed or resized, and no assertion of the allocator ever fails. */
  method Run(ops: seq<Op>) returns (x: XAllocator, ptrs: map<nat, nat>)
    requires (forall op | op in ops :: Sane(op)) && |Demand(ops)| <= MAX_ALLOCATORS
    ensures Good(x, ptrs, ApplyAll(map[], ops), Demand(ops)) && x.books == Total(ops) && x.Balanced()
  {
    hide Good, Reached, Sane, ApplyAll, Demand, Total, XAllocator.Balanced, XAllocator.Valid, Heap.Valid;
    var heap := new Heap();
    x := new XAllocator(heap);
    ptrs := map[];
    ReachedStart(x, ops);
    for i := 0 to |ops|
      invariant fresh(x) && fresh(x.registry) && fresh(x.heap) && forall j | 0 <= j < |x.allocs| :: fresh(x.allocs[j])
      invariant Reached(x, ptrs, ops, i)
    {
      ptrs := Advance(x, ptrs, ops, i);
    }
    ReachedEnd(x, ptrs, ops);
  }

  lemma PrefixStep(ops: seq<Op>, i: nat)
    requires i < |ops|
    ensures var s := ApplyAll(map[], ops[..i]);
            && ApplyAll(map[], ops[..i + 1]) == Apply(s, ops[i])
            && Demand(ops[..i + 1]) == Demand(ops[..i]) + Asks(s, ops[i])
            && |Demand(ops[..i + 1])| <= |Demand(ops)|
            && Total(ops[..i + 1]) == Charge(Total(ops[..i]), s, ops[i])
  {
    assert ops[..i + 1][..i] == ops[..i];
    DemandGrows(ops, i + 1);
    Fewer(Demand(ops[..i + 1]), Demand(ops));
  }

  /** The condition is exact: after a program, the next request finds an allocator or a free
      registry slot if and only if the longer program still asks for at most fifteen classes. */
  lemma FaultsExactly(x: XAllocator, ptrs: map<nat, nat>, ops: seq<Op>, op: Op, c: nat)
    requires Good(x, ptrs, ApplyAll(map[], ops), Demand(ops)) && Sane(op) && Asks(ApplyAll(map[], ops), op) == {c}
    ensures x.CanServe(c) <==> |Demand(ops + [op])| <= MAX_ALLOCATORS
  {
    GoodServes(x, ptrs, ApplyAll(map[], ops), Demand(ops), c);
    assert (ops + [op])[..|ops|] == ops;
  }

  /** The block of pointer p holds the object, behind a header that names its allocator. */
  ghost predicate Secure(live: Ledger, m: Mem, p: nat, o: Object) {
    && HEADER <= p && p - HEADER in live && o.size <= Client(live[p - HEADER].owner)
    && Holds(m, p - HEADER, Owner(live[p - HEADER].owner))
  }

  /** The blocks behind two pointers, headers included, do not overlap. */
  predicate Separate(p: nat, n: nat, q: nat, m: nat) {
    p + n + HEADER <= q || q + m + HEADER <= p
  }

  ghost predicate OnFreeList(allocs: seq<Allocator>, p: nat)
    reads allocs
  {
    exists a, b :: a in allocs && b in a.free && b + HEADER == p
  }

  /** What a client may rely on: the blocks of two pointer variables never overlap, each holds the
      bytes requested behind a header that names its allocator, and no live block is on the free
      list of any allocator. */
  lemma BlocksSafe(x: XAllocator, ptrs: map<nat, nat>, s: Ideal, classes: set<nat>, k: nat, l: nat)
    requires Good(x, ptrs, s, classes) && k in ptrs && l in ptrs
    ensures k in s && l in s && Secure(x.live, x.heap.mem, ptrs[k], s[k])
    ensures k != l ==> Separate(ptrs[k], s[k].size, ptrs[l], s[l].size)
    ensures !OnFreeList(x.allocs, ptrs[k])
  {
    hide XAllocator.Valid, ClassFor, Capacity;
    assert Mirror(ptrs[k], s[k], x.live, x.heap.mem) && Mirror(ptrs[l], s[l], x.live, x.heap.mem);
    hide Mirrors;
    x.LiveFacts(ptrs[k] - HEADER);
    if k != l { x.BlocksApart(ptrs[k] - HEADER, ptrs[l] - HEADER); }
  }

  // ----- memory use

  /** Blocks of class c that are live at the height of step i: a request holds its new block before
      anything is given back. */
  ghost function Held(ops: seq<Op>, i: nat, c: nat): nat
    requires i < |ops|
  {
    Get(Total(ops[..i]).inUse, c) + if c in Asks(ApplyAll(map[], ops[..i]), ops[i]) then 1 else 0
  }

  /** One operation raises the peak of the class it asks for, if at all. */
  lemma ChargePeak(k: Books, s: Ideal, op: Op, c: nat)
    requires Get(k.inUse, c) <= Get(k.peak, c)
    ensures var k' := Charge(k, s, op);
            && Get(k'.peak, c) == (if c in Asks(s, op) then Max(Get(k.peak, c), Get(k.inUse, c) + 1) else Get(k.peak, c))
            && Get(k'.inUse, c) <= Get(k'.peak, c)
  {
    hide ClassFor;
  }

  /** The last operation raises the peak to what it holds, if at all. */
  lemma PeakStep(ops: seq<Op>, c: nat)
    requires ops != []
    requires var k := Total(ops[..|ops| - 1]); Get(k.inUse, c) <= Get(k.peak, c)
    ensures Get(Total(ops).peak, c) == Max(Get(Total(ops[..|ops| - 1]).peak, c), Held(ops, |ops| - 1, c))
    ensures Get(Total(ops).inUse, c) <= Get(Total(ops).peak, c)
  {
    hide ClassFor, Charge, Asks, ApplyAll, Get;
    var before := ops[..|ops| - 1];
    ChargePeak(Total(before), ApplyAll(map[], before), ops[|ops| - 1], c);
  }

  lemma {:induction false} UseWithinPeak(ops: seq<Op>, c: nat)
    ensures Get(Total(ops).inUse, c) <= Get(Total(ops).peak, c)
  {
    if ops == [] {
      assert Total(ops) == Books(map[], map[]);
    } else {
      hide *;
      UseWithinPeak(ops[..|ops| - 1], c);
      PeakStep(ops, c);
    }
  }

  lemma HeldSame(ops: seq<Op>, i: nat, c: nat)
    requires i < |ops| - 1
    ensures Held(ops, i, c) == Held(ops[..|ops| - 1], i, c)
  {
    hide Total, ApplyAll, Asks;
    assert ops[..|ops| - 1][..i] == ops[..i];
  }

  lemma {:induction false} HeldAtMost(ops: seq<Op>, i: nat, c: nat)
    requires i < |ops|
    ensures Held(ops, i, c) <= Get(Total(ops).peak, c)
    decreases |ops|
  {
    hide Held, Total, Get;
    UseWithinPeak(ops[..|ops| - 1], c);
    PeakStep(ops, c);
    if i < |ops| - 1 {
      HeldSame(ops, i, c);
      HeldAtMost(ops[..|ops| - 1], i, c);
    }
  }

  lemma NoneYet(c: nat)
    ensures Get(Total([]).peak, c) == 0
  {}

  lemma {:induction false} PeakReached(ops: seq<Op>, c: nat) returns (i: nat)
    requires Get(Total(ops).peak, c) > 0
    ensures i < |ops| && Held(ops, i, c) == Get(Total(ops).peak, c)
    decreases |ops|
  {
    hide Held, Total, Get;
    NoneYet(c);
    assert ops != [];
    var before := ops[..|ops| - 1];
    UseWithinPeak(before, c);
    PeakStep(ops, c);
    i := |ops| - 1;
    if Held(ops, i, c) < Get(Total(ops).peak, c) {
      i := PeakReached(before, c);
      HeldSame(ops, i, c);
    }
  }

  /** The peak is the most blocks of the class ever live at once. */
  lemma PeakIsMost(ops: seq<Op>, c: nat)
    ensures Get(Total(ops).inUse, c) <= Get(Total(ops).peak, c)
    ensures forall i | 0 <= i < |ops| :: Held(ops, i, c) <= Get(Total(ops).peak, c)
    ensures Get(Total(ops).peak, c) == 0 || exists i :: 0 <= i < |ops| && Held(ops, i, c) == Get(Total(ops).peak, c)
  {
    hide *;
    UseWithinPeak(ops, c);
    forall i | 0 <= i < |ops| ensures Held(ops, i, c) <= Get(Total(ops).peak, c) {
      HeldAtMost(ops, i, c);
    }
    if Get(Total(ops).peak, c) != 0 {
      var i := PeakReached(ops, c);
    }
  }

  /** Conservation after a program: of each class the allocator has obtained exactly as many blocks
      from the heap as were ever live at once; those that are not live are on its free list; and its
      counters say so, modulo 2^32. */
  lemma MemoryUse(x: XAllocator, ptrs: map<nat, nat>, ops: seq<Op>, a: Allocator)
    requires Good(x, ptrs, ApplyAll(map[], ops), Demand(ops)) && x.books == Total(ops) && x.Balanced() && a in x.allocs
    ensures var c := a.cfg.blockSize;
            && |a.used| == Get(Total(ops).inUse, c) && |a.used| + |a.free| == Get(Total(ops).peak, c)
            && a.blockCnt == Wrap(Get(Total(ops).peak, c)) && a.blocksInUse == Wrap(Get(Total(ops).inUse, c))
            && (forall b :: b in a.used <==> b in x.live && x.live[b].owner == a)
  {
    AccountOf(x, a);
    UsedIsLive(x, a);
  }

  lemma AccountOf(x: XAllocator, a: Allocator)
    requires x.Balanced() && a in x.allocs && x.Serves(a)
    ensures var c := a.cfg.blockSize;
            && |a.used| == Get(x.books.inUse, c) && |a.used| + |a.free| == Get(x.books.peak, c)
            && a.blockCnt == Wrap(Get(x.books.peak, c)) && a.blocksInUse == Wrap(Get(x.books.inUse, c))
  {
    assert Account(a, x.books);
  }

  lemma UsedIsLive(x: XAllocator, a: Allocator)
    requires x.Matched() && a in x.allocs
    ensures forall b :: b in a.used <==> b in x.live && x.live[b].owner == a
  {}

  lemma Nothing()
    ensures ApplyAll(map[], []) == map[] && Demand([]) == {} && Total([]) == Books(map[], map[])
  {}

  lemma GoodStart(x: XAllocator)
    requires x.Valid() && x.allocs == [] && x.live == map[]
    ensures Good(x, map[], map[], {})
  {}
}
