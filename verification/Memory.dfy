/** Byte-addressed memory. A pointer stored in memory occupies eight bytes; each byte
    remembers which pointer it is a fragment of, so overwriting any of them destroys it. */
module Memory {

  const WIDTH: nat := 8   // sizeof a pointer
  const NULL: nat := 0

  /** What a pointer-sized word may hold: a free-list link or the owning allocator. */
  datatype Pointer = Link(addr: nat) | Owner(obj: object)

  datatype Byte = Raw(value: bv8) | Frag(ptr: Pointer, index: nat)

  type Mem = map<nat, Byte>

  ghost predicate Holds(m: Mem, a: nat, p: Pointer) {
    forall x: nat | a <= x < a + WIDTH :: x in m && m[x] == Frag(p, x - a)
  }

  ghost predicate HoldsLink(m: Mem, a: nat) {
    a in m && m[a].Frag? && m[a].ptr.Link? && Holds(m, a, m[a].ptr)
  }

  /** The addresses [a, a + n). */
  function Span(a: nat, n: nat): (r: set<nat>)
    ensures forall x: nat :: x in r <==> a <= x < a + n
  {
    if n == 0 then {} else Span(a, n - 1) + {a + n - 1}
  }

  /** m' is m with the pointer p stored at a, and nothing else changed. */
  ghost predicate Wrote(m: Mem, m': Mem, a: nat, p: Pointer) {
    && Holds(m', a, p)
    && (forall x: nat | x in m && !(a <= x < a + WIDTH) :: x in m' && m'[x] == m[x])
    && (forall x: nat | x in m' && !(a <= x < a + WIDTH) :: x in m)
  }

  /** The two memories agree on [a, a + n). */
  ghost predicate Same(m: Mem, m': Mem, a: nat, n: nat) {
    forall x: nat | a <= x < a + n && x in m :: x in m' && m'[x] == m[x]
  }

  /** s lists the blocks met when following links from head. */
  ghost predicate Chain(m: Mem, head: nat, s: seq<nat>)
    decreases s
  {
    if s == [] then head == NULL
    else head == s[0] && head != NULL && HoldsLink(m, head) && Chain(m, m[head].ptr.addr, s[1..])
  }

  lemma {:induction false} ChainFrame(m: Mem, m': Mem, head: nat, s: seq<nat>)
    requires Chain(m, head, s)
    requires forall b | b in s :: Same(m, m', b, WIDTH)
    ensures Chain(m', head, s)
    decreases s
  {
    if s != [] {
      assert s[0] in s;
      assert Holds(m', head, m[head].ptr);
      ChainFrame(m, m', m[head].ptr.addr, s[1..]);
    }
  }

  /** Linking a word that overlaps no listed one puts it in front. */
  lemma ChainPush(m: Mem, m': Mem, head: nat, s: seq<nat>, b: nat)
    requires Chain(m, head, s) && b != NULL
    requires forall c | c in s :: b + WIDTH <= c || c + WIDTH <= b
    requires Wrote(m, m', b, Link(head))
    ensures Chain(m', b, [b] + s)
  {
    ChainFrame(m, m', head, s);
    assert m'[b] == Frag(Link(head), 0);
    assert ([b] + s)[1..] == s;
  }

  /** Only the array at b may have changed. */
  ghost predicate Quiet(m: Mem, m': Mem, regions: map<nat, nat>, b: nat) {
    forall d | d in regions && d != b :: Same(m, m', d, regions[d])
  }

  ghost predicate Mapped(m: Mem, a: nat, n: nat) {
    n == 0 || (Mapped(m, a, n - 1) && a + n - 1 in m)
  }

  lemma {:induction false} MappedAll(m: Mem, a: nat, n: nat)
    ensures Mapped(m, a, n) <==> forall x: nat | a <= x < a + n :: x in m
  {
    if n > 0 { MappedAll(m, a, n - 1); }
  }

  /** Only bytes in [lo, hi) may have changed, and nothing was mapped or unmapped. */
  ghost predicate Confined(m: Mem, m': Mem, lo: nat, hi: nat) {
    m'.Keys == m.Keys && forall x: nat | x in m && !(lo <= x < hi) :: m'[x] == m[x]
  }

  lemma ConfinedQuiet(m: Mem, m': Mem, regions: map<nat, nat>, b: nat, lo: nat, hi: nat)
    requires Apart(regions) && b in regions && b <= lo && hi <= b + regions[b] && Confined(m, m', lo, hi)
    ensures Quiet(m, m', regions, b)
  {}

  lemma WroteQuiet(m: Mem, m': Mem, regions: map<nat, nat>, b: nat, p: Pointer)
    requires Apart(regions) && b in regions && WIDTH <= regions[b] && Wrote(m, m', b, p)
    ensures Quiet(m, m', regions, b)
  {}

  /** Every array of r is still there in r'. */
  ghost predicate Grown(r: map<nat, nat>, r': map<nat, nat>) {
    forall d | d in r :: d in r' && r'[d] == r[d]
  }

  lemma GrownQuiet(m: Mem, m': Mem, m'': Mem, r: map<nat, nat>, r': map<nat, nat>, b: nat)
    requires Extends(m, m') && Grown(r, r') && Quiet(m', m'', r', b)
    ensures Quiet(m, m'', r, b)
  {
    forall d | d in r && d != b ensures Same(m, m'', d, r[d]) {
      assert Same(m', m'', d, r'[d]);
    }
  }

  /** Outstanding arrays are mapped, pairwise disjoint and below brk. */
  ghost predicate WellFormed(mem: Mem, brk: nat, regions: map<nat, nat>) {
    && 0 < brk
    && (forall a | a in regions :: 0 < a && 0 < regions[a] && a + regions[a] <= brk)
    && (forall a, x | a in regions && a <= x < a + regions[a] :: x in mem)
    && Apart(regions)
    && (forall x | x in mem :: x < brk)
  }

  ghost predicate Apart(regions: map<nat, nat>) {
    forall a, b | a in regions && b in regions && a != b ::
      a + regions[a] <= b || b + regions[b] <= a
  }

  /** Nothing mapped in m changed in m'. */
  ghost predicate Extends(m: Mem, m': Mem) {
    forall x: nat | x in m :: x in m' && m'[x] == m[x]
  }

  /** The C++ free store: `new CHAR[n]` and `delete[]`. `regions` maps the start of each
      outstanding array to its length. */
  class Heap {
    var mem: Mem
    var brk: nat
    var regions: map<nat, nat>

    ghost predicate Valid()
      reads this
    {
      WellFormed(mem, brk, regions)
    }

    constructor ()
      ensures Valid() && regions == map[] && mem == map[]
    {
      mem, brk, regions := map[], 1, map[];
    }

    /** The array's bytes are arbitrary; nothing that was mapped changes. */
    method New(n: nat) returns (a: nat)
      requires Valid() && n > 0
      modifies this
      ensures Valid() && a != NULL && a !in old(regions)
      ensures regions == old(regions)[a := n]
      ensures Extends(old(mem), mem)
    {
      a := brk;
      mem := mem + map x | x in Span(a, n) :: Raw(0);
      regions := regions[a := n];
      brk := a + n;
    }

    method Delete(a: nat)
      requires Valid() && a in regions
      modifies this
      ensures Valid() && regions == old(regions) - {a}
      ensures forall b | b in regions :: Same(old(mem), mem, b, regions[b])
    {
      var n := regions[a];
      mem := map x | x in mem && !(a <= x < a + n) :: mem[x];
      regions := regions - {a};
    }

    method StorePtr(a: nat, p: Pointer)
      requires Valid()
      requires forall x: nat | a <= x < a + WIDTH :: x in mem
      modifies this`mem
      ensures Valid() && Wrote(old(mem), mem, a, p)
    {
      mem := mem + map x | x in Span(a, WIDTH) :: Frag(p, x - a);
      assert forall x | x in mem :: x in old(mem);
    }
  
    /** A store by the client through one of its pointers. */
    method StoreByte(a: nat, v: bv8)
      requires Valid() && a in mem
      modifies this`mem
      ensures Valid() && Stored(old(mem), mem, a, v)
    {
      mem := mem[a := Raw(v)];
    }

    /** memcpy */
    method Copy(dst: nat, src: nat, n: nat)
      requires Valid() && (dst + n <= src || src + n <= dst) && Mapped(mem, dst, n) && Mapped(mem, src, n)
      modifies this`mem
      ensures Valid() && Copied(old(mem), mem, dst, src, n)
    {
      MappedAll(mem, src, n);
      MappedAll(mem, dst, n);
      mem := mem + map x | x in Span(dst, n) :: mem[src + (x - dst)];
      assert mem.Keys == old(mem).Keys;
      MovedAll(old(mem), mem, dst, src, n);
    }
  }

  ghost predicate Stored(m: Mem, m': Mem, a: nat, v: bv8) {
    a in m && Confined(m, m', a, a + 1) && m'[a] == Raw(v)
  }

  ghost predicate Copied(m: Mem, m': Mem, dst: nat, src: nat, n: nat) {
    Confined(m, m', dst, dst + n) && Moved(m, m', dst, src, n)
  }

  /** The n bytes at src in m are the n bytes at dst in m'. */
  ghost predicate Moved(m: Mem, m': Mem, dst: nat, src: nat, n: nat) {
    n == 0
    || (Moved(m, m', dst, src, n - 1)
        && src + n - 1 in m && dst + n - 1 in m' && m'[dst + n - 1] == m[src + n - 1])
  }

  lemma {:induction false} MovedAt(m: Mem, m': Mem, dst: nat, src: nat, n: nat, i: nat)
    requires Moved(m, m', dst, src, n) && i < n
    ensures src + i in m && dst + i in m' && m'[dst + i] == m[src + i]
    decreases n
  {
    if i < n - 1 { MovedAt(m, m', dst, src, n - 1, i); }
  }

  lemma {:induction false} MovedAll(m: Mem, m': Mem, dst: nat, src: nat, n: nat)
    requires forall x: nat | src <= x < src + n :: x in m
    requires forall x: nat | dst <= x < dst + n :: x in m'
    requires forall x: nat | dst <= x < dst + n :: m'[x] == m[src + (x - dst)]
    ensures Moved(m, m', dst, src, n)
  {
    if n > 0 { MovedAll(m, m', dst, src, n - 1); }
  }

  lemma SameTrans(m: Mem, m': Mem, m'': Mem, a: nat, n: nat)
    requires Same(m, m', a, n) && Same(m', m'', a, n)
    ensures Same(m, m'', a, n)
  {}

  lemma {:induction false} MovedKept(m0: Mem, m1: Mem, m2: Mem, dst: nat, src: nat, n: nat)
    requires Moved(m0, m1, dst, src, n) && Same(m1, m2, dst, n)
    ensures Moved(m0, m2, dst, src, n)
  {
    if n > 0 { MovedKept(m0, m1, m2, dst, src, n - 1); }
  }

  lemma {:induction false} MovedFrom(m0: Mem, m1: Mem, m2: Mem, dst: nat, src: nat, n: nat)
    requires Mapped(m0, src, n) && Same(m0, m1, src, n) && Moved(m1, m2, dst, src, n)
    ensures Moved(m0, m2, dst, src, n)
  {
    if n > 0 { MovedFrom(m0, m1, m2, dst, src, n - 1); }
  }
}
