/** Size classes of the fixed-block allocator: `nexthigher` and the block-size choice of
    `xallocator_get_allocator`. */
module SizeClass {
  import opened Basics
  import opened Words

  const HEADER: nat := 8   // sizeof(Allocator*)

  /** The top s of m bits of k are ones, and k has no bit above m. */
  predicate Smeared(k: nat, m: nat, s: nat)
    requires s <= m
  {
    Shr(k, m) == 0 && Shr(k, m - s) == Pow2(s) - 1
  }

  lemma Fill(p: nat, q: nat)
    requires p >= 1
    ensures (p - 1) * q + q == p * q
  {}

  lemma TopOnes(k: nat, m: nat, s: nat, t: nat)
    requires t <= s && s + t <= m && Smeared(k, m, s)
    ensures Shr(k, m - t) == Pow2(t) - 1
    ensures Or(Shr(k, m - s - t), Pow2(t) - 1) == Pow2(s + t) - 1
  {
    ShrShr(k, m - s, s - t);
    ShrOnes(s, s - t);
    ShrShr(k, m - s - t, t);
    OrFill(Shr(k, m - s - t), t);
    Fill(Pow2(s), Pow2(t));
    Pow2Add(s, t);
  }

  lemma ShrPast(k: nat, m: nat, n: nat)
    requires Shr(k, m) == 0
    ensures Shr(k, m + n) == 0
  {
    ShrShr(k, m, n);
    ShrZero(0, n);
  }

  lemma ShiftedOr(k: nat, s: nat, n: nat)
    ensures Shr(Or(k, Shr(k, s)), n) == Or(Shr(k, n), Shr(k, s + n))
  {
    ShrOr(k, Shr(k, s), n);
    ShrShr(k, s, n);
  }

  lemma SmearFits(k: nat, m: nat, s: nat)
    requires Shr(k, m) == 0
    ensures Shr(Or(k, Shr(k, s)), m) == 0
  {
    ShiftedOr(k, s, m);
    ShrPast(k, m, s);
  }

  lemma SmearRun(k: nat, m: nat, s: nat, t: nat)
    requires t <= s && s + t <= m && Smeared(k, m, s)
    ensures Smeared(Or(k, Shr(k, s)), m, s + t)
  {
    SmearFits(k, m, s);
    ShiftedOr(k, s, m - s - t);
    TopOnes(k, m, s, t);
  }

  /** One round of smearing doubles the run of leading ones; a full run absorbs it. */
  lemma SmearStep(k: nat, m: nat, i: nat)
    requires Smeared(k, m, Min(i, m))
    ensures Smeared(Or(k, Shr(k, i)), m, Min(2 * i, m))
  {
    hide Or, Shr, Pow2, Smeared;
    if i <= m {
      SmearRun(k, m, i, Min(i, m - i));
    } else {
      SmearDone(k, m, i);
    }
  }

  /** A fully smeared value absorbs further rounds. */
  lemma SmearDone(k: nat, m: nat, i: nat)
    requires Smeared(k, m, m) && m <= i
    ensures Or(k, Shr(k, i)) == k
  {
    ShrShr(k, m, i - m);
    ShrZero(0, i - m);
  }

  /** r is the least power of two that is at least k. */
  ghost predicate LeastPow2(r: nat, k: nat) {
    exists n: nat :: r == Pow2(n) && k <= r && forall j: nat :: k <= Pow2(j) ==> r <= Pow2(j)
  }

  lemma LeastPow2Of(n: nat, k: nat)
    requires k <= Pow2(n) && (n == 0 || Pow2(n - 1) < k)
    ensures LeastPow2(Pow2(n), k)
  {
    forall j: nat | k <= Pow2(j) ensures Pow2(n) <= Pow2(j) {
      if j < n {
        if j < n - 1 { Pow2Mono(j, n - 1); }
      } else if j > n {
        Pow2Mono(n, j);
      }
    }
  }

  /** k - 1 in m bits brackets k between two powers of two. */
  lemma LeastFromLength(k: nat, m: nat)
    requires k >= 1 && m == BitLen(k - 1)
    ensures LeastPow2(Pow2(m), k)
    ensures k <= Pow2(63) <==> m <= 63
  {
    if k > 1 { BitLenBounds(k - 1); }
    LeastPow2Of(m, k);
    if m > 63 {
      if m > 64 { Pow2Mono(63, m - 1); }
    } else if m < 63 {
      Pow2Mono(m, 63);
    }
  }

  lemma FitsWord(x: nat, m: nat)
    requires x < WORD && m == BitLen(x)
    ensures m <= 64 && Smeared(x, m, Min(1, m))
  {
    Pow2Values();
    if x > 0 {
      BitLenBounds(x);
      ShrZero(x, m);
      if m > 65 { Pow2Mono(64, m - 1); }
    }
  }

  lemma AllOnes(x: nat, m: nat)
    requires m <= 64 && Smeared(x, m, m)
    ensures (x + 1) % WORD == if m == 64 then 0 else Pow2(m)
  {
    OnesValue(x, m);
    hide Shr, Pow2, Smeared;
    Pow2Values();
    if m < 64 { Pow2Mono(m, 64); Small(Pow2(m)); }
  }

  lemma OnesValue(x: nat, m: nat)
    requires Smeared(x, m, m)
    ensures x + 1 == Pow2(m)
  {}

  lemma Small(p: nat)
    requires p < WORD
    ensures p % WORD == p
  {}

  /** `nexthigher<size_t>`: the decrement and the final increment wrap at 2^64. */
  method NextHigher(k: nat) returns (r: nat)
    requires k < WORD
    ensures 1 <= k <= Pow2(63) ==> LeastPow2(r, k)
    ensures !(1 <= k <= Pow2(63)) ==> r == 0
  {
    hide Or, Shr, Pow2, BitLen, Smeared, LeastPow2;
    var x := if k == 0 then WORD - 1 else k - 1;
    ghost var m := BitLen(x);
    FitsWord(x, m);
    if k == 0 { LeastFromLength(WORD, m); Pow2Values(); } else { LeastFromLength(k, m); }
    var i := 1;
    while i < 64
      invariant i >= 1 && x >= 0
      invariant Smeared(x, m, Min(i, m))
    {
      SmearStep(x, m, i);
      x := Or(x, Shr(x, i));
      i := 2 * i;
    }
    AllOnes(x, m);
    r := (x + 1) % WORD;
  }

  /** Block sizes that `xallocator_get_allocator` may choose. */
  ghost predicate IsClass(c: nat) {
    c == 396 || c == 768 || exists n: nat :: c == Pow2(n)
  }

  /** b is the least class that is at least n. */
  ghost predicate LeastClass(b: nat, n: nat) {
    IsClass(b) && n <= b && forall c: nat :: IsClass(c) && n <= c ==> b <= c
  }

  /** Powers of two between 256 and 1024. */
  lemma Pow2Gaps(j: nat)
    ensures Pow2(j) <= 256 || Pow2(j) == 512 || 1024 <= Pow2(j)
  {
    Pow2Values();
    if j < 8 { Pow2Mono(j, 8); }
    if j > 10 { Pow2Mono(10, j); }
  }

  lemma TunedClass(b: nat, n: nat)
    requires (b == 396 && 256 < n <= 396) || (b == 768 && 512 < n <= 768)
    ensures LeastClass(b, n)
  {
    forall c: nat | IsClass(c) && n <= c ensures b <= c {
      if j: nat :| c == Pow2(j) { Pow2Gaps(j); }
    }
  }

  lemma PowerClass(b: nat, n: nat)
    requires LeastPow2(b, n)
    requires !(256 < n <= 396) && !(512 < n <= 768)
    ensures LeastClass(b, n)
  {
    Pow2Values();
    assert n <= Pow2(8) ==> b <= 256;
    assert n <= Pow2(9) ==> b <= 512;
  }

  /** The class is unique, so it is a function of the size. */
  lemma LeastClassUnique(b: nat, c: nat, n: nat)
    requires LeastClass(b, n) && LeastClass(c, n)
    ensures b == c
  {
    assert b <= c && c <= b;
  }

  /** The class that serves n bytes, header included. */
  ghost function ClassFor(n: nat): (b: nat)
    requires n >= 1
    ensures LeastClass(b, n)
  {
    if 256 < n <= 396 then TunedClass(396, n); 396
    else if 512 < n <= 768 then TunedClass(768, n); 768
    else
      LeastFromLength(n, BitLen(n - 1));
      PowerClass(Pow2(BitLen(n - 1)), n);
      Pow2(BitLen(n - 1))
  }

  /** Larger requests never get smaller blocks. */
  lemma ClassMonotone(b1: nat, n1: nat, b2: nat, n2: nat)
    requires LeastClass(b1, n1) && LeastClass(b2, n2) && n1 <= n2
    ensures b1 <= b2
  {
    assert IsClass(b2) && n1 <= b2;
  }

  const CLASSES: set<nat> :=
    {8, 16, 32, 64, 128, 256, 396, 512, 768, 1024, 2048, 4096, 8192, 16384, 32768}

  lemma ClassCount()
    ensures |CLASSES| == 15
  {}

  lemma Pow2Small(n: nat)
    ensures 8 <= Pow2(n) <= 32768 ==> Pow2(n) in CLASSES
  {
    Pow2Values();
    if n < 3 { Pow2Mono(n, 3); } else if n > 15 { Pow2Mono(15, n); }
  }

  /** Exactly fifteen classes lie between a bare header and 32768 bytes. */
  lemma SmallClasses(c: nat)
    ensures IsClass(c) && 8 <= c <= 32768 <==> c in CLASSES
  {
    Pow2Values();
    hide Pow2;
    if IsClass(c) && 8 <= c <= 32768 && c != 396 && c != 768 {
      var n: nat :| c == Pow2(n);
      Pow2Small(n);
    }
  }

  /** Block size for a request, as `xallocator_get_allocator` computes it, for every 64-bit size.
      The request fits its block if and only if it is at most 2^63 bytes with the header. Above, the
      size is rounded to 0 and Allocate's assertion fails; and within 8 bytes of 2^64 the sum wraps,
      the assertion holds, and the block is at most 8 bytes long. */
  method BlockSizeFor(size: nat) returns (b: nat)
    requires size < WORD
    ensures size + HEADER <= HALF ==> LeastClass(b, size + HEADER)
    ensures size + HEADER <= b <==> size + HEADER <= HALF
    ensures HALF < size + HEADER < WORD ==> b == 0
    ensures WORD <= size + HEADER ==> size + HEADER - WORD <= b <= 8
  {
    Pow2Values();
    hide Pow2;
    b := (size + HEADER) % WORD;
    if 256 < b <= 396 {
      TunedClass(396, b);
      b := 396;
    } else if 512 < b <= 768 {
      TunedClass(768, b);
      b := 768;
    } else {
      ghost var n := b;
      b := NextHigher(b);
      if 1 <= n <= Pow2(63) { PowerClass(b, n); assert IsClass(Pow2(63)); }
      assert 1 <= n <= Pow2(3) ==> b <= Pow2(3);
    }
  }
}
