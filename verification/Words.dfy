/** Machine words: 64-bit unsigned values as naturals, with the two bit operations
    that `nexthigher` uses, defined bit by bit. */
module Words {

  const WORD: nat := 0x1_0000_0000_0000_0000   // 2^64, the modulus of size_t
  const HALF: nat := 0x8000_0000_0000_0000     // 2^63
  const UINT: nat := 0x1_0000_0000             // 2^32, the modulus of UINT

  function Pow2(n: nat): (r: nat)
    ensures r >= 1
  {
    if n == 0 then 1 else 2 * Pow2(n - 1)
  }

  /** a | b */
  function Or(a: nat, b: nat): nat {
    if a == 0 then b
    else if b == 0 then a
    else (if a % 2 == 1 || b % 2 == 1 then 1 else 0) + 2 * Or(a / 2, b / 2)
  }

  /** a >> n */
  function Shr(a: nat, n: nat): nat
    decreases n
  {
    if n == 0 then a else Shr(a / 2, n - 1)
  }

  predicate Bit(a: nat, i: nat) {
    Shr(a, i) % 2 == 1
  }

  /** Number of significant bits. */
  function BitLen(a: nat): nat {
    if a == 0 then 0 else 1 + BitLen(a / 2)
  }

  lemma {:induction false} ShrOr(a: nat, b: nat, n: nat)
    ensures Shr(Or(a, b), n) == Or(Shr(a, n), Shr(b, n))
    decreases n
  {
    if n > 0 {
      assert Or(a, b) / 2 == Or(a / 2, b / 2);
      ShrOr(a / 2, b / 2, n - 1);
    }
  }

  lemma OrLowBit(x: nat, y: nat)
    ensures Or(x, y) % 2 == 1 <==> x % 2 == 1 || y % 2 == 1
  {}

  /** `Or` is the bitwise disjunction. */
  lemma OrBits(a: nat, b: nat, i: nat)
    ensures Bit(Or(a, b), i) <==> Bit(a, i) || Bit(b, i)
  {
    hide Or, Shr;
    ShrOr(a, b, i);
    OrLowBit(Shr(a, i), Shr(b, i));
  }

  lemma {:induction false} ShrShr(a: nat, m: nat, n: nat)
    ensures Shr(Shr(a, m), n) == Shr(a, m + n)
    decreases m
  {
    if m > 0 {
      ShrShr(a / 2, m - 1, n);
    }
  }

  lemma {:induction false} Pow2Add(m: nat, n: nat)
    ensures Pow2(m + n) == Pow2(m) * Pow2(n)
    decreases m
  {
    if m > 0 {
      Pow2Add(m - 1, n);
      assert Pow2(m - 1 + n) == Pow2(m - 1) * Pow2(n);
      assert Pow2(m + n) == 2 * Pow2(m - 1 + n);
    }
  }

  lemma {:induction false} Pow2Mono(m: nat, n: nat)
    requires m < n
    ensures 2 * Pow2(m) <= Pow2(n)
    decreases n
  {
    if m + 1 < n {
      Pow2Mono(m, n - 1);
    }
  }

  lemma Pow2Values()
    ensures Pow2(3) == 8 && Pow2(4) == 16 && Pow2(5) == 32 && Pow2(6) == 64 && Pow2(7) == 128
    ensures Pow2(8) == 256 && Pow2(9) == 512 && Pow2(10) == 1024 && Pow2(11) == 2048
    ensures Pow2(12) == 4096 && Pow2(13) == 8192 && Pow2(14) == 16384 && Pow2(15) == 32768
    ensures Pow2(16) == 65536 && Pow2(63) == HALF && Pow2(64) == WORD
  {
    assert Pow2(5) == 32;
    assert Pow2(10) == 1024 by { Pow2Add(5, 5); }
    assert Pow2(15) == 32768 by { Pow2Add(10, 5); }
    assert Pow2(16) == 65536;
    assert Pow2(32) == 0x1_0000_0000 by { Pow2Add(16, 16); }
    assert Pow2(64) == WORD by { Pow2Add(32, 32); }
  }

  /** Shifting n bits out leaves nothing exactly when the value fits in n bits. */
  lemma {:induction false} ShrZero(a: nat, n: nat)
    ensures Shr(a, n) == 0 <==> a < Pow2(n)
    decreases n
  {
    if n > 0 {
      ShrZero(a / 2, n - 1);
    }
  }

  lemma {:induction false} ShrOnes(s: nat, t: nat)
    requires t <= s
    ensures Shr(Pow2(s) - 1, t) == Pow2(s - t) - 1
    decreases t
  {
    if t > 0 {
      assert (Pow2(s) - 1) / 2 == Pow2(s - 1) - 1;
      ShrOnes(s - 1, t - 1);
    }
  }

  /** or-ing with s ones sets the low s bits and keeps the rest. */
  lemma {:induction false} OrFill(y: nat, s: nat)
    ensures Or(y, Pow2(s) - 1) == Shr(y, s) * Pow2(s) + Pow2(s) - 1
    decreases s
  {
    hide *;
    if s == 0 {
      OrNone(y);
    } else {
      OrFill(y / 2, s - 1);
      Unfold(y, s);
      OrOdd(y, Pow2(s - 1));
      Doubled(Shr(y, s), Pow2(s - 1), Pow2(s), Or(y / 2, Pow2(s - 1) - 1));
    }
  }

  lemma OrNone(y: nat)
    ensures Or(y, Pow2(0) - 1) == Shr(y, 0) * Pow2(0) + Pow2(0) - 1
  {}

  lemma Unfold(y: nat, s: nat)
    requires s > 0
    ensures Pow2(s) == 2 * Pow2(s - 1) && Shr(y, s) == Shr(y / 2, s - 1)
  {}

  lemma OrOdd(y: nat, p: nat)
    requires p >= 1
    ensures Or(y, 2 * p - 1) == 1 + 2 * Or(y / 2, p - 1)
  {
    assert (2 * p - 1) / 2 == p - 1 && (2 * p - 1) % 2 == 1;
  }

  lemma Doubled(z: nat, p: nat, q: nat, o: nat)
    requires q == 2 * p && o == z * p + p - 1
    ensures 1 + 2 * o == z * q + q - 1
  {
    assert z * q == 2 * (z * p);
  }

  lemma {:induction false} BitLenBounds(a: nat)
    requires a > 0
    ensures BitLen(a) >= 1 && Pow2(BitLen(a) - 1) <= a < Pow2(BitLen(a))
    ensures Shr(a, BitLen(a) - 1) == 1
  {
    if a > 1 {
      BitLenBounds(a / 2);
    }
  }

  /** 32-bit counters wrap. */
  function Wrap(x: nat): nat {
    if x < UINT then x else Wrap(x - UINT)
  }

  function Inc(x: nat): nat { if x + 1 == UINT then 0 else x + 1 }

  function Dec(x: nat): nat { if x == 0 then UINT - 1 else x - 1 }

  lemma {:induction false} WrapIsMod(x: nat)
    ensures Wrap(x) == x % UINT
  {
    if x >= UINT {
      WrapIsMod(x - UINT);
    }
  }

  lemma {:induction false} IncWrap(x: nat)
    ensures Wrap(x) < UINT && Inc(Wrap(x)) == Wrap(x + 1)
  {
    if x >= UINT {
      IncWrap(x - UINT);
    }
  }

  /** Wrapping counters of a allocations and d deallocations. */
  predicate Tally(a: nat, d: nat, inUse: nat, allocations: nat, deallocations: nat) {
    d <= a && inUse == Wrap(a - d) && allocations == Wrap(a) && deallocations == Wrap(d)
  }

  lemma TallyUp(a: nat, d: nat, u: nat, x: nat, y: nat)
    requires Tally(a, d, u, x, y)
    ensures Tally(a + 1, d, Inc(u), Inc(x), y)
  {
    IncWrap(a);
    IncWrap(a - d);
  }

  lemma TallyDown(a: nat, d: nat, u: nat, x: nat, y: nat)
    requires Tally(a, d, u, x, y) && d < a
    ensures Tally(a, d + 1, Dec(u), x, Inc(y))
  {
    IncWrap(d);
    IncWrap(a - d - 1);
  }
}
