/** The BMP280 temperature in hundredths of a degree: the driver's 32-bit fixed-point formula
    against the exact compensation formula of section 3.11.3 of the BMP280 datasheet. */
module Sensor {
  import opened Words

  predicate Int32(x: int) {
    -0x8000_0000 <= x < 0x8000_0000
  }

  /** Registers 0xFA, 0xFB, 0xFC: ((d1 << 16) | (d2 << 8) | d3) >> 4. */
  function RawOf(d1: nat, d2: nat, d3: nat): int {
    Shr(Or(Or(Shl(d1, 16), Shl(d2, 8)), d3), 4)
  }

  /** a << n */
  function Shl(a: nat, n: nat): nat {
    if n == 0 then a else 2 * Shl(a, n - 1)
  }

  lemma ShlValues(a: nat)
    ensures Shl(a, 8) == 256 * a && Shl(a, 16) == 65536 * a
  {
    ShlIsProduct(a, 8);
    ShlIsProduct(a, 16);
    Pow2Values();
  }

  lemma {:induction false} ShlIsProduct(a: nat, n: nat)
    ensures Shl(a, n) == Pow2(n) * a
  {
    if n > 0 {
      ShlIsProduct(a, n - 1);
      assert 2 * (Pow2(n - 1) * a) == (2 * Pow2(n - 1)) * a;
    }
  }

  lemma OrEven(h: nat, b: nat)
    ensures Or(2 * h, b) == 2 * Or(h, b / 2) + b % 2
  {}

  /** Below the bits of a there is room for b. */
  lemma {:induction false} OrAdds(a: nat, b: nat, n: nat)
    requires b < Pow2(n)
    ensures Or(Shl(a, n), b) == Shl(a, n) + b
    decreases n
  {
    if n > 0 {
      OrAdds(a, b / 2, n - 1);
      OrEven(Shl(a, n - 1), b);
    }
  }

  // Right shifts of signed values round down, as `/` by a positive number does.

  function Product1(raw: int, t1: int, t2: int): int { (raw / 8 - 2 * t1) * t2 }

  function Var1(raw: int, t1: int, t2: int): int { Product1(raw, t1, t2) / 2048 }

  function Square(raw: int, t1: int): int { (raw / 16 - t1) * (raw / 16 - t1) }

  function Product2(raw: int, t1: int, t3: int): int { Square(raw, t1) / 4096 * t3 }

  function Var2(raw: int, t1: int, t3: int): int { Product2(raw, t1, t3) / 16384 }

  /** read_temperature */
  function Temperature(raw: int, t1: int, t2: int, t3: int): int {
    ((Var1(raw, t1, t2) + Var2(raw, t1, t3)) * 5 + 128) / 256
  }

  /** A 20-bit reading near the calibration point, and calibration words in range. */
  predicate InRange(raw: int, t1: int, t2: int, t3: int) {
    && Near(raw, t1)
    && 0 <= t2 <= 32767 && 0 <= t3 <= 8191
  }

  lemma Times(a: int, b: int, lo: int, hi: int, max: int)
    requires lo <= a <= hi && lo <= 0 <= hi && 0 <= b <= max
    ensures lo * max <= a * b <= hi * max
  {
    assert lo * max <= lo * b <= a * b <= hi * b <= hi * max;
  }

  /** raw >> 4 is half of raw >> 3. */
  lemma HalfRange(raw: int, t1: int)
    requires 0 <= raw && -65535 <= raw / 8 - 2 * t1 <= 65535
    ensures -32768 <= raw / 16 - t1 <= 32767
    ensures 0 <= Square(raw, t1) <= 0x4000_0000
  {
    var y := raw / 16 - t1;
    assert raw / 8 == 2 * (raw / 16) + raw / 8 % 2;
    if y >= 0 { Times(y, y, 0, 32767, 32767); } else { Times(-y, -y, 0, 32768, 32768); assert y * y == (-y) * (-y); }
  }

  /** No intermediate value leaves the 32-bit range. */
  lemma NoOverflow(raw: int, t1: int, t2: int, t3: int)
    requires InRange(raw, t1, t2, t3)
    ensures Int32(Product1(raw, t1, t2)) && Int32(Square(raw, t1)) && Int32(Product2(raw, t1, t3))
    ensures var v := Var1(raw, t1, t2) + Var2(raw, t1, t3); Int32(v) && Int32(v * 5 + 128)
    ensures Int32(Temperature(raw, t1, t2, t3))
  {
    Times(raw / 8 - 2 * t1, t2, -65535, 65535, 32767);
    HalfRange(raw, t1);
    Times(Square(raw, t1) / 4096, t3, 0, 0x4_0000, 8191);
  }

  /** Readings near the calibration point. */
  predicate Near(raw: int, t1: int) {
    0 <= raw < 0x10_0000 && -65535 <= raw / 8 - 2 * t1 <= 65535
  }

  /** var1's product fits 32 bits for all of them if and only if T2 is at most 32768: the word is
      signed in the datasheet, and a negative one, read without sign, overflows. */
  lemma FirstProductFits(t2: int)
    requires 0 <= t2
    ensures (forall raw, t1 | Near(raw, t1) :: Int32(Product1(raw, t1, t2))) <==> t2 <= 32768
  {
    if t2 <= 32768 {
      forall raw, t1 | Near(raw, t1) ensures Int32(Product1(raw, t1, t2)) {
        Times(raw / 8 - 2 * t1, t2, -65535, 65535, 32768);
      }
    } else {
      assert Near(524280, 0) && Product1(524280, 0, t2) == 65535 * t2;
    }
  }

  /** var2's product fits if and only if T3 is at most 8191. */
  lemma SecondProductFits(t3: int)
    requires 0 <= t3
    ensures (forall raw, t1 | Near(raw, t1) :: Int32(Product2(raw, t1, t3))) <==> t3 <= 8191
  {
    if t3 <= 8191 {
      forall raw, t1 | Near(raw, t1) ensures Int32(Product2(raw, t1, t3)) {
        HalfRange(raw, t1);
        Times(Square(raw, t1) / 4096, t3, 0, 0x4_0000, 8191);
      }
    } else {
      assert Near(8, 32768) && Product2(8, 32768, t3) == 0x4_0000 * t3;
    }
  }

  // ----- accuracy, in units of 2^-34 of the driver's fine temperature

  const UNIT: int := 0x4_0000_0000   // 2^34

  /** Exact var1 and var2, scaled by 2^34. */
  function Exact1(raw: int, t1: int, t2: int): int { (raw - 16 * t1) * t2 * 0x10_0000 }

  function Exact2(raw: int, t1: int, t3: int): int { (raw - 16 * t1) * (raw - 16 * t1) * t3 }

  /** var1 is at most 15 too small. */
  lemma Var1Error(raw: int, t1: int, t2: int)
    requires 0 <= raw && 0 <= t2 <= 32767
    ensures 0 <= Exact1(raw, t1, t2) - UNIT * Var1(raw, t1, t2) <= 15 * UNIT
  {
    var x, r := raw / 8 - 2 * t1, raw % 8;
    var a, v := x * t2, Var1(raw, t1, t2);
    assert raw - 16 * t1 == 8 * x + r;
    assert (8 * x + r) * t2 == 8 * a + r * t2;
    Times(r, t2, 0, 7, 32767);
    assert 2048 * v <= a <= 2048 * v + 2047;
  }

  /** var2 is between 9 too small and 7.5 too large. */
  lemma Var2Error(raw: int, t1: int, t3: int)
    requires 0 <= raw && -65535 <= raw / 8 - 2 * t1 <= 65535 && 0 <= t3 <= 8191
    ensures -128833290240 <= Exact2(raw, t1, t3) - UNIT * Var2(raw, t1, t3) <= 9 * UNIT
  {
    var y, r := raw / 16 - t1, raw % 16;
    HalfRange(raw, t1);
    var sq := y * y;
    var b := sq / 4096;
    var v := Var2(raw, t1, t3);
    assert raw - 16 * t1 == 16 * y + r;
    assert (16 * y + r) * (16 * y + r) == 256 * sq + 32 * (y * r) + r * r;
    Times(y, r, -32768, 32767, 15);
    Times(r, r, 0, 15, 15);
    var e := 32 * (y * r) + r * r;
    var c := sq - 4096 * b;
    assert 0 <= c <= 4095;
    var k := e + 256 * c;
    assert (256 * sq + e) * t3 == 256 * 4096 * (b * t3) + k * t3 by {
      assert 256 * sq + e == 256 * 4096 * b + k;
      Spread(b, k, t3);
    }
    Times(k, t3, -15728640, 16777185, 8191);
    assert 16384 * v <= b * t3 <= 16384 * v + 16383;
  }

  lemma Spread(b: int, k: int, t: int)
    ensures (256 * 4096 * b + k) * t == 256 * 4096 * (b * t) + k * t
  {}

  /** The result is within one unit, 0.01 degree, of the exact temperature. */
  lemma WithinOneUnit(raw: int, t1: int, t2: int, t3: int)
    requires InRange(raw, t1, t2, t3)
    ensures var exact := 5 * (Exact1(raw, t1, t2) + Exact2(raw, t1, t3)); var scale := 256 * UNIT;
            -scale < scale * Temperature(raw, t1, t2, t3) - exact < scale
  {
    Var1Error(raw, t1, t2);
    Var2Error(raw, t1, t3);
    var v, t := Var1(raw, t1, t2) + Var2(raw, t1, t3), Temperature(raw, t1, t2, t3);
    assert 256 * t <= v * 5 + 128 <= 256 * t + 255;
  }

  /** The datasheet's formula, in hundredths of a degree. */
  function Datasheet(raw: int, t1: int, t2: int, t3: int): real {
    var var1 := (raw as real / 16384.0 - t1 as real / 1024.0) * t2 as real;
    var x := raw as real / 131072.0 - t1 as real / 8192.0;
    var var2 := x * x * t3 as real;
    (var1 + var2) / 5120.0 * 100.0
  }

  lemma Scaled(d: real, a: real, b: real)
    ensures (d / 16384.0 * a + d / 131072.0 * (d / 131072.0) * b) * 17179869184.0
            == d * a * 1048576.0 + d * d * b
  {
    var e := d / 131072.0;
    assert d == 131072.0 * e && d / 16384.0 == 8.0 * e;
    assert d * d * b == 17179869184.0 * (e * e * b) by {
      assert d * d == 17179869184.0 * (e * e);
    }
    assert d * a == 131072.0 * (e * a);
  }

  /** The scaled integers are the datasheet's formula. */
  lemma DatasheetScaled(raw: int, t1: int, t2: int, t3: int)
    ensures Datasheet(raw, t1, t2, t3) * (256 * UNIT) as real
            == (5 * (Exact1(raw, t1, t2) + Exact2(raw, t1, t3))) as real
  {
    var k := raw - 16 * t1;
    var d, a, b := k as real, t2 as real, t3 as real;
    assert raw as real / 16384.0 - t1 as real / 1024.0 == d / 16384.0;
    assert raw as real / 131072.0 - t1 as real / 8192.0 == d / 131072.0;
    Scaled(d, a, b);
    assert Exact1(raw, t1, t2) as real == d * a * 1048576.0 by {
      assert (k * t2) as real == d * a;
    }
    assert Exact2(raw, t1, t3) as real == d * d * b by {
      assert (k * k) as real == d * d;
      assert (k * k * t3) as real == (k * k) as real * b;
    }
  }

  /** For every reading in range the driver is within 0.01 degree of the datasheet. */
  lemma Accurate(raw: int, t1: int, t2: int, t3: int)
    requires InRange(raw, t1, t2, t3)
    ensures -1.0 < Temperature(raw, t1, t2, t3) as real - Datasheet(raw, t1, t2, t3) < 1.0
  {
    WithinOneUnit(raw, t1, t2, t3);
    DatasheetScaled(raw, t1, t2, t3);
    hide Temperature, Datasheet, Exact1, Exact2;
    var t, e := Temperature(raw, t1, t2, t3), Datasheet(raw, t1, t2, t3);
    assert (256 * UNIT * t) as real == 4398046511104.0 * t as real;
  }

  /** The bytes do not overlap: they spell a 20-bit number. */
  lemma RawValue(d1: nat, d2: nat, d3: nat)
    requires d1 < 256 && d2 < 256 && d3 < 256
    ensures RawOf(d1, d2, d3) == (d1 * 65536 + d2 * 256 + d3) / 16
    ensures 0 <= RawOf(d1, d2, d3) < 0x10_0000
  {
    Pow2Values();
    hide Or, Pow2, Shl;
    ShlValues(d1);
    ShlValues(d2);
    ShlValues(d1 * 256 + d2);
    OrAdds(d1, d2 * 256, 16);
    OrAdds(d1 * 256 + d2, d3, 8);
    var w := d1 * 65536 + d2 * 256 + d3;
    assert Shr(w, 4) == w / 2 / 2 / 2 / 2;
  }

  /** read_temperature on whatever the registers hold: no overflow, and within 0.01 degree of the
      datasheet for the 20-bit number that they spell. */
  lemma RegistersAccurate(d1: nat, d2: nat, d3: nat, t1: int, t2: int, t3: int)
    requires d1 < 256 && d2 < 256 && d3 < 256
    requires -65535 <= RawOf(d1, d2, d3) / 8 - 2 * t1 <= 65535 && 0 <= t2 <= 32767 && 0 <= t3 <= 8191
    ensures var raw := RawOf(d1, d2, d3);
            && Int32(Product1(raw, t1, t2)) && Int32(Square(raw, t1)) && Int32(Product2(raw, t1, t3))
            && -1.0 < Temperature(raw, t1, t2, t3) as real - Datasheet(raw, t1, t2, t3) < 1.0
  {
    RawValue(d1, d2, d3);
    hide RawOf, Temperature, Datasheet, Product1, Product2, Square;
    var raw := RawOf(d1, d2, d3);
    NoOverflow(raw, t1, t2, t3);
    Accurate(raw, t1, t2, t3);
  }

  // ----- a negative calibration word

  /** Without the sign, a negative T3 makes var2 too large by exactly four times the scaled square. */
  lemma UnsignedVar2(raw: int, t1: int, t3: int)
    ensures Var2(raw, t1, t3 + 65536) == Var2(raw, t1, t3) + 4 * (Square(raw, t1) / 4096)
  {
    var b := Square(raw, t1) / 4096;
    assert b * (t3 + 65536) == b * t3 + 16384 * (4 * b);
  }

  lemma SameQuotient(x: int, e: int)
    requires e >= 0
    ensures (x + e) / 256 == x / 256 <==> x % 256 + e < 256
  {}

  /** T3 is signed in the datasheet and the driver reads it without sign. For a negative T3 it still
      computes what the formula with the sign gives, if and only if the excess does not carry into
      the result. */
  lemma UnsignedT3(raw: int, t1: int, t2: int, t3: int)
    ensures Temperature(raw, t1, t2, t3 + 65536) == Temperature(raw, t1, t2, t3)
            <==> ((Var1(raw, t1, t2) + Var2(raw, t1, t3)) * 5 + 128) % 256 + 20 * (Square(raw, t1) / 4096) < 256
  {
    UnsignedVar2(raw, t1, t3);
    NonNegative(raw / 16 - t1);
    var x, b := (Var1(raw, t1, t2) + Var2(raw, t1, t3)) * 5 + 128, Square(raw, t1) / 4096;
    hide Var1, Var2;
    SameQuotient(x, 20 * b);
  }

  lemma NonNegative(y: int)
    ensures y * y >= 0
  {}

  /** The datasheet's own example, with T3 = -1000: 25.08 degrees, of which the driver makes 29.83. */
  lemma DatasheetExample()
    ensures Temperature(519888, 27504, 26435, -1000) == 2508
    ensures Temperature(519888, 27504, 26435, -1000 + 65536) == 2983
    ensures Int32(Product1(519888, 27504, 26435)) && Int32(Product2(519888, 27504, -1000 + 65536))
  {}
}
