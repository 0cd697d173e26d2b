/** Machine integers of the target (a 32-bit ARM under GCC), stated over Dafny's unbounded int.
    Narrowing to int16_t keeps the low 16 bits (two's complement), uint32_t arithmetic wraps modulo
    2^32, and C's `/` on int truncates toward zero. */
module FixedPoint {

  const Pow16: int := 65536
  const Pow32: int := 4294967296

  predicate IsInt16(x: int) { -32768 <= x < 32768 }
  predicate IsInt32(x: int) { -2147483648 <= x < 2147483648 }
  predicate IsUint32(x: int) { 0 <= x < Pow32 }

  function Abs(x: int): int { if x < 0 then -x else x }
  function Min(a: int, b: int): int { if a <= b then a else b }
  function Max(a: int, b: int): int { if a <= b then b else a }

  /** Assignment of an int to an int16_t field: the low 16 bits, read as a signed value. */
  function Wrap16(x: int): (r: int)
    ensures IsInt16(r)
    ensures (x - r) % Pow16 == 0
    ensures IsInt16(x) ==> r == x
  {
    var m := x % Pow16;
    if m < 32768 then m else m - Pow16
  }

  /** Conversion to uint32_t: reduction modulo 2^32 (also what `+=` on a uint32_t does). */
  function U32(x: int): (r: int)
    ensures IsUint32(r)
    ensures (x - r) % Pow32 == 0
    ensures IsUint32(x) ==> r == x
  {
    x % Pow32
  }

  /** `ms - last_ms` in `unsigned long`: the milliseconds since `last_ms`, also across the
      wrap-around of the millisecond counter. */
  function Elapsed(lastMs: int, ms: int): (d: int)
    requires IsUint32(lastMs) && IsUint32(ms)
    ensures IsUint32(d)
    ensures lastMs <= ms ==> d == ms - lastMs
    ensures ms < lastMs ==> d == ms + Pow32 - lastMs
  {
    U32(ms - lastMs)
  }

  /** C's integer `/` for a positive divisor: rounds toward zero, so the magnitude of the quotient
      is the floor of the magnitude ratio and its sign is the dividend's. */
  function CQuot(a: int, b: int): (q: int)
    requires b > 0
    ensures Abs(q) == Abs(a) / b
    ensures a >= 0 ==> q >= 0
    ensures a <= 0 ==> q <= 0
  {
    if a >= 0 then DivNonNegative(a, b); a / b
    else DivNonNegative(-a, b); -((-a) / b)
  }

  /** Dividing a non-negative number by a positive one gives a non-negative quotient. */
  lemma DivNonNegative(x: int, b: int)
    requires x >= 0 && b > 0
    ensures x / b >= 0
  {
  }

  /** C's integer `%` for a positive divisor: takes the sign of the dividend. */
  function CRem(a: int, b: int): (r: int)
    requires b > 0
    ensures a >= 0 ==> r == a % b
    ensures a < 0 ==> -b < r <= 0
  {
    if a >= 0 then a % b else -((-a) % b)
  }

  /** Conversion of a floating-point value to an integer type: truncation toward zero. */
  function TruncReal(x: real): (r: int)
    ensures x >= 0.0 ==> r >= 0 && r as real <= x < r as real + 1.0
    ensures x < 0.0 ==> r <= 0 && r as real - 1.0 < x <= r as real
  {
    if x >= 0.0 then x.Floor else -((-x).Floor)
  }

  /** `sample * (num / den)` computed in floating point and truncated, for a dyadic `num / den`
      (den a power of two) where the product is exact. */
  function Scale(sample: int, num: int, den: int): (r: int)
    requires den > 0
    ensures 0 <= num <= den ==> Abs(r) <= Abs(sample)
    ensures num == 0 ==> r == 0
    ensures num == den ==> r == sample
  {
    ScaleBound(sample, num, den);
    CQuot(sample * num, den)
  }

  lemma ScaleBound(sample: int, num: int, den: int)
    requires den > 0
    ensures 0 <= num <= den ==> Abs(CQuot(sample * num, den)) <= Abs(sample)
    ensures num == den ==> CQuot(sample * num, den) == sample
  {
    if 0 <= num <= den {
      AbsMul(sample, num);
      MulMonotone(Abs(sample), num, den);
      DivMonotone(Abs(sample) * num, Abs(sample) * den, den);
      MulDivCancel(Abs(sample), den);
    }
  }

  lemma AbsMul(sample: int, k: int)
    requires k >= 0
    ensures Abs(sample * k) == Abs(sample) * k
  {
    if sample < 0 { assert sample * k == -((-sample) * k); }
  }

  lemma MulMonotone(a: int, b: int, c: int)
    requires a >= 0 && b <= c
    ensures a * b <= a * c
  {
    assert a * c - a * b == a * (c - b);
  }

  /** Scaling by a larger fraction never gives a smaller magnitude: the fade envelope is monotone. */
  lemma ScaleMonotone(sample: int, a: int, b: int, den: int)
    requires den > 0 && 0 <= a <= b
    ensures Abs(Scale(sample, a, den)) <= Abs(Scale(sample, b, den))
  {
    AbsMul(sample, a);
    AbsMul(sample, b);
    MulMonotone(Abs(sample), a, b);
    DivMonotone(Abs(sample * a), Abs(sample * b), den);
  }

  lemma MulDivCancel(y: int, b: int)
    requires y >= 0 && b > 0
    ensures (y * b) / b == y
  {
    var q, r := (y * b) / b, (y * b) % b;
    assert b * q + r == y * b;
    assert b * (y - q) == r by { assert b * (y - q) == b * y - b * q; }
    if y - q >= 1 { MulMonotone(b, 1, y - q); }
    if y - q <= -1 { MulMonotone(b, y - q, -1); }
  }

  lemma DivMonotone(x: int, y: int, d: int)
    requires 0 <= x <= y && d > 0
    ensures x / d <= y / d
  {
    if x / d > y / d {
      MulMonotone(d, y / d + 1, x / d);
      assert false;
    }
  }

  lemma ModSucc(a: int, m: int)
    requires a >= 0 && m >= 1
    ensures (a % m + 1) % m == (a + 1) % m
  {
    var q, r := a / m, a % m;
    assert a == m * q + r;
    if r + 1 < m {
      assert (a + 1) == m * q + (r + 1);
      DivModUnique(a + 1, m, q, r + 1);
    } else {
      assert (a + 1) == m * (q + 1);
      DivModUnique(a + 1, m, q + 1, 0);
    }
  }

  lemma DivModUnique(a: int, m: int, q: int, r: int)
    requires m >= 1 && 0 <= r < m && a == m * q + r
    ensures a % m == r
  {
    var q', r' := a / m, a % m;
    assert m * (q - q') == r' - r by { assert m * q' + r' == a; }
    if q - q' >= 1 { MulMonotone(m, 1, q - q'); }
    if q - q' <= -1 { MulMonotone(m, q - q', -1); }
  }

  /** Residues of two numbers less than `m` apart differ. */
  lemma ModDistinct(a: int, b: int, m: int)
    requires 0 <= a < b < a + m
    ensures a % m != b % m
  {
    if a % m == b % m {
      assert b - a == m * (b / m - a / m);
      if b / m - a / m >= 1 { MulMonotone(m, 1, b / m - a / m); }
      if b / m - a / m <= 0 { MulMonotone(m, b / m - a / m, 0); }
    }
  }
}
