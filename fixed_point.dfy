/** The signed 64.64 fixed-point type `I64F64` of the `fixed` crate, restricted
    to the non-negative values the AMM formulas produce.  A value is stored as
    its raw bit pattern `raw`, meaning `raw / 2^64`; the type can hold raw
    patterns below 2^127, i.e. integer parts below 2^63.  Multiplication and
    division truncate, which for non-negative operands is rounding down; the
    square root is taken to round down as well. */
module FixedPoint {
  import opened Types

  /** 2^64: the raw pattern of the value 1. */
  const ONE: nat := 0x1_0000_0000_0000_0000

  /** 2^63: integer parts must stay below this. */
  const INT_LIMIT: nat := 0x8000_0000_0000_0000

  /** 2^127: raw patterns must stay below this. */
  const RAW_LIMIT: nat := 0x8000_0000_0000_0000_0000_0000_0000_0000

  datatype Fixed = Fixed(raw: nat)

  /* ---------------- integer square root ---------------- */

  /** The integer square root, digit by digit: the root of `n` is twice the
      root of `n / 4`, or one more. */
  function Isqrt(n: nat): (r: nat)
    ensures r * r <= n < (r + 1) * (r + 1)
    decreases n
  {
    if n == 0 then 0
    else
      var s := Isqrt(n / 4);
      IsqrtStep(n, s);
      if (2 * s + 1) * (2 * s + 1) <= n then 2 * s + 1 else 2 * s
  }

  lemma IsqrtStep(n: nat, s: nat)
    requires s * s <= n / 4 < (s + 1) * (s + 1)
    ensures (2 * s) * (2 * s) <= n < (2 * s + 2) * (2 * s + 2)
  {
    var q := n / 4;
    assert n == 4 * q + n % 4;
    assert (2 * s) * (2 * s) == 4 * (s * s);
    assert (2 * s + 2) * (2 * s + 2) == 4 * ((s + 1) * (s + 1));
    assert q + 1 <= (s + 1) * (s + 1);
  }

  lemma SquareMonotone(x: nat, y: nat)
    requires x <= y
    ensures x * x <= y * y
  {
    assert x * x <= x * y by { MulLeft(x, x, y); }
    assert x * y <= y * y by { MulLeft(y, x, y); }
  }

  lemma MulLeft(k: nat, x: nat, y: nat)
    requires x <= y
    ensures k * x <= k * y
  {
    assert k * y == k * x + k * (y - x);
  }

  /** The square root is unique: any `r` bracketing `n` is `Isqrt(n)`. */
  lemma {:induction false} IsqrtUnique(n: nat, r: nat)
    requires r * r <= n < (r + 1) * (r + 1)
    ensures Isqrt(n) == r
  {
    var s := Isqrt(n);
    if s < r {
      SquareMonotone(s + 1, r);
    } else if s > r {
      SquareMonotone(r + 1, s);
    }
  }

  /** Scaling by a square commutes with the root: `isqrt(n f^2) / f == isqrt(n)`. */
  lemma IsqrtScaled(n: nat, f: nat)
    requires f > 0
    ensures Isqrt(n * f * f) / f == Isqrt(n)
  {
    var s := Isqrt(n);
    ScaledBracket(n, f, s);
    RootBracket(n * f * f, Isqrt(n * f * f), s * f, (s + 1) * f);
    DivBracket(Isqrt(n * f * f), f, s);
  }

  lemma ScaledBracket(n: nat, f: nat, s: nat)
    requires f > 0
    requires s * s <= n < (s + 1) * (s + 1)
    ensures (s * f) * (s * f) <= n * f * f < ((s + 1) * f) * ((s + 1) * f)
  {
    ScaledLower(n, f, s);
    ScaledUpper(n, f, s + 1);
  }

  lemma ScaledLower(n: nat, f: nat, s: nat)
    requires s * s <= n
    ensures (s * f) * (s * f) <= n * f * f
  {
    SquareTimes(s, f);
    MulRight(s * s, n, f * f);
    Assoc(n, f, f);
  }

  lemma ScaledUpper(n: nat, f: nat, t: nat)
    requires f > 0 && n < t * t
    ensures n * f * f < (t * f) * (t * f)
  {
    SquareTimes(t, f);
    MulLeftStrict(f * f, n, t * t);
    Assoc(n, f, f);
  }

  lemma Assoc(x: nat, y: nat, z: nat)
    ensures x * y * z == x * (y * z)
  {
  }

  /** A root of `m` lies between any `lo` whose square is at most `m` and
      any `hi` whose square exceeds `m`. */
  lemma RootBracket(m: nat, t: nat, lo: nat, hi: nat)
    requires t * t <= m < (t + 1) * (t + 1)
    requires lo * lo <= m < hi * hi
    ensures lo <= t < hi
  {
    if t < lo {
      SquareMonotone(t + 1, lo);
    }
    if t >= hi {
      SquareMonotone(hi, t);
    }
  }

  lemma SquareTimes(s: nat, f: nat)
    ensures (s * f) * (s * f) == (s * s) * (f * f)
  {
  }

  lemma MulLeftStrict(k: nat, x: nat, y: nat)
    requires k > 0 && x < y
    ensures x * k < y * k
  {
    assert y * k == x * k + (y - x) * k;
  }

  lemma MulRight(x: nat, y: nat, k: nat)
    requires x <= y
    ensures x * k <= y * k
  {
    assert y * k == x * k + (y - x) * k;
  }

  /* ---------------- division facts ---------------- */

  /** The quotient `n / d` brackets `n` between two multiples of `d`. */
  lemma FloorBracket(n: nat, d: nat, q: nat)
    requires d > 0 && q == n / d
    ensures q * d <= n < (q + 1) * d
  {
    assert n == q * d + n % d;
  }

  /** `t / f == s` exactly when `s f <= t < (s + 1) f`. */
  lemma DivBracket(t: nat, f: nat, s: nat)
    requires f > 0
    requires s * f <= t < (s + 1) * f
    ensures t / f == s
  {
    var q, r := t / f, t % f;
    assert t == q * f + r;
    if q < s {
      MulRight(q + 1, s, f);
    } else if q > s {
      MulRight(s + 1, q, f);
    }
  }

  /** Cancelling a common factor: `(x f) / (m f) == x / m`. */
  lemma DivCancel(x: nat, m: nat, f: nat)
    requires m > 0 && f > 0
    ensures (x * f) / (m * f) == x / m
  {
    var q, r := x / m, x % m;
    assert x == q * m + r;
    assert x * f == q * (m * f) + r * f;
    MulLeftStrict(f, r, m);
    assert q * (m * f) <= x * f < (q + 1) * (m * f);
    DivBracket(x * f, m * f, q);
  }

  /** Dividing twice is dividing by the product. */
  lemma DivDiv(y: nat, a: nat, b: nat)
    requires a > 0 && b > 0
    ensures (y / a) / b == y / (a * b)
  {
    var q1, r1 := y / a, y % a;
    var q2, r2 := q1 / b, q1 % b;
    assert y == q1 * a + r1;
    assert q1 == q2 * b + r2;
    SplitProduct(q2, b, r2, a);
    RemainderBound(r2, r1, a, b);
    SplitProduct(q2, b, b, a);
    DivBracket(y, a * b, q2);
  }

  lemma SplitProduct(q: nat, b: nat, r: nat, a: nat)
    ensures (q * b + r) * a == q * (a * b) + r * a
  {
  }

  lemma RemainderBound(r2: nat, r1: nat, a: nat, b: nat)
    requires r2 < b && r1 < a
    ensures r2 * a + r1 < (b - 1) * a + a == a * b
  {
    MulRight(r2, b - 1, a);
  }

  lemma DivAtMost(x: nat, d: nat)
    requires d > 0
    ensures x / d <= x
  {
    assert x == (x / d) * d + x % d;
    MulLeft(x / d, 1, d);
  }

  /** `(k f) / f == k`. */
  lemma MulDiv(k: nat, f: nat)
    requires f > 0
    ensures (k * f) / f == k
  {
    DivBracket(k * f, f, k);
  }

  /* ---------------- the operations of I64F64 ---------------- */

  /** `I64F64::from_num` of an unsigned integer; panics (here: nothing) when
      `n` does not fit in the integer part. */
  function FromNum(n: nat): (r: Option<Fixed>)
    ensures r.Some? <==> n < INT_LIMIT
    ensures r.Some? ==> ToNum(r.value) == n
  {
    if n < INT_LIMIT then MulDiv(n, ONE); Some(Fixed(n * ONE)) else None
  }

  /** `checked_mul`: the truncated product, or nothing on overflow. */
  function CheckedMul(x: Fixed, y: Fixed): Option<Fixed> {
    var p := x.raw * y.raw / ONE;
    if p < RAW_LIMIT then Some(Fixed(p)) else None
  }

  /** `checked_div`: the truncated quotient, or nothing when dividing by zero
      or on overflow. */
  function CheckedDiv(x: Fixed, y: Fixed): Option<Fixed> {
    if y.raw == 0 then None
    else
      var q := x.raw * ONE / y.raw;
      if q < RAW_LIMIT then Some(Fixed(q)) else None
  }

  /** `checked_add`: the sum, or nothing on overflow. */
  function CheckedAdd(x: Fixed, y: Fixed): Option<Fixed> {
    if x.raw + y.raw < RAW_LIMIT then Some(Fixed(x.raw + y.raw)) else None
  }

  /** `sqrt`, rounded down: the root of `raw / 2^64` has raw pattern
      `isqrt(raw * 2^64)`. */
  function Sqrt(x: Fixed): Fixed {
    Fixed(Isqrt(x.raw * ONE))
  }

  /** `floor`: drops the fractional bits. */
  function Floor(x: Fixed): (r: Fixed)
    ensures ToNum(r) == ToNum(x)
  {
    MulDiv(x.raw / ONE, ONE);
    Fixed(x.raw / ONE * ONE)
  }

  /** `to_num::<u64>()`: the integer part (the fraction is discarded). */
  function ToNum(x: Fixed): nat {
    x.raw / ONE
  }

  /* ---------------- exactness on whole numbers ---------------- */

  /** Multiplying two whole numbers is exact, and fails exactly when the
      product leaves the integer range. */
  lemma MulWhole(a: nat, b: nat)
    ensures CheckedMul(Fixed(a * ONE), Fixed(b * ONE))
         == if a * b < INT_LIMIT then Some(Fixed(a * b * ONE)) else None
  {
    assert a * ONE * (b * ONE) == (a * b * ONE) * ONE;
    MulDiv(a * b * ONE, ONE);
    assert a * b * ONE == (a * b) * ONE;
    if a * b < INT_LIMIT {
      MulLeftStrict(ONE, a * b, INT_LIMIT);
    } else {
      MulRight(INT_LIMIT, a * b, ONE);
    }
  }

  /** Adding two whole numbers is exact. */
  lemma AddWhole(a: nat, b: nat)
    ensures CheckedAdd(Fixed(a * ONE), Fixed(b * ONE))
         == if a + b < INT_LIMIT then Some(Fixed((a + b) * ONE)) else None
  {
    assert a * ONE + b * ONE == (a + b) * ONE;
    if a + b < INT_LIMIT {
      MulLeftStrict(ONE, a + b, INT_LIMIT);
    } else {
      MulRight(INT_LIMIT, a + b, ONE);
    }
  }

  /** Dividing any value by a positive whole number `m` divides its raw
      pattern by `m`, and cannot overflow. */
  lemma DivByWhole(x: Fixed, m: nat)
    requires m > 0 && x.raw < RAW_LIMIT
    ensures CheckedDiv(x, Fixed(m * ONE)) == Some(Fixed(x.raw / m))
  {
    assert x.raw * ONE == x.raw * ONE;
    assert m * ONE == m * ONE;
    DivCancel(x.raw, m, ONE);
    DivAtMost(x.raw, m);
  }

  /** The square root of a whole number, taken to the integer part, is the
      integer square root. */
  lemma SqrtWhole(n: nat)
    ensures ToNum(Sqrt(Fixed(n * ONE))) == Isqrt(n)
  {
    assert n * ONE * ONE == n * ONE * ONE;
    IsqrtScaled(n, ONE);
  }

  /** A whole number below 2^63 has a raw pattern below 2^127. */
  lemma WholeInRange(n: nat)
    requires n < INT_LIMIT
    ensures n * ONE < RAW_LIMIT
  {
    MulLeftStrict(ONE, n, INT_LIMIT);
  }

  /** Dividing a whole number by a positive whole number, then taking the
      integer part, is integer division. */
  lemma DivWhole(x: nat, m: nat)
    requires m > 0 && x < INT_LIMIT
    ensures CheckedDiv(Fixed(x * ONE), Fixed(m * ONE)) == Some(Fixed(x * ONE / m))
    ensures ToNum(Fixed(x * ONE / m)) == x / m
  {
    WholeInRange(x);
    DivByWhole(Fixed(x * ONE), m);
    DivDiv(x * ONE, m, ONE);
    DivCancel(x, m, ONE);
    assert m * ONE == m * ONE;
  }

  /** The integer square root never exceeds its argument. */
  lemma IsqrtAtMost(n: nat)
    ensures Isqrt(n) <= n
  {
    var r := Isqrt(n);
    if r > 0 {
      MulLeft(r, 1, r);
    }
  }
}
