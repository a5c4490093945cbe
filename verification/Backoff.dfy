/** Exponential backoff in double precision, compared with the integer formula it stands for. */
module Backoff {
  import opened Domain

  const MANTISSA: nat := 0x20_0000_0000_0000             // 2^53
  const INT64: int := 0x8000_0000_0000_0000             // 2^63
  const SECOND: nat := 1_000_000_000

  /** The smallest delays there are; convenient for concrete runs. */
  const UNIT := Delays(1, 1)

  /** Delays of the calculator after NewExponentialBackoff has replaced the non-positive ones. */
  datatype Delays = Delays(base: int, max: int) {
    ghost predicate Valid() {
      0 < base < INT64 && 0 < max < INT64
    }
  }

  function NewExponentialBackoff(base: Duration, max: Duration): (d: Delays)
    requires base < INT64 && max < INT64
    ensures d.Valid()
    ensures d.base == (if base > 0 then base else 2 * SECOND) && d.max == (if max > 0 then max else 30 * SECOND)
  {
    Delays(if base <= 0 then 2 * SECOND else base, if max <= 0 then 30 * SECOND else max)
  }

  function Pow2(n: nat): (p: nat)
    ensures p >= 1
  {
    if n == 0 then 1 else 2 * Pow2(n - 1)
  }

  /** Number of low bits a double drops from x: the least e with x / 2^e below 2^53. */
  function DroppedBits(x: nat): nat {
    if x < MANTISSA then 0 else 1 + DroppedBits(x / 2)
  }

  /** x rounded to 53 significant bits, to nearest, ties to even: conversion of an integer to float64. */
  function RoundToDouble(x: nat): nat {
    var unit := Pow2(DroppedBits(x));
    var q, r := x / unit, x % unit;
    if 2 * r < unit || (2 * r == unit && q % 2 == 0) then q * unit else (q + 1) * unit
  }

  /** Product of two doubles. */
  function FloatMul(a: nat, b: nat): nat {
    RoundToDouble(a * b)
  }

  /**
    Delay before the retry numbered `retries`. Go leaves the conversion of a float outside the int64
    range to the implementation: `outOfRange` is the value the machine then produces.
    */
  function Calculate(d: Delays, retries: int, outOfRange: int): Duration
    requires d.Valid()
  {
    if retries <= 0 then 0
    else
      var product := FloatMul(RoundToDouble(d.base), Pow2(retries - 1));
      var delay := if product < INT64 then product else outOfRange;
      if delay > d.max then d.max else delay
  }

  /** What the documentation promises: base * 2^(n-1), capped. */
  function IntegerDelay(d: Delays, retries: int): int
    requires d.Valid()
  {
    if retries <= 0 then 0
    else if d.base * Pow2(retries - 1) > d.max then d.max
    else d.base * Pow2(retries - 1)
  }

  // ---- rounding ----

  lemma {:induction false} DoubledQuotient(x: nat, unit: nat)
    requires unit > 0
    ensures (2 * x) / (2 * unit) == x / unit
    ensures (2 * x) % (2 * unit) == 2 * (x % unit)
  {
    var q, r := x / unit, x % unit;
    assert 2 * x == q * (2 * unit) + 2 * r;
    QuotientUnique(2 * x, 2 * unit, q, 2 * r);
  }

  lemma {:induction false} QuotientUnique(x: nat, d: nat, q: nat, r: nat)
    requires 0 <= r < d && x == q * d + r
    ensures x / d == q && x % d == r
  {
    var q', r' := x / d, x % d;
    assert q' * d + r' == q * d + r;
    assert q' < q ==> (q' + 1) * d <= q * d;
    assert q < q' ==> (q + 1) * d <= q' * d;
  }

  /** Doubling commutes with rounding: only the exponent of the double changes. */
  lemma {:induction false} RoundDoubles(x: nat)
    ensures RoundToDouble(2 * x) == 2 * RoundToDouble(x)
  {
    if 2 * x < MANTISSA {
      assert RoundToDouble(2 * x) == 2 * x;
    } else if x < MANTISSA {
      assert (2 * x) / 2 == x;
      assert DroppedBits(2 * x) == 1;
      assert Pow2(1) == 2;
      assert (2 * x) % 2 == 0;
    } else {
      assert (2 * x) / 2 == x;
      var unit := Pow2(DroppedBits(x));
      assert Pow2(DroppedBits(2 * x)) == 2 * unit;
      DoubledQuotient(x, unit);
      var q := x / unit;
      assert (q * (2 * unit)) == 2 * (q * unit);
      assert ((q + 1) * (2 * unit)) == 2 * ((q + 1) * unit);
    }
  }

  lemma {:induction false} RoundScales(x: nat, n: nat)
    ensures RoundToDouble(x * Pow2(n)) == RoundToDouble(x) * Pow2(n)
  {
    if n > 0 {
      RoundScales(x, n - 1);
      var y := x * Pow2(n - 1);
      assert x * Pow2(n) == 2 * y;
      RoundDoubles(y);
      assert 2 * (RoundToDouble(x) * Pow2(n - 1)) == RoundToDouble(x) * Pow2(n);
    }
  }

  lemma {:induction false} SmallIsExact(x: nat)
    requires x <= MANTISSA
    ensures RoundToDouble(x) == x
  {
    if x == MANTISSA {
      assert DroppedBits(x / 2) == 0;
      assert DroppedBits(x) == 1 && Pow2(1) == 2;
    }
  }

  lemma {:induction false} RoundIdempotent(x: nat)
    ensures RoundToDouble(RoundToDouble(x)) == RoundToDouble(x)
  {
    var e := DroppedBits(x);
    var unit := Pow2(e);
    QuotientFits(x);
    var q := x / unit;
    var m := if RoundToDouble(x) == q * unit then q else q + 1;
    RoundScales(m, e);
    SmallIsExact(m);
  }

  lemma {:induction false} QuotientFits(x: nat)
    ensures x / Pow2(DroppedBits(x)) < MANTISSA
  {
    if x >= MANTISSA {
      QuotientFits(x / 2);
      var u := Pow2(DroppedBits(x / 2));
      HalvedQuotient(x, u);
    }
  }

  lemma {:induction false} HalvedQuotient(x: nat, u: nat)
    requires u > 0
    ensures x / (2 * u) == (x / 2) / u
  {
    var h := x / 2;
    var q, r := h / u, h % u;
    var b := x % 2;
    assert x == q * (2 * u) + (2 * r + b);
    QuotientUnique(x, 2 * u, q, 2 * r + b);
  }

  // ---- the calculator ----

  /** In every in-range case the result is the capped integer formula over the rounded base. */
  lemma {:induction false} FloatIsRoundedInteger(d: Delays, n: int, outOfRange: int)
    requires d.Valid() && n >= 1
    requires RoundToDouble(d.base) * Pow2(n - 1) < INT64
    ensures Calculate(d, n, outOfRange) ==
            var exact := RoundToDouble(d.base) * Pow2(n - 1);
            if exact > d.max then d.max else exact
  {
    RoundScales(RoundToDouble(d.base), n - 1);
    RoundIdempotent(d.base);
  }

  /** Bases up to 2^53 ns (104 days) lose nothing: the double computation is the integer one. */
  lemma {:induction false} FloatBackoffIsExact(d: Delays, n: int, outOfRange: int)
    requires d.Valid()
    requires n >= 1 ==> d.base <= MANTISSA && d.base * Pow2(n - 1) < INT64
    ensures Calculate(d, n, outOfRange) == IntegerDelay(d, n)
  {
    if n >= 1 {
      SmallIsExact(d.base);
      FloatIsRoundedInteger(d, n, outOfRange);
    }
  }

  lemma {:induction false} Pow2Monotone(m: nat, n: nat)
    requires m <= n
    ensures Pow2(m) <= Pow2(n)
  {
    if m < n {
      Pow2Monotone(m, n - 1);
    }
  }

  lemma {:induction false} ScaledMonotone(base: nat, m: nat, n: nat)
    requires m <= n
    ensures base * Pow2(m) <= base * Pow2(n)
  {
    Pow2Monotone(m, n);
  }

  /** The product the calculator forms for the n-th retry. */
  function Product(d: Delays, n: int): nat
    requires d.Valid() && n >= 1
  {
    RoundToDouble(d.base) * Pow2(n - 1)
  }

  /** It fits into an int64, so that its conversion is not left to the machine. */
  predicate Fits(d: Delays, n: int)
    requires d.Valid()
  {
    n <= 0 || Product(d, n) < INT64
  }

  lemma {:induction false} CalculatedFromProduct(d: Delays, n: int, outOfRange: int)
    requires d.Valid() && n >= 1
    ensures Calculate(d, n, outOfRange) ==
            var delay := if Product(d, n) < INT64 then Product(d, n) else outOfRange;
            if delay > d.max then d.max else delay
  {
    RoundScales(RoundToDouble(d.base), n - 1);
    RoundIdempotent(d.base);
  }

  lemma {:induction false} ProductGrows(d: Delays, m: int, n: int)
    requires d.Valid() && 1 <= m <= n
    ensures 0 < Product(d, m) <= Product(d, n)
  {
    RoundedIsPositive(d.base);
    ScaledMonotone(RoundToDouble(d.base), 0, m - 1);
    ScaledMonotone(RoundToDouble(d.base), m - 1, n - 1);
  }

  lemma {:induction false} RoundedIsPositive(x: nat)
    requires x > 0
    ensures RoundToDouble(x) > 0
  {
    if x >= MANTISSA {
      RoundedIsPositive(x / 2);
      UnitIsReached(x);
    }
  }

  /** A number of 53 bits or more has at least one whole unit of its last place. */
  lemma {:induction false} UnitIsReached(x: nat)
    requires x > 0
    ensures x / Pow2(DroppedBits(x)) > 0
  {
    if x >= MANTISSA {
      UnitIsReached(x / 2);
      HalvedQuotient(x, Pow2(DroppedBits(x / 2)));
    }
  }

  /**
    For every base: no delay exceeds the cap, and it is negative exactly when the product does not fit and the
    machine converts it to a negative value. As long as no conversion falls below the cap that way, the delays
    never shrink from one retry to a later one.
    */
  lemma {:induction false} BackoffMonotoneAndCapped(d: Delays, m: int, n: int, outM: int, outN: int)
    requires d.Valid() && m <= n
    ensures Calculate(d, n, outN) <= d.max
    ensures Calculate(d, n, outN) < 0 <==> !Fits(d, n) && outN < 0
    ensures (Fits(d, m) || outM >= d.max) && (Fits(d, n) || outN >= d.max) ==>
              0 <= Calculate(d, m, outM) <= Calculate(d, n, outN) && (n >= 1 ==> 0 < Calculate(d, n, outN))
  {
    if n >= 1 {
      CalculatedFromProduct(d, n, outN);
      ProductGrows(d, 1, n);
      if m >= 1 {
        CalculatedFromProduct(d, m, outM);
        ProductGrows(d, m, n);
      }
    }
  }

  /** A product that does not fit gives the cap exactly when the machine converts it to something that large. */
  lemma {:induction false} OutOfRangeIsCappedIff(d: Delays, n: int, outOfRange: int)
    requires d.Valid() && !Fits(d, n)
    ensures Calculate(d, n, outOfRange) == d.max <==> outOfRange >= d.max
    ensures d.base <= MANTISSA ==> IntegerDelay(d, n) == d.max
  {
    CalculatedFromProduct(d, n, outOfRange);
    if d.base <= MANTISSA {
      SmallIsExact(d.base);
    }
  }

  /**
    With the value amd64 produces the formula is met exactly when the product fits and either the base is a double
    or both products reach the cap. Up to 2^53 ns every base is a double.
    */
  lemma {:induction false} FormulaHoldsIffInRange(d: Delays, n: int)
    requires d.Valid()
    ensures Calculate(d, n, -INT64) == IntegerDelay(d, n) <==>
            || n <= 0
            || (&& Product(d, n) < INT64
                && (RoundToDouble(d.base) == d.base || (Product(d, n) >= d.max && d.base * Pow2(n - 1) >= d.max)))
    ensures d.base <= MANTISSA ==>
              (Calculate(d, n, -INT64) == IntegerDelay(d, n) <==> n <= 0 || d.base * Pow2(n - 1) < INT64)
  {
    if n >= 1 {
      CalculatedFromProduct(d, n, -INT64);
      ScaledMonotone(d.base, 0, n - 1);
      SameScale(RoundToDouble(d.base), d.base, Pow2(n - 1));
      if d.base <= MANTISSA {
        SmallIsExact(d.base);
      }
    }
  }

  lemma {:induction false} SameScale(a: nat, b: nat, p: nat)
    requires p > 0
    ensures a * p == b * p <==> a == b
  {
    if a < b {
      assert a * p < (a + 1) * p <= b * p;
    } else if b < a {
      assert b * p < (b + 1) * p <= a * p;
    }
  }

  lemma {:induction false} Pow2Of33()
    ensures Pow2(33) == 0x2_0000_0000
  {
    assert Pow2(8) == 256;
    assert Pow2(16) == 0x1_0000;
    assert Pow2(24) == 0x100_0000;
    assert Pow2(32) == 0x1_0000_0000;
  }

  /** The default delays, 34th retry: a machine that converts to -2^63 retries at once, not after 30 s. */
  lemma {:induction false} DefaultDelayCanTurnNegative()
    ensures var d := NewExponentialBackoff(0, 0);
            Calculate(d, 34, -INT64) == -INT64 && IntegerDelay(d, 34) == 30 * SECOND
  {
    var d := NewExponentialBackoff(0, 0);
    Pow2Of33();
    SmallIsExact(d.base);
    RoundScales(d.base, 33);
  }
}
