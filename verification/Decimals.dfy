/** Decimal arithmetic as Python's default context performs it: every product or quotient
    is rounded, half to even, to 28 significant digits.

    A non-negative decimal with a fixed number of decimals is its integer coefficient over
    a power of ten, so the rounding is a function on natural numbers. */
module Decimals {
  import opened Arithmetic

  /** A finite decimal: coef / 10^scale. */
  datatype Dec = Dec(coef: int, scale: nat)

  /** What a decimal string parses to. */
  datatype DecimalText = Malformed | Number(value: Dec)

  /** 10^28: the first coefficient with more digits than the context keeps. */
  const LIMIT: nat := 1_0000_0000_0000_0000_0000_0000_0000

  function Pow10(k: nat): (p: nat)
    ensures p >= 1
  {
    if k == 0 then 1 else 10 * Pow10(k - 1)
  }

  /** n with k zeros appended: n * 10^k. */
  function Shift(n: int, k: nat): int {
    if k == 0 then n else 10 * Shift(n, k - 1)
  }

  /** n with its last k digits cut off: the integral part of n / 10^k. */
  function DropDigits(n: nat, k: nat): nat {
    if k == 0 then n else DropDigits(n / 10, k - 1)
  }

  /** How many digits of n do not fit in 28. */
  function Excess(n: nat): nat {
    if n < LIMIT then 0 else 1 + Excess(n / 10)
  }

  /** n rounded half to even at its k-th last digit. */
  function RoundAt(n: nat, k: nat): int {
    var q := DropDigits(n, k);
    var twice := 2 * (n - Shift(q, k));
    if twice < Pow10(k) || (twice == Pow10(k) && q % 2 == 0) then Shift(q, k) else Shift(q + 1, k)
  }

  /** n rounded to 28 significant digits. */
  function RoundSig(n: nat): (r: nat) {
    RoundAtBracket(n, Excess(n));
    ShiftMonotone(0, DropDigits(n, Excess(n)), Excess(n));
    ShiftZero(Excess(n));
    RoundAt(n, Excess(n))
  }

  /** The coefficient of a decimal written with k decimals. */
  function Weight(f: Dec, k: nat): int
    requires f.scale <= k
  {
    Shift(f.coef, k - f.scale)
  }

  // ----- shifting -----

  lemma {:induction false} ShiftIsProduct(n: int, k: nat)
    ensures Shift(n, k) == n * Pow10(k)
  {
    if k > 0 {
      ShiftIsProduct(n, k - 1);
      assert n * (10 * Pow10(k - 1)) == 10 * (n * Pow10(k - 1));
    }
  }

  lemma {:induction false} ShiftZero(k: nat)
    ensures Shift(0, k) == 0 && Shift(1, k) == Pow10(k)
  {
    if k > 0 {
      ShiftZero(k - 1);
    }
  }

  lemma {:induction false} ShiftAdds(a: int, b: int, k: nat)
    ensures Shift(a + b, k) == Shift(a, k) + Shift(b, k)
  {
    if k > 0 {
      ShiftAdds(a, b, k - 1);
    }
  }

  lemma {:induction false} ShiftMonotone(a: int, b: int, k: nat)
    requires a <= b
    ensures Shift(a, k) <= Shift(b, k)
    ensures a < b ==> Shift(a, k) < Shift(b, k)
  {
    if k > 0 {
      ShiftMonotone(a, b, k - 1);
    }
  }

  lemma {:induction false} ShiftLonger(a: nat, j: nat, k: nat)
    requires j <= k
    ensures Shift(a, j) <= Shift(a, k)
  {
    if j < k {
      ShiftLonger(a, j, k - 1);
      ShiftMonotone(0, a, k - 1);
      ShiftZero(k - 1);
    }
  }

  lemma {:induction false} ShiftTen(a: int, k: nat)
    ensures Shift(10 * a, k) == Shift(a, k + 1)
  {
    if k > 0 {
      ShiftTen(a, k - 1);
    }
  }

  lemma {:induction false} ShiftProduct(a: int, b: int, k: nat)
    ensures a * Shift(b, k) == Shift(a * b, k)
  {
    if k > 0 {
      ShiftProduct(a, b, k - 1);
      assert a * (10 * Shift(b, k - 1)) == 10 * (a * Shift(b, k - 1));
    }
  }

  lemma {:induction false} ShiftTwice(a: int, j: nat, k: nat)
    ensures Shift(Shift(a, j), k) == Shift(a, j + k)
  {
    if k > 0 {
      ShiftTwice(a, j, k - 1);
    }
  }

  lemma {:induction false} ShiftNegates(a: int, k: nat)
    ensures Shift(-a, k) == -Shift(a, k)
  {
    if k > 0 {
      ShiftNegates(a, k - 1);
    }
  }

  lemma Pow10OfPrecision()
    ensures Pow10(28) == LIMIT
  {
    assert Pow10(14) == 100_0000_0000_0000;
    Pow10Adds(14, 14);
  }

  lemma {:induction false} Pow10Adds(a: nat, b: nat)
    ensures Pow10(a + b) == Pow10(a) * Pow10(b)
  {
    if a > 0 {
      Pow10Adds(a - 1, b);
      assert 10 * (Pow10(a - 1) * Pow10(b)) == 10 * Pow10(a - 1) * Pow10(b);
    }
  }

  /** Cutting digits off is rounding towards zero. */
  lemma {:induction false} DropDigitsBracket(n: nat, k: nat)
    ensures Shift(DropDigits(n, k), k) <= n < Shift(DropDigits(n, k) + 1, k)
  {
    if k > 0 {
      DropDigitsBracket(n / 10, k - 1);
    }
  }

  lemma DropDigitsIs(n: nat, k: nat, q: int)
    requires Shift(q, k) <= n < Shift(q + 1, k)
    ensures DropDigits(n, k) == q
  {
    var p := DropDigits(n, k);
    DropDigitsBracket(n, k);
    if p < q {
      ShiftMonotone(p + 1, q, k);
    }
    if q < p {
      ShiftMonotone(q + 1, p, k);
    }
  }

  lemma {:induction false} DropDigitsMonotone(m: nat, n: nat, k: nat)
    requires m <= n
    ensures DropDigits(m, k) <= DropDigits(n, k)
  {
    if k > 0 {
      DropDigitsMonotone(m / 10, n / 10, k - 1);
    }
  }

  lemma DropDigitsWithin(p: nat, bound: nat, k: nat)
    requires p <= Shift(bound, k)
    ensures DropDigits(p, k) <= bound
  {
    DropDigitsBracket(p, k);
    if bound < DropDigits(p, k) {
      ShiftMonotone(bound, DropDigits(p, k), k);
    }
  }

  // ----- the rounding: nearest, monotone, scale-free -----

  lemma RoundAtBracket(n: nat, k: nat)
    ensures Shift(DropDigits(n, k), k) <= RoundAt(n, k) <= Shift(DropDigits(n, k) + 1, k)
    ensures 2 * n - Pow10(k) <= 2 * RoundAt(n, k) <= 2 * n + Pow10(k)
  {
    var q := DropDigits(n, k);
    DropDigitsBracket(n, k);
    ShiftAdds(q, 1, k);
    ShiftZero(k);
  }

  /** n lies at most half a unit below x * 10^k, and at exactly half a unit only for even x. */
  predicate RoundsUpTo(n: nat, k: nat, x: int) {
    var gap := Shift(x, k) - n;
    2 * gap < Pow10(k) || (2 * gap == Pow10(k) && x % 2 == 0)
  }

  /** Rounding half to even reaches a multiple from half a unit below it. */
  lemma RoundAtReaches(n: nat, k: nat, x: int)
    ensures RoundAt(n, k) >= Shift(x, k) <==> RoundsUpTo(n, k, x)
  {
    var q: int := DropDigits(n, k);
    if x <= q {
      LowerIsReached(n, k, x);
    } else if x >= q + 2 {
      FartherIsNotReached(n, k, x);
    } else {
      NextIsReached(n, k);
    }
  }

  lemma LowerIsReached(n: nat, k: nat, x: int)
    requires x <= DropDigits(n, k)
    ensures RoundAt(n, k) >= Shift(x, k) && RoundsUpTo(n, k, x)
  {
    RoundAtBracket(n, k);
    DropDigitsBracket(n, k);
    ShiftMonotone(x, DropDigits(n, k), k);
  }

  lemma FartherIsNotReached(n: nat, k: nat, x: int)
    requires x >= DropDigits(n, k) + 2
    ensures RoundAt(n, k) < Shift(x, k) && !RoundsUpTo(n, k, x)
  {
    var q: int := DropDigits(n, k);
    RoundAtBracket(n, k);
    DropDigitsBracket(n, k);
    ShiftAdds(q + 1, 1, k);
    ShiftZero(k);
    ShiftMonotone(q + 2, x, k);
  }

  lemma NextIsReached(n: nat, k: nat)
    ensures RoundAt(n, k) >= Shift(DropDigits(n, k) + 1, k) <==> RoundsUpTo(n, k, DropDigits(n, k) + 1)
  {
    var q: int := DropDigits(n, k);
    ShiftAdds(q, 1, k);
    ShiftZero(k);
  }

  lemma ShiftedIsEven(a: int, k: nat)
    requires k > 0
    ensures Shift(a, k) % 2 == 0
  {
  }

  lemma RoundAtMonotone(m: nat, n: nat, k: nat)
    requires m <= n
    ensures RoundAt(m, k) <= RoundAt(n, k)
  {
    var p, q := DropDigits(m, k), DropDigits(n, k);
    DropDigitsMonotone(m, n, k);
    RoundAtBracket(m, k);
    RoundAtBracket(n, k);
    ShiftMonotone(q, q + 1, k);
    if p < q {
      ShiftMonotone(p + 1, q, k);
    }
  }

  lemma {:induction false} ExcessBracket(n: nat)
    ensures n < Shift(LIMIT, Excess(n))
    ensures n >= LIMIT ==> Excess(n) > 0 && Shift(LIMIT / 10, Excess(n)) <= n
  {
    if n >= LIMIT {
      ExcessBracket(n / 10);
    }
  }

  lemma {:induction false} ExcessMonotone(m: nat, n: nat)
    requires m <= n
    ensures Excess(m) <= Excess(n)
    decreases n
  {
    if m >= LIMIT {
      ExcessMonotone(m / 10, n / 10);
    }
  }

  /** Rounding to 28 significant digits never reorders two amounts. */
  lemma RoundSigMonotone(m: nat, n: nat)
    requires m <= n
    ensures RoundSig(m) <= RoundSig(n)
  {
    var j, k := Excess(m), Excess(n);
    ExcessMonotone(m, n);
    if j == k {
      RoundAtMonotone(m, n, j);
    } else {
      ExcessBracket(m);
      ExcessBracket(n);
      RoundAtAtMost(m, j, LIMIT);
      RoundAtAtLeast(n, k, LIMIT / 10);
      ShiftLonger(LIMIT, j, k - 1);
      ShiftTen(LIMIT / 10, k - 1);
    }
  }

  lemma RoundAtAtMost(n: nat, k: nat, bound: nat)
    requires n < Shift(bound, k)
    ensures RoundAt(n, k) <= Shift(bound, k)
  {
    RoundAtBracket(n, k);
    DropDigitsBracket(n, k);
    if DropDigits(n, k) + 1 > bound {
      ShiftMonotone(bound, DropDigits(n, k), k);
    }
    ShiftMonotone(DropDigits(n, k) + 1, bound, k);
  }

  lemma RoundAtAtLeast(n: nat, k: nat, bound: nat)
    requires Shift(bound, k) <= n
    ensures Shift(bound, k) <= RoundAt(n, k)
  {
    RoundAtBracket(n, k);
    DropDigitsBracket(n, k);
    if DropDigits(n, k) < bound {
      ShiftMonotone(DropDigits(n, k) + 1, bound, k);
    }
    ShiftMonotone(bound, DropDigits(n, k), k);
  }

  lemma RoundSigTimesTen(n: nat)
    ensures RoundSig(10 * n) == 10 * RoundSig(n)
  {
    if n < LIMIT {
      assert Excess(10 * n) <= 1;
    } else {
      var k := Excess(n);
      assert Excess(10 * n) == k + 1;
      assert DropDigits(10 * n, k + 1) == DropDigits(n, k);
    }
  }

  /** Moving the decimal point moves the rounded value with it. */
  lemma {:induction false} RoundSigShifts(n: nat, k: nat)
    ensures Shift(n, k) >= 0
    ensures RoundSig(Shift(n, k)) == Shift(RoundSig(n), k)
  {
    if k > 0 {
      RoundSigShifts(n, k - 1);
      RoundSigTimesTen(Shift(n, k - 1));
    }
  }

  /** Every whole number up to 10^28 survives, at any scale. */
  lemma WholeNumbersKept(n: nat, k: nat)
    requires n <= LIMIT
    ensures Shift(n, k) >= 0
    ensures RoundSig(Shift(n, k)) == Shift(n, k)
  {
    KeptUpToLimit(n);
    RoundSigShifts(n, k);
  }

  lemma KeptUpToLimit(n: nat)
    requires n <= LIMIT
    ensures RoundSig(n) == n
  {
    var m := n / 10;
    if n == 10 * m {
      TenTimesKept(m);
    } else {
      BelowLimitKept(n);
    }
  }

  lemma TenTimesKept(m: nat)
    requires m < LIMIT
    ensures RoundSig(10 * m) == 10 * m
  {
    RoundSigTimesTen(m);
    BelowLimitKept(m);
  }

  lemma BelowLimitKept(n: nat)
    requires n < LIMIT
    ensures RoundSig(n) == n
  {
  }

  /** The relative error is at most five units in the twenty-ninth digit on either side, and
      there is none below 10^28. */
  lemma RoundSigRelativeError(n: nat)
    ensures n * (LIMIT - 5) <= RoundSig(n) * LIMIT <= n * (LIMIT + 5)
    ensures n < LIMIT ==> RoundSig(n) == n
  {
    if n >= LIMIT {
      RoundAtBracket(n, Excess(n));
      UnitIsSmall(n);
      ErrorOfSmallUnit(n, RoundSig(n), Pow10(Excess(n)));
    }
  }

  lemma ErrorOfSmallUnit(n: nat, r: nat, unit: nat)
    requires 2 * n - unit <= 2 * r <= 2 * n + unit && LIMIT / 10 * unit <= n
    ensures n * (LIMIT - 5) <= r * LIMIT <= n * (LIMIT + 5)
  {
  }

  /** Beyond 28 digits a number is at least 10^27 of the units it is rounded to. */
  lemma UnitIsSmall(n: nat)
    requires n >= LIMIT
    ensures LIMIT / 10 * Pow10(Excess(n)) <= n
  {
    ExcessBracket(n);
    ShiftIsProduct(LIMIT / 10, Excess(n));
  }
}
