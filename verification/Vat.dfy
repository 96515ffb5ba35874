/** VAT from net and from gross amounts, in whole cents: products, quotients and sums are
    rounded to 28 significant digits by the decimal context, then quantized half up. */
module Vat {
  import opened Wrappers
  import opened Arithmetic
  import opened Decimals

  datatype VatError = InvalidOperation | UnknownCountry | NoRates

  /** Amounts in cents. */
  datatype VatCalculation = VatCalculation(net: int, vat: int, gross: int, rate: Dec)

  function Abs(x: int): nat {
    if x < 0 then -x else x
  }

  function WithSign(sign: int, magnitude: int): int {
    if sign < 0 then -magnitude else magnitude
  }

  /** A whole number of cents after the context's rounding. */
  function RoundCents(x: int): int {
    WithSign(x, RoundSig(Abs(x)))
  }

  /** n / 10^k to the nearest whole number, halves up. */
  function RoundHalfUp(n: nat, k: nat): nat {
    var q := DropDigits(n, k);
    if 2 * (n - Shift(q, k)) >= Pow10(k) then q + 1 else q
  }

  /** The VAT on any net amount, given as a decimal number of cents: multiplied in the context,
      then quantized to whole cents. */
  function VatOn(net: Dec, rate: Dec): Result<int, VatError>
    requires rate.coef >= 0
  {
    ProductNonNegative(Abs(net.coef), rate.coef);
    var v := RoundHalfUp(RoundSig(Abs(net.coef) * rate.coef), net.scale + rate.scale);
    if v >= LIMIT then Err(InvalidOperation) else Ok(WithSign(net.coef, v))
  }

  /** VatCalculator.calculate_from_net, on whole cents. */
  function FromNet(net: int, rate: Dec): Result<VatCalculation, VatError>
    requires rate.coef >= 0
  {
    match VatOn(Dec(net, 0), rate)
    case Err(e) => Err(e)
    case Ok(vat) => Ok(VatCalculation(net, vat, RoundCents(net + vat), rate))
  }

  /** How many decimals a positive quotient below 10^28 has when cut to 28 digits. */
  function QuotientDecimals(num: nat, den: nat): nat
    requires num > 0 && den > 0
    decreases LIMIT / 10 * den - num
  {
    if num >= LIMIT / 10 * den then 0 else 1 + QuotientDecimals(10 * num, den)
  }

  /** n / d to the nearest whole number, ties to the even one. */
  function HalfEven(n: nat, d: nat): nat
    requires d > 0
  {
    var q := n / d;
    var twice := 2 * (n - q * d);
    DivBracket(n, d);
    if twice < d || (twice == d && q % 2 == 0) then q else q + 1
  }

  /** num / den cents, divided in the context and quantized to whole cents. */
  function QuotientCents(num: nat, den: nat): Result<nat, VatError>
    requires den > 0
  {
    if num == 0 then Ok(0)
    else if num >= LIMIT * den then Err(InvalidOperation)
    else
      var k := QuotientDecimals(num, den);
      ShiftMonotone(0, num, k);
      ShiftZero(k);
      var cents := RoundHalfUp(HalfEven(Shift(num, k), den), k);
      if cents >= LIMIT then Err(InvalidOperation) else Ok(cents)
  }

  /** 1 + rate after the context's rounding, in units of the rate's last decimal. */
  function Divisor(rate: Dec): (d: nat)
    requires rate.coef >= 0
    ensures d > 0
    ensures Pow10(rate.scale) + rate.coef < LIMIT ==> d == Pow10(rate.scale) + rate.coef
  {
    OnePlusRatePositive(rate);
    if Pow10(rate.scale) + rate.coef < LIMIT then BelowLimitKept(Pow10(rate.scale) + rate.coef); Pow10(rate.scale) + rate.coef
    else RoundSig(Pow10(rate.scale) + rate.coef)
  }

  /** The amount in the same units. */
  function Numerator(gross: int, rate: Dec): (n: nat)
    ensures n == Abs(gross) * Pow10(rate.scale)
  {
    ShiftMonotone(0, Abs(gross), rate.scale);
    ShiftZero(rate.scale);
    ShiftIsProduct(Abs(gross), rate.scale);
    Shift(Abs(gross), rate.scale)
  }

  /** VatCalculator.calculate_from_gross. */
  function FromGross(gross: int, rate: Dec): Result<VatCalculation, VatError>
    requires rate.coef >= 0
  {
    match QuotientCents(Numerator(gross, rate), Divisor(rate))
    case Err(e) => Err(e)
    case Ok(cents) =>
      var net := WithSign(gross, cents);
      Ok(VatCalculation(net, RoundCents(gross - net), gross, rate))
  }

  lemma OnePlusRatePositive(rate: Dec)
    requires rate.coef >= 0
    ensures RoundSig(Pow10(rate.scale) + rate.coef) > 0
  {
    RoundSigMonotone(1, Pow10(rate.scale) + rate.coef);
    BelowLimitKept(1);
  }

  // ----- the two rounding steps collapse into one -----

  /** q is the exact quotient n / d rounded half up. */
  predicate IsHalfUp(q: int, n: int, d: int) {
    (2 * q - 1) * d <= 2 * n < (2 * q + 1) * d
  }

  lemma RoundHalfUpIs(n: nat, k: nat)
    ensures Shift(2 * RoundHalfUp(n, k) - 1, k) <= 2 * n < Shift(2 * RoundHalfUp(n, k) + 1, k)
  {
    var q: int := DropDigits(n, k);
    DropDigitsBracket(n, k);
    ShiftZero(k);
    ShiftAdds(q, 1, k);
    ShiftAdds(q, q, k);
    ShiftAdds(q + q, 1, k);
    ShiftAdds(q + q, -1, k);
    ShiftAdds(q + q + 1, 2, k);
    ShiftAdds(1, 1, k);
    ShiftAdds(1, -1, k);
    assert 2 * q - 1 == q + q + -1 && 2 * q + 1 == q + q + 1 && 2 * (q + 1) + 1 == q + q + 1 + 2;
  }

  lemma RoundHalfUpUnique(n: nat, k: nat, q: nat)
    requires Shift(2 * q - 1, k) <= 2 * n < Shift(2 * q + 1, k)
    ensures RoundHalfUp(n, k) == q
  {
    var p := RoundHalfUp(n, k);
    RoundHalfUpIs(n, k);
    if p < q {
      ShiftMonotone(2 * p + 1, 2 * q - 1, k);
    }
    if q < p {
      ShiftMonotone(2 * q + 1, 2 * p - 1, k);
    }
  }

  lemma HalfUpExactly(r: nat, k: nat, v: nat)
    ensures RoundHalfUp(r, k) == v <==> Shift(2 * v - 1, k) <= 2 * r < Shift(2 * v + 1, k)
  {
    RoundHalfUpIs(r, k);
    if Shift(2 * v - 1, k) <= 2 * r < Shift(2 * v + 1, k) {
      RoundHalfUpUnique(r, k, v);
    }
  }

  lemma RoundsTo(m: nat, k: nat, c: nat, low: int, high: int)
    requires low == (2 * c - 1) * Pow10(k) && high == (2 * c + 1) * Pow10(k)
    ensures RoundHalfUp(m, k) == c <==> low <= 2 * m < high
  {
    ShiftIsProduct(2 * c - 1, k);
    ShiftIsProduct(2 * c + 1, k);
    HalfUpExactly(m, k, c);
  }

  /** Rounding a quotient to k decimals (to m / 10^k, either way on a tie) and then half up
      to a whole number is rounding it once, as soon as the denominator has at most k
      digits. */
  lemma {:induction false} DoubleRoundingCollapses(m: nat, num: nat, den: nat, k: nat, q: nat)
    requires den > 0 && k > 0 && den < Pow10(k)
    requires 2 * Shift(num, k) - den <= 2 * (m * den) <= 2 * Shift(num, k) + den
    requires IsHalfUp(q, num, den)
    ensures RoundHalfUp(m, k) == q
  {
    var n, low, high := num * Pow10(k), (2 * q - 1) * Pow10(k), (2 * q + 1) * Pow10(k);
    ShiftIsProduct(num, k);
    BelowHigh(m, num, den, k, q, n, high);
    AboveLow(m, num, den, k, q, n, low);
    RoundsTo(m, k, q, low, high);
  }

  lemma BelowHigh(m: nat, num: nat, den: nat, k: nat, q: nat, n: nat, high: int)
    requires 0 < den < Pow10(k) && 2 * num < (2 * q + 1) * den && n == num * Pow10(k) && high == (2 * q + 1) * Pow10(k)
    requires 2 * (m * den) <= 2 * n + den
    ensures 2 * m < high
  {
    BelowUpperHalf(m, num, den, Pow10(k), 2 * q + 1);
  }

  lemma AboveLow(m: nat, num: nat, den: nat, k: nat, q: nat, n: nat, low: int)
    requires den > 0 && k > 0 && (2 * q - 1) * den <= 2 * num && n == num * Pow10(k) && low == (2 * q - 1) * Pow10(k)
    requires 2 * n - den <= 2 * (m * den)
    ensures low <= 2 * m
  {
    var half := HalvesOfPowers(k);
    AboveLowerHalf(m, num, den, Pow10(k), 2 * q - 1);
  }

  lemma BelowUpperHalf(m: nat, num: nat, den: nat, p: nat, odd: int)
    requires 0 < den < p && 2 * (m * den) <= 2 * (num * p) + den && 2 * num < odd * den
    ensures 2 * m < odd * p
  {
    MulMonotone(2 * num + 1, odd * den, p);
    Distribute(2 * num, 1, p);
    assert 2 * num * p == 2 * (num * p);
    assert odd * den * p == odd * p * den;
    assert 2 * m * den == 2 * (m * den);
    if 2 * m >= odd * p {
      MulMonotone(odd * p, 2 * m, den);
    }
  }

  lemma AboveLowerHalf(m: nat, num: nat, den: nat, p: nat, odd: int)
    requires den > 0 && p % 2 == 0 && 2 * (num * p) - den <= 2 * (m * den) && odd * den <= 2 * num
    ensures odd * p <= 2 * m
  {
    MulMonotone(odd * den, 2 * num, p);
    assert 2 * num * p == 2 * (num * p);
    assert odd * den * p == odd * p * den;
    var h := p / 2;
    assert odd * p == 2 * (odd * h);
    assert 2 * m * den == 2 * (m * den);
    Distribute(2 * m, 2, den);
    if 2 * m < odd * p {
      MulMonotone(2 * m + 2, odd * p, den);
    }
  }

  // ----- when the division shows -----

  lemma {:induction false} QuotientDecimalsIs(num: nat, den: nat)
    requires num > 0 && den > 0
    ensures Shift(num, QuotientDecimals(num, den)) >= LIMIT / 10 * den
    decreases LIMIT / 10 * den - num
  {
    if num < LIMIT / 10 * den {
      QuotientDecimalsIs(10 * num, den);
      ShiftTen(num, QuotientDecimals(10 * num, den));
    }
  }

  /** The quotient, rounded half to even to 28 digits, reaches the half cent below c; with no
      decimals left it reaches c itself. */
  predicate Reaches(num: nat, den: nat, c: int)
    requires num > 0 && den > 0
  {
    var k := QuotientDecimals(num, den);
    var below := (2 * c - 1) * den - 2 * num;
    if k == 0 then below < 0 || (below == 0 && c % 2 == 0)
    else below * Pow10(k) < den || (below * Pow10(k) == den && k >= 2)
  }

  /** The quotient cut to 28 digits lies within the half cents around c. */
  predicate Lands(num: nat, den: nat, c: int)
    requires den > 0
  {
    if num == 0 then c == 0 else Reaches(num, den, c) && !Reaches(num, den, c + 1)
  }

  /** The division's own rounding, to 28 digits and half to even, moves a quotient across the
      half cent above c, or at no decimals onto the even neighbour below. */
  predicate Skewed(num: nat, den: nat, c: int)
    requires den > 0
  {
    num > 0 &&
    var k := QuotientDecimals(num, den);
    if k == 0 then 2 * num == (2 * c - 1) * den && c % 2 == 1
    else
      var gap := ((2 * c + 1) * den - 2 * num) * Pow10(k);
      gap < den || (gap == den && k >= 2)
  }

  /** Rounding half to even reaches h from half a unit below it, itself only for even h. */
  lemma HalfEvenReaches(n: nat, d: nat, h: int, edge: int)
    requires d > 0 && edge == (2 * h - 1) * d
    ensures HalfEven(n, d) >= h <==> 2 * n > edge || (2 * n == edge && h % 2 == 0)
  {
    var q := n / d;
    var whole, target := q * d, h * d;
    DivBracket(n, d);
    assert edge == 2 * target - d;
    if q >= h {
      MulMonotone(h, q, d);
    } else if q <= h - 2 {
      MulMonotone(q + 2, h, d);
      Distribute(q, 2, d);
    } else {
      Distribute(h, 1, d);
    }
  }

  lemma HalvesOfPowers(k: nat) returns (half: nat)
    requires k > 0
    ensures Pow10(k) == 2 * half && (half % 2 == 0 <==> k >= 2)
  {
    half := 5 * Pow10(k - 1);
    if k >= 2 {
      var quarter := 25 * Pow10(k - 2);
      assert half == 2 * quarter;
    } else {
      assert half == 5;
    }
  }

  /** With decimals left, the quotient cut to 28 digits passes the half cent below c exactly
      when it reaches it. */
  lemma LongQuotientReaches(num: nat, den: nat, c: int, k: nat, p: nat)
    requires num > 0 && den > 0 && k == QuotientDecimals(num, den) > 0 && p == Pow10(k)
    ensures 2 * HalfEven(num * p, den) >= (2 * c - 1) * p <==> Reaches(num, den, c)
  {
    var half := HalvesOfPowers(k);
    var h := (2 * c - 1) * half;
    var edge := (2 * h - 1) * den;
    HalfEvenReaches(num * p, den, h, edge);
    HalfProducts(num, den, 2 * c - 1, p, half, h, edge);
    OddMultiple(c - 1, half, h);
  }

  lemma OddMultiple(c: int, half: int, h: int)
    requires h == (2 * c + 1) * half
    ensures h % 2 == half % 2
  {
    var product := c * half;
    assert h == 2 * product + half by {
      Distribute(2 * c, 1, half);
      assert 2 * c * half == 2 * product;
    }
  }

  lemma HalfProducts(num: nat, den: nat, odd: int, p: nat, half: nat, h: int, edge: int)
    requires p == 2 * half && h == odd * half && edge == (2 * h - 1) * den
    ensures odd * p == 2 * h
    ensures 2 * (num * p) - edge == den - (odd * den - 2 * num) * p
  {
    assert odd * p == 2 * (odd * half);
    assert edge == (odd * p) * den - den;
    Distribute(odd * den, 2 * num, p);
    assert (odd * den) * p == (odd * p) * den;
    assert (2 * num) * p == 2 * (num * p);
  }

  lemma NoDecimals(m: nat)
    ensures RoundHalfUp(m, 0) == m
  {
    assert DropDigits(m, 0) == m && Shift(m, 0) == m && Pow10(0) == 1;
  }

  /** Once the division's rounding is done, half up to cents is to land there. */
  lemma LandsExactly(num: nat, den: nat, c: nat, k: nat, p: nat)
    requires num > 0 && den > 0 && k == QuotientDecimals(num, den) && p == Pow10(k)
    ensures RoundHalfUp(HalfEven(num * p, den), k) == c <==> Lands(num, den, c)
  {
    if k == 0 {
      assert num * p == num;
      NoDecimals(HalfEven(num, den));
      HalfEvenReaches(num, den, c, (2 * c - 1) * den);
      HalfEvenReaches(num, den, c + 1, (2 * (c + 1) - 1) * den);
    } else {
      LongQuotientReaches(num, den, c, k, p);
      LongQuotientReaches(num, den, c + 1, k, p);
      RoundsTo(HalfEven(num * p, den), k, c, (2 * c - 1) * p, (2 * c + 1) * p);
    }
  }

  /** What the code's quotient is, for every numerator and denominator. */
  lemma QuotientCentsLands(num: nat, den: nat, c: nat)
    requires den > 0
    ensures QuotientCents(num, den) == Ok(c) <==> c < LIMIT && Lands(num, den, c)
  {
    if num > 0 {
      var k := QuotientDecimals(num, den);
      ShiftIsProduct(num, k);
      LandsExactly(num, den, c, k, Pow10(k));
      if num >= LIMIT * den && c < LIMIT {
        TooLargeToLand(num, den, c);
      }
    }
  }

  lemma TooLargeToLand(num: nat, den: nat, c: nat)
    requires den > 0 && num >= LIMIT * den && c < LIMIT
    ensures num > 0 && !Lands(num, den, c)
  {
    MulMonotone(2 * c + 1, 2 * LIMIT - 1, den);
    assert 2 * (c + 1) - 1 == 2 * c + 1;
  }

  /** Around the exact half-up cents, landing there is not to be skewed. */
  lemma LandsUnlessSkewed(num: nat, den: nat, c: nat)
    requires den > 0 && IsHalfUp(c, num, den)
    ensures Lands(num, den, c) <==> !Skewed(num, den, c)
  {
    if num == 0 {
      if c > 0 {
        MulMonotone(1, 2 * c - 1, den);
      }
    } else {
      var p := Pow10(QuotientDecimals(num, den));
      assert ((2 * c - 1) * den - 2 * num) * p <= 0 by { MulMonotone((2 * c - 1) * den - 2 * num, 0, p); }
      assert 2 * (c + 1) - 1 == 2 * c + 1;
    }
  }

  /** The code's quotient is the exact one rounded half up once if and only if that fits in 28
      digits and is not skewed. */
  lemma QuotientCentsExactly(num: nat, den: nat, c: nat)
    requires den > 0 && IsHalfUp(c, num, den)
    ensures QuotientCents(num, den) == Ok(c) <==> c < LIMIT && !Skewed(num, den, c)
  {
    QuotientCentsLands(num, den, c);
    LandsUnlessSkewed(num, den, c);
  }

  /** The net amount taken out of a gross one is the exact quotient gross / (1 + rate), rounded
      half up once, if and only if it fits in 28 digits and the quotient by the divisor in use
      lands there. That divisor is 1 + rate as 28 digits hold it; when they hold all of it,
      to land there is not to be skewed. */
  lemma FromGrossExactly(gross: int, rate: Dec, cents: nat)
    requires rate.coef >= 0 && IsHalfUp(cents, Numerator(gross, rate), Pow10(rate.scale) + rate.coef)
    ensures FromGross(gross, rate).Ok? && FromGross(gross, rate).value.net == WithSign(gross, cents) <==>
              cents < LIMIT && Lands(Numerator(gross, rate), Divisor(rate), cents)
    ensures Divisor(rate) == Pow10(rate.scale) + rate.coef ==>
              (Lands(Numerator(gross, rate), Divisor(rate), cents) <==>
                 !Skewed(Numerator(gross, rate), Pow10(rate.scale) + rate.coef, cents))
    ensures Divisor(rate) == RoundSig(Pow10(rate.scale) + rate.coef)
  {
    QuotientCentsLands(Numerator(gross, rate), Divisor(rate), cents);
    if Divisor(rate) == Pow10(rate.scale) + rate.coef {
      LandsUnlessSkewed(Numerator(gross, rate), Divisor(rate), cents);
    }
    if Pow10(rate.scale) + rate.coef < LIMIT {
      BelowLimitKept(Pow10(rate.scale) + rate.coef);
    }
  }

  /** An amount that leaves room for one and a half times its product with 1 + rate. */
  predicate InRange(amount: nat, rate: Dec) {
    rate.coef >= 0 && 15 * (amount * (Pow10(rate.scale) + rate.coef)) < LIMIT
  }

  lemma ShortQuotientIsNotSkewed(num: nat, den: nat, c: nat)
    requires den > 0 && num < LIMIT / 10 && IsHalfUp(c, num, den)
    ensures !Skewed(num, den, c)
  {
    if num > 0 {
      var k := QuotientDecimals(num, den);
      QuotientDecimalsIs(num, den);
      ShiftIsProduct(num, k);
      ManyDecimals(num, den, Pow10(k));
      MulMonotone(1, (2 * c + 1) * den - 2 * num, Pow10(k));
    }
  }

  lemma ManyDecimals(num: nat, den: nat, p: nat)
    requires den > 0 && num < LIMIT / 10 && num * p >= LIMIT / 10 * den
    ensures p > den
  {
    if p <= den {
      MulMonotone(p, den, num);
      MulStrict(num, LIMIT / 10, den);
    }
  }

  /** When ten times the numerator fits in 28 digits the division never shows. */
  lemma ShortNumeratorIsExact(gross: int, rate: Dec, cents: nat)
    requires rate.coef >= 0 && Numerator(gross, rate) < LIMIT / 10 && IsHalfUp(cents, Numerator(gross, rate), Divisor(rate))
    requires cents <= Abs(gross)
    ensures FromGross(gross, rate) == Ok(VatCalculation(WithSign(gross, cents), gross - WithSign(gross, cents), gross, rate))
  {
    MulMonotone(1, Pow10(rate.scale), Abs(gross));
    ShortQuotientIsNotSkewed(Numerator(gross, rate), Divisor(rate), cents);
    QuotientCentsExactly(Numerator(gross, rate), Divisor(rate), cents);
    BelowLimitKept(Abs(gross - WithSign(gross, cents)));
  }

  /** Within range, for every rate, the division's own rounding never shows. */
  lemma FromGrossIsExact(gross: int, rate: Dec, cents: nat)
    requires InRange(Abs(gross), rate)
    requires IsHalfUp(cents, Numerator(gross, rate), Pow10(rate.scale) + rate.coef)
    ensures FromGross(gross, rate) == Ok(VatCalculation(WithSign(gross, cents), gross - WithSign(gross, cents), gross, rate))
  {
    var s := Pow10(rate.scale);
    NetWithinGross(Abs(gross), s, rate.coef, cents);
    if gross == 0 {
      assert cents == 0;
    } else {
      RangeHolds(Abs(gross), rate, Numerator(gross, rate), Abs(gross) * rate.coef);
      ShortNumeratorIsExact(gross, rate, cents);
    }
  }

  lemma AtLeastOnce(n: nat, m: nat)
    requires n > 0
    ensures n * m >= m
  {
    MulMonotone(1, n, m);
  }

  lemma ProductSplits(n: nat, s: nat, c: nat)
    ensures n * (s + c) == n * s + n * c && n * s >= 0 && n * c >= 0
  {
    Distribute(s, c, n);
    MulMonotone(0, s, n);
    MulMonotone(0, c, n);
  }

  /** The products that fit when an amount is in range. */
  lemma RangeHolds(amount: nat, rate: Dec, part: nat, tax: int)
    requires amount > 0 && InRange(amount, rate)
    requires part == amount * Pow10(rate.scale) && tax == amount * rate.coef
    ensures 15 * (part + tax) < LIMIT && tax >= 0 && amount <= part
    ensures 15 * (Pow10(rate.scale) + rate.coef) < LIMIT && Pow10(rate.scale) <= part
  {
    ProductSplits(amount, Pow10(rate.scale), rate.coef);
    AtLeastOnce(amount, Pow10(rate.scale) + rate.coef);
    AtLeastOnce(amount, Pow10(rate.scale));
    AtLeastOnce(Pow10(rate.scale), amount);
  }

  lemma NetWithinGross(gross: nat, s: nat, c: nat, cents: nat)
    requires s > 0 && IsHalfUp(cents, gross * s, s + c)
    ensures cents <= gross
  {
    assert 2 * gross * s == 2 * (gross * s);
    Distribute(2 * gross, 1, s);
    MulMonotone(s, s + c, 2 * gross + 1);
    if cents > gross {
      MulMonotone(2 * gross + 1, 2 * cents - 1, s + c);
    }
  }

  /** At a rate of 10%, an amount of 1.1 * 10^26 + 6 cents is rounded twice, to one cent more
      than its exact net. */
  lemma DoubleRoundingCounterexample()
    ensures var gross, rate, net := 1_1000_0000_0000_0000_0000_0000_06, Dec(1, 1), 1_0000_0000_0000_0000_0000_0000_05;
            && FromGross(gross, rate) == Ok(VatCalculation(net + 1, gross - net - 1, gross, rate))
            && IsHalfUp(net, Numerator(gross, rate), Pow10(1) + rate.coef)
  {
    var gross, rate, net := 1_1000_0000_0000_0000_0000_0000_06, Dec(1, 1), 1_0000_0000_0000_0000_0000_0000_05;
    var num := Shift(gross, 1);
    assert QuotientDecimals(10 * num, 11) == 0;
    assert QuotientDecimals(num, 11) == 1 + QuotientDecimals(10 * num, 11);
    assert Shift(num, 1) == 10 * num;
    assert HalfEven(10 * num, 11) == 10 * net + 5;
    RoundHalfUpUnique(10 * net + 5, 1, net + 1);
    BelowLimitKept(gross - net - 1);
  }

  /** At a rate of 100%, half of 2 * 10^27 + 1 cents has no decimals left: its half goes to
      the even neighbour, one cent below the exact net. */
  lemma EvenNeighbourCounterexample()
    ensures var gross, rate, net := 2_000_000_000_000_000_000_000_000_001, Dec(1, 0), 1_000_000_000_000_000_000_000_000_001;
            && FromGross(gross, rate) == Ok(VatCalculation(net - 1, net, gross, rate))
            && IsHalfUp(net, Numerator(gross, rate), Pow10(0) + rate.coef)
  {
    var gross, net := 2_000_000_000_000_000_000_000_000_001, 1_000_000_000_000_000_000_000_000_001;
    assert Shift(gross, 0) == gross;
    assert QuotientDecimals(gross, 2) == 0;
    assert HalfEven(gross, 2) == net - 1;
    NoDecimals(net - 1);
    BelowLimitKept(net);
  }

  // ----- round trips -----

  lemma VatBracket(p: nat, k: nat, v: nat)
    requires v == RoundHalfUp(p, k)
    ensures 2 * p - Pow10(k) < 2 * Shift(v, k) <= 2 * p + Pow10(k)
  {
    DropDigitsBracket(p, k);
    ShiftAdds(DropDigits(p, k), 1, k);
    ShiftZero(k);
  }

  /** The gap, twice that to a half cent, is at most one of the dropped units; exactly one only
      when another digit is left between them. */
  predicate ReachesHalf(k: nat, e: nat, gap: int) {
    gap < Pow10(e) || (gap == Pow10(e) && e + 2 <= k)
  }

  /** The context's rounding of the product p / 10^k, to e digits less and half to even, moves
      it off its half-up cents v: up to the half cent above, or at no decimals from the tie
      below v onto its even neighbour. */
  predicate NetSkewed(p: nat, k: nat, v: nat) {
    var e := Excess(p);
    if e < k then
      ReachesHalf(k, e, Shift(2 * v + 1, k) - 2 * p)
    else
      e > 0 && 2 * p == Shift(2 * v - 1, k) && v % 2 == 1
  }

  /** The half cent above v is h * 10^(k-1). */
  lemma HalfCent(v: int, k: nat)
    requires k > 0
    ensures Shift(2 * v + 1, k) == 2 * Shift(5 * (2 * v + 1), k - 1)
  {
    ShiftTen(2 * v + 1, k - 1);
    ShiftAdds(5 * (2 * v + 1), 5 * (2 * v + 1), k - 1);
  }

  /** With decimals left, the rounded product reaches the half cent above c from half a unit
      below it. */
  lemma HalfCentReached(p: nat, k: nat, e: nat, c: int)
    requires e < k
    ensures 2 * RoundAt(p, e) >= Shift(2 * c + 1, k) <==> ReachesHalf(k, e, Shift(2 * c + 1, k) - 2 * p)
  {
    var m := 5 * c + 2;
    HalfCent(c, k);
    assert 5 * (2 * c + 1) == 2 * m + 1;
    OddMultipleReached(p, k - 1, e, m);
  }

  lemma OddMultipleReached(p: nat, k: nat, e: nat, m: int)
    requires e <= k
    ensures RoundAt(p, e) >= Shift(2 * m + 1, k) <==> ReachesHalf(k + 1, e, 2 * (Shift(2 * m + 1, k) - p))
  {
    ShiftTwice(2 * m + 1, k - e, e);
    RoundAtReaches(p, e, Shift(2 * m + 1, k - e));
    EvenMultiple(m, k - e);
  }

  lemma EvenMultiple(m: int, k: nat)
    ensures Shift(2 * m + 1, k) % 2 == 0 <==> k > 0
  {
    if k > 0 {
      ShiftedIsEven(2 * m + 1, k);
    } else {
      assert Shift(2 * m + 1, 0) == 2 * m + 1;
    }
  }

  /** At one cent to the unit, the nearest cent and the half-up one differ only on a tie. */
  lemma WholeCentReached(p: nat, k: nat, v: nat, e: nat)
    requires v == RoundHalfUp(p, k) && e == k > 0
    ensures RoundAt(p, k) == if 2 * p == Shift(2 * v - 1, k) && v % 2 == 1 then Shift(v - 1, k) else Shift(v, k)
  {
    var q: int := DropDigits(p, k);
    DropDigitsBracket(p, k);
    ShiftAdds(q, 1, k);
    ShiftAdds(q, q, k);
    ShiftAdds(q + q, 1, k);
    ShiftAdds(q + q, -1, k);
    ShiftZero(k);
    ShiftNegates(1, k);
    assert q + q == 2 * q && 2 * (q + 1) - 1 == q + q + 1;
  }

  /** A product of less than 10^28 cents has no more digits to drop than decimals. */
  lemma DropsNoCents(p: nat, k: nat, v: nat)
    requires v == RoundHalfUp(p, k) < LIMIT
    ensures Excess(p) <= k
  {
    RoundHalfUpIs(p, k);
    ShiftMonotone(2 * v + 1, 2 * LIMIT - 1, k);
    ShiftMonotone(2 * LIMIT - 1, 2 * LIMIT, k);
    ShiftAdds(LIMIT, LIMIT, k);
    ExcessWithin(p, k);
  }

  lemma {:induction false} ExcessWithin(p: nat, k: nat)
    requires p < Shift(LIMIT, k)
    ensures Excess(p) <= k
  {
    if p >= LIMIT {
      ExcessWithin(p / 10, k - 1);
    }
  }

  /** The VAT on any net amount is the exact product rounded half up once if and only if it
      fits in 28 digits and the product is not skewed; a product below 10^28 never is. */
  lemma VatOnExactly(net: Dec, rate: Dec, p: nat, k: nat, v: nat)
    requires rate.coef >= 0 && p == Abs(net.coef) * rate.coef && k == net.scale + rate.scale && v == RoundHalfUp(p, k)
    ensures VatOn(net, rate) == Ok(WithSign(net.coef, v)) <==> v < LIMIT && !NetSkewed(p, k, v)
    ensures p < LIMIT ==> !NetSkewed(p, k, v)
  {
    if v < LIMIT {
      NetSkewedExactly(p, k, v);
    }
    if p < LIMIT {
      ShortIsNotSkewed(p, k, v);
    }
  }

  lemma NetSkewedExactly(p: nat, k: nat, v: nat)
    requires v == RoundHalfUp(p, k) < LIMIT
    ensures RoundHalfUp(RoundSig(p), k) == v <==> !NetSkewed(p, k, v)
  {
    var e := Excess(p);
    DropsNoCents(p, k, v);
    if e < k {
      SkewedOverHalf(p, k, v, e);
    } else if e > 0 {
      SkewedToEven(p, k, v);
    }
  }

  lemma SkewedOverHalf(p: nat, k: nat, v: nat, e: nat)
    requires v == RoundHalfUp(p, k) && e == Excess(p) < k
    ensures RoundHalfUp(RoundSig(p), k) == v <==> !NetSkewed(p, k, v)
  {
    RoundHalfUpIs(p, k);
    HalfCentReached(p, k, e, v);
    HalfCentReached(p, k, e, v - 1);
    assert 2 * (v - 1) + 1 == 2 * v - 1;
    HalfUpExactly(RoundSig(p), k, v);
  }

  lemma SkewedToEven(p: nat, k: nat, v: nat)
    requires v == RoundHalfUp(p, k) && k == Excess(p) > 0
    ensures RoundHalfUp(RoundSig(p), k) == v <==> !NetSkewed(p, k, v)
  {
    WholeCentReached(p, k, v, k);
    WholeStays(RoundSig(p), k, if NetSkewed(p, k, v) then v - 1 else v);
  }

  lemma WholeStays(r: nat, k: nat, v: nat)
    requires r == Shift(v, k)
    ensures RoundHalfUp(r, k) == v
  {
    ShiftAdds(v, v, k);
    ShiftMonotone(2 * v - 1, 2 * v, k);
    ShiftMonotone(2 * v, 2 * v + 1, k);
    RoundHalfUpUnique(r, k, v);
  }

  lemma ShortIsNotSkewed(p: nat, k: nat, v: nat)
    requires p < LIMIT && v == RoundHalfUp(p, k)
    ensures !NetSkewed(p, k, v)
  {
    RoundHalfUpIs(p, k);
    if k > 0 {
      HalfCent(v, k);
    }
  }

  /** It does happen at a rate of 21%: on a net amount of 5 * 10^27 + 50 cents the product
      is rounded down to an even cent, one below its own half-up cents. */
  lemma NetSkewedCounterexample()
    ensures var net, rate, v := 5_000_000_000_000_000_000_000_000_050, Dec(21, 2), 1_050_000_000_000_000_000_000_000_011;
            && FromNet(net, rate).Ok? && FromNet(net, rate).value.vat == v - 1
            && RoundHalfUp(net * rate.coef, rate.scale) == v && NetSkewed(net * rate.coef, rate.scale, v)
  {
    var p := 105_000_000_000_000_000_000_000_001_050;
    assert Excess(p) == 2 by {
      assert Excess(1_050_000_000_000_000_000_000_000_010) == 0;
      assert Excess(10_500_000_000_000_000_000_000_000_105) == 1;
    }
    assert DropDigits(p, 2) == 1_050_000_000_000_000_000_000_000_010;
    assert RoundSig(p) == 105_000_000_000_000_000_000_000_001_000;
    assert DropDigits(RoundSig(p), 2) == 1_050_000_000_000_000_000_000_000_010;
  }

  /** VAT that is within half a cent of its product keeps the gross amount short: all in the
      units of the rate's last decimal. */
  lemma GrossStaysShort(n: nat, v: nat, s: nat, part: nat, p: nat, shifted: nat, whole: nat)
    requires 15 * (part + p) < LIMIT && s <= part && whole == part + shifted && 2 * shifted <= 2 * p + s
    requires n + v <= whole
    ensures p < LIMIT && n + v < LIMIT && 10 * whole < LIMIT
  {
  }

  /** The VAT v on a net amount n, and the gross amount in units of the rate's last decimal. */
  ghost predicate Rounded(n: nat, rate: Dec, p: nat, v: nat) {
    rate.coef >= 0 && p == n * rate.coef && v == RoundHalfUp(p, rate.scale)
  }

  lemma VatProducts(n: nat, rate: Dec, p: nat, v: nat)
    requires Rounded(n, rate, p, v)
    ensures (n + v) * Pow10(rate.scale) == n * Pow10(rate.scale) + v * Pow10(rate.scale) >= n + v
    ensures 2 * p - Pow10(rate.scale) < 2 * (v * Pow10(rate.scale)) <= 2 * p + Pow10(rate.scale)
  {
    SumOfParts(n, v, Pow10(rate.scale));
    ProductBracket(p, rate.scale, v, v * Pow10(rate.scale));
  }

  lemma SumOfParts(n: nat, v: nat, s: nat)
    requires s > 0
    ensures (n + v) * s == n * s + v * s && (n + v) * s >= n + v
  {
    Distribute(n, v, s);
    AtLeastOnce(s, n + v);
  }

  lemma ProductBracket(p: nat, k: nat, v: nat, shifted: int)
    requires v == RoundHalfUp(p, k) && shifted == v * Pow10(k)
    ensures 2 * p - Pow10(k) < 2 * shifted <= 2 * p + Pow10(k)
  {
    VatBracket(p, k, v);
    ShiftIsProduct(v, k);
  }

  lemma VatFits(n: nat, rate: Dec, p: nat, v: nat, whole: int)
    requires InRange(n, rate) && Rounded(n, rate, p, v) && whole == (n + v) * Pow10(rate.scale)
    ensures p < LIMIT && n + v < LIMIT && 10 * whole < LIMIT && (n == 0 ==> v == 0)
  {
    if n > 0 {
      var s := Pow10(rate.scale);
      var part, shifted := n * s, v * s;
      assert whole == part + shifted >= n + v && 2 * shifted <= 2 * p + s by { VatProducts(n, rate, p, v); }
      SomethingFits(n, rate, p, v, part, shifted, whole);
    } else {
      NoVatOnNothing(rate, p, v);
      assert whole == 0;
    }
  }

  lemma NoVatOnNothing(rate: Dec, p: nat, v: nat)
    requires Rounded(0, rate, p, v)
    ensures p == 0 && v == 0
  {
    VatProducts(0, rate, p, v);
    NothingFromNothing(p, v, Pow10(rate.scale), rate.coef);
  }

  lemma SomethingFits(n: nat, rate: Dec, p: nat, v: nat, part: nat, shifted: nat, whole: int)
    requires n > 0 && InRange(n, rate) && rate.coef >= 0 && p == n * rate.coef && part == n * Pow10(rate.scale)
    requires whole == part + shifted && n + v <= whole && 2 * shifted <= 2 * p + Pow10(rate.scale)
    ensures p < LIMIT && n + v < LIMIT && 10 * whole < LIMIT
  {
    RangeHolds(n, rate, part, p);
    GrossStaysShort(n, v, Pow10(rate.scale), part, p, shifted, whole);
  }

  lemma NothingFromNothing(p: nat, v: nat, s: nat, c: nat)
    requires s > 0 && p == 0 * c && 2 * (v * s) <= 2 * p + s
    ensures p == 0 && v == 0
  {
    AtLeastOnce(s, v);
    if v > 0 {
      AtLeastOnce(v, s);
    }
  }

  /** Within range the whole calculation is exact. */
  lemma FromNetIsExact(net: int, rate: Dec, p: nat, v: nat)
    requires InRange(Abs(net), rate) && Rounded(Abs(net), rate, p, v)
    ensures FromNet(net, rate) == Ok(VatCalculation(net, WithSign(net, v), net + WithSign(net, v), rate))
  {
    VatFits(Abs(net), rate, p, v, (Abs(net) + v) * Pow10(rate.scale));
    BelowLimitKept(p);
    BelowLimitKept(Abs(net) + v);
    assert Abs(net + WithSign(net, v)) == Abs(net) + v;
  }

  /** Adding VAT to a net amount and taking it out of the gross again returns the same net
      and the same VAT, whatever the rate. */
  lemma NetRoundTrip(net: int, rate: Dec)
    requires InRange(Abs(net), rate)
    ensures FromNet(net, rate).Ok?
    ensures FromGross(FromNet(net, rate).value.gross, rate) == FromNet(net, rate)
  {
    ProductNonNegative(Abs(net), rate.coef);
    var p := Abs(net) * rate.coef;
    var v := RoundHalfUp(p, rate.scale);
    FromNetIsExact(net, rate, p, v);
    NetComesBack(net, rate, p, v);
  }

  lemma NetComesBack(net: int, rate: Dec, p: nat, v: nat)
    requires InRange(Abs(net), rate) && Rounded(Abs(net), rate, p, v)
    ensures FromGross(net + WithSign(net, v), rate)
         == Ok(VatCalculation(net, WithSign(net, v), net + WithSign(net, v), rate))
  {
    var n, gross := Abs(net), net + WithSign(net, v);
    var num := Numerator(gross, rate);
    assert Abs(gross) == n + v;
    VatFits(n, rate, p, v, num);
    if n > 0 {
      HalfUpFromNet(n, rate, p, v, num);
      ShortNumeratorIsExact(gross, rate, n);
    }
  }

  lemma HalfUpFromNet(n: nat, rate: Dec, p: nat, v: nat, num: int)
    requires n > 0 && InRange(n, rate) && Rounded(n, rate, p, v) && num == (n + v) * Pow10(rate.scale)
    ensures IsHalfUp(n, num, Divisor(rate))
  {
    VatProducts(n, rate, p, v);
    NetIsHalfUp(n, v, rate.coef, Pow10(rate.scale));
    RangeHolds(n, rate, n * Pow10(rate.scale), p);
  }

  lemma NetIsHalfUp(n: nat, v: nat, c: nat, s: nat)
    requires s > 0 && 2 * (n * c) - s < 2 * (v * s) <= 2 * (n * c) + s
    ensures IsHalfUp(n, (n + v) * s, s + c)
  {
    Distribute(n, v, s);
    assert (2 * n + 1) * (s + c) == 2 * (n * s) + 2 * (n * c) + s + c;
    assert (2 * n - 1) * (s + c) == 2 * (n * s) + 2 * (n * c) - s - c;
    if c == 0 {
      assert n * c == 0;
      if v > 0 {
        MulMonotone(1, v, s);
      }
    }
  }

  /** At most a cent and half the rate's share of one; for rates below 200% at most a cent. */
  predicate Off(cents: nat, rate: Dec) {
    && 2 * (cents * Pow10(rate.scale)) <= 2 * Pow10(rate.scale) + rate.coef
    && (rate.coef < 2 * Pow10(rate.scale) ==> cents <= 1)
  }

  /** Taking VAT out of a gross amount and adding it again is off by at most a cent and half the
      rate's share of one. */
  lemma GrossRoundTrip(gross: int, rate: Dec, cents: nat)
    requires InRange(Abs(gross), rate)
    requires IsHalfUp(cents, Numerator(gross, rate), Pow10(rate.scale) + rate.coef)
    ensures FromGross(gross, rate).Ok? && FromNet(FromGross(gross, rate).value.net, rate).Ok?
    ensures Off(Abs(FromNet(FromGross(gross, rate).value.net, rate).value.gross - gross), rate)
  {
    FromGrossIsExact(gross, rate, cents);
    ProductNonNegative(cents, rate.coef);
    GrossComesBack(gross, rate, cents, cents * rate.coef, RoundHalfUp(cents * rate.coef, rate.scale));
  }

  lemma GrossComesBack(gross: int, rate: Dec, cents: nat, p: nat, v: nat)
    requires InRange(Abs(gross), rate) && Rounded(cents, rate, p, v)
    requires IsHalfUp(cents, Numerator(gross, rate), Pow10(rate.scale) + rate.coef)
    ensures FromNet(WithSign(gross, cents), rate).Ok?
    ensures Off(Abs(FromNet(WithSign(gross, cents), rate).value.gross - gross), rate)
  {
    SmallerInRange(gross, rate, cents);
    FromNetIsExact(WithSign(gross, cents), rate, p, v);
    GrossOff(Abs(gross), rate, cents, p, v, Numerator(gross, rate));
    if cents == 0 {
      VatFits(0, rate, p, v, v * Pow10(rate.scale));
    }
  }

  lemma GrossOff(g: nat, rate: Dec, cents: nat, p: nat, v: nat, num: int)
    requires num == g * Pow10(rate.scale) && Rounded(cents, rate, p, v)
    requires IsHalfUp(cents, num, Pow10(rate.scale) + rate.coef)
    ensures Off(Abs(cents + v - g), rate)
  {
    var s := Pow10(rate.scale);
    var tax := v * s;
    assert num >= 0 by { AtLeastOnce(s, g); }
    assert 2 * p - s < 2 * tax <= 2 * p + s by { VatProducts(cents, rate, p, v); }
    OffBy(g, cents, v, s, rate.coef, num, p, tax);
  }

  lemma SmallerInRange(gross: int, rate: Dec, cents: nat)
    requires InRange(Abs(gross), rate) && IsHalfUp(cents, Numerator(gross, rate), Pow10(rate.scale) + rate.coef)
    ensures InRange(cents, rate)
  {
    NetWithinGross(Abs(gross), Pow10(rate.scale), rate.coef, cents);
    MulMonotone(cents, Abs(gross), Pow10(rate.scale) + rate.coef);
  }

  lemma OffBy(g: nat, n: nat, v: nat, s: nat, c: nat, gross: nat, p: nat, tax: nat)
    requires s > 0 && IsHalfUp(n, gross, s + c)
    requires gross == g * s && p == n * c && tax == v * s && 2 * p - s < 2 * tax <= 2 * p + s
    ensures 2 * (Abs(n + v - g) * s) <= 2 * s + c
    ensures c < 2 * s ==> Abs(n + v - g) <= 1
  {
    HalfUpProducts(n, gross, s, c, n * s, p);
    TermsAddUp(g, n, v, s);
    WithinProducts(n + v - g, s, c, n * s + tax - gross);
  }

  lemma TermsAddUp(g: nat, n: nat, v: nat, s: nat)
    ensures (n + v - g) * s == n * s + v * s - g * s
  {
    Distribute(n, v, s);
    Distribute(n + v, g, s);
  }

  lemma HalfUpProducts(n: nat, num: nat, s: nat, c: nat, net: int, p: int)
    requires IsHalfUp(n, num, s + c) && net == n * s && p == n * c
    ensures 2 * net + 2 * p - s - c <= 2 * num < 2 * net + 2 * p + s + c
  {
    assert (2 * n + 1) * (s + c) == 2 * (n * (s + c)) + s + c;
    assert (2 * n - 1) * (s + c) == 2 * (n * (s + c)) - s - c;
    ProductSplits(n, s, c);
  }

  lemma WithinProducts(d: int, s: nat, c: nat, product: int)
    requires s > 0 && product == d * s && -2 * s - c <= 2 * product <= 2 * s + c
    ensures 2 * (Abs(d) * s) <= 2 * s + c
    ensures c < 2 * s ==> Abs(d) <= 1
  {
    if d < 0 {
      assert Abs(d) * s == -product;
    }
    if Abs(d) >= 2 {
      MulMonotone(2, Abs(d), s);
    }
  }

  /** Every non-negative quotient has a half-up rounding, so the exact net always exists. */
  lemma HalfUpExists(n: nat, d: nat) returns (q: nat)
    requires d > 0
    ensures IsHalfUp(q, n, d)
  {
    DivBracket(2 * n + d, 2 * d);
    q := (2 * n + d) / (2 * d);
    assert q * (2 * d) == 2 * (q * d);
    Distribute(2 * q, 1, d);
    assert 2 * q * d == 2 * (q * d);
  }
}
