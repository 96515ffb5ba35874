/** Commission splits and their reversals: whole cents, rounded towards zero after the
    decimal context has cut the product to 28 significant digits. */
module Commission {
  import opened Wrappers
  import opened Arithmetic
  import opened Decimals

  datatype CommissionError = NegativeAmount | BadDecimal | RateOutOfRange | FractionOutOfRange

  datatype Split = Split(rate: Dec, gross: int, fee: int, settlement: int)

  predicate ValidRate(rate: Dec) {
    0 <= rate.coef <= Pow10(rate.scale)
  }

  predicate ValidFraction(frac: Dec) {
    0 < frac.coef <= Pow10(frac.scale)
  }

  /** The product p / 10^k after the context's rounding, towards zero. */
  function Truncate(p: int, k: nat): int {
    if p >= 0 then DropDigits(RoundSig(p), k) else 0 - DropDigits(RoundSig(-p), k)
  }

  /** Decimal(amount) * f, then to_integral_value(ROUND_DOWN). */
  function TimesDown(amount: int, f: Dec): int
  {
    Truncate(amount * f.coef, f.scale)
  }

  /** CommissionEngine.calculate. */
  function Calculate(defaultRate: Dec, gross: int, tenantRate: Option<DecimalText>): Result<Split, CommissionError> {
    if gross < 0 then
      Err(NegativeAmount)
    else
      match tenantRate
      case Some(Malformed) => Err(BadDecimal)
      case Some(Number(rate)) => Charge(gross, rate)
      case None => Charge(gross, defaultRate)
  }

  function Charge(gross: nat, rate: Dec): Result<Split, CommissionError> {
    if !ValidRate(rate) then
      Err(RateOutOfRange)
    else
      var fee := TimesDown(gross, rate);
      Ok(Split(rate, gross, fee, gross - fee))
  }

  /** CommissionEngine.reverse. */
  function Reverse(split: Split, fraction: DecimalText): Result<Split, CommissionError> {
    match fraction
    case Malformed => Err(BadDecimal)
    case Number(frac) =>
      if !ValidFraction(frac) then
        Err(FractionOutOfRange)
      else
        var gross := TimesDown(split.gross, frac);
        var fee := TimesDown(split.fee, frac);
        Ok(Split(split.rate, gross, fee, gross - fee))
  }

  // ----- what one rounded product is -----

  /** p / 10^k lies so close below the next whole cent (or, with no decimals left in 28 digits,
      the next multiple that they can hold) that 28 digits carry it there: at most half a unit
      of the e digits that do not fit. A tie at that multiple goes to the even neighbour. */
  predicate Carried(p: nat, k: nat) {
    var e := Excess(p);
    var j := if e < k then k else e;
    var gap := Shift(DropDigits(p, j) + 1, j) - p;
    2 * gap < Pow10(e) || (2 * gap == Pow10(e) && (e < k || DropDigits(p, e) % 2 == 1))
  }

  /** With more digits to drop than decimals, the rounding goes down to a multiple that is
      cents below. */
  predicate Sunk(p: nat, k: nat) {
    var e := Excess(p);
    e > k && !Carried(p, k) && Shift(DropDigits(p, e), e - k) < DropDigits(p, k)
  }

  /** The rounded product reaches the next whole cent exactly when it is carried there. */
  lemma CarriedReaches(p: nat, k: nat)
    ensures RoundSig(p) >= Shift(DropDigits(p, k) + 1, k) <==> Carried(p, k)
  {
    var e := Excess(p);
    if e < k {
      CarriedToCent(p, k, e);
    } else {
      CarriedAcross(p, k, e);
      CarriedOnward(p, k, e);
    }
  }

  /** With decimals left, the next whole cent is an even multiple of 10^e. */
  lemma CarriedToCent(p: nat, k: nat, e: nat)
    requires e == Excess(p) < k
    ensures RoundAt(p, e) >= Shift(DropDigits(p, k) + 1, k) <==> Carried(p, k)
  {
    var cent := DropDigits(p, k) + 1;
    ShiftTwice(cent, k - e, e);
    ShiftedIsEven(cent, k - e);
    RoundAtReaches(p, e, Shift(cent, k - e));
  }

  /** Without decimals left, passing a whole cent means passing the next multiple of 10^e. */
  lemma CarriedAcross(p: nat, k: nat, e: nat)
    requires k <= e
    ensures RoundAt(p, e) >= Shift(DropDigits(p, k) + 1, k) <==> RoundAt(p, e) >= Shift(DropDigits(p, e) + 1, e)
  {
    var x, q := Shift(DropDigits(p, e) + 1, e - k), DropDigits(p, k);
    RoundAtBracket(p, e);
    DropDigitsBracket(p, e);
    DropDigitsBracket(p, k);
    ShiftTwice(DropDigits(p, e) + 1, e - k, k);
    if x <= q {
      ShiftMonotone(x, q, k);
    } else {
      ShiftMonotone(q + 1, x, k);
    }
  }

  lemma CarriedOnward(p: nat, k: nat, e: nat)
    requires e == Excess(p) >= k
    ensures RoundAt(p, e) >= Shift(DropDigits(p, e) + 1, e) <==> Carried(p, k)
  {
    NextIsReached(p, e);
  }

  lemma SunkExactly(p: nat, k: nat)
    ensures RoundSig(p) < Shift(DropDigits(p, k), k) <==> Sunk(p, k)
  {
    if Excess(p) <= k {
      NeverSinks(p, k, Excess(p));
    } else {
      SinksPast(p, k, Excess(p));
    }
  }

  lemma NeverSinks(p: nat, k: nat, e: nat)
    requires e <= k
    ensures RoundAt(p, e) >= Shift(DropDigits(p, k), k)
  {
    var q := DropDigits(p, k);
    DropDigitsBracket(p, k);
    ShiftTwice(q, k - e, e);
    RoundAtReaches(p, e, Shift(q, k - e));
  }

  lemma SinksPast(p: nat, k: nat, e: nat)
    requires e == Excess(p) > k
    ensures RoundAt(p, e) < Shift(DropDigits(p, k), k) <==> Sunk(p, k)
  {
    DropDigitsBracket(p, k);
    CarriedOnward(p, k, e);
    CarriedAcross(p, k, e);
    ShiftMonotone(DropDigits(p, k), DropDigits(p, k) + 1, k);
    if !Carried(p, k) {
      MultipleBelow(DropDigits(p, e), DropDigits(p, k), k, e);
    }
  }

  lemma MultipleBelow(m: nat, q: nat, k: nat, e: nat)
    requires k <= e
    ensures Shift(m, e) < Shift(q, k) <==> Shift(m, e - k) < q
  {
    ShiftTwice(m, e - k, k);
    if Shift(m, e - k) < q {
      ShiftMonotone(Shift(m, e - k), q, k);
    } else {
      ShiftMonotone(q, Shift(m, e - k), k);
    }
  }

  /** A share of any amount is the exact share rounded down if and only if its product is
      neither carried to the next cent nor sunk below the last. Up to 10^28 cents none sinks,
      and the one that is carried gains one cent. */
  lemma TimesDownExactly(amount: nat, f: Dec)
    requires f.coef >= 0
    ensures amount * f.coef >= 0
    ensures var p, q := amount * f.coef, DropDigits(amount * f.coef, f.scale);
            && (TimesDown(amount, f) == q <==> !Carried(p, f.scale) && !Sunk(p, f.scale))
            && (Carried(p, f.scale) ==> TimesDown(amount, f) > q)
            && (Sunk(p, f.scale) ==> TimesDown(amount, f) < q)
            && (amount <= LIMIT && ValidRate(f) ==>
                  TimesDown(amount, f) == (if Carried(p, f.scale) then q + 1 else q))
  {
    ProductNonNegative(amount, f.coef);
    CutExactly(amount * f.coef, f.scale);
    if amount <= LIMIT && ValidRate(f) {
      ShareWithin(amount, f);
    }
  }

  lemma CutExactly(p: nat, k: nat)
    ensures DropDigits(RoundSig(p), k) > DropDigits(p, k) <==> Carried(p, k)
    ensures DropDigits(RoundSig(p), k) < DropDigits(p, k) <==> Sunk(p, k)
  {
    var q, t := DropDigits(p, k), DropDigits(RoundSig(p), k);
    DropDigitsBracket(RoundSig(p), k);
    CarriedReaches(p, k);
    SunkExactly(p, k);
    if t < q {
      ShiftMonotone(t + 1, q, k);
    } else {
      ShiftMonotone(q, t, k);
      if t > q {
        ShiftMonotone(q + 1, t, k);
      } else {
        ShiftMonotone(t + 1, q + 1, k);
      }
    }
  }

  /** The share of an amount that 28 digits hold. */
  lemma ShareWithin(amount: nat, f: Dec)
    requires amount <= LIMIT && ValidRate(f)
    ensures 0 <= amount * f.coef
    ensures var p, q := amount * f.coef, DropDigits(amount * f.coef, f.scale);
            && TimesDown(amount, f) == (if Carried(p, f.scale) then q + 1 else q)
            && (Carried(p, f.scale) ==> Shift(q, f.scale) < p)
    ensures 0 <= TimesDown(amount, f) <= amount
  {
    ProductWithin(amount, f);
    RoundedQuotient(amount * f.coef, amount, f.scale);
  }

  lemma ProductWithin(amount: nat, f: Dec)
    requires ValidRate(f)
    ensures 0 <= amount * f.coef <= Shift(amount, f.scale)
  {
    ShiftIsProduct(amount, f.scale);
    MulMonotone(f.coef, Pow10(f.scale), amount);
  }

  lemma RoundedQuotient(p: nat, bound: nat, k: nat)
    requires bound <= LIMIT && p <= Shift(bound, k)
    ensures var q := DropDigits(p, k);
            && DropDigits(RoundSig(p), k) == (if Carried(p, k) then q + 1 else q)
            && (Carried(p, k) ==> Shift(q, k) < p)
    ensures DropDigits(RoundSig(p), k) <= bound
  {
    var q := DropDigits(p, k);
    CarriedReaches(p, k);
    DropDigitsBracket(p, k);
    DropDigitsWithin(p, bound, k);
    WholeNumbersKept(bound, k);
    RoundSigMonotone(p, Shift(bound, k));
    DropDigitsWithin(RoundSig(p), bound, k);
    WholeNumbersKept(q, k);
    RoundSigMonotone(Shift(q, k), p);
    if Shift(q, k) < p {
      NextCent(p, q, bound, k);
    }
  }

  lemma NextCent(p: nat, q: nat, bound: nat, k: nat)
    requires bound <= LIMIT && Shift(q, k) < p <= Shift(bound, k) && p < Shift(q + 1, k)
    requires Shift(q, k) <= RoundSig(p)
    ensures DropDigits(RoundSig(p), k) == if RoundSig(p) >= Shift(q + 1, k) then q + 1 else q
  {
    if bound <= q {
      ShiftMonotone(bound, q, k);
      assert false;
    }
    WholeNumbersKept(q + 1, k);
    RoundSigMonotone(p, Shift(q + 1, k));
    ShiftMonotone(q + 1, q + 2, k);
    if RoundSig(p) >= Shift(q + 1, k) {
      DropDigitsIs(RoundSig(p), k, q + 1);
    } else {
      DropDigitsIs(RoundSig(p), k, q);
    }
  }

  /** The fee is truncated in the tenant's favour exactly when the product is not carried
      to the next cent; a product below 10^28 never is. */
  lemma TruncationFavoursTenantExactly(gross: nat, rate: Dec)
    requires ValidRate(rate)
    ensures var p := gross * rate.coef;
            && (Shift(TimesDown(gross, rate), rate.scale) <= p <==> !Carried(p, rate.scale))
            && (p < LIMIT ==> !Carried(p, rate.scale))
  {
    ProductNonNegative(gross, rate.coef);
    CutAgainstProduct(gross * rate.coef, rate.scale);
  }

  lemma CutAgainstProduct(p: nat, k: nat)
    ensures Shift(DropDigits(RoundSig(p), k), k) <= p <==> !Carried(p, k)
    ensures p < LIMIT ==> !Carried(p, k)
  {
    CutExactly(p, k);
    WithinProduct(p, k, DropDigits(RoundSig(p), k));
    if p < LIMIT {
      ShortIsNotCarried(p, k);
    }
  }

  lemma WithinProduct(p: nat, k: nat, t: int)
    ensures Shift(t, k) <= p <==> t <= DropDigits(p, k)
  {
    DropDigitsBracket(p, k);
    if t <= DropDigits(p, k) {
      ShiftMonotone(t, DropDigits(p, k), k);
    } else {
      ShiftMonotone(DropDigits(p, k) + 1, t, k);
    }
  }

  lemma ShortIsNotCarried(p: nat, k: nat)
    requires p < LIMIT
    ensures !Carried(p, k)
  {
    BelowLimitKept(p);
    CutExactly(p, k);
  }

  /** The product p lies less than a cent off its share t on either side. */
  predicate Brackets(t: int, p: int, k: nat) {
    Shift(t - 1, k) < p < Shift(t + 1, k)
  }

  lemma ShareBracket(amount: nat, f: Dec)
    requires amount <= LIMIT && ValidRate(f)
    ensures Brackets(TimesDown(amount, f), amount * f.coef, f.scale)
  {
    ShareWithin(amount, f);
    QuotientBrackets(amount * f.coef, f.scale, TimesDown(amount, f));
  }

  lemma QuotientBrackets(p: nat, k: nat, t: int)
    requires t == DropDigits(p, k) || (t == DropDigits(p, k) + 1 && Shift(DropDigits(p, k), k) < p)
    ensures Brackets(t, p, k)
  {
    var q: int := DropDigits(p, k);
    DropDigitsBracket(p, k);
    ShiftMonotone(q - 1, q, k);
    ShiftMonotone(q + 1, q + 2, k);
  }

  /** t whole cents of the product p / 10^k: the exact share rounded down, and one cent more
      when the context carries it there. */
  predicate IsShare(t: int, p: nat, k: nat) {
    var exact := if Carried(p, k) then t - 1 else t;
    Shift(exact, k) <= p < Shift(exact + 1, k)
  }

  lemma SharesAreExact(amount: nat, f: Dec)
    requires amount <= LIMIT && ValidRate(f)
    ensures amount * f.coef >= 0 && IsShare(TimesDown(amount, f), amount * f.coef, f.scale)
  {
    ShareWithin(amount, f);
    DropDigitsBracket(amount * f.coef, f.scale);
  }

  /** The rate that a tenant has agreed, or else the platform's. */
  function RateFor(defaultRate: Dec, tenantRate: Option<DecimalText>): DecimalText {
    match tenantRate
    case Some(text) => text
    case None => Number(defaultRate)
  }

  /** A split loses nothing between the two parties. Up to 10^28 cents it charges the tenant's own
      rate (the platform's when there is none): between zero and the whole amount, the exact fee
      rounded down but for a cent that the context can add. */
  lemma ChargeIsBalanced(defaultRate: Dec, gross: int, tenantRate: Option<DecimalText>)
    requires Calculate(defaultRate, gross, tenantRate).Ok?
    ensures var split := Calculate(defaultRate, gross, tenantRate).value;
            && split.gross == gross >= 0 && Number(split.rate) == RateFor(defaultRate, tenantRate) && ValidRate(split.rate)
            && split.fee == TimesDown(gross, split.rate) && split.fee + split.settlement == gross
            && (gross <= LIMIT ==>
                  && 0 <= split.fee <= gross && 0 <= split.settlement <= gross
                  && gross * split.rate.coef >= 0
                  && IsShare(split.fee, gross * split.rate.coef, split.rate.scale))
  {
    var split := Calculate(defaultRate, gross, tenantRate).value;
    if gross <= LIMIT {
      ShareWithin(gross, split.rate);
      SharesAreExact(gross, split.rate);
    }
  }

  /** When a calculation raises, and why. */
  lemma RefusedCharges(defaultRate: Dec, gross: int, tenantRate: Option<DecimalText>)
    ensures var r, rate := Calculate(defaultRate, gross, tenantRate), RateFor(defaultRate, tenantRate);
            && (r == Err(NegativeAmount) <==> gross < 0)
            && (r == Err(BadDecimal) <==> gross >= 0 && rate.Malformed?)
            && (r == Err(RateOutOfRange) <==>
                  gross >= 0 && rate.Number? && !(0 <= rate.value.coef <= Pow10(rate.value.scale)))
            && (r.Err? ==> r.error in {NegativeAmount, BadDecimal, RateOutOfRange})
  {
  }

  /** Charging every valid rate keeps the fee within the amount exactly for the amounts
      that 28 digits do not round up. */
  lemma FeeWithinGrossExactly(gross: nat)
    ensures (forall rate: Dec | ValidRate(rate) :: TimesDown(gross, rate) <= gross) <==> RoundSig(gross) <= gross
  {
    if forall rate: Dec | ValidRate(rate) :: TimesDown(gross, rate) <= gross {
      var one := Dec(1, 0);
      assert ValidRate(one) && TimesDown(gross, one) == RoundSig(gross);
    }
    if RoundSig(gross) <= gross {
      forall rate: Dec | ValidRate(rate)
        ensures TimesDown(gross, rate) <= gross
      {
        FeeWithinGross(gross, rate);
      }
    }
  }

  lemma FeeWithinGross(gross: nat, rate: Dec)
    requires RoundSig(gross) <= gross && ValidRate(rate)
    ensures TimesDown(gross, rate) <= gross
  {
    ProductWithin(gross, rate);
    RoundSigMonotone(gross * rate.coef, Shift(gross, rate.scale));
    RoundSigShifts(gross, rate.scale);
    ShiftMonotone(RoundSig(gross), gross, rate.scale);
    DropDigitsWithin(RoundSig(gross * rate.coef), gross, rate.scale);
  }

  /** "Fee truncated in the tenant's favour" fails beyond 28 digits: one cent at a rate of
      twenty-nine nines is charged in full. */
  lemma TruncationFavoursTenantCounterexample()
    ensures var rate := Dec(99999999999999999999999999999, 29);
            ValidRate(rate) && TimesDown(1, rate) == 1 && 1 * rate.coef < Shift(1, rate.scale)
  {
    var n := 99999999999999999999999999999;
    Pow10OfPrecision();
    ShiftZero(29);
    assert Excess(n) == 1 by {
      assert Excess(9999999999999999999999999999) == 0;
    }
    assert RoundSig(n) == 10 * LIMIT;
    ShiftMonotone(1, 2, 29);
    DropDigitsIs(10 * LIMIT, 29, 1);
  }

  // ----- reversals -----

  /** A settled split: what Calculate can return. */
  predicate Settled(split: Split) {
    0 <= split.fee <= split.gross && split.settlement == split.gross - split.fee
  }

  /** Reversing the whole of a split returns exactly what was settled if and only if 28 digits
      hold its gross and its fee, as they do up to 10^28 cents. */
  lemma FullReversalIsExact(split: Split)
    requires Settled(split)
    ensures Reverse(split, Number(Dec(1, 0))) == Ok(split) <==>
              RoundSig(split.gross) == split.gross && RoundSig(split.fee) == split.fee
    ensures split.gross <= LIMIT ==> Reverse(split, Number(Dec(1, 0))) == Ok(split)
  {
    WholeShare(split.gross);
    WholeShare(split.fee);
    if split.gross <= LIMIT {
      KeptUpToLimit(split.gross);
      KeptUpToLimit(split.fee);
    }
  }

  lemma WholeShare(amount: nat)
    ensures TimesDown(amount, Dec(1, 0)) == RoundSig(amount)
  {
  }

  /** A reversal is accepted exactly for fractions above zero and up to one. It takes back that
      share of the gross and of the fee, rounded down but for a cent that the context can add,
      and keeps the rate and the balance. */
  lemma ReversesExactly(split: Split, fraction: DecimalText)
    requires Settled(split)
    ensures var r := Reverse(split, fraction);
            && (r.Ok? <==> fraction.Number? && 0 < fraction.value.coef <= Pow10(fraction.value.scale))
            && (r.Err? ==> r.error == if fraction.Malformed? then BadDecimal else FractionOutOfRange)
    ensures Reverse(split, fraction).Ok? ==>
              var r, f := Reverse(split, fraction).value, fraction.value;
              && r.rate == split.rate && r.fee + r.settlement == r.gross
              && r.gross == TimesDown(split.gross, f) && r.fee == TimesDown(split.fee, f)
              && split.gross * f.coef >= 0 && split.fee * f.coef >= 0
              && (split.gross <= LIMIT ==>
                    IsShare(r.gross, split.gross * f.coef, f.scale) && IsShare(r.fee, split.fee * f.coef, f.scale))
  {
    if Reverse(split, fraction).Ok? {
      var f := fraction.value;
      ProductNonNegative(split.gross, f.coef);
      ProductNonNegative(split.fee, f.coef);
      if split.gross <= LIMIT {
        SharesAreExact(split.gross, f);
        SharesAreExact(split.fee, f);
      }
    }
  }

  /** One reversal takes back more than the tenant was paid exactly when the exact shares
      already take all of it and the gross product, but not the fee product, is carried
      to the next cent. */
  lemma OverReversalExactly(split: Split, frac: Dec, r: Split, p: nat, q: nat)
    requires Settled(split) && split.gross <= LIMIT && ValidFraction(frac)
    requires p == split.gross * frac.coef && q == split.fee * frac.coef
    requires Reverse(split, Number(frac)) == Ok(r)
    ensures 0 <= r.gross <= split.gross && 0 <= r.fee <= split.fee
    ensures r.settlement > split.settlement <==>
              && DropDigits(p, frac.scale) - DropDigits(q, frac.scale) == split.settlement
              && Carried(p, frac.scale) && !Carried(q, frac.scale)
  {
    RoundedShare(split.gross, frac, p, r.gross);
    RoundedShare(split.fee, frac, q, r.fee);
    ExactSettlementShare(split, frac, p, q);
  }

  lemma RoundedShare(amount: nat, f: Dec, p: nat, t: int)
    requires amount <= LIMIT && ValidFraction(f) && p == amount * f.coef && t == TimesDown(amount, f)
    ensures t == if Carried(p, f.scale) then DropDigits(p, f.scale) + 1 else DropDigits(p, f.scale)
    ensures 0 <= t <= amount
  {
    ShareWithin(amount, f);
  }

  lemma ExactSettlementShare(split: Split, frac: Dec, p: nat, q: nat)
    requires Settled(split) && ValidFraction(frac)
    requires p == split.gross * frac.coef && q == split.fee * frac.coef
    ensures DropDigits(p, frac.scale) - DropDigits(q, frac.scale) <= split.settlement
  {
    var k := frac.scale;
    var a, b := DropDigits(p, k), DropDigits(q, k);
    DropDigitsBracket(p, k);
    DropDigitsBracket(q, k);
    Distribute(split.gross, split.fee, frac.coef);
    ProductWithin(split.settlement, frac);
    ShiftAdds(b + 1, split.settlement, k);
    if a >= b + 1 + split.settlement {
      ShiftMonotone(b + 1 + split.settlement, a, k);
    }
  }

  /** It does happen: 11 cents with a 1 cent fee, reversed by a 28-digit fraction, takes
      11 cents back from a tenant who was paid 10. */
  lemma OverReversalCounterexample()
    ensures var split := Split(Dec(10, 2), 11, 1, 10);
            var frac := Dec(9999999999999999999999999996, 28);
            && Settled(split) && ValidFraction(frac)
            && Reverse(split, Number(frac)) == Ok(Split(Dec(10, 2), 11, 0, 11))
  {
    var frac := Dec(9999999999999999999999999996, 28);
    var n := 109999999999999999999999999956;
    Pow10OfPrecision();
    ShiftIsProduct(11, 28);
    ShiftIsProduct(12, 28);
    assert Excess(n) == 2 by {
      assert Excess(1099999999999999999999999999) == 0;
      assert Excess(10999999999999999999999999995) == 1;
    }
    assert RoundSig(n) == 11 * LIMIT;
    DropDigitsIs(11 * LIMIT, 28, 11);
    assert TimesDown(11, frac) == 11;
    BelowLimitKept(9999999999999999999999999996);
    ShiftZero(28);
    DropDigitsIs(9999999999999999999999999996, 28, 0);
    assert TimesDown(1, frac) == 0;
  }

  // ----- a run of partial reversals -----

  /** The sum of fractions, as a coefficient with k decimals. */
  function WeightSum(fs: seq<Dec>, k: nat): int
    requires forall f <- fs :: f.scale <= k
  {
    if fs == [] then 0 else Weight(fs[0], k) + WeightSum(fs[1..], k)
  }

  /** The exact shares of an amount, as coefficients with k decimals. */
  function Products(amount: int, fs: seq<Dec>, k: nat): (ps: seq<int>)
    requires forall f <- fs :: f.scale <= k
    ensures |ps| == |fs|
  {
    seq(|fs|, i requires 0 <= i < |fs| => amount * Weight(fs[i], k))
  }

  /** The reversals of one split by each of the fractions. */
  function Reversals(split: Split, fs: seq<Dec>): (rs: seq<Split>)
    requires forall f <- fs :: ValidFraction(f)
    ensures |rs| == |fs|
  {
    seq(|fs|, i requires 0 <= i < |fs| => Reverse(split, Number(fs[i])).value)
  }

  function GrossTotal(rs: seq<Split>): int {
    if rs == [] then 0 else rs[0].gross + GrossTotal(rs[1..])
  }

  function FeeTotal(rs: seq<Split>): int {
    if rs == [] then 0 else rs[0].fee + FeeTotal(rs[1..])
  }

  function SettlementTotal(rs: seq<Split>): int {
    if rs == [] then 0 else rs[0].settlement + SettlementTotal(rs[1..])
  }

  /** Trailing zeros of a fraction do not matter: "0.5" reverses what "0.50" does. */
  lemma TrailingZerosIgnored(amount: nat, f: Dec, k: nat)
    requires f.coef >= 0 && f.scale <= k
    ensures TimesDown(amount, Dec(Weight(f, k), k)) == TimesDown(amount, f)
    ensures amount * Weight(f, k) == Shift(amount * f.coef, k - f.scale)
    ensures Weight(f, k) >= 0
  {
    var d, p := k - f.scale, amount * f.coef;
    ShiftProduct(amount, f.coef, d);
    RoundSigShifts(p, d);
    RoundSigShifts(f.coef, d);
    DropShifted(RoundSig(p), f.scale, d);
  }

  lemma {:induction false} DropShifted(n: nat, k: nat, d: nat)
    ensures Shift(n, d) >= 0
    ensures DropDigits(Shift(n, d), k + d) == DropDigits(n, k)
  {
    if d > 0 {
      DropShifted(n, k, d - 1);
      assert Shift(n, d) / 10 == Shift(n, d - 1);
    }
  }

  lemma WeightIsValid(f: Dec, k: nat)
    requires ValidFraction(f) && f.scale <= k
    ensures ValidFraction(Dec(Weight(f, k), k))
  {
    ShiftMonotone(f.coef, Pow10(f.scale), k - f.scale);
    ShiftMonotone(0, f.coef, k - f.scale);
    ShiftZero(k - f.scale);
    ShiftIsProduct(Pow10(f.scale), k - f.scale);
    Pow10Adds(f.scale, k - f.scale);
  }

  /** A share t against its exact product p: at most the context's relative error above,
      less than one cent below. */
  predicate FollowsProduct(t: int, p: int, k: nat) {
    Shift(t, k) * LIMIT <= p * (LIMIT + 5) && p < Shift(t + 1, k)
  }

  lemma ShareFollowsProduct(amount: nat, f: Dec, k: nat, t: int, p: int)
    requires amount <= LIMIT && ValidFraction(f) && f.scale <= k
    requires t == TimesDown(amount, f) && p == amount * Weight(f, k)
    ensures FollowsProduct(t, p, k)
  {
    TrailingZerosIgnored(amount, f, k);
    WeightIsValid(f, k);
    ScaledShareFollowsProduct(amount, Dec(Weight(f, k), k), t, p);
  }

  lemma ScaledShareFollowsProduct(amount: nat, w: Dec, t: int, p: int)
    requires amount <= LIMIT && ValidFraction(w) && t == TimesDown(amount, w) && p == amount * w.coef
    ensures FollowsProduct(t, p, w.scale)
  {
    ShareBracket(amount, w);
    RoundedNearProduct(t, p, w.scale);
  }

  /** ... and no error above when the product fits in 28 digits. */
  lemma {:induction false} ExactShareAgainstProduct(amount: nat, f: Dec, k: nat, t: int, p: int)
    requires f.coef >= 0 && f.scale <= k && amount * f.coef < LIMIT
    requires t == TimesDown(amount, f) && p == amount * Weight(f, k)
    ensures Shift(t, k) <= p
  {
    TrailingZerosIgnored(amount, f, k);
    KeptWhenShifted(amount * f.coef, k - f.scale, p);
    RoundedNearProduct(t, p, k);
  }

  lemma RoundedNearProduct(t: int, p: nat, k: nat)
    requires t == DropDigits(RoundSig(p), k)
    ensures Shift(t, k) * LIMIT <= p * (LIMIT + 5)
    ensures RoundSig(p) == p ==> Shift(t, k) <= p
  {
    RoundSigRelativeError(p);
    DropDigitsBracket(RoundSig(p), k);
  }

  lemma KeptWhenShifted(n: nat, d: nat, p: nat)
    requires n < LIMIT && p == Shift(n, d)
    ensures RoundSig(p) == p
  {
    BelowLimitKept(n);
    RoundSigShifts(n, d);
  }

  lemma {:induction false} SumOfProducts(amount: int, fs: seq<Dec>, k: nat)
    requires forall f <- fs :: f.scale <= k
    ensures Sum(Products(amount, fs, k)) == amount * WeightSum(fs, k)
  {
    if fs != [] {
      SumOfProducts(amount, fs[1..], k);
      assert Products(amount, fs, k)[1..] == Products(amount, fs[1..], k);
      Distribute(Weight(fs[0], k), WeightSum(fs[1..], k), amount);
    }
  }

  /** The totals follow the exact products: ps of the gross, qs of the fee. */
  lemma {:induction false} TotalsFollowProducts(rs: seq<Split>, ps: seq<int>, qs: seq<int>, k: nat)
    requires |rs| == |ps| == |qs|
    requires forall i | 0 <= i < |rs| ::
               && FollowsProduct(rs[i].gross, ps[i], k)
               && FollowsProduct(rs[i].fee, qs[i], k)
               && rs[i].settlement == rs[i].gross - rs[i].fee
    ensures Shift(GrossTotal(rs), k) * LIMIT <= Sum(ps) * (LIMIT + 5)
    ensures Shift(FeeTotal(rs), k) * LIMIT <= Sum(qs) * (LIMIT + 5)
    ensures Sum(qs) <= Shift(FeeTotal(rs) + |rs|, k)
    ensures rs != [] ==> Sum(qs) < Shift(FeeTotal(rs) + |rs|, k)
    ensures GrossTotal(rs) == FeeTotal(rs) + SettlementTotal(rs)
  {
    if rs == [] {
      ShiftZero(k);
    } else {
      var rest := rs[1..];
      TotalsFollowProducts(rest, ps[1..], qs[1..], k);
      ShiftAdds(rs[0].gross, GrossTotal(rest), k);
      ShiftAdds(rs[0].fee, FeeTotal(rest), k);
      ShiftAdds(rs[0].fee + 1, FeeTotal(rest) + |rest|, k);
      assert rs[0].fee + 1 + (FeeTotal(rest) + |rest|) == FeeTotal(rs) + |rs|;
    }
  }

  lemma {:induction false} ExactGrossTotal(rs: seq<Split>, ps: seq<int>, k: nat)
    requires |rs| == |ps| && forall i | 0 <= i < |rs| :: Shift(rs[i].gross, k) <= ps[i]
    ensures Shift(GrossTotal(rs), k) <= Sum(ps)
  {
    if rs == [] {
      ShiftZero(k);
    } else {
      ExactGrossTotal(rs[1..], ps[1..], k);
      ShiftAdds(rs[0].gross, GrossTotal(rs[1..]), k);
    }
  }

  lemma {:induction false} WeightsNonNegative(fs: seq<Dec>, k: nat)
    requires forall f <- fs :: ValidFraction(f) && f.scale <= k
    ensures WeightSum(fs, k) >= 0
  {
    if fs != [] {
      WeightIsValid(fs[0], k);
      WeightsNonNegative(fs[1..], k);
    }
  }

  /** A sum of exact shares stays within the amount. */
  lemma SharesWithin(amount: nat, fs: seq<Dec>, k: nat)
    requires forall f <- fs :: ValidFraction(f) && f.scale <= k
    requires WeightSum(fs, k) <= Pow10(k)
    ensures 0 <= Sum(Products(amount, fs, k)) <= Shift(amount, k)
  {
    SumOfProducts(amount, fs, k);
    WeightsNonNegative(fs, k);
    ShiftIsProduct(amount, k);
    MulMonotone(WeightSum(fs, k), Pow10(k), amount);
  }

  /** x cents cannot exceed amount cents by a whole one when the excess is only the
      context's relative error. */
  lemma {:induction false} ErrorBelowOneCent(x: int, amount: nat, wide: nat, k: nat)
    requires 5 * wide < LIMIT
    requires Shift(x, k) * LIMIT <= Shift(amount, k) * LIMIT + 5 * Shift(wide, k)
    ensures x <= amount
  {
    if x > amount {
      ShiftMonotone(amount + 1, x, k);
      ShiftAdds(amount, 1, k);
      ShiftZero(k);
      ShiftIsProduct(wide, k);
      MulStrict(5 * wide, LIMIT, Pow10(k));
    }
  }

  lemma ReversalsFollowProducts(split: Split, fs: seq<Dec>, k: nat)
    requires Settled(split) && split.gross <= LIMIT
    requires forall f <- fs :: ValidFraction(f) && f.scale <= k
    ensures var rs, ps, qs := Reversals(split, fs), Products(split.gross, fs, k), Products(split.fee, fs, k);
            forall i | 0 <= i < |fs| ::
              && FollowsProduct(rs[i].gross, ps[i], k)
              && FollowsProduct(rs[i].fee, qs[i], k)
              && rs[i].settlement == rs[i].gross - rs[i].fee
  {
    var rs, ps, qs := Reversals(split, fs), Products(split.gross, fs, k), Products(split.fee, fs, k);
    forall i | 0 <= i < |fs|
      ensures FollowsProduct(rs[i].gross, ps[i], k)
      ensures FollowsProduct(rs[i].fee, qs[i], k)
    {
      ShareFollowsProduct(split.gross, fs[i], k, rs[i].gross, ps[i]);
      ShareFollowsProduct(split.fee, fs[i], k, rs[i].fee, qs[i]);
    }
  }

  lemma ExactReversals(split: Split, fs: seq<Dec>, k: nat)
    requires Settled(split)
    requires forall f <- fs :: ValidFraction(f) && f.scale <= k && split.gross * f.coef < LIMIT
    ensures Shift(GrossTotal(Reversals(split, fs)), k) <= Sum(Products(split.gross, fs, k))
  {
    var rs, ps := Reversals(split, fs), Products(split.gross, fs, k);
    forall i | 0 <= i < |fs|
      ensures Shift(rs[i].gross, k) <= ps[i]
    {
      ExactShareAgainstProduct(split.gross, fs[i], k, rs[i].gross, ps[i]);
    }
    ExactGrossTotal(rs, ps, k);
  }

  /** Partial reversals whose fractions (of at most k decimals) add up to at most one never
      take back more gross or more fee than was settled, and overdraw the tenant by at most
      one cent each; when every product fits in 28 digits, by at most one cent for each but
      one of them. */
  lemma PartialReversalsStayWithin(split: Split, fs: seq<Dec>, k: nat)
    requires Settled(split) && 5 * split.gross < LIMIT
    requires fs != [] && (forall f <- fs :: ValidFraction(f) && f.scale <= k)
    requires WeightSum(fs, k) <= Pow10(k)
    ensures var rs := Reversals(split, fs);
            && GrossTotal(rs) <= split.gross
            && FeeTotal(rs) <= split.fee
            && GrossTotal(rs) == FeeTotal(rs) + SettlementTotal(rs)
            && split.settlement - SettlementTotal(rs) >= -|fs|
            && ((forall f <- fs :: split.gross * f.coef < LIMIT) ==>
                  split.settlement - SettlementTotal(rs) >= -(|fs| - 1))
  {
    var rs, ps, qs := Reversals(split, fs), Products(split.gross, fs, k), Products(split.fee, fs, k);
    ReversalsFollowProducts(split, fs, k);
    TotalsFollowProducts(rs, ps, qs, k);
    TotalWithin(GrossTotal(rs), split.gross, fs, k);
    TotalWithin(FeeTotal(rs), split.fee, fs, k);
    SettlementOverdraw(rs, ps, qs, split, fs, k);
  }

  lemma TotalWithin(total: int, amount: nat, fs: seq<Dec>, k: nat)
    requires 5 * amount < LIMIT
    requires forall f <- fs :: ValidFraction(f) && f.scale <= k
    requires WeightSum(fs, k) <= Pow10(k)
    requires Shift(total, k) * LIMIT <= Sum(Products(amount, fs, k)) * (LIMIT + 5)
    ensures total <= amount
  {
    SharesWithin(amount, fs, k);
    ErrorBelowOneCent(total, amount, amount, k);
  }

  lemma {:induction false} SettlementOverdraw(rs: seq<Split>, ps: seq<int>, qs: seq<int>, split: Split, fs: seq<Dec>, k: nat)
    requires Settled(split) && 5 * split.gross < LIMIT && fs != []
    requires forall f <- fs :: ValidFraction(f) && f.scale <= k
    requires WeightSum(fs, k) <= Pow10(k)
    requires rs == Reversals(split, fs) && ps == Products(split.gross, fs, k) && qs == Products(split.fee, fs, k)
    requires Shift(GrossTotal(rs), k) * LIMIT <= Sum(ps) * (LIMIT + 5)
    requires Sum(qs) < Shift(FeeTotal(rs) + |rs|, k)
    requires GrossTotal(rs) == FeeTotal(rs) + SettlementTotal(rs)
    ensures SettlementTotal(rs) <= split.settlement + |rs|
    ensures (forall f <- fs :: split.gross * f.coef < LIMIT) ==> SettlementTotal(rs) <= split.settlement + |rs| - 1
  {
    SettlementProducts(split, fs, k);
    SharesWithin(split.gross, fs, k);
    if forall f <- fs :: split.gross * f.coef < LIMIT {
      ExactReversals(split, fs, k);
    }
    Overdraw(GrossTotal(rs), FeeTotal(rs) + |rs|, Sum(ps), Sum(qs), split, k);
  }

  lemma SettlementProducts(split: Split, fs: seq<Dec>, k: nat)
    requires Settled(split) && (forall f <- fs :: ValidFraction(f) && f.scale <= k)
    requires WeightSum(fs, k) <= Pow10(k)
    ensures Sum(Products(split.gross, fs, k)) - Sum(Products(split.fee, fs, k)) <= Shift(split.settlement, k)
  {
    SumOfProducts(split.gross, fs, k);
    SumOfProducts(split.fee, fs, k);
    SumOfProducts(split.settlement, fs, k);
    Distribute(split.fee, split.settlement, WeightSum(fs, k));
    SharesWithin(split.settlement, fs, k);
  }

  /** g and f bound the reversed gross and fee against the exact products p and q. */
  lemma Overdraw(g: int, f: int, p: int, q: int, split: Split, k: nat)
    requires Settled(split) && 5 * split.gross < LIMIT
    requires p <= Shift(split.gross, k) && p - q <= Shift(split.settlement, k)
    requires Shift(g, k) * LIMIT <= p * (LIMIT + 5) && q < Shift(f, k)
    ensures g - f <= split.settlement
    ensures Shift(g, k) <= p ==> g - f < split.settlement
  {
    ShiftAdds(g - f, f, k);
    assert g - f + f == g;
    ErrorBelowOneCent(g - f, split.settlement, split.gross, k);
    if g - f >= split.settlement {
      ShiftMonotone(split.settlement, g - f, k);
    }
  }

  // ----- many settlements at one rate -----

  /** The splits charge this rate on amounts that 28 digits hold. */
  ghost predicate AtRate(splits: seq<Split>, rate: Dec) {
    ValidRate(rate) && forall s <- splits :: 0 <= s.gross <= LIMIT && s.fee == TimesDown(s.gross, rate)
  }

  /** The fees of n settlements at a common rate are together less than n cents off the
      rate of their gross total; never above it when the products fit in 28 digits. */
  lemma CommonRateFees(splits: seq<Split>, rate: Dec)
    requires splits != [] && AtRate(splits, rate)
    ensures Shift(FeeTotal(splits) - |splits|, rate.scale) < GrossTotal(splits) * rate.coef
              < Shift(FeeTotal(splits) + |splits|, rate.scale)
    ensures (forall s <- splits :: s.gross * rate.coef < LIMIT) ==>
              Shift(FeeTotal(splits), rate.scale) <= GrossTotal(splits) * rate.coef
  {
    FeesBracket(splits, rate);
    if forall s <- splits :: s.gross * rate.coef < LIMIT {
      FeesBelow(splits, rate);
    }
  }

  lemma OneMoreAtRate(splits: seq<Split>, c: int)
    requires splits != []
    ensures GrossTotal(splits) * c == splits[0].gross * c + GrossTotal(splits[1..]) * c
    ensures FeeTotal(splits) == splits[0].fee + FeeTotal(splits[1..])
  {
    Distribute(splits[0].gross, GrossTotal(splits[1..]), c);
  }

  lemma {:induction false} FeesBracket(splits: seq<Split>, rate: Dec)
    requires splits != [] && AtRate(splits, rate)
    ensures Shift(FeeTotal(splits) - |splits|, rate.scale) < GrossTotal(splits) * rate.coef
              < Shift(FeeTotal(splits) + |splits|, rate.scale)
    decreases |splits|
  {
    var s, rest := splits[0], splits[1..];
    ShareBracket(s.gross, rate);
    OneMoreAtRate(splits, rate.coef);
    if rest != [] {
      FeesBracket(rest, rate);
      FeesAdd(s.fee, s.gross * rate.coef, FeeTotal(rest), GrossTotal(rest) * rate.coef, |rest|, rate.scale);
    }
  }

  lemma {:induction false} FeesBelow(splits: seq<Split>, rate: Dec)
    requires AtRate(splits, rate) && forall s <- splits :: s.gross * rate.coef < LIMIT
    ensures Shift(FeeTotal(splits), rate.scale) <= GrossTotal(splits) * rate.coef
    decreases |splits|
  {
    if splits == [] {
      ShiftZero(rate.scale);
    } else {
      TruncationFavoursTenantExactly(splits[0].gross, rate);
      OneMoreAtRate(splits, rate.coef);
      FeesBelow(splits[1..], rate);
      ShiftAdds(splits[0].fee, FeeTotal(splits[1..]), rate.scale);
    }
  }

  /** One more fee, less than a cent off its product, and n fees together less than n cents off
      theirs. */
  lemma FeesAdd(fee: int, p: int, fees: int, ps: int, n: nat, k: nat)
    requires Brackets(fee, p, k) && Shift(fees - n, k) < ps < Shift(fees + n, k)
    ensures Shift(fee + fees - (n + 1), k) < p + ps < Shift(fee + fees + (n + 1), k)
  {
    ShiftAdds(fee - 1, fees - n, k);
    ShiftAdds(fee + 1, fees + n, k);
    assert fee - 1 + (fees - n) == fee + fees - (n + 1) && fee + 1 + (fees + n) == fee + fees + (n + 1);
  }
}
