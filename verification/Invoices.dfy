/** VAT rates with effective dates, and the totals of an invoice over such rates. */
module Invoices {
  import opened Wrappers
  import opened Arithmetic
  import opened Decimals
  import opened Vat

  /** The rates of the table are never negative. */
  type Rate = d: Dec | d.coef >= 0 witness Dec(0, 0)

  datatype VatRate = VatRate(rate: Rate, effectiveFrom: int)

  datatype Line = Line(quantity: int, unitPrice: int, country: string, date: int)

  // ----- rates -----

  /** The scan of get_vat_rate over one country's list. */
  function RateOn(rates: seq<VatRate>, date: int): Result<Rate, VatError> {
    if rates == [] then Err(NoRates)
    else if date >= rates[0].effectiveFrom || |rates| == 1 then Ok(rates[0].rate)
    else RateOn(rates[1..], date)
  }

  function GetVatRate(table: map<string, seq<VatRate>>, country: string, date: int): Result<Rate, VatError> {
    if country !in table then Err(UnknownCountry) else RateOn(table[country], date)
  }

  /** A lookup fails exactly for a country without rates, and says which case it is. */
  lemma RateLookupExactly(table: map<string, seq<VatRate>>, country: string, date: int)
    ensures var r := GetVatRate(table, country, date);
            && (r == Err(UnknownCountry) <==> country !in table)
            && (r == Err(NoRates) <==> country in table && table[country] == [])
            && (r.Ok? <==> country in table && table[country] != [])
            && (r.Ok? ==> exists e :: e in table[country] && r.value == e.rate)
  {
    if country in table && table[country] != [] {
      var i := ScanStops(table[country], date);
      assert table[country][i] in table[country];
    }
  }

  ghost predicate NewestFirst(rates: seq<VatRate>) {
    forall i, j | 0 <= i < j < |rates| :: rates[i].effectiveFrom > rates[j].effectiveFrom
  }

  /** e is in force on the date: the latest rate effective by then, or, before all of them,
      the oldest one. */
  ghost predicate InForce(rates: seq<VatRate>, date: int, e: VatRate) {
    && e in rates
    && if exists r <- rates :: r.effectiveFrom <= date
       then e.effectiveFrom <= date && forall r <- rates | r.effectiveFrom <= date :: r.effectiveFrom <= e.effectiveFrom
       else forall r <- rates :: e.effectiveFrom <= r.effectiveFrom
  }

  lemma {:induction false} ScanStops(rates: seq<VatRate>, date: int) returns (i: nat)
    requires rates != []
    ensures i < |rates| && RateOn(rates, date) == Ok(rates[i].rate)
    ensures forall j | 0 <= j < i :: date < rates[j].effectiveFrom
    ensures rates[i].effectiveFrom <= date || i == |rates| - 1
  {
    if date >= rates[0].effectiveFrom || |rates| == 1 {
      i := 0;
    } else {
      var k := ScanStops(rates[1..], date);
      i := k + 1;
      forall j | 0 <= j < i
        ensures date < rates[j].effectiveFrom
      {
        assert j > 0 ==> rates[j] == rates[1..][j - 1];
      }
    }
  }

  /** On a newest-first list the scan finds the one rate in force. */
  lemma RateOnIsInForce(rates: seq<VatRate>, date: int) returns (e: VatRate)
    requires rates != [] && NewestFirst(rates)
    ensures InForce(rates, date, e) && RateOn(rates, date) == Ok(e.rate)
    ensures forall other :: InForce(rates, date, other) ==> other == e
  {
    var i := ScanStops(rates, date);
    e := rates[i];
    forall r | r in rates
      ensures r.effectiveFrom <= date ==> r.effectiveFrom <= e.effectiveFrom <= date
      ensures date < e.effectiveFrom ==> e.effectiveFrom <= r.effectiveFrom
      ensures r.effectiveFrom == e.effectiveFrom ==> r == e
    {
      var j :| 0 <= j < |rates| && rates[j] == r;
    }
  }

  /** Rates that start later never change the answer for an earlier date. */
  lemma {:induction false} NewerRatesAreNotRetroactive(newer: seq<VatRate>, rates: seq<VatRate>, date: int)
    requires rates != [] && forall r <- newer :: date < r.effectiveFrom
    ensures RateOn(newer + rates, date) == RateOn(rates, date)
  {
    if newer == [] {
      assert newer + rates == rates;
    } else {
      assert (newer + rates)[0] in newer;
      assert (newer + rates)[1..] == newer[1..] + rates;
      NewerRatesAreNotRetroactive(newer[1..], rates, date);
    }
  }

  // ----- invoice lines -----

  /** unit_price_net times quantity. */
  function LineNet(line: Line): int {
    line.unitPrice * line.quantity
  }

  /** InvoiceLineItem.vat_calculation. */
  function LineVat(table: map<string, seq<VatRate>>, line: Line): Result<VatCalculation, VatError> {
    match GetVatRate(table, line.country, line.date)
    case Err(e) => Err(e)
    case Ok(rate) => FromNet(RoundCents(LineNet(line)), rate)
  }

  /** The line's country has a rate list, and the amount is in range for the rate found. */
  predicate Regular(table: map<string, seq<VatRate>>, line: Line) {
    var rate := GetVatRate(table, line.country, line.date);
    rate.Ok? && InRange(Abs(LineNet(line)), rate.value)
  }

  /** The rate of a line: the one in force on its date. */
  function RateOf(table: map<string, seq<VatRate>>, line: Line): Rate
    requires Regular(table, line)
  {
    GetVatRate(table, line.country, line.date).value
  }

  /** A calculation on a whole-cent net amount in range. */
  predicate Computed(c: VatCalculation) {
    InRange(Abs(c.net), c.rate) && FromNet(c.net, c.rate) == Ok(c)
  }

  /** A line of a known country with an amount in range is calculated: its net amount is price
      times quantity, its rate the one looked up for its date. */
  lemma LineVatIs(table: map<string, seq<VatRate>>, line: Line)
    requires Regular(table, line)
    ensures LineVat(table, line).Ok? && Computed(LineVat(table, line).value)
    ensures LineVat(table, line).value.net == LineNet(line) == line.unitPrice * line.quantity
    ensures LineVat(table, line).value.rate == RateOf(table, line)
  {
    var net, rate := LineNet(line), RateOf(table, line);
    if net != 0 {
      RangeHolds(Abs(net), rate, Abs(net) * Pow10(rate.scale), Abs(net) * rate.coef);
    }
    BelowLimitKept(Abs(net));
    ProductNonNegative(Abs(net), rate.coef);
    FromNetIsExact(net, rate, Abs(net) * rate.coef, RoundHalfUp(Abs(net) * rate.coef, rate.scale));
  }

  lemma LineRateIsInForce(table: map<string, seq<VatRate>>, line: Line) returns (e: VatRate)
    requires Regular(table, line) && NewestFirst(table[line.country])
    ensures InForce(table[line.country], line.date, e)
    ensures LineVat(table, line).Ok? && LineVat(table, line).value.rate == e.rate
  {
    LineVatIs(table, line);
    e := RateOnIsInForce(table[line.country], line.date);
  }

  /** One line's VAT is within half a cent of its net amount times the rate in force. */
  lemma LineVatError(table: map<string, seq<VatRate>>, line: Line, k: nat)
    requires Regular(table, line) && RateOf(table, line).scale <= k
    ensures LineVat(table, line).Ok?
    ensures Abs(2 * (Shift(LineVat(table, line).value.vat, k) - LineNet(line) * Weight(RateOf(table, line), k))) <= Pow10(k)
  {
    LineVatIs(table, line);
    ComputedVatError(LineVat(table, line).value, k);
  }

  lemma {:induction false} ComputedVatError(c: VatCalculation, k: nat)
    requires Computed(c) && c.rate.scale <= k
    ensures Abs(2 * (Shift(c.vat, k) - c.net * Weight(c.rate, k))) <= Pow10(k)
  {
    var s, n := c.rate.scale, Abs(c.net);
    ProductNonNegative(n, c.rate.coef);
    var p := n * c.rate.coef;
    var v := RoundHalfUp(p, s);
    FromNetIsExact(c.net, c.rate, p, v);
    VatBracket(p, s, v);
    ShiftDistance(v, p, s, k - s);
    ShiftProduct(n, c.rate.coef, k - s);
    ShiftNegates(v, k);
    SignedProduct(c.net, Weight(c.rate, k));
  }

  lemma SignedProduct(x: int, w: int)
    ensures x < 0 ==> x * w == -(Abs(x) * w)
  {
  }

  /** Appending zeros scales a distance of at most half a unit. */
  lemma {:induction false} ShiftDistance(v: nat, p: nat, s: nat, d: nat)
    requires Abs(2 * (Shift(v, s) - p)) <= Pow10(s)
    ensures Abs(2 * (Shift(v, s + d) - Shift(p, d))) <= Pow10(s + d)
  {
    if d > 0 {
      ShiftDistance(v, p, s, d - 1);
    }
  }

  // ----- invoice totals -----

  /** The calculations of the lines, or the error that the first of them raises. */
  function Calculations(table: map<string, seq<VatRate>>, lines: seq<Line>): Result<seq<VatCalculation>, VatError> {
    if lines == [] then Ok([])
    else
      match LineVat(table, lines[0])
      case Err(e) => Err(e)
      case Ok(c) =>
        match Calculations(table, lines[1..])
        case Err(e) => Err(e)
        case Ok(cs) => Ok([c] + cs)
  }

  /** Python's sum(xs, Decimal(0)): every partial sum is rounded to 28 digits. */
  function Accumulate(total: int, xs: seq<int>): int
    decreases |xs|
  {
    if xs == [] then total else Accumulate(RoundCents(total + xs[0]), xs[1..])
  }

  function Nets(cs: seq<VatCalculation>): seq<int> {
    seq(|cs|, i requires 0 <= i < |cs| => cs[i].net)
  }

  function Vats(cs: seq<VatCalculation>): seq<int> {
    seq(|cs|, i requires 0 <= i < |cs| => cs[i].vat)
  }

  datatype Totals = Totals(net: int, vat: int, gross: int)

  /** total_net, total_vat and total_gross. */
  function InvoiceTotals(table: map<string, seq<VatRate>>, lines: seq<Line>): Result<Totals, VatError> {
    match Calculations(table, lines)
    case Err(e) => Err(e)
    case Ok(cs) =>
      var net, vat := Accumulate(0, Nets(cs)), Accumulate(0, Vats(cs));
      Ok(Totals(net, vat, RoundCents(net + vat)))
  }

  function AbsSum(xs: seq<int>): nat {
    if xs == [] then 0 else Abs(xs[0]) + AbsSum(xs[1..])
  }

  ghost predicate AllRegular(table: map<string, seq<VatRate>>, lines: seq<Line>) {
    forall i | 0 <= i < |lines| :: Regular(table, lines[i])
  }

  /** The sum of price times quantity over the lines. */
  function NetSum(lines: seq<Line>): int {
    if lines == [] then 0 else LineNet(lines[0]) + NetSum(lines[1..])
  }

  /** The sum of the gross amounts of the lines' own calculations. */
  function GrossSum(cs: seq<VatCalculation>): int {
    if cs == [] then 0 else cs[0].gross + GrossSum(cs[1..])
  }

  /** The exact VAT of the lines, as a coefficient with k decimals of a cent. */
  ghost function ExactVat(table: map<string, seq<VatRate>>, lines: seq<Line>, k: nat): int
    requires AllRegular(table, lines) && forall i | 0 <= i < |lines| :: RateOf(table, lines[i]).scale <= k
  {
    if lines == [] then 0
    else LineNet(lines[0]) * Weight(RateOf(table, lines[0]), k) + ExactVat(table, lines[1..], k)
  }

  /** Partial sums below 10^28 cents are exact. */
  lemma {:induction false} AccumulateIsSum(total: int, xs: seq<int>)
    requires Abs(total) + AbsSum(xs) < LIMIT
    ensures Accumulate(total, xs) == total + Sum(xs)
    decreases |xs|
  {
    if xs != [] {
      BelowLimitKept(Abs(total + xs[0]));
      AccumulateIsSum(total + xs[0], xs[1..]);
    }
  }

  lemma ComputedAddsUp(c: VatCalculation)
    requires Computed(c)
    ensures c.gross == c.net + c.vat
  {
    ProductNonNegative(Abs(c.net), c.rate.coef);
    FromNetIsExact(c.net, c.rate, Abs(c.net) * c.rate.coef, RoundHalfUp(Abs(c.net) * c.rate.coef, c.rate.scale));
  }

  lemma LineAddsUp(table: map<string, seq<VatRate>>, line: Line) returns (c: VatCalculation)
    requires Regular(table, line)
    ensures LineVat(table, line) == Ok(c) && c.net == LineNet(line) && c.gross == c.net + c.vat
  {
    LineVatIs(table, line);
    c := LineVat(table, line).value;
    ComputedAddsUp(c);
  }

  lemma SumsOneMore(c: VatCalculation, rest: seq<VatCalculation>)
    ensures Sum(Nets([c] + rest)) == c.net + Sum(Nets(rest))
    ensures Sum(Vats([c] + rest)) == c.vat + Sum(Vats(rest))
    ensures GrossSum([c] + rest) == c.gross + GrossSum(rest)
  {
    var cs := [c] + rest;
    assert cs[1..] == rest && Nets(cs)[1..] == Nets(rest) && Vats(cs)[1..] == Vats(rest);
  }

  lemma {:induction false} SumWithinAbsSum(xs: seq<int>)
    ensures Abs(Sum(xs)) <= AbsSum(xs)
    decreases |xs|
  {
    if xs != [] {
      SumWithinAbsSum(xs[1..]);
    }
  }

  lemma {:induction false} LinesAddUp(table: map<string, seq<VatRate>>, lines: seq<Line>) returns (cs: seq<VatCalculation>)
    requires AllRegular(table, lines)
    ensures Calculations(table, lines) == Ok(cs) && |cs| == |lines|
    ensures forall i | 0 <= i < |lines| :: LineVat(table, lines[i]) == Ok(cs[i])
    ensures Sum(Nets(cs)) == NetSum(lines) && Sum(Nets(cs)) + Sum(Vats(cs)) == GrossSum(cs)
  {
    cs := [];
    if lines != [] {
      var c := LineAddsUp(table, lines[0]);
      var rest := LinesAddUp(table, lines[1..]);
      cs := [c] + rest;
      SumsOneMore(c, rest);
    }
  }

  /** The totals of an invoice: the sum of price times quantity, and of the lines' own VAT and
      gross amounts, although the code rounds every partial sum. */
  lemma TotalsAddUp(table: map<string, seq<VatRate>>, lines: seq<Line>) returns (cs: seq<VatCalculation>)
    requires AllRegular(table, lines)
    ensures Calculations(table, lines) == Ok(cs) && |cs| == |lines|
    ensures forall i | 0 <= i < |lines| :: LineVat(table, lines[i]) == Ok(cs[i])
    ensures AbsSum(Nets(cs)) + AbsSum(Vats(cs)) < LIMIT ==>
              InvoiceTotals(table, lines) == Ok(Totals(NetSum(lines), Sum(Vats(cs)), GrossSum(cs)))
  {
    cs := LinesAddUp(table, lines);
    if AbsSum(Nets(cs)) + AbsSum(Vats(cs)) < LIMIT {
      ColumnsAddUp(Nets(cs), Vats(cs));
    }
  }

  lemma ColumnsAddUp(nets: seq<int>, vats: seq<int>)
    requires AbsSum(nets) + AbsSum(vats) < LIMIT
    ensures Accumulate(0, nets) == Sum(nets) && Accumulate(0, vats) == Sum(vats)
    ensures RoundCents(Sum(nets) + Sum(vats)) == Sum(nets) + Sum(vats)
  {
    SumWithinAbsSum(nets);
    SumWithinAbsSum(vats);
    AccumulateIsSum(0, nets);
    AccumulateIsSum(0, vats);
    BelowLimitKept(Abs(Sum(nets) + Sum(vats)));
  }

  /** An invoice raises what its first line that raises does, and otherwise has totals. */
  lemma {:induction false} InvoiceRaisesExactly(table: map<string, seq<VatRate>>, lines: seq<Line>)
    ensures InvoiceTotals(table, lines).Ok? <==> forall i | 0 <= i < |lines| :: LineVat(table, lines[i]).Ok?
    ensures InvoiceTotals(table, lines).Err? ==>
              exists i :: 0 <= i < |lines| && LineVat(table, lines[i]) == Err(InvoiceTotals(table, lines).error)
                          && forall j | 0 <= j < i :: LineVat(table, lines[j]).Ok?
  {
    if lines != [] && LineVat(table, lines[0]).Ok? {
      InvoiceRaisesExactly(table, lines[1..]);
      assert forall i | 0 <= i < |lines| - 1 :: lines[1..][i] == lines[i + 1];
      if InvoiceTotals(table, lines).Err? {
        var i :| 0 <= i < |lines| - 1 && LineVat(table, lines[1..][i]) == Err(InvoiceTotals(table, lines).error)
                 && forall j | 0 <= j < i :: LineVat(table, lines[1..][j]).Ok?;
        FirstRaises(table, lines, i + 1);
      }
    }
  }

  lemma FirstRaises(table: map<string, seq<VatRate>>, lines: seq<Line>, i: nat)
    requires 0 < i < |lines| && LineVat(table, lines[0]).Ok?
    requires forall j | 0 <= j < i - 1 :: LineVat(table, lines[1..][j]).Ok?
    ensures forall j | 0 <= j < i :: LineVat(table, lines[j]).Ok?
  {
    forall j | 0 <= j < i
      ensures LineVat(table, lines[j]).Ok?
    {
      if j > 0 {
        assert lines[j] == lines[1..][j - 1];
      }
    }
  }

  /** The VAT of n lines is within n / 2 cents of the exact sum of rate in force times net. */
  lemma {:induction false} LinesVatError(table: map<string, seq<VatRate>>, lines: seq<Line>, k: nat)
    requires AllRegular(table, lines) && forall i | 0 <= i < |lines| :: RateOf(table, lines[i]).scale <= k
    ensures Calculations(table, lines).Ok?
    ensures var distance := 2 * (Shift(Sum(Vats(Calculations(table, lines).value)), k) - ExactVat(table, lines, k));
            -Shift(|lines|, k) <= distance <= Shift(|lines|, k)
  {
    if lines == [] {
      ShiftZero(k);
    } else {
      LineVatError(table, lines[0], k);
      LinesVatError(table, lines[1..], k);
      VatOneMore(table, lines);
      ErrorsAdd(LineVat(table, lines[0]).value.vat, LineNet(lines[0]) * Weight(RateOf(table, lines[0]), k),
                Sum(Vats(Calculations(table, lines[1..]).value)), ExactVat(table, lines[1..], k), |lines[1..]|, k);
    }
  }

  lemma VatOneMore(table: map<string, seq<VatRate>>, lines: seq<Line>)
    requires lines != [] && LineVat(table, lines[0]).Ok? && Calculations(table, lines[1..]).Ok?
    ensures Calculations(table, lines).Ok?
    ensures Sum(Vats(Calculations(table, lines).value)) ==
              LineVat(table, lines[0]).value.vat + Sum(Vats(Calculations(table, lines[1..]).value))
  {
    SumsOneMore(LineVat(table, lines[0]).value, Calculations(table, lines[1..]).value);
  }

  lemma ErrorsAdd(vat: int, exact: int, vats: int, exacts: int, n: nat, k: nat)
    requires Abs(2 * (Shift(vat, k) - exact)) <= Pow10(k)
    requires -Shift(n, k) <= 2 * (Shift(vats, k) - exacts) <= Shift(n, k)
    ensures -Shift(1 + n, k) <= 2 * (Shift(vat + vats, k) - (exact + exacts)) <= Shift(1 + n, k)
  {
    ShiftAdds(vat, vats, k);
    ShiftAdds(1, n, k);
    ShiftZero(k);
  }

  /** ... and so is the invoice's total VAT. */
  lemma TotalVatError(table: map<string, seq<VatRate>>, lines: seq<Line>, k: nat, totals: Totals)
    requires AllRegular(table, lines) && forall i | 0 <= i < |lines| :: RateOf(table, lines[i]).scale <= k
    requires InvoiceTotals(table, lines) == Ok(totals)
    requires var cs := Calculations(table, lines).value; AbsSum(Nets(cs)) + AbsSum(Vats(cs)) < LIMIT
    ensures var distance := 2 * (Shift(totals.vat, k) - ExactVat(table, lines, k));
            -Shift(|lines|, k) <= distance <= Shift(|lines|, k)
  {
    var cs := TotalsAddUp(table, lines);
    LinesVatError(table, lines, k);
  }
}
