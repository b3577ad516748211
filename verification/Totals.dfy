/** What the text of an accumulated total denotes: the sum, over the rationals, of the numbers that were added. */
module Totals {
  import opened Prelude
  import opened Decimal
  import opened DecimalText

  /** The number an amount stands for, nothing where it is missing or does not parse. */
  ghost function Amount(term: Term): real {
    if term.Some? then Value(term.value) else 0.0
  }

  ghost function AmountSum(terms: seq<Term>): real {
    if terms == [] then 0.0 else AmountSum(terms[..|terms| - 1]) + Amount(terms[|terms| - 1])
  }

  lemma SumOverOne(x: int, y: int, p: int)
    requires p > 0
    ensures (x + y) as real / p as real == x as real / p as real + y as real / p as real
  {
    var q := p as real;
    assert (x + y) as real == x as real + y as real;
    assert (x as real / q + y as real / q) * q == x as real + y as real;
    CrossMultiply((x + y) as real, q, x as real / q + y as real / q, 1.0);
  }

  lemma AmountAtScale(term: Term, scale: nat)
    requires ScaleOf(term) <= scale
    ensures Value(Decimal(Contribution(term, scale), scale)) == Amount(term)
  {
    match term
    case None =>
      assert 0.0 / Pow10(scale) as real == 0.0;
    case Some(d) =>
      Pow10Sum(d.scale, scale - d.scale);
      SwapFactors(d.units, Pow10(d.scale), Pow10(scale - d.scale));
      ValueCross(Decimal(Contribution(term, scale), scale), d);
      assert d.scale + (scale - d.scale) == scale;
  }

  /** The integer sum at any sufficient scale is that sum of numbers. */
  lemma {:induction false} SumIsAmountSum(terms: seq<Term>, scale: nat)
    requires MaxScale(terms) <= scale
    ensures Value(Decimal(Sum(terms, scale), scale)) == AmountSum(terms)
  {
    if terms == [] {
      assert 0.0 / Pow10(scale) as real == 0.0;
    } else {
      var init, last := terms[..|terms| - 1], terms[|terms| - 1];
      SumIsAmountSum(init, scale);
      AmountAtScale(last, scale);
      SumOverOne(Sum(init, scale), Contribution(last, scale), Pow10(scale));
    }
  }

  /** The sum, written with `scale` decimals, stays below 2^127. */
  ghost predicate Fits(sum: real, scale: nat) {
    -(I128_LIMIT as real) < sum * Pow10(scale) as real < I128_LIMIT as real
  }

  lemma RescaleBounds(s: int, p: nat, limit: int)
    requires p > 0 && -limit < s * p < limit
    ensures -limit < s < limit
  {
    if s >= 0 {
      assert s * p >= s by { assert s * (p - 1) >= 0; }
    } else {
      assert s * p <= s by { assert -s * (p - 1) >= 0; }
    }
  }

  lemma NumeratorBounds(units: int, p: nat, sum: real, limit: int)
    requires p > 0 && units as real / p as real == sum && -(limit as real) < sum * p as real < limit as real
    ensures -limit < units < limit
  {
    assert units as real == sum * p as real;
  }

  lemma FittingUnits(units: int, scale: nat, sum: real)
    requires Value(Decimal(units, scale)) == sum && Fits(sum, scale)
    ensures -I128_LIMIT < units < I128_LIMIT
  {
    NumeratorBounds(units, Pow10(scale), sum, I128_LIMIT);
  }

  lemma FittingSum(terms: seq<Term>, scale: nat)
    requires MaxScale(terms) <= scale && Fits(AmountSum(terms), scale)
    ensures -I128_LIMIT < Sum(terms, MaxScale(terms)) < I128_LIMIT
  {
    var s, total := Sum(terms, MaxScale(terms)), Sum(terms, scale);
    SumIsAmountSum(terms, scale);
    FittingUnits(total, scale, AmountSum(terms));
    Rescale(terms, MaxScale(terms), scale);
    var p := Pow10(scale - MaxScale(terms));
    RescaleBounds(s, p, I128_LIMIT);
  }

  lemma PrintedValue(d: Decimal)
    requires -I128_LIMIT < d.units < I128_LIMIT && d.scale < U32_LIMIT
    ensures ParseDecimal(ToText(d)).Some? && Amount(ParseDecimal(ToText(d))) == Value(d)
  {
    ParseOfText(d);
  }

  /** The printed total parses back to the sum of the amounts, unless that overflows. */
  lemma TotalDenotes(terms: seq<Term>, scale: nat)
    requires MaxScale(terms) <= scale && Fits(AmountSum(terms), scale)
    ensures
      var printed := ParseDecimal(ToText(Accumulate(terms)));
      printed.Some? && Amount(printed) == AmountSum(terms)
  {
    FittingSum(terms, scale);
    AccumulateIsExact(terms);
    SumIsAmountSum(terms, MaxScale(terms));
    PrintedValue(Accumulate(terms));
  }
}
