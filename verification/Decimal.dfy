/** The exact decimal accumulator behind builder volume: parsing, aligned addition on `i128`
    with the wrap-around of a release build, and printing. */
module Decimal {
  import opened Prelude
  import Lists

  const I128_LIMIT: int := 0x8000_0000_0000_0000_0000_0000_0000_0000

  const MINUS: byte := 45
  const DOT: byte := 46
  const ZERO: byte := 48

  /** `units` divided by ten to the power `scale`. */
  datatype Decimal = Decimal(units: int, scale: nat)

  function Pow10(n: nat): (p: nat)
    ensures p > 0
  {
    if n == 0 then 1 else 10 * Pow10(n - 1)
  }

  lemma {:induction false} Pow10Sum(a: nat, b: nat)
    ensures Pow10(a + b) == Pow10(a) * Pow10(b)
  {
    if a > 0 {
      Pow10Sum(a - 1, b);
      assert Pow10(a + b) == 10 * Pow10(a - 1 + b);
    }
  }

  // Parsing.

  predicate IsSpace(b: byte) {
    b == 32 || 9 <= b <= 13
  }

  function TrimStart(s: Bytes): Bytes {
    if s != [] && IsSpace(s[0]) then TrimStart(s[1..]) else s
  }

  function TrimEnd(s: Bytes): Bytes {
    if s != [] && IsSpace(s[|s| - 1]) then TrimEnd(s[..|s| - 1]) else s
  }

  function Trim(s: Bytes): Bytes {
    TrimEnd(TrimStart(s))
  }

  predicate IsDigit(b: byte) {
    ZERO <= b < ZERO + 10
  }

  predicate AllDigits(s: Bytes) {
    forall i :: 0 <= i < |s| ==> IsDigit(s[i])
  }

  /** Position of the first `b`, or the length when there is none. */
  function IndexOf(s: Bytes, b: byte): (i: nat)
    ensures i <= |s|
    ensures forall j :: 0 <= j < i ==> s[j] != b
    ensures i < |s| ==> s[i] == b
  {
    if s == [] || s[0] == b then 0 else 1 + IndexOf(s[1..], b)
  }

  function DigitsValue(s: Bytes): (n: nat)
    requires AllDigits(s)
  {
    if s == [] then 0 else 10 * DigitsValue(s[..|s| - 1]) + (s[|s| - 1] - ZERO)
  }

  /** What parsing yields: nothing, or units within `i128` and a 32-bit scale. */
  type Term = t: Option<Decimal> | t.Some? ==> -I128_LIMIT < t.value.units < I128_LIMIT && t.value.scale < U32_LIMIT
    witness None

  function ParseDecimal(value: Bytes): Term {
    var trimmed := Trim(value);
    if trimmed == [] then None
    else
      var negative := trimmed[0] == MINUS;
      ParseBody(negative, if negative then trimmed[1..] else trimmed)
  }

  function ParseBody(negative: bool, body: Bytes): Term {
    var dot := IndexOf(body, DOT);
    var whole := body[..dot];
    var fraction := if dot < |body| then body[dot + 1..] else [];
    if DOT in fraction || (whole == [] && fraction == []) || !AllDigits(whole) || !AllDigits(fraction) then None
    else
      var magnitude: int := DigitsValue(whole + fraction);
      if magnitude >= I128_LIMIT then None
      else Some(Decimal(if negative then -magnitude else magnitude, |fraction| % U32_LIMIT))
  }

  // Accumulating.

  predicate InRange(x: int) {
    -I128_LIMIT <= x < I128_LIMIT
  }

  /** What a release build keeps of an `i128` result. */
  function Wrap(x: int): (r: int)
    ensures InRange(r)
    ensures InRange(x) ==> r == x
  {
    (x + I128_LIMIT) % (2 * I128_LIMIT) - I128_LIMIT
  }

  function Max(a: nat, b: nat): nat {
    if a < b then b else a
  }

  /** Decimal shift of a wrapped value, one multiplication by ten at a time. */
  function Shift(units: int, places: nat): int {
    if places == 0 then units else Wrap(Shift(units, places - 1) * 10)
  }

  function Added(acc: Decimal, term: Term): Decimal {
    match term
    case None => acc
    case Some(d) =>
      var scale := Max(acc.scale, d.scale);
      Decimal(Wrap(Shift(acc.units, scale - acc.scale) + Shift(d.units, scale - d.scale)), scale)
  }

  /** What an empty accumulator holds after adding `terms` in order. */
  function Accumulate(terms: seq<Term>): Decimal {
    if terms == [] then Decimal(0, 0)
    else Added(Accumulate(terms[..|terms| - 1]), terms[|terms| - 1])
  }

  /** What an amount that may be missing contributes. */
  function TermOf(amount: Option<Bytes>): Term {
    if amount.Some? then ParseDecimal(amount.value) else None
  }

  class DecimalAccumulator {
    var units: int
    var scale: u32

    ghost function Total(): Decimal
      reads this
    {
      Decimal(units, scale)
    }

    constructor ()
      ensures Total() == Decimal(0, 0)
    {
      units, scale := 0, 0;
    }

    method Add(value: Bytes)
      modifies this
      ensures Total() == Added(old(Total()), ParseDecimal(value))
    {
      var parsed := ParseDecimal(value);
      if parsed.Some? {
        var d := parsed.value;
        while scale < d.scale
          invariant old(scale) <= scale <= Max(old(scale), d.scale)
          invariant units == Shift(old(units), scale - old(scale))
        {
          units := Wrap(units * 10);
          scale := scale + 1;
        }
        var aligned := d.units;
        for i := d.scale to scale
          invariant aligned == Shift(d.units, i - d.scale)
        {
          aligned := Wrap(aligned * 10);
        }
        units := Wrap(units + aligned);
      }
    }

    method AddIfSome(value: Option<Bytes>)
      modifies this
      ensures Total() == Added(old(Total()), TermOf(value))
    {
      if value.Some? {
        Add(value.value);
      }
    }
  }

  // The accumulator holds the exact sum, modulo the width of `i128`.

  /** What `term` adds to a sum kept at `scale`. */
  function Contribution(term: Term, scale: nat): int {
    match term
    case Some(d) => if d.scale <= scale then d.units * Pow10(scale - d.scale) else 0
    case None => 0
  }

  function ScaleOf(term: Term): (scale: nat)
    ensures scale < U32_LIMIT
  {
    match term
    case Some(d) => d.scale
    case None => 0
  }

  function MaxScale(terms: seq<Term>): (scale: nat)
    ensures scale < U32_LIMIT
    ensures forall v :: v in terms ==> ScaleOf(v) <= scale
    ensures scale == 0 || exists v :: v in terms && ScaleOf(v) == scale
  {
    if terms == [] then 0
    else
      var init, last := terms[..|terms| - 1], terms[|terms| - 1];
      assert forall v :: v in terms <==> v in init || v == last;
      Max(MaxScale(init), ScaleOf(last))
  }

  function Sum(terms: seq<Term>, scale: nat): int {
    if terms == [] then 0
    else Sum(terms[..|terms| - 1], scale) + Contribution(terms[|terms| - 1], scale)
  }

  function Abs(x: int): nat {
    if x < 0 then -x else x
  }

  function SumOfMagnitudes(terms: seq<Term>, scale: nat): nat {
    if terms == [] then 0
    else SumOfMagnitudes(terms[..|terms| - 1], scale) + Abs(Contribution(terms[|terms| - 1], scale))
  }

  /** Two integers with one remainder wrap to one value. */
  lemma WrapCongruent(x: int, y: int, k: int)
    requires x == y + k * (2 * I128_LIMIT)
    ensures Wrap(x) == Wrap(y)
  {
    var m := 2 * I128_LIMIT;
    var a := y + I128_LIMIT;
    SameRemainder(a + k * m, a, k, m);
  }

  lemma SameRemainder(x: int, y: int, k: int, m: nat)
    requires m > 0 && x == y + k * m
    ensures x % m == y % m
  {
    var gap := y / m + k - x / m;
    Distribute(y / m, k, m);
    Distribute(y / m + k, -(x / m), m);
    assert x % m - y % m == gap * m;
    WholeMultiples(gap, m);
  }

  lemma WholeMultiples(k: int, m: int)
    requires m > 0
    ensures k >= 1 ==> k * m >= m
    ensures k <= -1 ==> k * m <= -m
  {
    if k >= 1 {
      assert (k - 1) * m >= 0;
    } else {
      assert (-1 - k) * m >= 0 || k == 0;
    }
  }

  lemma Distribute(x: int, y: int, p: int)
    ensures (x + y) * p == x * p + y * p
  {
  }

  lemma AbsOfProduct(x: int, p: nat)
    ensures Abs(x * p) == Abs(x) * p
  {
    if x < 0 {
      assert -x * p == -(x * p);
      assert -x * p >= 0;
    }
  }

  /** How many times `x` wrapped. */
  function Wraps(x: int): (k: int)
    ensures x == Wrap(x) + k * (2 * I128_LIMIT)
  {
    (x + I128_LIMIT) / (2 * I128_LIMIT)
  }

  lemma WrapOfSum(x: int, y: int)
    ensures Wrap(Wrap(x) + Wrap(y)) == Wrap(x + y)
  {
    var m := 2 * I128_LIMIT;
    assert x + y == Wrap(x) + Wrap(y) + (Wraps(x) + Wraps(y)) * m;
    WrapCongruent(x + y, Wrap(x) + Wrap(y), Wraps(x) + Wraps(y));
  }

  lemma WrapOfProduct(x: int, c: int)
    ensures Wrap(Wrap(x) * c) == Wrap(x * c)
  {
    var m := 2 * I128_LIMIT;
    calc {
      x * c;
      (Wrap(x) + Wraps(x) * m) * c;
      Wrap(x) * c + Wraps(x) * c * m;
    }
    WrapCongruent(x * c, Wrap(x) * c, Wraps(x) * c);
  }

  lemma ShiftStep(units: int, p: int)
    requires InRange(units)
    ensures Wrap(Wrap(units * p) * 10) == Wrap(units * (10 * p))
  {
    WrapOfProduct(units * p, 10);
    assert units * p * 10 == units * (10 * p);
  }

  lemma {:induction false} ShiftIsExact(units: int, places: nat)
    requires InRange(units)
    ensures Shift(units, places) == Wrap(units * Pow10(places))
  {
    if places > 0 {
      ShiftIsExact(units, places - 1);
      ShiftStep(units, Pow10(places - 1));
    }
  }

  lemma ContributionRescale(term: Term, from: nat, to: nat)
    requires ScaleOf(term) <= from <= to
    ensures Contribution(term, to) == Contribution(term, from) * Pow10(to - from)
  {
    match term
    case None =>
    case Some(d) =>
      Pow10Sum(from - d.scale, to - from);
      ProductRegroup(d.units, Pow10(from - d.scale), Pow10(to - from));
      assert from - d.scale + (to - from) == to - d.scale;
  }

  lemma {:induction false} Rescale(terms: seq<Term>, from: nat, to: nat)
    requires MaxScale(terms) <= from <= to
    ensures Sum(terms, to) == Sum(terms, from) * Pow10(to - from)
  {
    if terms != [] {
      var init, last := terms[..|terms| - 1], terms[|terms| - 1];
      Rescale(init, from, to);
      ContributionRescale(last, from, to);
      Distribute(Sum(init, from), Contribution(last, from), Pow10(to - from));
    }
  }

  lemma ProductRegroup(a: int, b: int, c: int)
    ensures a * (b * c) == a * b * c
  {
  }

  lemma AddedIsExact(sum: int, scale: nat, term: Term)
    ensures
      var to := Max(scale, ScaleOf(term));
      Added(Decimal(Wrap(sum), scale), term) ==
      Decimal(Wrap(sum * Pow10(to - scale) + Contribution(term, to)), to)
  {
    var to := Max(scale, ScaleOf(term));
    match term
    case None =>
      assert Pow10(0) == 1;
    case Some(d) =>
      ShiftIsExact(Wrap(sum), to - scale);
      WrapOfProduct(sum, Pow10(to - scale));
      ShiftIsExact(d.units, to - d.scale);
      WrapOfSum(sum * Pow10(to - scale), Contribution(term, to));
  }

  /** After any list of additions the scale is the largest one parsed and the units are the
      exact sum at that scale, wrapped once. */
  lemma {:induction false} AccumulateIsExact(terms: seq<Term>)
    ensures Accumulate(terms) == Decimal(Wrap(Sum(terms, MaxScale(terms))), MaxScale(terms))
  {
    if terms != [] {
      var init, last := terms[..|terms| - 1], terms[|terms| - 1];
      AccumulateIsExact(init);
      Rescale(init, MaxScale(init), MaxScale(terms));
      AddedIsExact(Sum(init, MaxScale(init)), MaxScale(init), last);
    }
  }

  // The order of the additions does not matter.

  lemma {:induction false} SumAppend(a: seq<Term>, b: seq<Term>, scale: nat)
    ensures Sum(a + b, scale) == Sum(a, scale) + Sum(b, scale)
  {
    if b == [] {
      assert a + b == a;
    } else {
      assert (a + b)[..|a + b| - 1] == a + b[..|b| - 1];
      SumAppend(a, b[..|b| - 1], scale);
    }
  }

  lemma SumWithout(s: seq<Term>, j: nat, scale: nat)
    requires j < |s|
    ensures Sum(s, scale) == Sum(s[..j] + s[j + 1..], scale) + Contribution(s[j], scale)
  {
    assert s == s[..j] + [s[j]] + s[j + 1..];
    SumAppend(s[..j] + [s[j]], s[j + 1..], scale);
    SumAppend(s[..j], [s[j]], scale);
    SumAppend(s[..j], s[j + 1..], scale);
    var single := [s[j]];
    assert single[..0] == [];
    assert Sum([s[j]], scale) == Contribution(s[j], scale);
  }

  lemma SumOfTail(terms: seq<Term>, scale: nat)
    requires terms != []
    ensures Sum(terms, scale) == Contribution(terms[0], scale) + Sum(terms[1..], scale)
  {
    SumWithout(terms, 0, scale);
    assert terms[..0] + terms[1..] == terms[1..];
  }

  lemma {:induction false} SumPermutes(a: seq<Term>, b: seq<Term>, scale: nat)
    requires multiset(a) == multiset(b)
    ensures Sum(a, scale) == Sum(b, scale)
    decreases |a|
  {
    Lists.PermutationMembers(a, b);
    if a != [] {
      assert a[0] in b;
      var j :| 0 <= j < |b| && b[j] == a[0];
      Lists.RemoveOne(b, j);
      Lists.TailOf(a);
      SumPermutes(a[1..], b[..j] + b[j + 1..], scale);
      SumWithout(b, j, scale);
      SumOfTail(a, scale);
    }
  }

  lemma AccumulateOrderFree(a: seq<Term>, b: seq<Term>)
    requires multiset(a) == multiset(b)
    ensures Accumulate(a) == Accumulate(b)
  {
    Lists.PermutationMembers(a, b);
    assert MaxScale(a) == MaxScale(b);
    SumPermutes(a, b, MaxScale(a));
    AccumulateIsExact(a);
    AccumulateIsExact(b);
  }

  // Nothing overflows while the magnitudes stay below the width.

  /** Some product or sum inside `Added` leaves `i128`, which a debug build would stop at. */
  ghost predicate Overflows(acc: Decimal, term: Term) {
    match term
    case None => false
    case Some(d) =>
      var scale := Max(acc.scale, d.scale);
      || (exists k: nat :: k <= scale - acc.scale && !InRange(acc.units * Pow10(k)))
      || (exists k: nat :: k <= scale - d.scale && !InRange(d.units * Pow10(k)))
      || !InRange(acc.units * Pow10(scale - acc.scale) + d.units * Pow10(scale - d.scale))
  }

  lemma PartialShiftInRange(x: int, k: nat, n: nat)
    requires k <= n && Abs(x * Pow10(n)) < I128_LIMIT
    ensures InRange(x * Pow10(k))
  {
    Pow10Sum(k, n - k);
    var p, q := Pow10(k), Pow10(n - k);
    ProductRegroup(x, p, q);
    AbsOfProduct(x * p, q);
    GrowsBy(Abs(x * p), q);
  }

  lemma GrowsBy(x: nat, p: nat)
    requires p > 0
    ensures x <= x * p
  {
    assert x * (p - 1) >= 0;
  }

  lemma {:induction false} SumBounded(terms: seq<Term>, scale: nat)
    ensures Abs(Sum(terms, scale)) <= SumOfMagnitudes(terms, scale)
  {
    if terms != [] {
      SumBounded(terms[..|terms| - 1], scale);
    }
  }

  lemma {:induction false} MagnitudesRescale(terms: seq<Term>, from: nat, to: nat)
    requires MaxScale(terms) <= from <= to
    ensures SumOfMagnitudes(terms, to) == SumOfMagnitudes(terms, from) * Pow10(to - from)
  {
    if terms != [] {
      var init, last := terms[..|terms| - 1], terms[|terms| - 1];
      var p := Pow10(to - from);
      MagnitudesRescale(init, from, to);
      ContributionRescale(last, from, to);
      AbsOfProduct(Contribution(last, from), p);
      Distribute(SumOfMagnitudes(init, from), Abs(Contribution(last, from)), p);
    }
  }

  lemma AddedStaysInRange(sum: int, scale: nat, term: Term)
    requires InRange(sum)
    requires
      var to := Max(scale, ScaleOf(term));
      Abs(sum * Pow10(to - scale)) + Abs(Contribution(term, to)) < I128_LIMIT
    ensures !Overflows(Decimal(sum, scale), term)
  {
    var to := Max(scale, ScaleOf(term));
    match term
    case None =>
    case Some(d) =>
      forall k: nat | k <= to - scale
        ensures InRange(sum * Pow10(k))
      {
        PartialShiftInRange(sum, k, to - scale);
      }
      forall k: nat | k <= to - d.scale
        ensures InRange(d.units * Pow10(k))
      {
        PartialShiftInRange(d.units, k, to - d.scale);
      }
  }

  /** Dropping the last addition only lowers the magnitudes. */
  lemma MagnitudesGrow(terms: seq<Term>)
    requires terms != []
    ensures
      var init, t := terms[..|terms| - 1], MaxScale(terms);
      SumOfMagnitudes(init, MaxScale(init)) <= SumOfMagnitudes(init, t) <= SumOfMagnitudes(terms, t)
  {
    var init := terms[..|terms| - 1];
    var s, t := MaxScale(init), MaxScale(terms);
    MagnitudesRescale(init, s, t);
    GrowsBy(SumOfMagnitudes(init, s), Pow10(t - s));
  }

  lemma MaxScaleStep(terms: seq<Term>)
    requires terms != []
    ensures MaxScale(terms) == Max(MaxScale(terms[..|terms| - 1]), ScaleOf(terms[|terms| - 1]))
  {
  }

  /** Below the width the accumulated units are the exact sum. */
  lemma UnwrappedSum(terms: seq<Term>)
    requires SumOfMagnitudes(terms, MaxScale(terms)) < I128_LIMIT
    ensures InRange(Sum(terms, MaxScale(terms)))
    ensures Accumulate(terms) == Decimal(Sum(terms, MaxScale(terms)), MaxScale(terms))
  {
    AccumulateIsExact(terms);
    SumBounded(terms, MaxScale(terms));
  }

  lemma LastMagnitude(terms: seq<Term>)
    requires terms != []
    ensures
      var init, last := terms[..|terms| - 1], terms[|terms| - 1];
      var s, t := MaxScale(init), MaxScale(terms);
      Abs(Sum(init, s) * Pow10(t - s)) + Abs(Contribution(last, t)) <= SumOfMagnitudes(terms, t)
  {
    var init := terms[..|terms| - 1];
    Rescale(init, MaxScale(init), MaxScale(terms));
    SumBounded(init, MaxScale(terms));
  }

  lemma {:induction false} LastAdditionStaysInRange(terms: seq<Term>)
    requires terms != [] && SumOfMagnitudes(terms, MaxScale(terms)) < I128_LIMIT
    ensures !Overflows(Accumulate(terms[..|terms| - 1]), terms[|terms| - 1])
  {
    var init, last := terms[..|terms| - 1], terms[|terms| - 1];
    var s, t := MaxScale(init), MaxScale(terms);
    MagnitudesGrow(terms);
    UnwrappedSum(init);
    LastMagnitude(terms);
    MaxScaleStep(terms);
    AddedStaysInRange(Sum(init, s), s, last);
  }

  lemma {:induction false} PrefixMagnitudes(terms: seq<Term>, n: nat)
    requires n <= |terms|
    ensures SumOfMagnitudes(terms[..n], MaxScale(terms[..n])) <= SumOfMagnitudes(terms, MaxScale(terms))
  {
    if n == |terms| {
      assert terms[..n] == terms;
    } else {
      var init := terms[..|terms| - 1];
      MagnitudesGrow(terms);
      assert terms[..n] == init[..n];
      PrefixMagnitudes(init, n);
    }
  }

  lemma PrefixEnds(terms: seq<Term>, n: nat)
    requires n < |terms|
    ensures
      var prefix := terms[..n + 1];
      prefix != [] && prefix[..|prefix| - 1] == terms[..n] && prefix[|prefix| - 1] == terms[n]
  {
  }

  lemma AdditionStaysInRange(terms: seq<Term>, n: nat)
    requires n < |terms| && SumOfMagnitudes(terms, MaxScale(terms)) < I128_LIMIT
    ensures !Overflows(Accumulate(terms[..n]), terms[n])
  {
    PrefixEnds(terms, n);
    PrefixMagnitudes(terms, n + 1);
    LastAdditionStaysInRange(terms[..n + 1]);
  }

  /** While the magnitudes at the final scale add up to less than 2^127, no step of any of the
      additions overflows and the units are the exact sum. */
  lemma NoOverflow(terms: seq<Term>)
    requires SumOfMagnitudes(terms, MaxScale(terms)) < I128_LIMIT
    ensures Accumulate(terms).units == Sum(terms, MaxScale(terms))
    ensures forall n: nat {:trigger terms[n]} :: n < |terms| ==> !Overflows(Accumulate(terms[..n]), terms[n])
  {
    UnwrappedSum(terms);
    forall n: nat {:trigger terms[n]} | n < |terms|
      ensures !Overflows(Accumulate(terms[..n]), terms[n])
    {
      AdditionStaysInRange(terms, n);
    }
  }
}
