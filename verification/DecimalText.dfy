/** Printing an accumulator, and what the printed text says about the number. */
module DecimalText {
  import opened Prelude
  import opened Decimal
  import Numerals

  /** Decimal digits without leading zeros. */
  function NatText(n: nat): (s: Bytes)
    ensures s != [] && AllDigits(s)
  {
    if n < 10 then [ZERO + n] else NatText(n / 10) + [ZERO + n % 10]
  }

  function IntText(n: int): Bytes {
    if n < 0 then [MINUS] + NatText(-n) else NatText(n)
  }

  function TrimZeros(s: Bytes): Bytes {
    if s != [] && s[|s| - 1] == ZERO then TrimZeros(s[..|s| - 1]) else s
  }

  method TrimTrailingZeros(value: Bytes) returns (trimmed: Bytes)
    ensures trimmed == TrimZeros(value)
  {
    trimmed := value;
    while trimmed != [] && trimmed[|trimmed| - 1] == ZERO
      invariant TrimZeros(trimmed) == TrimZeros(value)
      decreases |trimmed|
    {
      trimmed := trimmed[..|trimmed| - 1];
    }
  }

  function Zeros(n: nat): (s: Bytes)
    ensures |s| == n && forall i :: 0 <= i < n ==> s[i] == ZERO
  {
    seq(n, _ => ZERO)
  }

  /** `i128::abs`, whose least argument wraps to itself. */
  function AbsI128(n: int): int {
    if n == -I128_LIMIT then n else if n < 0 then -n else n
  }

  /** The digits on either side of the point, the fraction trimmed. */
  function Unsigned(digits: Bytes, scale: nat): Bytes
    requires digits != []
  {
    if |digits| <= scale then
      var fraction := TrimZeros(Zeros(scale - |digits|) + digits);
      if fraction == [] then [ZERO] else [ZERO, DOT] + fraction
    else
      var split := |digits| - scale;
      var fraction := TrimZeros(digits[split..]);
      if fraction == [] then digits[..split] else digits[..split] + [DOT] + fraction
  }

  function ToText(d: Decimal): Bytes {
    if d.scale == 0 then IntText(d.units)
    else
      var sign := if d.units < 0 then [MINUS] else [];
      IntTextNonEmpty(AbsI128(d.units));
      sign + Unsigned(IntText(AbsI128(d.units)), d.scale)
  }

  lemma IntTextNonEmpty(n: int)
    ensures IntText(n) != []
  {
  }

  method Render(d: Decimal) returns (text: Bytes)
    ensures text == ToText(d)
  {
    if d.scale == 0 {
      return IntText(d.units);
    }
    var sign: Bytes := if d.units < 0 then [MINUS] else [];
    var digits := IntText(AbsI128(d.units));
    IntTextNonEmpty(AbsI128(d.units));
    if |digits| <= d.scale {
      var fraction := TrimTrailingZeros(Zeros(d.scale - |digits|) + digits);
      text := if fraction == [] then sign + [ZERO] else sign + ([ZERO, DOT] + fraction);
    } else {
      var split := |digits| - d.scale;
      var fraction := TrimTrailingZeros(digits[split..]);
      text := if fraction == [] then sign + digits[..split] else sign + (digits[..split] + [DOT] + fraction);
    }
  }

  // The rational a decimal denotes.

  ghost function Value(d: Decimal): real {
    d.units as real / Pow10(d.scale) as real
  }

  /** No zero could be dropped from the fraction. */
  predicate Lowest(d: Decimal) {
    d.scale == 0 || d.units % 10 != 0
  }

  function Reduce(d: Decimal): (r: Decimal)
    ensures Lowest(r) && r.scale <= d.scale && Abs(r.units) <= Abs(d.units)
    ensures r.units < 0 <==> d.units < 0
    decreases d.scale
  {
    if Lowest(d) then d else Reduce(Decimal(d.units / 10, d.scale - 1))
  }

  lemma CancelTen(units: int, p: nat)
    requires p > 0
    ensures (10 * units) as real / (10 * p) as real == units as real / p as real
  {
    var u, q := units as real, p as real;
    assert (10 * units) as real == 10.0 * u && (10 * p) as real == 10.0 * q;
    assert 10.0 * u * q == u * (10.0 * q);
    CrossMultiply(10.0 * u, 10.0 * q, u, q);
  }

  lemma CrossMultiply(a: real, p: real, b: real, q: real)
    requires p > 0.0 && q > 0.0
    ensures a / p == b / q <==> a * q == b * p
  {
    var x, y := a / p, b / q;
    assert x * p == a && y * q == b;
    assert a * q == x * (p * q);
    assert b * p == y * (p * q);
    if a * q == b * p {
      assert (x - y) * (p * q) == 0.0;
      assert p * q > 0.0;
    }
  }

  lemma {:induction false} ReduceKeepsValue(d: Decimal)
    ensures Value(Reduce(d)) == Value(d)
    decreases d.scale
  {
    if !Lowest(d) {
      CancelTen(d.units / 10, Pow10(d.scale - 1));
      ReduceKeepsValue(Decimal(d.units / 10, d.scale - 1));
    }
  }

  /** Lowest terms are unique. */
  lemma LowestIsUnique(a: Decimal, b: Decimal)
    requires Lowest(a) && Lowest(b) && Value(a) == Value(b)
    ensures a == b
  {
    if a.scale > b.scale {
      LowestIsUniqueOrdered(b, a);
    } else {
      LowestIsUniqueOrdered(a, b);
    }
  }

  /** Equal values, in integers. */
  lemma ValueCross(a: Decimal, b: Decimal)
    ensures Value(a) == Value(b) <==> a.units * Pow10(b.scale) == b.units * Pow10(a.scale)
  {
    var p, q := Pow10(a.scale), Pow10(b.scale);
    CrossMultiply(a.units as real, p as real, b.units as real, q as real);
    RealProduct(a.units, q);
    RealProduct(b.units, p);
  }

  lemma RealProduct(x: int, y: int)
    ensures (x * y) as real == x as real * y as real
  {
  }

  lemma LowestIsUniqueOrdered(a: Decimal, b: Decimal)
    requires a.scale <= b.scale
    requires Lowest(a) && Lowest(b) && Value(a) == Value(b)
    ensures a == b
  {
    var p, q := Pow10(a.scale), Pow10(b.scale - a.scale);
    ValueCross(a, b);
    Pow10Sum(a.scale, b.scale - a.scale);
    assert a.scale + (b.scale - a.scale) == b.scale;
    SwapFactors(a.units, p, q);
    CancelFactor(a.units * q, b.units, p);
    if a.scale < b.scale {
      TenDivides(a.units, b.scale - a.scale);
    } else {
      assert q == 1;
    }
  }

  lemma SwapFactors(x: int, p: int, q: int)
    ensures x * (p * q) == x * q * p
  {
  }

  lemma TenDivides(x: int, n: nat)
    requires n > 0
    ensures x * Pow10(n) % 10 == 0
  {
    var y := x * Pow10(n - 1);
    SwapFactors(x, 10, Pow10(n - 1));
    assert x * Pow10(n) == y * 10;
  }

  lemma CancelFactor(x: int, y: int, p: int)
    requires p > 0 && x * p == y * p
    ensures x == y
  {
    assert (x - y) * p == 0;
  }

  // Printing does not depend on the representation.

  lemma TrimDropsZero(s: Bytes)
    ensures TrimZeros(s + [ZERO]) == TrimZeros(s)
  {
    assert (s + [ZERO])[..|s|] == s;
  }

  lemma PaddedZero(digits: Bytes, scale: nat)
    requires 0 < |digits| <= scale
    ensures Unsigned(digits + [ZERO], scale + 1) == Unsigned(digits, scale)
  {
    var zeros := Zeros(scale - |digits|);
    assert zeros + (digits + [ZERO]) == zeros + digits + [ZERO];
    TrimDropsZero(zeros + digits);
  }

  lemma PointedZero(digits: Bytes, scale: nat)
    requires 0 < scale < |digits|
    ensures Unsigned(digits + [ZERO], scale + 1) == Unsigned(digits, scale)
  {
    var longer, split := digits + [ZERO], |digits| - scale;
    assert longer[split..] == digits[split..] + [ZERO];
    assert longer[..split] == digits[..split];
    TrimDropsZero(digits[split..]);
  }

  lemma AppendedZero(digits: Bytes, scale: nat)
    requires digits != [] && scale > 0
    ensures Unsigned(digits + [ZERO], scale + 1) == Unsigned(digits, scale)
  {
    if |digits| <= scale {
      PaddedZero(digits, scale);
    } else {
      PointedZero(digits, scale);
    }
  }

  lemma {:induction false} AllZerosTrim(n: nat)
    ensures TrimZeros(Zeros(n)) == []
  {
    if n > 0 {
      assert Zeros(n)[..n - 1] == Zeros(n - 1);
      AllZerosTrim(n - 1);
    }
  }

  lemma ZeroText(scale: nat)
    ensures ToText(Decimal(0, scale)) == [ZERO]
  {
    if scale > 0 {
      assert NatText(0) == [ZERO];
      assert Zeros(scale - 1) + [ZERO] == Zeros(scale);
      AllZerosTrim(scale);
    }
  }

  lemma DroppedZero(d: Decimal)
    requires d.scale > 0 && d.units % 10 == 0 && -I128_LIMIT < d.units
    ensures ToText(d) == ToText(Decimal(d.units / 10, d.scale - 1))
  {
    var n := AbsI128(d.units);
    if n == 0 {
      ZeroText(d.scale);
      ZeroText(d.scale - 1);
    } else {
      assert NatText(n) == NatText(n / 10) + [ZERO];
      assert AbsI128(d.units / 10) == n / 10;
      var digits := NatText(n / 10);
      if d.scale == 1 {
        assert (digits + [ZERO])[..|digits|] == digits && (digits + [ZERO])[|digits|..] == [ZERO];
        TrimDropsZero([]);
      } else {
        AppendedZero(digits, d.scale - 1);
      }
    }
  }

  lemma ReduceStep(d: Decimal)
    requires !Lowest(d) && -I128_LIMIT < d.units
    ensures Reduce(d) == Reduce(Decimal(d.units / 10, d.scale - 1)) && -I128_LIMIT < d.units / 10
  {
  }

  lemma {:induction false} TextOfReduced(d: Decimal)
    requires -I128_LIMIT < d.units
    ensures ToText(d) == ToText(Reduce(d))
    decreases d.scale
  {
    if !Lowest(d) {
      DroppedZero(d);
      ReduceStep(d);
      TextOfReduced(Decimal(d.units / 10, d.scale - 1));
    }
  }

  // Parsing what was printed.

  lemma TrimKeeps(s: Bytes)
    requires s != [] && !IsSpace(s[0]) && !IsSpace(s[|s| - 1])
    ensures Trim(s) == s
  {
  }

  function Signed(negative: bool, body: Bytes): Bytes {
    (if negative then [MINUS] else []) + body
  }

  lemma ParseSigned(negative: bool, body: Bytes)
    requires body != [] && !IsSpace(body[0]) && !IsSpace(body[|body| - 1])
    requires negative || body[0] != MINUS
    ensures ParseDecimal(Signed(negative, body)) == ParseBody(negative, body)
  {
    var text := Signed(negative, body);
    assert text[|text| - 1] == body[|body| - 1];
    TrimKeeps(text);
    assert (if negative then text[1..] else text) == body;
  }

  /** Digits, an optional point and an optional sign parse to the digits read as one number. */
  lemma ParseParts(negative: bool, whole: Bytes, fraction: Bytes)
    requires whole != [] && AllDigits(whole) && AllDigits(fraction) && |fraction| < U32_LIMIT
    ensures
      var body := if fraction == [] then whole else whole + [DOT] + fraction;
      var magnitude: int := DigitsValue(whole + fraction);
      ParseDecimal(Signed(negative, body)) ==
      if magnitude >= I128_LIMIT then None
      else Some(Decimal(if negative then -magnitude else magnitude, |fraction|))
  {
    var n := Numerals.Numeral([], negative, whole, fraction != [], fraction, []);
    if fraction == [] {
      assert whole + [] == whole;
    } else {
      assert whole + ([DOT] + fraction) == whole + [DOT] + fraction;
    }
    assert Numerals.Core(n) == Signed(negative, if fraction == [] then whole else whole + [DOT] + fraction);
    Numerals.BareSpelling(n);
    Numerals.SmallScale(n);
    Numerals.NumeralParses(n);
  }

  /** A second sign is never part of a number. */
  lemma SignInsideFails(negative: bool, body: Bytes, i: nat)
    requires i < |body| && body[i] == MINUS
    ensures ParseBody(negative, body) == None
  {
    var dot := IndexOf(body, DOT);
    if i < dot {
      assert body[..dot][i] == MINUS;
    } else {
      assert body[dot + 1..][i - dot - 1] == MINUS;
    }
  }

  lemma {:induction false} NatTextValue(n: nat)
    ensures DigitsValue(NatText(n)) == n
  {
    if n < 10 {
      assert DigitsValue([ZERO + n]) == 10 * DigitsValue([ZERO + n][..0]) + n;
    } else {
      NatTextValue(n / 10);
      var s := NatText(n);
      assert s[..|s| - 1] == NatText(n / 10);
    }
  }

  lemma {:induction false} LeadingZeros(k: nat, s: Bytes)
    requires AllDigits(s)
    ensures DigitsValue(Zeros(k) + s) == DigitsValue(s)
  {
    var t := Zeros(k) + s;
    if s == [] {
      assert t == Zeros(k);
      if k > 0 {
        assert t[..k - 1] == Zeros(k - 1) + s;
        LeadingZeros(k - 1, s);
      }
    } else {
      assert t[..|t| - 1] == Zeros(k) + s[..|s| - 1];
      LeadingZeros(k, s[..|s| - 1]);
    }
  }

  lemma LastDigit(n: nat)
    ensures NatText(n)[|NatText(n)| - 1] == ZERO + n % 10
  {
  }

  lemma NothingTrimmed(s: Bytes)
    requires s != [] && s[|s| - 1] != ZERO
    ensures TrimZeros(s) == s
  {
  }

  /** Fewer digits than the scale: the fraction is padded. */
  lemma PaddedParts(digits: Bytes, scale: nat)
    requires digits != [] && AllDigits(digits) && digits[|digits| - 1] != ZERO && |digits| <= scale
    ensures
      var fraction := Zeros(scale - |digits|) + digits;
      && AllDigits(fraction) && |fraction| == scale && fraction[scale - 1] != ZERO
      && Unsigned(digits, scale) == [ZERO] + [DOT] + fraction
      && DigitsValue([ZERO] + fraction) == DigitsValue(digits)
  {
    var fraction := Zeros(scale - |digits|) + digits;
    NothingTrimmed(fraction);
    LeadingZeros(scale - |digits| + 1, digits);
    assert [ZERO] + fraction == Zeros(scale - |digits| + 1) + digits;
  }

  lemma SplitParts(digits: Bytes, scale: nat)
    requires AllDigits(digits) && 0 < scale < |digits| && digits[|digits| - 1] != ZERO
    ensures
      var split := |digits| - scale;
      && digits[..split] + digits[split..] == digits
      && Unsigned(digits, scale) == digits[..split] + [DOT] + digits[split..]
  {
    NothingTrimmed(digits[|digits| - scale..]);
  }

  /** A number that does not end in zero prints every digit of its fraction. */
  lemma UnsignedParts(n: nat, scale: nat) returns (whole: Bytes, fraction: Bytes)
    requires scale > 0 && n % 10 != 0
    ensures whole != [] && AllDigits(whole) && AllDigits(fraction) && |fraction| == scale
    ensures fraction[scale - 1] != ZERO
    ensures DigitsValue(whole + fraction) == n
    ensures Unsigned(NatText(n), scale) == whole + [DOT] + fraction
  {
    var digits := NatText(n);
    LastDigit(n);
    NatTextValue(n);
    if |digits| <= scale {
      whole, fraction := [ZERO], Zeros(scale - |digits|) + digits;
      PaddedParts(digits, scale);
    } else {
      whole, fraction := digits[..|digits| - scale], digits[|digits| - scale..];
      SplitParts(digits, scale);
    }
  }

  lemma ParseOfInteger(units: int)
    requires -I128_LIMIT < units < I128_LIMIT
    ensures ParseDecimal(ToText(Decimal(units, 0))) == Some(Decimal(units, 0))
  {
    var digits := NatText(Abs(units));
    NatTextValue(Abs(units));
    assert digits + [] == digits;
    ParseParts(units < 0, digits, []);
    assert IntText(units) == Signed(units < 0, digits);
  }

  lemma TextOfFraction(units: int, scale: nat) returns (whole: Bytes, fraction: Bytes)
    requires units % 10 != 0 && -I128_LIMIT < units && scale > 0
    ensures whole != [] && AllDigits(whole) && AllDigits(fraction) && |fraction| == scale
    ensures fraction[scale - 1] != ZERO
    ensures DigitsValue(whole + fraction) == Abs(units)
    ensures ToText(Decimal(units, scale)) == Signed(units < 0, whole + [DOT] + fraction)
  {
    whole, fraction := UnsignedParts(Abs(units), scale);
  }

  lemma ParseSignedParts(units: int, whole: Bytes, fraction: Bytes, text: Bytes)
    requires -I128_LIMIT < units < I128_LIMIT && fraction != [] && |fraction| < U32_LIMIT
    requires whole != [] && AllDigits(whole) && AllDigits(fraction) && DigitsValue(whole + fraction) == Abs(units)
    requires text == Signed(units < 0, whole + [DOT] + fraction)
    ensures ParseDecimal(text) == Some(Decimal(units, |fraction|))
  {
    ParseParts(units < 0, whole, fraction);
  }

  lemma ParseOfFraction(units: int, scale: nat)
    requires units % 10 != 0 && -I128_LIMIT < units < I128_LIMIT && 0 < scale < U32_LIMIT
    ensures ParseDecimal(ToText(Decimal(units, scale))) == Some(Decimal(units, scale))
  {
    var whole, fraction := TextOfFraction(units, scale);
    ParseSignedParts(units, whole, fraction, Signed(units < 0, whole + [DOT] + fraction));
  }

  lemma ParseOfLowest(d: Decimal)
    requires Lowest(d) && -I128_LIMIT < d.units < I128_LIMIT && d.scale < U32_LIMIT
    ensures ParseDecimal(ToText(d)) == Some(d)
  {
    if d.scale == 0 {
      ParseOfInteger(d.units);
    } else {
      ParseOfFraction(d.units, d.scale);
    }
  }

  lemma LeastValueDoesNotParse(scale: nat)
    ensures ParseDecimal(ToText(Decimal(-I128_LIMIT, scale))) == None
  {
    var magnitude := NatText(I128_LIMIT);
    LastDigit(I128_LIMIT);
    if scale == 0 {
      NatTextValue(I128_LIMIT);
      assert magnitude + [] == magnitude;
      ParseParts(true, magnitude, []);
      assert ToText(Decimal(-I128_LIMIT, scale)) == Signed(true, magnitude);
    } else {
      var body := Unsigned([MINUS] + magnitude, scale);
      var i := SignInside(magnitude, scale);
      SignInsideFails(true, body, i);
      ParseSigned(true, body);
    }
  }

  lemma SignInside(magnitude: Bytes, scale: nat) returns (i: nat)
    requires magnitude != [] && magnitude[|magnitude| - 1] == ZERO + 8 && scale > 0
    ensures
      var body := Unsigned([MINUS] + magnitude, scale);
      i < |body| && body[i] == MINUS && !IsSpace(body[0]) && !IsSpace(body[|body| - 1])
  {
    var digits := [MINUS] + magnitude;
    if |digits| <= scale {
      NothingTrimmed(Zeros(scale - |digits|) + digits);
      i := 2 + scale - |digits|;
    } else {
      NothingTrimmed(digits[|digits| - scale..]);
      i := 0;
    }
  }

  /** Printing and parsing returns the same rational in lowest terms, for every accumulator
      but the one `i128` value without an absolute value. */
  lemma ParseOfText(d: Decimal)
    requires InRange(d.units) && d.scale < U32_LIMIT
    ensures ParseDecimal(ToText(d)) == Some(Reduce(d)) <==> d.units != -I128_LIMIT
    ensures Value(Reduce(d)) == Value(d)
  {
    ReduceKeepsValue(d);
    if d.units == -I128_LIMIT {
      LeastValueDoesNotParse(d.scale);
    } else {
      TextOfReduced(d);
      ParseOfLowest(Reduce(d));
    }
  }

  // The least value prints its second sign among the digits, so its text is a text of no other value.

  predicate EndsInDigit(magnitude: Bytes) {
    AllDigits(magnitude) && magnitude != [] && magnitude[|magnitude| - 1] != ZERO
  }

  /** What is printed behind the first sign when the digits carry a sign themselves. */
  lemma SignedDigitsText(magnitude: Bytes, scale: nat)
    requires EndsInDigit(magnitude) && scale > 0
    ensures
      var digits := [MINUS] + magnitude;
      Unsigned(digits, scale) ==
      if |digits| <= scale then [ZERO, DOT] + (Zeros(scale - |digits|) + digits)
      else digits[..|digits| - scale] + [DOT] + digits[|digits| - scale..]
  {
    var digits := [MINUS] + magnitude;
    if |digits| <= scale {
      NothingTrimmed(Zeros(scale - |digits|) + digits);
    } else {
      NothingTrimmed(digits[|digits| - scale..]);
    }
  }

  /** Where the point stands, or how long the text is, tells the scale. */
  lemma ScaleShows(magnitude: Bytes, scale: nat, other: nat)
    requires EndsInDigit(magnitude) && 0 < scale < other
    ensures Unsigned([MINUS] + magnitude, scale) != Unsigned([MINUS] + magnitude, other)
  {
    var digits := [MINUS] + magnitude;
    SignedDigitsText(magnitude, scale);
    SignedDigitsText(magnitude, other);
    if other < |digits| {
      var split := |digits| - other;
      assert Unsigned(digits, other)[split] == DOT;
      assert Unsigned(digits, scale)[split] == digits[split];
    }
  }

  /** A fraction shows its point, a whole number has none. */
  lemma PointShows(magnitude: Bytes, scale: nat)
    requires EndsInDigit(magnitude) && scale > 0
    ensures [MINUS] + Unsigned([MINUS] + magnitude, scale) != [MINUS] + magnitude
  {
    var digits := [MINUS] + magnitude;
    SignedDigitsText(magnitude, scale);
    var at := if |digits| <= scale then 1 else |digits| - scale;
    assert Unsigned(digits, scale)[at] == DOT;
    assert ([MINUS] + Unsigned(digits, scale))[at + 1] == DOT;
  }

  function TwiceSigned(magnitude: Bytes, scale: nat): Bytes {
    [MINUS] + if scale == 0 then magnitude else Unsigned([MINUS] + magnitude, scale)
  }

  lemma TwiceSignedDiffer(magnitude: Bytes, scale: nat, other: nat)
    requires EndsInDigit(magnitude) && scale < other
    ensures TwiceSigned(magnitude, scale) != TwiceSigned(magnitude, other)
  {
    if scale == 0 {
      PointShows(magnitude, other);
    } else {
      ScaleShows(magnitude, scale, other);
      assert TwiceSigned(magnitude, scale)[1..] == Unsigned([MINUS] + magnitude, scale);
      assert TwiceSigned(magnitude, other)[1..] == Unsigned([MINUS] + magnitude, other);
    }
  }

  lemma LeastText(scale: nat) returns (magnitude: Bytes)
    ensures magnitude == NatText(I128_LIMIT) && EndsInDigit(magnitude)
    ensures ToText(Decimal(-I128_LIMIT, scale)) == TwiceSigned(magnitude, scale)
  {
    magnitude := NatText(I128_LIMIT);
    LastDigit(I128_LIMIT);
    NatTextValue(I128_LIMIT);
  }

  lemma LeastTextsDiffer(scale: nat, other: nat)
    requires scale < other
    ensures ToText(Decimal(-I128_LIMIT, scale)) != ToText(Decimal(-I128_LIMIT, other))
  {
    var magnitude := LeastText(scale);
    var same := LeastText(other);
    TwiceSignedDiffer(magnitude, scale, other);
  }

  /** Two raised to the power 127 is no multiple of ten, so the least value is in lowest terms at any scale
      and equals no accumulator of smaller magnitude. */
  lemma LeastIsAlone(scale: nat, b: Decimal)
    requires InRange(b.units) && Value(Decimal(-I128_LIMIT, scale)) == Value(b)
    ensures b == Decimal(-I128_LIMIT, scale)
  {
    ReduceKeepsValue(b);
    LowestIsUnique(Decimal(-I128_LIMIT, scale), Reduce(b));
    if b != Reduce(b) {
      ReduceShrinks(b);
    }
  }

  lemma ReduceShrinks(d: Decimal)
    requires !Lowest(d) && d.units != 0
    ensures Abs(Reduce(d).units) < Abs(d.units)
  {
  }

  lemma LeastTextIsAlone(scale: nat, b: Decimal)
    requires -I128_LIMIT < b.units < I128_LIMIT && scale < U32_LIMIT && b.scale < U32_LIMIT
    ensures ToText(Decimal(-I128_LIMIT, scale)) != ToText(b)
    ensures Value(Decimal(-I128_LIMIT, scale)) != Value(b)
  {
    LeastValueDoesNotParse(scale);
    ParseOfText(b);
    if Value(Decimal(-I128_LIMIT, scale)) == Value(b) {
      LeastIsAlone(scale, b);
    }
  }

  lemma OrdinaryTextIsCanonical(a: Decimal, b: Decimal)
    requires -I128_LIMIT < a.units < I128_LIMIT && a.scale < U32_LIMIT
    requires -I128_LIMIT < b.units < I128_LIMIT && b.scale < U32_LIMIT
    ensures ToText(a) == ToText(b) <==> Value(a) == Value(b)
  {
    ParseOfText(a);
    ParseOfText(b);
    if Value(a) == Value(b) {
      LowestIsUnique(Reduce(a), Reduce(b));
      TextOfReduced(a);
      TextOfReduced(b);
    }
  }

  lemma LeastTextIsCanonical(scale: nat, other: nat)
    ensures ToText(Decimal(-I128_LIMIT, scale)) == ToText(Decimal(-I128_LIMIT, other)) <==>
            Value(Decimal(-I128_LIMIT, scale)) == Value(Decimal(-I128_LIMIT, other))
  {
    if scale != other {
      LeastTextsDiffer(if scale < other then scale else other, if scale < other then other else scale);
    }
    if Value(Decimal(-I128_LIMIT, scale)) == Value(Decimal(-I128_LIMIT, other)) {
      LeastIsAlone(scale, Decimal(-I128_LIMIT, other));
    }
  }

  /** Two accumulators print the same text exactly when they denote the same rational. */
  lemma TextIsCanonical(a: Decimal, b: Decimal)
    requires InRange(a.units) && a.scale < U32_LIMIT
    requires InRange(b.units) && b.scale < U32_LIMIT
    ensures ToText(a) == ToText(b) <==> Value(a) == Value(b)
  {
    if a.units == -I128_LIMIT && b.units == -I128_LIMIT {
      LeastTextIsCanonical(a.scale, b.scale);
    } else if a.units == -I128_LIMIT {
      LeastTextIsAlone(a.scale, b);
    } else if b.units == -I128_LIMIT {
      LeastTextIsAlone(b.scale, a);
    } else {
      OrdinaryTextIsCanonical(a, b);
    }
  }

  /** No printed fraction ends in zero, and only a negative number carries a sign. */
  ghost predicate WellShaped(text: Bytes, negative: bool) {
    && text != []
    && (DOT in text ==> text[|text| - 1] != ZERO)
    && (text[0] == MINUS <==> negative)
  }

  lemma WholeShape(negative: bool, whole: Bytes)
    requires whole != [] && AllDigits(whole)
    ensures WellShaped(Signed(negative, whole), negative)
  {
  }

  lemma FractionShape(negative: bool, whole: Bytes, fraction: Bytes)
    requires whole != [] && AllDigits(whole) && fraction != [] && fraction[|fraction| - 1] != ZERO
    ensures WellShaped(Signed(negative, whole + [DOT] + fraction), negative)
  {
  }

  lemma WholeText(units: int)
    requires -I128_LIMIT < units
    ensures ToText(Decimal(units, 0)) == Signed(units < 0, NatText(Abs(units)))
  {
  }

  lemma LowestTextShape(d: Decimal)
    requires Lowest(d) && -I128_LIMIT < d.units
    ensures WellShaped(ToText(d), d.units < 0)
  {
    if d.scale == 0 {
      WholeText(d.units);
      WholeShape(d.units < 0, NatText(Abs(d.units)));
    } else {
      var whole, fraction := TextOfFraction(d.units, d.scale);
      FractionShape(d.units < 0, whole, fraction);
    }
  }

  lemma TwiceSignedShape(magnitude: Bytes, scale: nat)
    requires EndsInDigit(magnitude)
    ensures WellShaped(TwiceSigned(magnitude, scale), true)
  {
    if scale > 0 {
      SignedDigitsText(magnitude, scale);
    }
  }

  lemma TextShape(d: Decimal)
    requires InRange(d.units)
    ensures WellShaped(ToText(d), d.units < 0)
  {
    if d.units == -I128_LIMIT {
      var magnitude := LeastText(d.scale);
      TwiceSignedShape(magnitude, d.scale);
    } else {
      TextOfReduced(d);
      LowestTextShape(Reduce(d));
    }
  }

  /** The least value occurs: two additions reach it, neither of them overflowing. */
  lemma LeastValueOccurs()
    ensures
      var half: Term := Some(Decimal(-(I128_LIMIT / 2), 0));
      && Accumulate([half, half]) == Decimal(-I128_LIMIT, 0)
      && !Overflows(Accumulate([]), half) && !Overflows(Accumulate([half]), half)
  {
    var half: Term := Some(Decimal(-(I128_LIMIT / 2), 0));
    assert [half, half][..1] == [half] && [half][..0] == [];
    assert Accumulate([half]) == Decimal(-(I128_LIMIT / 2), 0);
    assert Pow10(0) == 1;
  }
}
