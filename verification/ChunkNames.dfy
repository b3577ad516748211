/** Names of raw chunk files: `transactions_<first>_<last>.pb.zst`. */
module ChunkNames {
  import opened Prelude
  import D = Decimal
  import T = DecimalText
  import B = ByteOrder

  const UNDERSCORE: byte := 95
  const PLUS: byte := 43

  const PREFIX: Bytes := Ascii("transactions_")
  const SUFFIX: Bytes := Ascii(".pb.zst")

  function ChunkName(first: u64, last: u64): Bytes {
    PREFIX + (T.NatText(first) + [UNDERSCORE] + T.NatText(last)) + SUFFIX
  }

  predicate EndsWith(s: Bytes, suffix: Bytes) {
    |suffix| <= |s| && s[|s| - |suffix|..] == suffix
  }

  predicate IsChunkFile(name: Bytes) {
    B.StartsWith(name, PREFIX) && EndsWith(name, SUFFIX)
  }

  /** `str::parse::<u64>`: digits, after at most one plus sign. */
  function ParseU64(s: Bytes): Option<u64> {
    var digits := if s != [] && s[0] == PLUS then s[1..] else s;
    if digits == [] || !D.AllDigits(digits) || D.DigitsValue(digits) > U64_MAX then None
    else Some(D.DigitsValue(digits))
  }

  /** The two numbers around the one underscore. */
  function ParseRange(range: Bytes): Option<(u64, u64)> {
    var at := D.IndexOf(range, UNDERSCORE);
    if at == |range| || UNDERSCORE in range[at + 1..] then None
    else
      match (ParseU64(range[..at]), ParseU64(range[at + 1..]))
      case (Some(first), Some(last)) => Some((first, last))
      case _ => None
  }

  function VersionRange(name: Bytes): Option<(u64, u64)> {
    if !B.StartsWith(name, PREFIX) then None
    else
      var rest := name[|PREFIX|..];
      if !EndsWith(rest, SUFFIX) then None else ParseRange(rest[..|rest| - |SUFFIX|])
  }

  lemma {:induction false} FirstUnderscore(digits: Bytes, rest: Bytes)
    requires UNDERSCORE !in digits
    ensures D.IndexOf(digits + [UNDERSCORE] + rest, UNDERSCORE) == |digits|
  {
    if digits != [] {
      assert digits[0] in digits;
      assert (digits + [UNDERSCORE] + rest)[1..] == digits[1..] + [UNDERSCORE] + rest;
      FirstUnderscore(digits[1..], rest);
    }
  }

  lemma ParsePrinted(n: u64)
    ensures ParseU64(T.NatText(n)) == Some(n)
  {
    T.NatTextValue(n);
    assert D.IsDigit(T.NatText(n)[0]);
  }

  lemma ParsePrintedRange(first: u64, last: u64)
    ensures ParseRange(T.NatText(first) + [UNDERSCORE] + T.NatText(last)) == Some((first, last))
  {
    var a, b := T.NatText(first), T.NatText(last);
    var range := a + [UNDERSCORE] + b;
    FirstUnderscore(a, b);
    assert range[..|a|] == a && range[|a| + 1..] == b;
    assert UNDERSCORE !in b;
    ParsePrinted(first);
    ParsePrinted(last);
  }

  lemma StripAffixes(range: Bytes)
    ensures
      var name := PREFIX + range + SUFFIX;
      IsChunkFile(name) && VersionRange(name) == ParseRange(range)
  {
    var name := PREFIX + range + SUFFIX;
    assert name[..|PREFIX|] == PREFIX;
    assert name[|name| - |SUFFIX|..] == SUFFIX;
    var rest := name[|PREFIX|..];
    assert rest == range + SUFFIX;
    assert rest[|rest| - |SUFFIX|..] == SUFFIX && rest[..|rest| - |SUFFIX|] == range;
  }

  /** A printed name declares the range it was printed from. */
  lemma RangeOfName(first: u64, last: u64)
    ensures IsChunkFile(ChunkName(first, last))
    ensures VersionRange(ChunkName(first, last)) == Some((first, last))
  {
    StripAffixes(T.NatText(first) + [UNDERSCORE] + T.NatText(last));
    ParsePrintedRange(first, last);
  }

  lemma NamesInjective(f: u64, l: u64, g: u64, m: u64)
    requires ChunkName(f, l) == ChunkName(g, m)
    ensures f == g && l == m
  {
    RangeOfName(f, l);
    RangeOfName(g, m);
  }

  // The parser accepts more names than the recorder prints.

  /** No plus sign and no leading zero. */
  predicate Canonical(number: Bytes) {
    number != [] && number[0] != PLUS && (|number| > 1 ==> number[0] != D.ZERO)
  }

  lemma {:induction false} CanonicalDigits(s: Bytes)
    requires s != [] && D.AllDigits(s)
    ensures Canonical(s) <==> s == T.NatText(D.DigitsValue(s))
  {
    var init, last := s[..|s| - 1], s[|s| - 1];
    if |s| == 1 {
      assert D.DigitsValue(init) == 0;
      assert s == [last];
    } else {
      CanonicalDigits(init);
      var n := D.DigitsValue(init);
      assert s == init + [last];
      assert D.DigitsValue(s) == 10 * n + (last - D.ZERO);
      if n == 0 {
        LeadingZeroOfZero(init);
      } else {
        assert T.NatText(D.DigitsValue(s)) == T.NatText(n) + [last];
        CanonicalHead(init, last);
      }
    }
  }

  lemma CanonicalHead(init: Bytes, last: byte)
    requires init != [] && D.AllDigits(init) && D.DigitsValue(init) != 0
    ensures Canonical(init + [last]) <==> Canonical(init)
  {
    if |init| == 1 {
      assert D.DigitsValue(init[..0]) == 0;
    }
  }

  lemma {:induction false} LeadingZeroOfZero(s: Bytes)
    requires s != [] && D.AllDigits(s) && D.DigitsValue(s) == 0
    ensures s[0] == D.ZERO
  {
    if |s| > 1 {
      LeadingZeroOfZero(s[..|s| - 1]);
    } else {
      assert D.DigitsValue(s[..0]) == 0;
    }
  }

  lemma CanonicalNumber(s: Bytes)
    requires ParseU64(s).Some?
    ensures Canonical(s) <==> s == T.NatText(ParseU64(s).value)
  {
    if s[0] == PLUS {
      assert D.IsDigit(T.NatText(ParseU64(s).value)[0]);
    } else {
      CanonicalDigits(s);
    }
  }

  /** The text between prefix and suffix. */
  function RangeText(name: Bytes): Bytes
    requires |PREFIX| + |SUFFIX| <= |name|
  {
    name[|PREFIX|..|name| - |SUFFIX|]
  }

  lemma Stripped(name: Bytes, prefix: Bytes, suffix: Bytes)
    requires B.StartsWith(name, prefix) && EndsWith(name[|prefix|..], suffix)
    ensures |prefix| + |suffix| <= |name|
    ensures
      var rest, middle := name[|prefix|..], name[|prefix|..|name| - |suffix|];
      name == prefix + middle + suffix && rest[..|rest| - |suffix|] == middle
  {
    var rest := name[|prefix|..];
    assert name == name[..|prefix|] + rest;
    assert rest == rest[..|rest| - |suffix|] + rest[|rest| - |suffix|..];
  }

  lemma RangeTextParses(name: Bytes)
    requires VersionRange(name).Some?
    ensures |PREFIX| + |SUFFIX| <= |name|
    ensures ParseRange(RangeText(name)) == VersionRange(name)
    ensures name == PREFIX + RangeText(name) + SUFFIX
  {
    Stripped(name, PREFIX, SUFFIX);
  }

  /** The two numbers as they stand in the range text. */
  function Numbers(range: Bytes): (Bytes, Bytes)
    requires UNDERSCORE in range
  {
    var at := D.IndexOf(range, UNDERSCORE);
    (range[..at], range[at + 1..])
  }

  lemma NumbersDecompose(range: Bytes)
    requires ParseRange(range).Some?
    ensures UNDERSCORE in range
    ensures
      var (first, last) := ParseRange(range).value;
      var (a, b) := Numbers(range);
      range == a + [UNDERSCORE] + b && ParseU64(a) == Some(first) && ParseU64(b) == Some(last)
  {
    var at := D.IndexOf(range, UNDERSCORE);
    assert range[at] == UNDERSCORE;
    assert range == range[..at] + [UNDERSCORE] + range[at + 1..];
  }

  lemma NumbersAround(a: Bytes, b: Bytes)
    requires UNDERSCORE !in a
    ensures
      var range := a + [UNDERSCORE] + b;
      UNDERSCORE in range && Numbers(range) == (a, b)
  {
    var range := a + [UNDERSCORE] + b;
    assert range[|a|] == UNDERSCORE;
    FirstUnderscore(a, b);
    assert range[..|a|] == a && range[|a| + 1..] == b;
  }

  lemma NumbersOfPrinted(first: u64, last: u64)
    ensures
      var range := T.NatText(first) + [UNDERSCORE] + T.NatText(last);
      UNDERSCORE in range && Numbers(range) == (T.NatText(first), T.NatText(last))
  {
    NumbersAround(T.NatText(first), T.NatText(last));
  }

  lemma SameRangeText(name: Bytes, range: Bytes)
    requires |PREFIX| + |SUFFIX| <= |name| && name == PREFIX + RangeText(name) + SUFFIX
    ensures name == PREFIX + range + SUFFIX <==> RangeText(name) == range
  {
    var printed := PREFIX + range + SUFFIX;
    assert printed[|PREFIX|..|printed| - |SUFFIX|] == range;
  }

  /** Whether a name that declares a range spells both numbers the way the recorder does. */
  predicate CanonicalName(name: Bytes) {
    && |PREFIX| + |SUFFIX| <= |name| && UNDERSCORE in RangeText(name)
    && Canonical(Numbers(RangeText(name)).0) && Canonical(Numbers(RangeText(name)).1)
  }

  /** A name that declares a range is the printed name of that range exactly when both numbers are canonical. */
  lemma NameOfRange(name: Bytes)
    requires VersionRange(name).Some?
    ensures
      var (first, last) := VersionRange(name).value;
      name == ChunkName(first, last) <==> CanonicalName(name)
  {
    var (first, last) := VersionRange(name).value;
    RangeTextParses(name);
    NumbersDecompose(RangeText(name));
    NumbersOfPrinted(first, last);
    CanonicalNumber(Numbers(RangeText(name)).0);
    CanonicalNumber(Numbers(RangeText(name)).1);
    SameRangeText(name, T.NatText(first) + [UNDERSCORE] + T.NatText(last));
  }

  // Which names are chunk files, and which of them declare which range.

  /** The name with this text between prefix and suffix. */
  function Around(middle: Bytes): Bytes {
    Ascii("transactions_") + middle + Ascii(".pb.zst")
  }

  /** A chunk file is told by both ends of its name. */
  lemma ChunkFileReads(name: Bytes)
    ensures IsChunkFile(name) <==> exists middle :: name == Around(middle)
  {
    if IsChunkFile(name) {
      ShortNames(name);
      Stripped(name, PREFIX, SUFFIX);
      assert name == Around(RangeText(name));
    }
    if middle :| name == Around(middle) {
      StripAffixes(middle);
    }
  }

  /** Prefix and suffix have no letter in common where they could overlap. */
  lemma ShortNames(name: Bytes)
    requires IsChunkFile(name)
    ensures EndsWith(name[|PREFIX|..], SUFFIX)
  {
    var start := |name| - |SUFFIX|;
    assert name[start] == SUFFIX[0] == 46;
    if start < |PREFIX| {
      assert false;
    } else {
      assert name[|PREFIX|..][start - |PREFIX|..] == name[start..];
    }
  }

  /** The texts of a number: as printed, behind any number of zeros and at most one plus sign. */
  function Spelling(plus: bool, zeros: nat, n: u64): Bytes {
    (if plus then [PLUS] else []) + (T.Zeros(zeros) + T.NatText(n))
  }

  ghost predicate Spells(s: Bytes, n: u64) {
    exists plus: bool, zeros: nat :: s == Spelling(plus, zeros, n)
  }

  lemma DigitsParse(plus: bool, digits: Bytes)
    requires digits != [] && D.AllDigits(digits) && D.DigitsValue(digits) <= U64_MAX
    ensures
      var s := (if plus then [PLUS] else []) + digits;
      ParseU64(s) == Some(D.DigitsValue(digits)) && UNDERSCORE !in s
  {
    assert D.IsDigit(digits[0]);
    assert ([PLUS] + digits)[1..] == digits && [] + digits == digits;
  }

  lemma SpellingParses(plus: bool, zeros: nat, n: u64)
    ensures ParseU64(Spelling(plus, zeros, n)) == Some(n)
    ensures UNDERSCORE !in Spelling(plus, zeros, n)
  {
    T.LeadingZeros(zeros, T.NatText(n));
    T.NatTextValue(n);
    DigitsParse(plus, T.Zeros(zeros) + T.NatText(n));
  }

  lemma {:induction false} DigitsSpell(digits: Bytes) returns (zeros: nat)
    requires digits != [] && D.AllDigits(digits)
    ensures digits == T.Zeros(zeros) + T.NatText(D.DigitsValue(digits))
  {
    CanonicalDigits(digits);
    if Canonical(digits) {
      zeros := 0;
    } else {
      var rest := digits[1..];
      var more := DigitsSpell(rest);
      T.LeadingZeros(1, rest);
      zeros := more + 1;
      assert digits == T.Zeros(1) + rest;
      assert T.Zeros(zeros) == T.Zeros(1) + T.Zeros(more);
    }
  }

  /** A text parses to a number exactly when it spells the number. */
  lemma NumberReads(s: Bytes, n: u64)
    ensures ParseU64(s) == Some(n) <==> Spells(s, n)
    ensures Spells(s, n) ==> UNDERSCORE !in s
  {
    if ParseU64(s) == Some(n) {
      var plus := s[0] == PLUS;
      var digits := if plus then s[1..] else s;
      var zeros := DigitsSpell(digits);
      assert s == Spelling(plus, zeros, n);
    }
    if plus, zeros :| s == Spelling(plus, zeros, n) {
      SpellingParses(plus, zeros, n);
    }
  }

  /** A name declares a range exactly when it spells the two versions around one underscore, whatever their order. */
  lemma RangeReads(name: Bytes, first: u64, last: u64)
    ensures VersionRange(name) == Some((first, last)) <==>
            exists a, b :: Spells(a, first) && Spells(b, last) && name == Around(a + [UNDERSCORE] + b)
  {
    if VersionRange(name) == Some((first, last)) {
      RangeTextParses(name);
      NumbersDecompose(RangeText(name));
      var (a, b) := Numbers(RangeText(name));
      NumberReads(a, first);
      NumberReads(b, last);
    }
    if a, b :| Spells(a, first) && Spells(b, last) && name == Around(a + [UNDERSCORE] + b) {
      SpelledRange(a, b, first, last);
    }
  }

  lemma SpelledRange(a: Bytes, b: Bytes, first: u64, last: u64)
    requires Spells(a, first) && Spells(b, last)
    ensures VersionRange(Around(a + [UNDERSCORE] + b)) == Some((first, last))
  {
    NumberReads(a, first);
    NumberReads(b, last);
    NumbersAround(a, b);
    StripAffixes(a + [UNDERSCORE] + b);
  }
}
