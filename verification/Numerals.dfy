/** Which texts the decimal parser takes, and for which numbers: an optional sign and digits with at most one point
    among or around them, between white space. */
module Numerals {
  import opened Prelude
  import opened Decimal

  /** The parts of a numeral. Without a point the fraction is empty. */
  datatype Numeral = Numeral(before: Bytes, negative: bool, whole: Bytes, pointed: bool, fraction: Bytes,
                             after: Bytes)

  predicate AllSpaces(s: Bytes) {
    forall i :: 0 <= i < |s| ==> IsSpace(s[i])
  }

  ghost predicate WellFormed(n: Numeral) {
    && AllSpaces(n.before) && AllSpaces(n.after) && AllDigits(n.whole) && AllDigits(n.fraction)
    && n.whole + n.fraction != [] && (!n.pointed ==> n.fraction == [])
  }

  function Body(n: Numeral): Bytes {
    n.whole + if n.pointed then [DOT] + n.fraction else []
  }

  function Core(n: Numeral): Bytes {
    (if n.negative then [MINUS] else []) + Body(n)
  }

  function Spelled(n: Numeral): Bytes {
    n.before + Core(n) + n.after
  }

  /** The number a numeral stands for, unless its digits do not fit. The scale is a 32-bit count. */
  function Denoted(n: Numeral): Term
    requires WellFormed(n)
  {
    var magnitude: int := DigitsValue(n.whole + n.fraction);
    if magnitude >= I128_LIMIT then None
    else Some(Decimal(if n.negative then -magnitude else magnitude, |n.fraction| % U32_LIMIT))
  }

  // White space.

  lemma {:induction false} TrimStartDrops(spaces: Bytes, rest: Bytes)
    requires AllSpaces(spaces) && rest != [] && !IsSpace(rest[0])
    ensures TrimStart(spaces + rest) == rest
  {
    if spaces == [] {
      assert spaces + rest == rest;
    } else {
      assert (spaces + rest)[1..] == spaces[1..] + rest;
      TrimStartDrops(spaces[1..], rest);
    }
  }

  lemma {:induction false} TrimEndDrops(rest: Bytes, spaces: Bytes)
    requires AllSpaces(spaces) && rest != [] && !IsSpace(rest[|rest| - 1])
    ensures TrimEnd(rest + spaces) == rest
  {
    if spaces == [] {
      assert rest + spaces == rest;
    } else {
      var s := rest + spaces;
      assert s[..|s| - 1] == rest + spaces[..|spaces| - 1];
      TrimEndDrops(rest, spaces[..|spaces| - 1]);
    }
  }

  lemma {:induction false} TrimStartSplits(s: Bytes) returns (spaces: Bytes)
    ensures AllSpaces(spaces) && s == spaces + TrimStart(s)
    ensures TrimStart(s) != [] ==> !IsSpace(TrimStart(s)[0])
  {
    if s != [] && IsSpace(s[0]) {
      var more := TrimStartSplits(s[1..]);
      spaces := [s[0]] + more;
    } else {
      spaces := [];
    }
  }

  lemma {:induction false} TrimEndSplits(s: Bytes) returns (spaces: Bytes)
    ensures AllSpaces(spaces) && s == TrimEnd(s) + spaces
  {
    if s != [] && IsSpace(s[|s| - 1]) {
      var more := TrimEndSplits(s[..|s| - 1]);
      spaces := more + [s[|s| - 1]];
    } else {
      spaces := [];
    }
  }

  lemma CoreIsTrimmed(n: Numeral)
    requires WellFormed(n)
    ensures Core(n) != [] && !IsSpace(Core(n)[0]) && !IsSpace(Core(n)[|Core(n)| - 1])
    ensures Trim(Spelled(n)) == Core(n)
  {
    assert n.before + Core(n) + n.after == n.before + (Core(n) + n.after);
    TrimStartDrops(n.before, Core(n) + n.after);
    TrimEndDrops(Core(n), n.after);
  }

  // The digits and the point.

  lemma {:induction false} FirstDot(whole: Bytes, rest: Bytes)
    requires AllDigits(whole) && (rest == [] || rest[0] == DOT)
    ensures IndexOf(whole + rest, DOT) == |whole|
  {
    if whole == [] {
      assert whole + rest == rest;
    } else {
      assert (whole + rest)[1..] == whole[1..] + rest;
      FirstDot(whole[1..], rest);
    }
  }

  lemma BodyOfNumeral(n: Numeral)
    requires WellFormed(n)
    ensures
      var body := Body(n);
      && IndexOf(body, DOT) == |n.whole| && body[..|n.whole|] == n.whole
      && (n.pointed <==> |n.whole| < |body|) && (n.pointed ==> body[|n.whole| + 1..] == n.fraction)
      && DOT !in n.fraction
  {
    FirstDot(n.whole, if n.pointed then [DOT] + n.fraction else []);
  }

  lemma BodyParses(n: Numeral)
    requires WellFormed(n)
    ensures ParseBody(n.negative, Body(n)) == Denoted(n)
  {
    BodyOfNumeral(n);
  }

  lemma CoreSign(n: Numeral)
    requires WellFormed(n)
    ensures Core(n)[0] == MINUS <==> n.negative
    ensures (if n.negative then Core(n)[1..] else Core(n)) == Body(n)
  {
  }

  /** A numeral parses to the number it stands for, whether or not there are digits on both sides of its point. */
  lemma NumeralParses(n: Numeral)
    requires WellFormed(n)
    ensures ParseDecimal(Spelled(n)) == Denoted(n)
  {
    CoreIsTrimmed(n);
    CoreSign(n);
    BodyParses(n);
  }

  lemma BareSpelling(n: Numeral)
    requires n.before == [] && n.after == []
    ensures Spelled(n) == Core(n)
  {
  }

  lemma SmallScale(n: Numeral)
    requires WellFormed(n) && |n.fraction| < U32_LIMIT
    ensures
      var magnitude: int := DigitsValue(n.whole + n.fraction);
      Denoted(n) ==
        if magnitude >= I128_LIMIT then None
        else Some(Decimal(if n.negative then -magnitude else magnitude, |n.fraction|))
  {
  }

  lemma SplitAt(body: Bytes, dot: nat)
    requires dot <= |body| && (dot < |body| ==> body[dot] == DOT)
    ensures body == body[..dot] + if dot < |body| then [DOT] + body[dot + 1..] else []
  {
    if dot < |body| {
      assert body == body[..dot] + ([DOT] + body[dot + 1..]);
    }
  }

  lemma ParsedBody(negative: bool, body: Bytes) returns (n: Numeral)
    requires ParseBody(negative, body).Some?
    ensures WellFormed(n) && n.negative == negative && Body(n) == body && n.before == n.after == []
  {
    var dot := IndexOf(body, DOT);
    var whole, fraction := body[..dot], if dot < |body| then body[dot + 1..] else [];
    SplitAt(body, dot);
    n := Numeral([], negative, whole, dot < |body|, fraction, []);
  }

  lemma TrimSplits(s: Bytes) returns (before: Bytes, after: Bytes)
    ensures AllSpaces(before) && AllSpaces(after) && s == before + Trim(s) + after
  {
    before := TrimStartSplits(s);
    after := TrimEndSplits(TrimStart(s));
  }

  lemma UnsignedCore(core: Bytes)
    requires core != []
    ensures
      var negative := core[0] == MINUS;
      core == (if negative then [MINUS] else []) + if negative then core[1..] else core
  {
  }

  /** Nothing else parses. */
  lemma ParsedIsNumeral(s: Bytes) returns (n: Numeral)
    requires ParseDecimal(s).Some?
    ensures WellFormed(n) && s == Spelled(n)
  {
    var core := Trim(s);
    var negative := core[0] == MINUS;
    var bare := ParsedBody(negative, if negative then core[1..] else core);
    UnsignedCore(core);
    var before, after := TrimSplits(s);
    n := bare.(before := before, after := after);
    assert Core(n) == core;
  }
}
