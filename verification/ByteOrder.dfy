/** Bytewise (lexicographic) order: the order of Rust strings and byte vectors,
    and the order in which a column family iterates its keys. */
module ByteOrder {
  import opened Prelude

  predicate Lt(a: Bytes, b: Bytes) {
    b != [] && (a == [] || a[0] < b[0] || (a[0] == b[0] && Lt(a[1..], b[1..])))
  }

  predicate Leq(a: Bytes, b: Bytes) {
    a == b || Lt(a, b)
  }

  predicate StartsWith(s: Bytes, prefix: Bytes) {
    |prefix| <= |s| && s[..|prefix|] == prefix
  }

  lemma StartsWithStep(s: Bytes, prefix: Bytes)
    requires s != [] && prefix != []
    ensures StartsWith(s, prefix) <==> s[0] == prefix[0] && StartsWith(s[1..], prefix[1..])
  {
    if |prefix| <= |s| {
      assert s[..|prefix|] == [s[0]] + s[1..][..|prefix| - 1];
      assert prefix == [prefix[0]] + prefix[1..];
      assert s[..|prefix|][1..] == s[1..][..|prefix| - 1];
    }
  }

  lemma {:induction false} Irreflexive(a: Bytes)
    ensures !Lt(a, a)
  {
    if a != [] { Irreflexive(a[1..]); }
  }

  lemma {:induction false} Transitive(a: Bytes, b: Bytes, c: Bytes)
    requires Lt(a, b) && Lt(b, c)
    ensures Lt(a, c)
  {
    if a != [] && a[0] == b[0] && b[0] == c[0] {
      Transitive(a[1..], b[1..], c[1..]);
    }
  }

  lemma {:induction false} Trichotomous(a: Bytes, b: Bytes)
    ensures Lt(a, b) || a == b || Lt(b, a)
  {
    if a != [] && b != [] && a[0] == b[0] {
      Trichotomous(a[1..], b[1..]);
      assert a == [a[0]] + a[1..] && b == [b[0]] + b[1..];
    }
  }

  lemma Asymmetric(a: Bytes, b: Bytes)
    requires Lt(a, b)
    ensures !Lt(b, a) && a != b
  {
    Irreflexive(a);
    if Lt(b, a) { Transitive(a, b, a); }
  }

  lemma LeqIsTotal(a: Bytes, b: Bytes, c: Bytes)
    ensures Leq(a, b) || Leq(b, a)
    ensures Leq(a, b) && Leq(b, c) ==> Leq(a, c)
    ensures Leq(a, b) && Leq(b, a) ==> a == b
  {
    Trichotomous(a, b);
    if Lt(a, b) && Lt(b, c) { Transitive(a, b, c); }
    if Lt(a, b) { Asymmetric(a, b); }
  }

  /** A shared prefix never decides a comparison. */
  lemma {:induction false} CommonPrefix(p: Bytes, a: Bytes, b: Bytes)
    ensures Lt(p + a, p + b) <==> Lt(a, b)
  {
    if p == [] {
      assert p + a == a && p + b == b;
    } else {
      assert (p + a)[1..] == p[1..] + a && (p + b)[1..] == p[1..] + b;
      CommonPrefix(p[1..], a, b);
    }
  }

  /** Two different segments of one length decide the comparison alone. */
  lemma {:induction false} FixedWidthDecides(x: Bytes, y: Bytes, a: Bytes, b: Bytes)
    requires |x| == |y| && x != y
    ensures Lt(x + a, y + b) <==> Lt(x, y)
  {
    assert (x + a)[1..] == x[1..] + a && (y + b)[1..] == y[1..] + b;
    if x[0] == y[0] {
      assert x == [x[0]] + x[1..] && y == [y[0]] + y[1..];
      FixedWidthDecides(x[1..], y[1..], a, b);
    }
  }

  predicate ZeroFree(text: Bytes) {
    forall i :: 0 <= i < |text| ==> text[i] != 0
  }

  /** Zero-terminated, two different zero-free texts decide the comparison alone,
      also when one is a prefix of the other. */
  lemma {:induction false} TerminatedTextDecides(x: Bytes, y: Bytes, a: Bytes, b: Bytes)
    requires ZeroFree(x) && ZeroFree(y) && x != y
    ensures Lt(x + [0] + a, y + [0] + b) <==> Lt(x, y)
  {
    if x == [] || y == [] {
    } else {
      assert (x + [0] + a)[1..] == x[1..] + [0] + a && (y + [0] + b)[1..] == y[1..] + [0] + b;
      if x[0] == y[0] {
        assert x == [x[0]] + x[1..] && y == [y[0]] + y[1..];
        TerminatedTextDecides(x[1..], y[1..], a, b);
      }
    }
  }

  /** A zero-terminated text is a prefix of another exactly when the texts are the same. */
  lemma TerminatedTextPrefix(x: Bytes, y: Bytes, a: Bytes)
    requires ZeroFree(x) && ZeroFree(y)
    ensures StartsWith(x + [0] + a, y + [0]) <==> x == y
  {
    var key := x + [0] + a;
    if StartsWith(key, y + [0]) {
      assert key[|y|] == (y + [0])[|y|] == 0;
      assert key[|x|] == 0;
      forall i | 0 <= i < |y|
        ensures key[i] != 0
      {
        assert key[i] == (y + [0])[i] == y[i];
      }
      assert |x| == |y|;
      assert x == key[..|x|] == y;
    }
  }

  // Big-endian integers.

  function Pow256(width: nat): (p: nat)
    ensures p > 0
  {
    if width == 0 then 1 else 256 * Pow256(width - 1)
  }

  /** `to_be_bytes` of an integer of `width` bytes. */
  function BigEndian(n: nat, width: nat): (bytes: Bytes)
    requires n < Pow256(width)
    ensures |bytes| == width
    decreases width, n
  {
    if width == 0 then []
    else
      var p := Pow256(width - 1);
      HighByte(n, p);
      [n / p] + BigEndian(n % p, width - 1)
  }

  lemma ProductOrder(p: nat, a: int, b: int)
    requires 0 < p
    ensures a <= b <==> a * p <= b * p
    ensures a < b ==> a * p + p <= b * p
  {
    var gap := if a < b then b - a - 1 else a - b;
    assert gap * p >= 0;
    assert a < b ==> gap * p == b * p - a * p - p;
    assert a >= b ==> gap * p == a * p - b * p;
    if a > b {
      assert (a - b) * p > 0;
    }
  }

  lemma HighByte(n: nat, p: nat)
    requires 0 < p && n < 256 * p
    ensures 0 <= n / p < 256 && n % p < p && n == n / p * p + n % p
  {
    var q := n / p;
    assert q * p <= n;
    ProductOrder(p, 256, q);
  }

  lemma QuotientDecides(n: nat, m: nat, p: nat)
    requires 0 < p
    ensures n / p < m / p ==> n < m
    ensures n / p == m / p ==> (n < m <==> n % p < m % p)
  {
    ProductOrder(p, n / p, m / p);
  }

  /** Big-endian bytes of one width compare as the integers do. */
  lemma {:induction false} BigEndianOrder(n: nat, m: nat, width: nat)
    requires n < Pow256(width) && m < Pow256(width)
    ensures Lt(BigEndian(n, width), BigEndian(m, width)) <==> n < m
    ensures BigEndian(n, width) == BigEndian(m, width) <==> n == m
    decreases width
  {
    if width > 0 {
      var p := Pow256(width - 1);
      HighByte(n, p);
      HighByte(m, p);
      QuotientDecides(n, m, p);
      QuotientDecides(m, n, p);
      BigEndianOrder(n % p, m % p, width - 1);
      var a, b := BigEndian(n, width), BigEndian(m, width);
      assert a[1..] == BigEndian(n % p, width - 1) && b[1..] == BigEndian(m % p, width - 1);
    }
  }

  /** The number that big-endian bytes stand for. */
  function Number(bytes: Bytes): nat {
    if bytes == [] then 0 else 256 * Number(bytes[..|bytes| - 1]) + bytes[|bytes| - 1]
  }

  lemma {:induction false} NumberOfCons(high: byte, rest: Bytes)
    ensures Number([high] + rest) == high * Pow256(|rest|) + Number(rest)
  {
    var bytes := [high] + rest;
    if rest == [] {
      assert bytes[..0] == [];
    } else {
      var init, p := rest[..|rest| - 1], Pow256(|rest| - 1);
      NumberOfCons(high, init);
      assert bytes[..|bytes| - 1] == [high] + init;
      assert 256 * (high * p) == high * (256 * p);
    }
  }

  /** Big-endian bytes read back as the number they were written for. */
  lemma {:induction false} BigEndianReads(n: nat, width: nat)
    requires n < Pow256(width)
    ensures Number(BigEndian(n, width)) == n
    decreases width
  {
    if width > 0 {
      var p := Pow256(width - 1);
      HighByte(n, p);
      BigEndianReads(n % p, width - 1);
      NumberOfCons(n / p, BigEndian(n % p, width - 1));
    }
  }

  lemma MachineWidths()
    ensures Pow256(4) == U32_LIMIT && Pow256(8) == U64_LIMIT
  {
    assert Pow256(1) == 256;
    assert Pow256(2) == 0x1_0000;
    assert Pow256(3) == 0x100_0000;
    assert Pow256(4) == 0x1_0000_0000;
    assert Pow256(5) == 0x100_0000_0000;
    assert Pow256(6) == 0x1_0000_0000_0000;
    assert Pow256(7) == 0x100_0000_0000_0000;
  }
}
