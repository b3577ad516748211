/** The version samples that a recorder keeps beside its chunks for later point queries. */
module KeySampling {
  import opened Prelude
  import opened Division
  import B = ByteOrder

  function CeilDiv(n: nat, d: nat): nat
    requires d > 0
  {
    if n % d == 0 then n / d else n / d + 1
  }

  /** The quotient grows by one exactly behind a multiple of the divisor. */
  lemma CeilDivStep(n: nat, d: nat)
    requires d > 0
    ensures CeilDiv(n + 1, d) == CeilDiv(n, d) + if n % d == 0 then 1 else 0
    ensures n % d == 0 ==> n == CeilDiv(n, d) * d
  {
    var q, r := n / d, n % d;
    assert n == q * d + r;
    if r + 1 < d {
      DivisionUnique(n + 1, d, q, r + 1);
    } else {
      assert n + 1 == (q + 1) * d + 0;
      DivisionUnique(n + 1, d, q + 1, 0);
    }
  }

  lemma {:induction false} CeilDivMonotone(m: nat, n: nat, d: nat)
    requires d > 0 && m <= n
    ensures CeilDiv(m, d) <= CeilDiv(n, d)
    decreases n - m
  {
    if m < n {
      CeilDivMonotone(m, n - 1, d);
      CeilDivStep(n - 1, d);
    }
  }

  lemma CeilDivCovers(n: nat, d: nat)
    requires d > 0
    ensures n <= CeilDiv(n, d) * d
    ensures n > 0 ==> CeilDiv(n, d) > 0 && (CeilDiv(n, d) - 1) * d < n
  {
    var q, r := n / d, n % d;
    assert n == q * d + r;
    assert (q + 1) * d == q * d + d;
    if r == 0 && q > 0 {
      assert (q - 1) * d == q * d - d;
    }
  }

  /** Rounding the stride up keeps the samples of `n` versions within `limit`. */
  lemma StrideSuffices(n: nat, limit: nat, stride: nat)
    requires limit > 0 && stride > 0 && stride >= CeilDiv(n, limit)
    ensures CeilDiv(n, stride) <= limit
  {
    var s := CeilDiv(n, stride);
    CeilDivCovers(n, limit);
    CeilDivCovers(n, stride);
    ProductMonotone(CeilDiv(n, limit), stride, limit);
    if s > limit {
      ProductMonotone(limit, s - 1, stride);
    }
  }

  function Max1(n: u64): u64 {
    if n == 0 then 1 else n
  }

  class KeyWriter {
    const stride: u64
    const limit: u64
    var txVersions: Bytes
    var sampled: seq<u64>
    ghost var written: seq<u64>

    /** Every stride-th version written has been sampled, up to the limit. */
    ghost predicate Valid()
      reads this
    {
      && stride > 0
      && |sampled| == Min(CeilDiv(|written|, stride), limit)
      && (forall i :: 0 <= i < |sampled| ==> SampleAt(i))
      && txVersions == Encoded(written)
    }

    ghost predicate SampleAt(i: nat)
      reads this
    {
      i < |sampled| && i * stride < |written| && sampled[i] == written[i * stride]
    }

    constructor (expected: u64, sampleLimit: u64)
      ensures Valid() && written == []
      ensures limit == Max1(sampleLimit) && stride >= CeilDiv(expected, limit)
      ensures stride == 1 || stride == CeilDiv(expected, limit)
    {
      var atMost := Max1(sampleLimit);
      CeilDivBound(expected, atMost);
      limit := atMost;
      stride := Max1(CeilDiv(expected, atMost));
      txVersions, sampled, written := [], [], [];
    }

    method WriteVersion(version: u64, zeroBasedIdx: nat)
      requires Valid() && zeroBasedIdx == |written|
      modifies this
      ensures Valid() && written == old(written) + [version]
      ensures txVersions == old(txVersions) + B.BigEndian(version, 8)
    {
      CeilDivStep(|written|, stride);
      txVersions := txVersions + B.BigEndian(version, 8);
      if zeroBasedIdx % stride == 0 && |sampled| < limit {
        sampled := sampled + [version];
      }
      written := written + [version];
      assert written[..|written| - 1] == old(written);
      forall i | 0 <= i < |sampled|
        ensures SampleAt(i)
      {
        assert i < |old(sampled)| ==> old(SampleAt(i));
      }
    }
  }

  function Min(a: nat, b: nat): nat {
    if a <= b then a else b
  }

  lemma CeilDivBound(n: nat, d: nat)
    requires d > 0
    ensures CeilDiv(n, d) <= n
  {
    CeilDivCovers(n, d);
    if n > 0 {
      ProductMonotone(1, d, CeilDiv(n, d) - 1);
    }
  }

  /** The file of all versions, eight big-endian bytes each. */
  function Encoded(versions: seq<u64>): Bytes {
    if versions == [] then [] else Encoded(versions[..|versions| - 1]) + B.BigEndian(versions[|versions| - 1], 8)
  }

  lemma EncodedStep(versions: seq<u64>, k: nat)
    requires k < |versions| && |Encoded(versions[..|versions| - 1])| == 8 * (|versions| - 1)
    ensures |Encoded(versions)| == 8 * |versions|
    ensures Encoded(versions)[8 * k..8 * k + 8] ==
            if k == |versions| - 1 then B.BigEndian(versions[k], 8)
            else Encoded(versions[..|versions| - 1])[8 * k..8 * k + 8]
  {
  }

  /** Every version has its own eight bytes. */
  lemma {:induction false} EncodedAt(versions: seq<u64>, k: nat)
    requires k < |versions|
    ensures |Encoded(versions)| == 8 * |versions|
    ensures Encoded(versions)[8 * k..8 * k + 8] == B.BigEndian(versions[k], 8)
  {
    var n := |versions| - 1;
    if n > 0 {
      EncodedAt(versions[..n], if k < n then k else 0);
    }
    EncodedStep(versions, k);
  }

  /** And they read back as the version. */
  lemma EncodedReads(versions: seq<u64>, k: nat)
    requires k < |versions|
    ensures |Encoded(versions)| == 8 * |versions|
    ensures B.Number(Encoded(versions)[8 * k..8 * k + 8]) == versions[k]
  {
    EncodedAt(versions, k);
    B.MachineWidths();
    B.BigEndianReads(versions[k], 8);
  }

  /** Files with the same bytes list the same versions. */
  lemma EncodedIsExact(a: seq<u64>, b: seq<u64>)
    ensures |Encoded(a)| == 8 * |a|
    ensures Encoded(a) == Encoded(b) <==> a == b
  {
    EncodedLength(a);
    EncodedLength(b);
    if Encoded(a) == Encoded(b) {
      forall k: nat | k < |a|
        ensures a[k] == b[k]
      {
        EncodedReads(a, k);
        EncodedReads(b, k);
      }
    }
  }

  lemma EncodedLength(versions: seq<u64>)
    ensures |Encoded(versions)| == 8 * |versions|
  {
    if versions != [] {
      EncodedAt(versions, 0);
    }
  }

  /** As long as the stream keeps to the expected number of versions, the samples are exactly the versions at
      multiples of the stride, and the limit never cuts one off. */
  lemma SamplesAreComplete(w: KeyWriter, expected: u64)
    requires w.Valid() && w.limit > 0 && w.stride >= CeilDiv(expected, w.limit)
    requires |w.written| <= expected
    ensures |w.sampled| == CeilDiv(|w.written|, w.stride) <= w.limit
    ensures forall i: nat :: i < |w.sampled| ==> w.SampleAt(i)
    ensures forall k: nat :: k < |w.written| && k % w.stride == 0 ==> w.written[k] in w.sampled
  {
    StrideSuffices(expected, w.limit, w.stride);
    CeilDivMonotone(|w.written|, expected, w.stride);
    forall k: nat | k < |w.written| && k % w.stride == 0
      ensures w.written[k] in w.sampled
    {
      CeilDivStep(k, w.stride);
      CeilDivMonotone(k + 1, |w.written|, w.stride);
      assert w.SampleAt(CeilDiv(k, w.stride));
    }
  }
}
