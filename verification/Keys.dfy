/** Storage keys: segments joined by a zero byte, integers big-endian, timestamps reversed so
    that newer rows come first. The text segments are zero-free; the integers need not be. */
module Keys {
  import opened Prelude
  import opened Rows
  import Lists
  import B = ByteOrder

  const SEP: byte := 0

  function ReverseTs(ts: u64): u64 {
    U64_MAX - ts
  }

  function BeU64(n: u64): (bytes: Bytes)
    ensures |bytes| == 8
  {
    B.MachineWidths();
    B.BigEndian(n, 8)
  }

  function BeU32(n: u32): (bytes: Bytes)
    ensures |bytes| == 4
  {
    B.MachineWidths();
    B.BigEndian(n, 4)
  }

  datatype Segment = Text(text: Bytes) | Version(n: u64) | Index(idx: u32) | RecentFirst(ts: u64) {
    function Encoded(): Bytes {
      match this
      case Text(text) => text
      case Version(n) => BeU64(n)
      case Index(idx) => BeU32(idx)
      case RecentFirst(ts) => BeU64(ReverseTs(ts))
    }

    /** The order a reader of the key means: texts bytewise, versions ascending, newest time first. */
    predicate Before(other: Segment) {
      match (this, other)
      case (Text(a), Text(b)) => B.Lt(a, b)
      case (Version(a), Version(b)) => a < b
      case (Index(a), Index(b)) => a < b
      case (RecentFirst(a), RecentFirst(b)) => a > b
      case _ => false
    }

    predicate SameKind(other: Segment) {
      (Text? && other.Text?) || (Version? && other.Version?) || (Index? && other.Index?) ||
      (RecentFirst? && other.RecentFirst?)
    }

    predicate Valid() {
      Text? ==> B.ZeroFree(text)
    }
  }

  function Join(segments: seq<Bytes>): Bytes {
    if segments == [] then []
    else if |segments| == 1 then segments[0]
    else segments[0] + [SEP] + Join(segments[1..])
  }

  lemma {:induction false} JoinAppend(segments: seq<Bytes>, last: Bytes)
    requires segments != []
    ensures Join(segments + [last]) == Join(segments) + [SEP] + last
  {
    if |segments| == 1 {
      assert (segments + [last])[1..] == [last];
    } else {
      assert (segments + [last])[1..] == segments[1..] + [last];
      JoinAppend(segments[1..], last);
    }
  }

  method JoinSegments(segments: seq<Bytes>) returns (key: Bytes)
    ensures key == Join(segments)
  {
    key := [];
    for idx := 0 to |segments|
      invariant key == Join(segments[..idx])
    {
      if idx > 0 {
        key := key + [SEP];
        JoinAppend(segments[..idx], segments[idx]);
      }
      key := key + segments[idx];
      assert segments[..idx + 1] == segments[..idx] + [segments[idx]];
    }
    assert segments[..|segments|] == segments;
  }

  function Key(segments: seq<Segment>): Bytes {
    Join(Lists.Map((s: Segment) => s.Encoded(), segments))
  }

  function Prefix(text: Bytes): Bytes {
    Join([text]) + [SEP]
  }

  method BuildKey(segments: seq<Segment>) returns (key: Bytes)
    ensures key == Key(segments)
  {
    key := JoinSegments(Lists.Map((s: Segment) => s.Encoded(), segments));
  }

  method PrefixSegments(segments: seq<Bytes>) returns (key: Bytes)
    ensures key == Join(segments) + [SEP]
    ensures |segments| == 1 ==> key == Prefix(segments[0])
  {
    key := JoinSegments(segments);
    key := key + [SEP];
  }

  // The keys of the column families.

  function TxByVersion(version: u64): Bytes {
    BeU64(version)
  }

  function RawEventByVersionIdx(version: u64, eventIdx: u32): Bytes {
    BeU64(version) + BeU32(eventIdx)
  }

  function FillMarketSegments(f: FillRow): seq<Segment> {
    [Text(f.marketId), RecentFirst(f.timestampUs), Version(f.version), Text(f.fillId)]
  }

  function FillAccountSegments(f: FillRow): seq<Segment> {
    [Text(f.account), RecentFirst(f.timestampUs), Text(f.marketId), Text(f.fillId)]
  }

  function OptionalText(value: Option<Bytes>): Bytes {
    match value
    case Some(text) => Ascii("some:") + text
    case None => Ascii("none")
  }

  function PositionSegments(account: Bytes, marketId: Bytes, subaccount: Option<Bytes>): seq<Segment> {
    [Text(account), Text(marketId), Text(OptionalText(subaccount))]
  }

  function BuilderSegments(r: BuilderRow): seq<Segment> {
    [Text(r.builderAddr), RecentFirst(r.timestampUs), Text(r.marketId), Text(r.fillId)]
  }

  function ActivitySegments(a: ActivityRow): seq<Segment> {
    [Text(a.marketId), RecentFirst(a.timestampUs), Text(a.activityType), Version(a.version), Index(a.eventIdx)]
  }

  function CheckpointSegments(network: Network, packageAddress: Bytes): seq<Segment> {
    [Text(network.Name()), Text(packageAddress)]
  }

  // Byte order is tuple order.

  predicate TupleBefore(a: seq<Segment>, b: seq<Segment>) {
    a != [] && b != [] && (a[0].Before(b[0]) || (a[0] == b[0] && TupleBefore(a[1..], b[1..])))
  }

  ghost predicate SameShape(a: seq<Segment>, b: seq<Segment>) {
    |a| == |b| && forall i :: 0 <= i < |a| ==> a[i].SameKind(b[i])
  }

  ghost predicate ValidKey(a: seq<Segment>) {
    a != [] && forall i :: 0 <= i < |a| ==> a[i].Valid()
  }

  lemma KeyCons(a: seq<Segment>)
    requires |a| > 1
    ensures Key(a) == a[0].Encoded() + [SEP] + Key(a[1..])
  {
    var encoded := Lists.Map((s: Segment) => s.Encoded(), a);
    assert encoded[1..] == Lists.Map((s: Segment) => s.Encoded(), a[1..]);
  }

  lemma SegmentOrder(a: Segment, b: Segment)
    requires a.SameKind(b)
    ensures B.Lt(a.Encoded(), b.Encoded()) <==> a.Before(b)
    ensures a.Encoded() == b.Encoded() <==> a == b
  {
    B.MachineWidths();
    match (a, b)
    case (Version(n), Version(m)) => B.BigEndianOrder(n, m, 8);
    case (Index(n), Index(m)) => B.BigEndianOrder(n, m, 4);
    case (RecentFirst(n), RecentFirst(m)) => B.BigEndianOrder(ReverseTs(n), ReverseTs(m), 8);
    case _ =>
  }

  /** The first segment decides, and only a tie leaves the rest to decide. */
  lemma FirstSegmentDecides(a: Segment, b: Segment, s: Bytes, t: Bytes)
    requires a.SameKind(b) && a.Valid() && b.Valid()
    ensures B.Lt(a.Encoded() + [SEP] + s, b.Encoded() + [SEP] + t) <==> a.Before(b) || (a == b && B.Lt(s, t))
  {
    SegmentOrder(a, b);
    var x, y := a.Encoded(), b.Encoded();
    if a == b {
      B.Irreflexive(x);
      B.CommonPrefix(x + [SEP], s, t);
    } else if a.Text? {
      B.TerminatedTextDecides(x, y, s, t);
    } else {
      assert x + [SEP] + s == x + ([SEP] + s) && y + [SEP] + t == y + ([SEP] + t);
      B.FixedWidthDecides(x, y, [SEP] + s, [SEP] + t);
    }
  }

  /** Keys of one shape compare bytewise exactly as their tuples compare. */
  lemma {:induction false} KeyOrder(a: seq<Segment>, b: seq<Segment>)
    requires SameShape(a, b) && ValidKey(a) && ValidKey(b)
    ensures B.Lt(Key(a), Key(b)) <==> TupleBefore(a, b)
  {
    if |a| == 1 {
      SegmentOrder(a[0], b[0]);
    } else {
      KeyCons(a);
      KeyCons(b);
      FirstSegmentDecides(a[0], b[0], Key(a[1..]), Key(b[1..]));
      KeyOrder(a[1..], b[1..]);
    }
  }

  lemma {:induction false} TupleTrichotomous(a: seq<Segment>, b: seq<Segment>)
    requires SameShape(a, b)
    ensures TupleBefore(a, b) || a == b || TupleBefore(b, a)
  {
    if a != [] {
      if a[0].Text? {
        B.Trichotomous(a[0].text, b[0].text);
      }
      if a[0] == b[0] {
        TupleTrichotomous(a[1..], b[1..]);
        assert a == [a[0]] + a[1..] && b == [b[0]] + b[1..];
      }
    }
  }

  /** No two tuples of one shape share a key, although integer segments may contain zero bytes. */
  lemma KeyInjective(a: seq<Segment>, b: seq<Segment>)
    requires SameShape(a, b) && ValidKey(a) && ValidKey(b)
    requires Key(a) == Key(b)
    ensures a == b
  {
    TupleTrichotomous(a, b);
    KeyOrder(a, b);
    KeyOrder(b, a);
    B.Irreflexive(Key(a));
  }

  /** A prefix scan sees exactly the keys whose first segment is the scanned text. */
  lemma PrefixExact(a: seq<Segment>, text: Bytes)
    requires |a| > 1 && ValidKey(a) && a[0].Text? && B.ZeroFree(text)
    ensures B.StartsWith(Key(a), Prefix(text)) <==> a[0] == Text(text)
  {
    KeyCons(a);
    B.TerminatedTextPrefix(a[0].text, text, Key(a[1..]));
  }

  lemma EventKeyOrder(v: u64, i: u32, w: u64, j: u32)
    ensures B.Lt(RawEventByVersionIdx(v, i), RawEventByVersionIdx(w, j)) <==> v < w || (v == w && i < j)
    ensures RawEventByVersionIdx(v, i) == RawEventByVersionIdx(w, j) <==> v == w && i == j
  {
    B.MachineWidths();
    B.BigEndianOrder(v, w, 8);
    B.BigEndianOrder(i, j, 4);
    if v == w {
      B.CommonPrefix(BeU64(v), BeU32(i), BeU32(j));
    } else {
      B.FixedWidthDecides(BeU64(v), BeU64(w), BeU32(i), BeU32(j));
    }
    var a, b := RawEventByVersionIdx(v, i), RawEventByVersionIdx(w, j);
    assert a[..8] == BeU64(v) && b[..8] == BeU64(w) && a[8..] == BeU32(i) && b[8..] == BeU32(j);
  }

  lemma TxKeyOrder(v: u64, w: u64)
    ensures B.Lt(TxByVersion(v), TxByVersion(w)) <==> v < w
    ensures TxByVersion(v) == TxByVersion(w) <==> v == w
  {
    B.MachineWidths();
    B.BigEndianOrder(v, w, 8);
  }

  /** An absent subaccount sorts before every present one, and present ones sort by their text. */
  predicate OptionBefore(a: Option<Bytes>, b: Option<Bytes>) {
    match (a, b)
    case (None, Some(_)) => true
    case (Some(x), Some(y)) => B.Lt(x, y)
    case _ => false
  }

  lemma OptionalTextOrder(a: Option<Bytes>, b: Option<Bytes>)
    ensures B.Lt(OptionalText(a), OptionalText(b)) <==> OptionBefore(a, b)
    ensures OptionalText(a) == OptionalText(b) <==> a == b
    ensures (a.Some? ==> B.ZeroFree(a.value)) ==> B.ZeroFree(OptionalText(a))
  {
    var none, some := Ascii("none"), Ascii("some:");
    assert none[0] == 110 && some[0] == 115;
    match (a, b)
    case (Some(x), Some(y)) =>
      B.CommonPrefix(some, x, y);
      assert (some + x)[5..] == x && (some + y)[5..] == y;
    case (None, None) => B.Irreflexive(none);
    case _ =>
  }
}
