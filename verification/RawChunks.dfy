/** Raw chunk files and the version ranges they declare: how a recorded range is cut into chunks,
    and how a directory of chunks is listed and checked. */
module RawChunks {
  import opened Prelude
  import opened Framing
  import opened ChunkNames
  import Lists
  import B = ByteOrder

  /** One completed chunk, as a checkpoint lists it. */
  datatype ChunkEntry = ChunkEntry(path: Bytes, first: u64, last: u64, count: nat)

  function VersionAt(txs: seq<Transaction>, i: nat): u64
    requires i < |txs|
  {
    txs[i].version
  }

  /** Versions `start`, `start + 1`, and so on. */
  ghost predicate Consecutive(txs: seq<Transaction>, start: nat) {
    forall i: nat :: i < |txs| ==> VersionAt(txs, i) == start + i
  }

  /** The chunks cover exactly the versions from `origin` up to but not including `next`, in order,
      each under the name of its range, with its width as count and at most `limit` wide. */
  ghost predicate Partition(chunks: seq<ChunkEntry>, origin: nat, next: nat, limit: nat) {
    if chunks == [] then origin == next
    else
      var c := chunks[|chunks| - 1];
      && c.first <= c.last && c.last + 1 == next
      && c.count == c.last - c.first + 1 <= limit
      && c.path == ChunkName(c.first, c.last)
      && Partition(chunks[..|chunks| - 1], origin, c.first, limit)
  }

  function TotalCount(chunks: seq<ChunkEntry>): nat {
    if chunks == [] then 0 else TotalCount(chunks[..|chunks| - 1]) + chunks[|chunks| - 1].count
  }

  lemma {:induction false} PartitionBounds(chunks: seq<ChunkEntry>, origin: nat, next: nat, limit: nat)
    requires Partition(chunks, origin, next, limit)
    ensures origin <= next && TotalCount(chunks) == next - origin
    ensures forall c :: c in chunks ==> origin <= c.first <= c.last < next && c.path == ChunkName(c.first, c.last)
  {
    if chunks != [] {
      var init, c := chunks[..|chunks| - 1], chunks[|chunks| - 1];
      PartitionBounds(init, origin, c.first, limit);
      assert forall d :: d in chunks <==> d in init || d == c;
    }
  }

  ghost predicate Touches(chunks: seq<ChunkEntry>, i: nat) {
    0 < i < |chunks| && chunks[i].first == chunks[i - 1].last as int + 1
  }

  /** Neighbours in a partition touch. */
  lemma {:induction false} PartitionNeighbours(chunks: seq<ChunkEntry>, origin: nat, next: nat, limit: nat)
    requires Partition(chunks, origin, next, limit)
    ensures chunks != [] ==> chunks[0].first == origin && chunks[|chunks| - 1].last + 1 == next
    ensures forall i :: 0 <= i < |chunks| ==>
              chunks[i].first <= chunks[i].last && chunks[i].path == ChunkName(chunks[i].first, chunks[i].last)
    ensures forall i: nat :: 0 < i < |chunks| ==> Touches(chunks, i)
  {
    if chunks != [] {
      var init, c := chunks[..|chunks| - 1], chunks[|chunks| - 1];
      PartitionNeighbours(init, origin, c.first, limit);
      forall i: nat | 0 < i < |chunks|
        ensures Touches(chunks, i)
      {
        assert i < |init| ==> Touches(init, i);
      }
    }
  }

  lemma {:induction false} PartitionOrdered(chunks: seq<ChunkEntry>, origin: nat, next: nat, limit: nat)
    requires Partition(chunks, origin, next, limit)
    ensures forall i, j :: 0 <= i < j < |chunks| ==> chunks[i].last < chunks[j].first
  {
    if chunks != [] {
      var init, c := chunks[..|chunks| - 1], chunks[|chunks| - 1];
      PartitionOrdered(init, origin, c.first, limit);
      PartitionBounds(init, origin, c.first, limit);
    }
  }

  // Checking the ranges that file names declare.

  type DeclaredRange = Option<(u64, u64)>

  function DeclaredRanges(names: seq<Bytes>): seq<DeclaredRange> {
    Lists.Map(VersionRange, names)
  }

  ghost predicate Follows(ranges: seq<DeclaredRange>, i: nat) {
    && 0 < i < |ranges| && ranges[i - 1].Some? && ranges[i].Some?
    && ranges[i].value.0 == ranges[i - 1].value.1 as int + 1
  }

  /** In order, and each range starts where the one before it ended. */
  ghost predicate InSequence(ranges: seq<DeclaredRange>) {
    && (forall i :: 0 <= i < |ranges| ==> ranges[i].Some? && ranges[i].value.0 <= ranges[i].value.1)
    && (forall i: nat :: 0 < i < |ranges| ==> Follows(ranges, i))
  }

  /** What the declared ranges must satisfy before any chunk is opened. */
  ghost predicate DeclaredOk(ranges: seq<DeclaredRange>, requireContiguous: bool) {
    if requireContiguous then InSequence(ranges)
    else forall i :: 0 <= i < |ranges| ==>
      if ranges[i].Some? then ranges[i].value.0 <= ranges[i].value.1 else |ranges| == 1
  }

  method ValidateDeclaredSequence(ranges: seq<DeclaredRange>, requireContiguous: bool) returns (ok: bool)
    ensures ok <==> DeclaredOk(ranges, requireContiguous)
  {
    var previousLast: Option<u64> := None;
    for i := 0 to |ranges|
      invariant requireContiguous ==> forall j: nat :: 0 < j < i ==> Follows(ranges, j)
      invariant requireContiguous ==> forall j :: 0 <= j < i ==>
                  ranges[j].Some? && ranges[j].value.0 <= ranges[j].value.1
      invariant !requireContiguous ==> forall j :: 0 <= j < i ==>
                  if ranges[j].Some? then ranges[j].value.0 <= ranges[j].value.1 else |ranges| == 1
      invariant previousLast == if requireContiguous && i > 0 then Some(ranges[i - 1].value.1) else None
    {
      if ranges[i].None? {
        if requireContiguous || |ranges| > 1 {
          return false;
        }
      } else {
        var (first, last) := ranges[i].value;
        if first > last {
          return false;
        }
        if requireContiguous {
          if previousLast.Some? && (previousLast.value == U64_MAX || first != previousLast.value + 1) {
            assert !Follows(ranges, i);
            return false;
          }
          previousLast := Some(last);
        }
      }
    }
    return true;
  }

  // Listing a directory.

  predicate ByRange(a: (u64, u64, Bytes), b: (u64, u64, Bytes)) {
    a.0 < b.0 || (a.0 == b.0 && a.1 <= b.1)
  }

  /** The files that declare a range, each once, ordered by range. */
  ghost predicate RangeListing(names: set<Bytes>, listing: seq<(u64, u64, Bytes)>) {
    && Lists.Distinct(listing)
    && Lists.SortedBy(ByRange, listing)
    && (forall e :: e in listing ==> e.2 in names && VersionRange(e.2) == Some((e.0, e.1)))
    && forall name :: name in names && VersionRange(name).Some? ==>
         (VersionRange(name).value.0, VersionRange(name).value.1, name) in listing
  }

  /** `read_dir` yields the entries in no particular order; the recorder sorts those that declare a range. */
  method ListRanges(names: set<Bytes>) returns (listing: seq<(u64, u64, Bytes)>)
    ensures RangeListing(names, listing)
  {
    var left: set<Bytes>, found: seq<(u64, u64, Bytes)> := names, [];
    while left != {}
      invariant left <= names && Lists.Distinct(found)
      invariant forall e :: e in found ==> e.2 in names - left && VersionRange(e.2) == Some((e.0, e.1))
      invariant forall name :: name in names - left && VersionRange(name).Some? ==>
                  (VersionRange(name).value.0, VersionRange(name).value.1, name) in found
      decreases |left|
    {
      var name :| name in left;
      var range := VersionRange(name);
      if range.Some? {
        found := found + [(range.value.0, range.value.1, name)];
      }
      left := left - {name};
    }
    listing := Lists.StableSort(ByRange, found);
    Lists.StableSortPermutes(ByRange, found);
    Lists.StableSortSorts(ByRange, found);
    Lists.PermutationMembers(listing, found);
    Lists.PermutationDistinct(found, listing);
  }

  /** A missing range sorts first, then by first version, then by file name. */
  predicate ByStart(a: Bytes, b: Bytes) {
    match (VersionRange(a), VersionRange(b))
    case (None, Some(_)) => true
    case (Some(_), None) => false
    case (None, None) => B.Leq(a, b)
    case (Some(x), Some(y)) => x.0 < y.0 || (x.0 == y.0 && B.Leq(a, b))
  }

  ghost predicate ChunkListing(names: set<Bytes>, listing: seq<Bytes>) {
    && Lists.Distinct(listing)
    && Lists.SortedBy(ByStart, listing)
    && forall name :: name in listing <==> name in names && IsChunkFile(name)
  }

  lemma ByStartIsTotal()
    ensures Lists.TotalPreorder(ByStart)
    ensures forall a, b :: ByStart(a, b) && ByStart(b, a) ==> a == b
  {
    forall a: Bytes, b: Bytes, c: Bytes
      ensures ByStart(a, b) || ByStart(b, a)
      ensures ByStart(a, b) && ByStart(b, c) ==> ByStart(a, c)
      ensures ByStart(a, b) && ByStart(b, a) ==> a == b
    {
      B.LeqIsTotal(a, b, c);
    }
  }

  /** In a listing, files that declare no range come first, by name, and the others follow by first version, then by
      name. */
  lemma ListingOrder(names: set<Bytes>, listing: seq<Bytes>, i: nat, j: nat)
    requires ChunkListing(names, listing) && i < j < |listing|
    ensures
      var a, b := VersionRange(listing[i]), VersionRange(listing[j]);
      && (a.Some? ==> b.Some? && a.value.0 <= b.value.0)
      && ((a.None? && b.None?) || (a.Some? && b.Some? && a.value.0 == b.value.0) ==> B.Lt(listing[i], listing[j]))
  {
    assert ByStart(listing[i], listing[j]) && listing[i] != listing[j];
  }

  /** The recorder's own listing is ordered by first version, then by last. */
  lemma RangesInOrder(names: set<Bytes>, listing: seq<(u64, u64, Bytes)>, i: nat, j: nat)
    requires RangeListing(names, listing) && i < j < |listing|
    ensures listing[i].0 <= listing[j].0
    ensures listing[i].0 == listing[j].0 ==> listing[i].1 <= listing[j].1
  {
    assert ByRange(listing[i], listing[j]);
  }

  /** The chunk files of a directory in the order in which the normalizer reads them. */
  method ResolveRawInputs(names: set<Bytes>) returns (listing: seq<Bytes>)
    ensures ChunkListing(names, listing)
  {
    var left: set<Bytes>, found: seq<Bytes> := names, [];
    while left != {}
      invariant left <= names && Lists.Distinct(found)
      invariant forall name :: name in found <==> name in names - left && IsChunkFile(name)
      decreases |left|
    {
      var name :| name in left;
      if IsChunkFile(name) {
        found := found + [name];
      }
      left := left - {name};
    }
    ByStartIsTotal();
    listing := Lists.StableSort(ByStart, found);
    Lists.StableSortPermutes(ByStart, found);
    Lists.StableSortSorts(ByStart, found);
    Lists.PermutationMembers(listing, found);
    Lists.PermutationDistinct(found, listing);
  }
}
