/** Where a recorder continues: from its checkpoint or, when there is none, from the names of the
    completed chunks. */
module Resume {
  import opened Prelude
  import opened Framing
  import opened ChunkNames
  import opened RawChunks
  import opened RecordedDir
  import Lists

  datatype ResumeState = ResumeState(lastSuccess: Option<u64>, nextStart: Option<u64>, chunks: seq<ChunkEntry>)

  datatype ResumeError = BadChunkSequence | CountOverflow | CursorAtEnd

  type NamedRange = (u64, u64, Bytes)

  function ListedRanges(listing: seq<NamedRange>): seq<DeclaredRange> {
    Lists.Map((e: NamedRange) => Some((e.0, e.1)), listing)
  }

  function EntryOf(e: NamedRange): ChunkEntry
    requires e.0 <= e.1
  {
    ChunkEntry(e.2, e.0, e.1, e.1 - e.0 + 1)
  }

  /** The chunks that a sorted listing of ranges names, unless they leave a gap, overlap, or are too many to
      count. */
  ghost predicate Inferred(listing: seq<NamedRange>, r: Result<Option<ResumeState>, ResumeError>) {
    if listing == [] then r == Ok(None)
    else if !InSequence(ListedRanges(listing)) then r == Err(BadChunkSequence)
    else
      var last := listing[|listing| - 1].1;
      match r
      case Err(e) => last == U64_MAX && (e == CursorAtEnd || e == CountOverflow)
      case Ok(None) => false
      case Ok(Some(state)) =>
        && last < U64_MAX
        && state.lastSuccess == Some(last) && state.nextStart == Some(last + 1)
        && |state.chunks| == |listing|
        && forall i :: 0 <= i < |listing| ==> listing[i].0 <= listing[i].1 && state.chunks[i] == EntryOf(listing[i])
  }

  /** Ranges in sequence grow. */
  lemma {:induction false} LastIsLargest(listing: seq<NamedRange>, n: nat, i: nat)
    requires InSequence(ListedRanges(listing)) && i < n <= |listing|
    ensures listing[i].0 <= listing[i].1 <= listing[n - 1].1
    decreases n
  {
    assert ListedRanges(listing)[n - 1] == Some((listing[n - 1].0, listing[n - 1].1));
    if i < n - 1 {
      LastIsLargest(listing, n - 1, i);
      assert ListedRanges(listing)[n - 2] == Some((listing[n - 2].0, listing[n - 2].1));
      assert Follows(ListedRanges(listing), n - 1);
    }
  }

  method LargestLast(ranges: seq<NamedRange>) returns (last: u64)
    requires ranges != [] && InSequence(ListedRanges(ranges))
    ensures last == ranges[|ranges| - 1].1
  {
    last := ranges[0].1;
    for i := 1 to |ranges|
      invariant last == ranges[i - 1].1
    {
      LastIsLargest(ranges, i + 1, i - 1);
      last := if ranges[i].1 > last then ranges[i].1 else last;
    }
  }

  method CountChunks(ranges: seq<NamedRange>) returns (r: Result<seq<ChunkEntry>, ResumeError>)
    requires ranges != [] && InSequence(ListedRanges(ranges))
    ensures r.Err? ==> r.error == CountOverflow && ranges[|ranges| - 1].1 == U64_MAX
    ensures r.Ok? ==> |r.value| == |ranges|
    ensures r.Ok? ==> forall i :: 0 <= i < |ranges| ==> ranges[i].0 <= ranges[i].1 && r.value[i] == EntryOf(ranges[i])
  {
    var chunks := [];
    for i := 0 to |ranges|
      invariant |chunks| == i
      invariant forall j :: 0 <= j < i ==> ranges[j].0 <= ranges[j].1 && chunks[j] == EntryOf(ranges[j])
    {
      LastIsLargest(ranges, |ranges|, i);
      if ranges[i].1 - ranges[i].0 == U64_MAX {
        return Err(CountOverflow);
      }
      chunks := chunks + [ChunkEntry(ranges[i].2, ranges[i].0, ranges[i].1, ranges[i].1 - ranges[i].0 + 1)];
    }
    r := Ok(chunks);
  }

  method InferFromRanges(ranges: seq<NamedRange>) returns (r: Result<Option<ResumeState>, ResumeError>)
    ensures Inferred(ranges, r)
  {
    if ranges == [] {
      return Ok(None);
    }
    var valid := ValidateDeclaredSequence(ListedRanges(ranges), true);
    if !valid {
      return Err(BadChunkSequence);
    }
    var last := LargestLast(ranges);
    var chunks := CountChunks(ranges);
    if chunks.Err? {
      return Err(chunks.error);
    }
    if last == U64_MAX {
      return Err(CursorAtEnd);
    }
    r := Ok(Some(ResumeState(Some(last), Some(last + 1), chunks.value)));
  }

  method InferResumeState(names: set<Bytes>) returns (r: Result<Option<ResumeState>, ResumeError>)
    ensures exists listing :: RangeListing(names, listing) && Inferred(listing, r)
  {
    var ranges := ListRanges(names);
    r := InferFromRanges(ranges);
  }

  /** What a loaded checkpoint file holds; any field may be missing from it. */
  datatype SavedFields = SavedFields(lastSuccess: Option<u64>, nextStart: Option<u64>, chunks: seq<ChunkEntry>)

  /** The recorder writes all of them. */
  function FieldsOf(c: Checkpoint): SavedFields {
    SavedFields(Some(c.lastSuccess), Some(c.nextStart), c.chunks)
  }

  function SavedIn(checkpoint: Option<Checkpoint>): Option<SavedFields> {
    if checkpoint.Some? then Some(FieldsOf(checkpoint.value)) else None
  }

  /** The state in a checkpoint file, whose cursor can also be told from the last version. */
  function StateIn(saved: Option<SavedFields>): ResumeState {
    match saved
    case None => ResumeState(None, None, [])
    case Some(f) =>
      var next := if f.nextStart.Some? then f.nextStart
                  else if f.lastSuccess.Some? && f.lastSuccess.value < U64_MAX then Some(f.lastSuccess.value + 1)
                  else None;
      ResumeState(f.lastSuccess, next, f.chunks)
  }

  /** Inferred versions fill in a missing cursor, and inferred chunks an empty list of them. */
  function Completed(state: ResumeState,
                     inferred: Result<Option<ResumeState>, ResumeError>): Result<ResumeState, ResumeError> {
    match inferred
    case Err(e) => Err(e)
    case Ok(None) => Ok(state)
    case Ok(Some(i)) =>
      Ok(ResumeState(i.lastSuccess, i.nextStart, if state.chunks == [] then i.chunks else state.chunks))
  }

  ghost predicate InferredFrom(names: set<Bytes>, r: Result<Option<ResumeState>, ResumeError>) {
    exists listing :: RangeListing(names, listing) && Inferred(listing, r)
  }

  /** What loading the state of a directory yields. */
  ghost predicate Loaded(saved: Option<SavedFields>, names: set<Bytes>, r: Result<ResumeState, ResumeError>) {
    var state := StateIn(saved);
    if state.nextStart.Some? then r == Ok(state)
    else exists inferred :: InferredFrom(names, inferred) && r == Completed(state, inferred)
  }

  method LoadResumeState(saved: Option<SavedFields>, names: set<Bytes>) returns (r: Result<ResumeState, ResumeError>)
    ensures Loaded(saved, names, r)
  {
    var state := StateIn(saved);
    if state.nextStart.Some? {
      return Ok(state);
    }
    var inferred := InferResumeState(names);
    assert InferredFrom(names, inferred);
    if inferred.Err? {
      return Err(inferred.error);
    }
    if inferred.value.Some? {
      var found := inferred.value.value;
      var chunks := if state.chunks == [] then found.chunks else state.chunks;
      state := ResumeState(found.lastSuccess, found.nextStart, chunks);
    }
    r := Ok(state);
  }

  // What is loaded, whatever was saved and whatever the names.

  /** No cursor can be told from these fields. */
  predicate NoCursor(saved: Option<SavedFields>) {
    saved.Some? ==> saved.value.nextStart.None? && (saved.value.lastSuccess.None?
                                                    || saved.value.lastSuccess.value == U64_MAX)
  }

  /** The cursor lies right behind the greatest version that a file name declares, if any does. */
  ghost predicate BehindNames(names: set<Bytes>, next: Option<u64>) {
    && (next.None? ==> forall name :: name in names ==> VersionRange(name).None?)
    && (next.Some? ==> (exists name :: name in names && VersionRange(name).Some?
                                       && VersionRange(name).value.1 + 1 == next.value)
                       && forall name :: name in names && VersionRange(name).Some? ==>
                            VersionRange(name).value.1 < next.value)
  }

  lemma InferredBehindNames(names: set<Bytes>, listing: seq<NamedRange>, r: Result<Option<ResumeState>, ResumeError>)
    requires RangeListing(names, listing) && Inferred(listing, r) && r.Ok?
    ensures BehindNames(names, if r.value.Some? then r.value.value.nextStart else None)
  {
    if listing != [] {
      var last := listing[|listing| - 1];
      assert last in listing;
      forall name | name in names && VersionRange(name).Some?
        ensures VersionRange(name).value.1 <= last.1
      {
        var i :| 0 <= i < |listing| && listing[i] == (VersionRange(name).value.0, VersionRange(name).value.1, name);
        LastIsLargest(listing, |listing|, i);
      }
    }
  }

  /** A saved cursor or last version decides; without either, the names do. Saved chunks are never replaced. */
  lemma LoadedReads(saved: Option<SavedFields>, names: set<Bytes>, state: ResumeState)
    requires Loaded(saved, names, Ok(state))
    ensures saved.Some? && saved.value.chunks != [] ==> state.chunks == saved.value.chunks
    ensures saved.Some? && saved.value.nextStart.Some? ==> state.nextStart == saved.value.nextStart
    ensures saved.Some? && saved.value.nextStart.None? && !NoCursor(saved) ==>
              state.nextStart == Some(saved.value.lastSuccess.value + 1)
    ensures NoCursor(saved) ==> BehindNames(names, state.nextStart)
  {
    if NoCursor(saved) {
      var inferred :| InferredFrom(names, inferred) && Ok(state) == Completed(StateIn(saved), inferred);
      var listing :| RangeListing(names, listing) && Inferred(listing, inferred);
      InferredBehindNames(names, listing, inferred);
    }
  }

  // The names of a recorded directory say what its checkpoint says.

  function RangeOf(c: ChunkEntry): NamedRange {
    (c.first, c.last, c.path)
  }

  lemma RecordedNames(names: set<Bytes>, chunks: seq<ChunkEntry>, origin: nat, next: nat, limit: nat, e: NamedRange)
    requires Partition(chunks, origin, next, limit) && names == Paths(chunks)
    ensures e.2 in names && VersionRange(e.2) == Some((e.0, e.1)) <==> exists c :: c in chunks && e == RangeOf(c)
  {
    PartitionBounds(chunks, origin, next, limit);
    if e.2 in names {
      var c :| c in chunks && c.path == e.2;
      RangeOfName(c.first, c.last);
      assert VersionRange(e.2) == Some((c.first, c.last));
      forall d | d in chunks && d.path == e.2
        ensures d.first == c.first && d.last == c.last
      {
        RangeOfName(d.first, d.last);
      }
      assert VersionRange(e.2) == Some((e.0, e.1)) ==> e == RangeOf(c);
    }
    forall c | c in chunks && e == RangeOf(c)
      ensures e.2 in names && VersionRange(e.2) == Some((e.0, e.1))
    {
      RangeOfName(c.first, c.last);
    }
  }

  lemma {:induction false} ChunksSorted(chunks: seq<ChunkEntry>)
    requires forall i :: 0 <= i < |chunks| ==> chunks[i].first <= chunks[i].last
    requires forall i, j :: 0 <= i < j < |chunks| ==> chunks[i].last < chunks[j].first
    ensures
      var ordered := Lists.Map(RangeOf, chunks);
      Lists.Distinct(ordered) && Lists.SortedBy(ByRange, ordered) && Lists.Antisymmetric(ByRange, ordered)
  {
    var ordered := Lists.Map(RangeOf, chunks);
    forall i, j | 0 <= i < |ordered| && 0 <= j < |ordered| && i != j
      ensures ordered[i].0 < ordered[j].0 <==> i < j
    {
      assert ordered[i] == RangeOf(chunks[i]) && ordered[j] == RangeOf(chunks[j]);
    }
  }

  lemma SortedListingUnique(a: seq<NamedRange>, b: seq<NamedRange>)
    requires Lists.Distinct(a) && Lists.Distinct(b) && forall e :: e in a <==> e in b
    requires Lists.SortedBy(ByRange, a) && Lists.SortedBy(ByRange, b) && Lists.Antisymmetric(ByRange, b)
    ensures a == b
  {
    Lists.DistinctSameMembersPermute(b, a);
    Lists.SortedPermutationsEqual(ByRange, b, a);
  }

  /** The listing of a recorded directory is its chunks, in order. */
  lemma ListingIsChunks(names: set<Bytes>, chunks: seq<ChunkEntry>, origin: nat, next: nat, limit: nat,
                        listing: seq<NamedRange>)
    requires Partition(chunks, origin, next, limit) && names == Paths(chunks)
    requires RangeListing(names, listing)
    ensures listing == Lists.Map(RangeOf, chunks)
  {
    var ordered := Lists.Map(RangeOf, chunks);
    forall e
      ensures e in listing <==> e in ordered
    {
      RecordedNames(names, chunks, origin, next, limit, e);
      Lists.MapMembers(RangeOf, chunks, e);
    }
    PartitionOrdered(chunks, origin, next, limit);
    PartitionNeighbours(chunks, origin, next, limit);
    ChunksSorted(chunks);
    SortedListingUnique(listing, ordered);
  }

  lemma {:induction false} NeighboursInSequence(chunks: seq<ChunkEntry>)
    requires forall i :: 0 <= i < |chunks| ==> chunks[i].first <= chunks[i].last
    requires forall i: nat :: 0 < i < |chunks| ==> Touches(chunks, i)
    ensures InSequence(ListedRanges(Lists.Map(RangeOf, chunks)))
  {
    var ranges := ListedRanges(Lists.Map(RangeOf, chunks));
    forall i: nat | 0 < i < |ranges|
      ensures Follows(ranges, i)
    {
      assert Touches(chunks, i);
    }
  }

  lemma PartitionInSequence(chunks: seq<ChunkEntry>, origin: nat, next: nat, limit: nat)
    requires Partition(chunks, origin, next, limit)
    ensures InSequence(ListedRanges(Lists.Map(RangeOf, chunks)))
  {
    PartitionNeighbours(chunks, origin, next, limit);
    NeighboursInSequence(chunks);
  }

  lemma {:induction false} PartitionCounts(chunks: seq<ChunkEntry>, origin: nat, next: nat, limit: nat)
    requires Partition(chunks, origin, next, limit)
    ensures forall i :: 0 <= i < |chunks| ==>
              chunks[i].first <= chunks[i].last && EntryOf(RangeOf(chunks[i])) == chunks[i]
  {
    if chunks != [] {
      PartitionCounts(chunks[..|chunks| - 1], origin, chunks[|chunks| - 1].first, limit);
    }
  }

  lemma PartitionInferred(chunks: seq<ChunkEntry>, origin: nat, next: nat, limit: nat,
                          r: Result<Option<ResumeState>, ResumeError>)
    requires Partition(chunks, origin, next, limit) && chunks != []
    requires Inferred(Lists.Map(RangeOf, chunks), r)
    ensures r.Ok? <==> next <= U64_MAX
    ensures r.Ok? ==> r.value.Some? && r.value.value.chunks == chunks
                      && r.value.value.nextStart == Some(next) && r.value.value.lastSuccess == Some(next - 1)
  {
    var listing := Lists.Map(RangeOf, chunks);
    PartitionInSequence(chunks, origin, next, limit);
    PartitionNeighbours(chunks, origin, next, limit);
    PartitionCounts(chunks, origin, next, limit);
    assert listing[|listing| - 1].1 + 1 == next;
    if r.Ok? {
      assert r.value.value.chunks == chunks;
    }
  }

  /** From the names of a partition's chunks the recorder infers the chunks themselves and the cursor behind
      them; that fails only when the versions are used up. */
  lemma InferenceIsExact(names: set<Bytes>, chunks: seq<ChunkEntry>, origin: nat, next: nat, limit: nat,
                         listing: seq<NamedRange>, r: Result<Option<ResumeState>, ResumeError>)
    requires Partition(chunks, origin, next, limit) && names == Paths(chunks) && origin < next
    requires RangeListing(names, listing) && Inferred(listing, r)
    ensures r.Ok? <==> next <= U64_MAX
    ensures r.Ok? ==> r.value == Some(ResumeState(Some(next - 1), Some(next), chunks))
  {
    ListingIsChunks(names, chunks, origin, next, limit, listing);
    PartitionInferred(chunks, origin, next, limit, r);
  }

  /** The checkpoint of such a directory holds the same state, and its count is the sum of the inferred counts. */
  lemma CheckpointAgrees(checkpoint: Option<Checkpoint>, chunks: seq<ChunkEntry>, txs: seq<Transaction>, origin: nat,
                         limit: nat)
    requires checkpoint.Some? && Current(checkpoint, chunks, txs, origin)
    requires Partition(chunks, origin, origin + |txs|, limit)
    ensures origin + |txs| <= U64_MAX
    ensures StateIn(SavedIn(checkpoint)) == ResumeState(Some(origin + |txs| - 1), Some(origin + |txs|), chunks)
    ensures checkpoint.value.totalCount == TotalCount(chunks)
  {
    PartitionBounds(chunks, origin, origin + |txs|, limit);
  }

  lemma NamesAreExact(names: set<Bytes>, chunks: seq<ChunkEntry>, origin: nat, next: nat, limit: nat,
                      r: Result<Option<ResumeState>, ResumeError>)
    requires Partition(chunks, origin, next, limit) && names == Paths(chunks) && origin < next
    requires InferredFrom(names, r)
    ensures r.Ok? <==> next <= U64_MAX
    ensures r.Ok? ==> r.value == Some(ResumeState(Some(next - 1), Some(next), chunks))
  {
    var listing :| RangeListing(names, listing) && Inferred(listing, r);
    InferenceIsExact(names, chunks, origin, next, limit, listing, r);
  }

  lemma NoNamesInferNothing(names: set<Bytes>, r: Result<Option<ResumeState>, ResumeError>)
    requires names == {} && InferredFrom(names, r)
    ensures r == Ok(None)
  {
    var listing :| RangeListing(names, listing) && Inferred(listing, r);
    Lists.HasMember(listing);
  }

  /** Loading a directory that holds `txs` yields its chunks and the cursor behind them, whether the checkpoint
      is there or lost; an empty directory yields no cursor. */
  lemma LoadedIsExact(checkpoint: Option<Checkpoint>, names: set<Bytes>, chunks: seq<ChunkEntry>, txs: seq<Transaction>,
                      origin: nat, limit: nat, r: Result<ResumeState, ResumeError>)
    requires Partition(chunks, origin, origin + |txs|, limit) && names == Paths(chunks)
    requires Current(checkpoint, chunks, txs, origin) && Loaded(SavedIn(checkpoint), names, r)
    ensures txs == [] ==> r == Ok(ResumeState(None, None, []))
    ensures txs != [] && origin + |txs| <= U64_MAX ==>
              r == Ok(ResumeState(Some(origin + |txs| - 1), Some(origin + |txs|), chunks))
    ensures txs != [] && origin + |txs| > U64_MAX ==> r.Err?
  {
    PartitionBounds(chunks, origin, origin + |txs|, limit);
    if checkpoint.Some? {
      CheckpointAgrees(checkpoint, chunks, txs, origin, limit);
    } else {
      var inferred :| InferredFrom(names, inferred) && r == Completed(StateIn(None), inferred);
      if txs == [] {
        EmptyPartition(chunks, origin, limit);
        NoNamesInferNothing(names, inferred);
      } else {
        NamesAreExact(names, chunks, origin, origin + |txs|, limit, inferred);
      }
    }
  }

  lemma EmptyPartition(chunks: seq<ChunkEntry>, origin: nat, limit: nat)
    requires Partition(chunks, origin, origin, limit)
    ensures chunks == []
  {
    PartitionBounds(chunks, origin, origin, limit);
    Lists.HasMember(chunks);
  }

  /** A checkpoint file that has lost its cursor, its last version or both; in the last case perhaps its chunks too. */
  ghost predicate PartOf(f: SavedFields, c: Checkpoint) {
    && (f.lastSuccess.None? || f.lastSuccess == Some(c.lastSuccess))
    && (f.nextStart.None? || f.nextStart == Some(c.nextStart))
    && (f.chunks == c.chunks || (f.chunks == [] && f.nextStart.None? && f.lastSuccess.None?))
  }

  lemma PartState(f: SavedFields, c: Checkpoint)
    requires PartOf(f, c) && c.lastSuccess as int + 1 == c.nextStart
    ensures
      var state := StateIn(Some(f));
      && (state.chunks == c.chunks || state.chunks == [])
      && (state.nextStart.Some? ==> state.nextStart == Some(c.nextStart) && state.chunks == c.chunks)
  {
  }

  /** The names tell the cursor and the chunks that the checkpoint held. */
  predicate InferredAs(inferred: Result<Option<ResumeState>, ResumeError>, c: Checkpoint) {
    && inferred.Ok? && inferred.value.Some?
    && inferred.value.value.nextStart == Some(c.nextStart) && inferred.value.value.chunks == c.chunks
  }

  lemma PartCompleted(state: ResumeState, c: Checkpoint, inferred: Result<Option<ResumeState>, ResumeError>)
    requires state.chunks == c.chunks || state.chunks == []
    requires InferredAs(inferred, c)
    ensures
      var r := Completed(state, inferred);
      r.Ok? && r.value.nextStart == Some(c.nextStart) && r.value.chunks == c.chunks
  {
  }

  lemma NamesAreSaved(names: set<Bytes>, c: Checkpoint, chunks: seq<ChunkEntry>, origin: nat, next: nat, limit: nat,
                      inferred: Result<Option<ResumeState>, ResumeError>)
    requires Partition(chunks, origin, next, limit) && names == Paths(chunks) && origin < next <= U64_MAX
    requires InferredFrom(names, inferred) && c.chunks == chunks && c.nextStart == next
    ensures InferredAs(inferred, c)
  {
    NamesAreExact(names, chunks, origin, next, limit, inferred);
  }

  lemma InferredOf(f: SavedFields, names: set<Bytes>, r: Result<ResumeState, ResumeError>)
    returns (inferred: Result<Option<ResumeState>, ResumeError>)
    requires Loaded(Some(f), names, r) && StateIn(Some(f)).nextStart.None?
    ensures InferredFrom(names, inferred) && r == Completed(StateIn(Some(f)), inferred)
  {
    inferred :| InferredFrom(names, inferred) && r == Completed(StateIn(Some(f)), inferred);
  }

  lemma LoadedCursor(f: SavedFields, names: set<Bytes>, r: Result<ResumeState, ResumeError>)
    requires Loaded(Some(f), names, r) && StateIn(Some(f)).nextStart.Some?
    ensures r == Ok(StateIn(Some(f)))
  {
  }

  lemma PartLoads(f: SavedFields, c: Checkpoint, names: set<Bytes>, r: Result<ResumeState, ResumeError>)
    requires PartOf(f, c) && c.lastSuccess as int + 1 == c.nextStart && Loaded(Some(f), names, r)
    requires forall inferred :: InferredFrom(names, inferred) ==> InferredAs(inferred, c)
    ensures r.Ok? && r.value.nextStart == Some(c.nextStart) && r.value.chunks == c.chunks
  {
    var state := StateIn(Some(f));
    PartState(f, c);
    if state.nextStart.None? {
      var inferred := InferredOf(f, names, r);
      PartCompleted(state, c, inferred);
    } else {
      LoadedCursor(f, names, r);
    }
  }

  lemma NamesTellSaved(names: set<Bytes>, c: Checkpoint, chunks: seq<ChunkEntry>, origin: nat, next: nat, limit: nat)
    requires Partition(chunks, origin, next, limit) && names == Paths(chunks) && origin < next <= U64_MAX
    requires c.chunks == chunks && c.nextStart == next
    ensures forall inferred :: InferredFrom(names, inferred) ==> InferredAs(inferred, c)
  {
    forall inferred | InferredFrom(names, inferred)
      ensures InferredAs(inferred, c)
    {
      NamesAreSaved(names, c, chunks, origin, next, limit, inferred);
    }
  }

  lemma CurrentCursor(c: Checkpoint, chunks: seq<ChunkEntry>, txs: seq<Transaction>, origin: nat)
    requires Current(Some(c), chunks, txs, origin)
    ensures c.chunks == chunks && c.nextStart == origin + |txs| && c.lastSuccess as int + 1 == c.nextStart && txs != []
  {
  }

  /** What is left of the checkpoint of such a directory loads the same cursor and chunks. */
  lemma PartLoadsTheSame(f: SavedFields, c: Checkpoint, names: set<Bytes>, chunks: seq<ChunkEntry>,
                         txs: seq<Transaction>, origin: nat, limit: nat, r: Result<ResumeState, ResumeError>)
    requires PartOf(f, c) && Current(Some(c), chunks, txs, origin)
    requires Partition(chunks, origin, origin + |txs|, limit) && names == Paths(chunks)
    requires Loaded(Some(f), names, r)
    ensures r.Ok? && r.value.nextStart == Some(origin + |txs|) && r.value.chunks == chunks
  {
    CurrentCursor(c, chunks, txs, origin);
    NamesTellSaved(names, c, chunks, origin, origin + |txs|, limit);
    PartLoads(f, c, names, r);
  }

  // Where to continue behind a truncated chunk.

  lemma InspectionReports(seen: seq<Transaction>, start: nat, truncated: bool, limit: u64)
    requires seen != [] && Consecutive(seen, start)
    ensures
      var report := ReportOf(seen, truncated, limit);
      && report.count == |seen| && report.firstVersion.Some? && report.firstVersion.value == start
      && report.lastVersion.Some? && report.lastVersion.value == start + |seen| - 1
      && (report.nextStartVersion.Some? <==> start + |seen| <= U64_MAX)
      && (report.nextStartVersion.Some? ==> report.nextStartVersion.value == start + |seen|)
      && (report.truncated <==> truncated) && (report.stoppedAtLimit <==> |seen| == limit)
  {
    assert VersionAt(seen, 0) == start && VersionAt(seen, |seen| - 1) == start + |seen| - 1;
  }

  lemma PrefixIsConsecutive(txs: seq<Transaction>, n: nat, start: nat)
    requires Consecutive(txs, start) && n <= |txs|
    ensures Consecutive(txs[..n], start)
  {
    assert forall i: nat :: i < n ==> VersionAt(txs[..n], i) == VersionAt(txs, i);
  }

  /** Inspecting a cut stream of consecutive versions names the first one behind those it could look at. */
  lemma InspectionResumes(txs: seq<Transaction>, start: nat, k: nat, fit: nat, limit: u64, codec: Codec)
    requires codec.Faithful() && Consecutive(txs, start) && k <= |Frames(txs, codec)| && 0 < fit <= |txs| && limit > 0
    requires |Frames(txs[..fit], codec)| <= k && (fit < |txs| ==> k < |Frames(txs[..fit + 1], codec)|)
    ensures
      var read := ReadAll(Frames(txs, codec)[..k], codec);
      var broken := !read.complete && |read.txs| < limit;
      var report := ReportOf(if limit < |read.txs| then read.txs[..limit] else read.txs, broken, limit);
      && report.count == (if fit < limit then fit else limit)
      && (report.nextStartVersion.Some? <==> start + report.count <= U64_MAX)
      && (report.nextStartVersion.Some? ==> report.nextStartVersion.value == start + report.count)
      && (report.truncated <==> fit < limit && |Frames(txs[..fit], codec)| < k)
  {
    var n := if fit < limit then fit else limit;
    TruncatedStreamReads(txs, k, fit, codec);
    assert txs[..fit][..n] == txs[..n];
    PrefixIsConsecutive(txs, n, start);
    InspectionReports(txs[..n], start, |Frames(txs[..fit], codec)| < k && fit < limit, limit);
  }
}
