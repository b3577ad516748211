/** The normalizer: reads the raw chunks back, checks that they fit together, and describes them in a manifest. */
module Normalizer {
  import opened Prelude
  import opened Framing
  import opened ChunkNames
  import opened RawChunks
  import opened RecordedDir
  import Lists

  datatype RawInput = RawInput(name: Bytes, contents: Bytes)

  datatype NormalizeError =
    | NoInputs | BadDeclaredSequence | BrokenStream | NonContiguous | CountOverflow | DuplicateVersion | BadEvents
    | ChunkMismatch

  /** The running totals. The count of rows is a machine integer that wraps. */
  datatype Progress = Progress(first: Option<u64>, last: Option<u64>, count: u64, seen: set<u64>,
                               rows: seq<Transaction>)

  ghost predicate DistinctVersions(rows: seq<Transaction>) {
    forall i: nat, j: nat :: i < j < |rows| ==> VersionAt(rows, i) != VersionAt(rows, j)
  }

  /** The least and the greatest version. */
  ghost predicate Bounds(rows: seq<Transaction>, first: Option<u64>, last: Option<u64>) {
    && (first.Some? <==> rows != []) && (last.Some? <==> rows != [])
    && (rows != [] ==>
          && (exists i: nat :: i < |rows| && VersionAt(rows, i) == first.value)
          && (exists i: nat :: i < |rows| && VersionAt(rows, i) == last.value)
          && forall i: nat :: i < |rows| ==> first.value <= VersionAt(rows, i) <= last.value)
  }

  ghost predicate Tracks(p: Progress) {
    && (forall v :: v in p.seen <==> exists i: nat :: i < |p.rows| && VersionAt(p.rows, i) == v)
    && DistinctVersions(p.rows)
    && p.count == |p.rows| % U64_LIMIT
    && Bounds(p.rows, p.first, p.last)
  }

  lemma VersionsAppend(rows: seq<Transaction>, tx: Transaction)
    ensures forall i: nat :: i < |rows| ==> VersionAt(rows + [tx], i) == VersionAt(rows, i)
    ensures VersionAt(rows + [tx], |rows|) == tx.version
  {
  }

  function Least(first: Option<u64>, version: u64): u64 {
    if first.None? || version < first.value then version else first.value
  }

  function Greatest(last: Option<u64>, version: u64): u64 {
    if last.None? || version > last.value then version else last.value
  }

  lemma BoundsGrow(rows: seq<Transaction>, first: Option<u64>, last: Option<u64>, tx: Transaction)
    requires Bounds(rows, first, last)
    ensures Bounds(rows + [tx], Some(Least(first, tx.version)), Some(Greatest(last, tx.version)))
  {
    VersionsAppend(rows, tx);
    assert VersionAt(rows + [tx], |rows|) == tx.version;
    if rows != [] {
      var i: nat :| i < |rows| && VersionAt(rows, i) == first.value;
      var j: nat :| j < |rows| && VersionAt(rows, j) == last.value;
      assert VersionAt(rows + [tx], i) == first.value && VersionAt(rows + [tx], j) == last.value;
    }
  }

  lemma SeenGrows(p: Progress, tx: Transaction)
    requires Tracks(p)
    ensures tx.version in p.seen <==> !DistinctVersions(p.rows + [tx])
    ensures forall v :: v in p.seen + {tx.version} <==>
              exists i: nat :: i < |p.rows + [tx]| && VersionAt(p.rows + [tx], i) == v
  {
    VersionsAppend(p.rows, tx);
    assert VersionAt(p.rows + [tx], |p.rows|) == tx.version;
    forall v | v in p.seen
      ensures exists i: nat :: i < |p.rows| && VersionAt(p.rows + [tx], i) == v
    {
      var i: nat :| i < |p.rows| && VersionAt(p.rows, i) == v;
      assert VersionAt(p.rows + [tx], i) == v;
    }
  }

  /** One row more. */
  method AddRow(p: Progress, tx: Transaction) returns (r: Option<Progress>)
    requires Tracks(p)
    ensures r.Some? <==> DistinctVersions(p.rows + [tx])
    ensures r.Some? ==> Tracks(r.value) && r.value.rows == p.rows + [tx]
  {
    SeenGrows(p, tx);
    if tx.version in p.seen {
      return None;
    }
    BoundsGrow(p.rows, p.first, p.last, tx);
    r := Some(Progress(Some(Least(p.first, tx.version)), Some(Greatest(p.last, tx.version)), (p.count + 1) % U64_LIMIT,
                       p.seen + {tx.version}, p.rows + [tx]));
  }

  // One chunk.

  /** A chunk that reads to its end, holds consecutive versions, exactly those its name declares, and whose
      events can be extracted. */
  ghost predicate ChunkOk(read: StreamRead, range: DeclaredRange, parses: Transaction -> bool) {
    && read.complete && 0 < |read.txs| <= U64_MAX
    && Consecutive(read.txs, VersionAt(read.txs, 0))
    && (range.Some? ==> range.value == (VersionAt(read.txs, 0), VersionAt(read.txs, |read.txs| - 1)))
    && forall t :: t in read.txs ==> parses(t)
  }

  ghost predicate ChunkFits(rows: seq<Transaction>, read: StreamRead, range: DeclaredRange,
                            parses: Transaction -> bool) {
    ChunkOk(read, range, parses) && DistinctVersions(rows + read.txs)
  }

  datatype ChunkTotals = ChunkTotals(first: Option<u64>, last: Option<u64>, count: u64)

  /** What is known of a chunk after `got`. */
  ghost predicate GoodSoFar(got: seq<Transaction>, totals: ChunkTotals, parses: Transaction -> bool) {
    && totals.count == |got|
    && totals.first == (if got == [] then None else Some(VersionAt(got, 0)))
    && totals.last == (if got == [] then None else Some(VersionAt(got, |got| - 1)))
    && (got != [] ==> Consecutive(got, VersionAt(got, 0)))
    && forall t :: t in got ==> parses(t)
  }

  lemma DistinctPrefix(rows: seq<Transaction>, longer: seq<Transaction>)
    requires rows <= longer && DistinctVersions(longer)
    ensures DistinctVersions(rows)
  {
    forall i: nat, j: nat | i < j < |rows|
      ensures VersionAt(rows, i) != VersionAt(rows, j)
    {
      assert VersionAt(longer, i) == VersionAt(rows, i) && VersionAt(longer, j) == VersionAt(rows, j);
    }
  }

  ghost predicate NextFits(rows: seq<Transaction>, got: seq<Transaction>, tx: Transaction,
                           parses: Transaction -> bool) {
    && |got| < U64_MAX && parses(tx)
    && (got != [] ==> tx.version == VersionAt(got, |got| - 1) + 1)
    && DistinctVersions(rows + got + [tx])
  }

  /** A chunk with `tx` behind `got` is good only if `tx` is. */
  lemma NextMustFit(rows: seq<Transaction>, got: seq<Transaction>, tx: Transaction, more: seq<Transaction>,
                    read: StreamRead, range: DeclaredRange, parses: Transaction -> bool)
    requires read.txs == got + [tx] + more && ChunkFits(rows, read, range, parses)
    ensures NextFits(rows, got, tx, parses)
  {
    assert read.txs[|got|] == tx;
    assert VersionAt(read.txs, |got|) == tx.version;
    assert got != [] ==> VersionAt(read.txs, |got| - 1) == VersionAt(got, |got| - 1);
    assert rows + got + [tx] <= rows + read.txs;
    DistinctPrefix(rows + got + [tx], rows + read.txs);
  }

  /** What the reader of a chunk finds behind `got`. */
  lemma NextInChunk(rows: seq<Transaction>, read: StreamRead, got: seq<Transaction>, remaining: Bytes, codec: Codec,
                    range: DeclaredRange, parses: Transaction -> bool)
    requires ReadSoFar(read, got, remaining, codec)
    ensures match ReadMessage(remaining, codec)
            case EndOfStream => read == StreamRead(got, true)
            case Failed => !read.complete
            case Message(tx, rest) =>
              && ReadSoFar(read, got + [tx], rest, codec)
              && (ChunkFits(rows, read, range, parses) ==> NextFits(rows, got, tx, parses))
  {
    ReadOneMore(read, got, remaining, codec);
    match ReadMessage(remaining, codec)
    case EndOfStream =>
    case Failed =>
    case Message(tx, rest) =>
      if ChunkFits(rows, read, range, parses) {
        NextMustFit(rows, got, tx, ReadAll(rest, codec).txs, read, range, parses);
      }
  }

  /** Checks the next transaction of a chunk and adds its row. */
  method AddNext(p: Progress, totals: ChunkTotals, tx: Transaction, parses: Transaction -> bool,
                 ghost rows: seq<Transaction>, ghost got: seq<Transaction>)
    returns (r: Result<Progress, NormalizeError>, next: ChunkTotals)
    requires Tracks(p) && p.rows == rows + got && GoodSoFar(got, totals, parses)
    ensures r.Ok? <==> NextFits(rows, got, tx, parses)
    ensures r.Ok? ==> Tracks(r.value) && r.value.rows == rows + (got + [tx]) && GoodSoFar(got + [tx], next, parses)
  {
    next := totals;
    if totals.last.Some? && (totals.last.value == U64_MAX || tx.version != totals.last.value + 1) {
      return Err(NonContiguous), next;
    }
    if totals.count == U64_MAX {
      return Err(CountOverflow), next;
    }
    var first := if totals.first.Some? then totals.first else Some(tx.version);
    next := ChunkTotals(first, Some(tx.version), totals.count + 1);
    var added := AddRow(p, tx);
    if added.None? {
      return Err(DuplicateVersion), next;
    }
    if !parses(tx) {
      return Err(BadEvents), next;
    }
    r := Ok(added.value);
    VersionsAppend(got, tx);
    assert rows + got + [tx] == rows + (got + [tx]);
  }

  predicate RangeMatches(range: DeclaredRange, totals: ChunkTotals) {
    && totals.first.Some? && totals.last.Some?
    && (range.Some? ==>
          var (first, last) := range.value;
          totals.first.value == first && totals.last.value == last
          && first <= last && last - first < U64_MAX && totals.count == last - first + 1)
  }

  lemma WholeChunk(rows: seq<Transaction>, read: StreamRead, range: DeclaredRange, parses: Transaction -> bool,
                   totals: ChunkTotals)
    requires read.complete && GoodSoFar(read.txs, totals, parses) && DistinctVersions(rows + read.txs)
    ensures RangeMatches(range, totals) <==> ChunkFits(rows, read, range, parses)
  {
    if read.txs != [] {
      assert VersionAt(read.txs, |read.txs| - 1) == VersionAt(read.txs, 0) + |read.txs| - 1;
    }
  }

  method NormalizeChunk(input: RawInput, codec: Codec, parses: Transaction -> bool, before: Progress)
    returns (r: Result<Progress, NormalizeError>)
    requires Tracks(before)
    ensures r.Ok? <==> ChunkFits(before.rows, ReadAll(input.contents, codec), VersionRange(input.name), parses)
    ensures r.Ok? ==> Tracks(r.value) && r.value.rows == before.rows + ReadAll(input.contents, codec).txs
  {
    var reader := new Reader(input.contents);
    var range, p, totals := VersionRange(input.name), before, ChunkTotals(None, None, 0);
    ghost var read, got := ReadAll(input.contents, codec), [];
    assert read.txs == [] + read.txs && before.rows == before.rows + [];
    while true
      invariant reader.Valid() && fresh(reader)
      invariant ReadSoFar(read, got, reader.Remaining(), codec)
      invariant Tracks(p) && p.rows == before.rows + got && GoodSoFar(got, totals, parses)
      decreases |reader.Remaining()|
    {
      NextInChunk(before.rows, read, got, reader.Remaining(), codec, range, parses);
      var next := reader.ReadNext(codec);
      if next.Err? {
        return Err(BrokenStream);
      }
      if next.value.None? {
        break;
      }
      var tx := next.value.value;
      var added;
      added, totals := AddNext(p, totals, tx, parses, before.rows, got);
      if added.Err? {
        return Err(added.error);
      }
      p := added.value;
      got := got + [tx];
    }
    WholeChunk(before.rows, read, range, parses, totals);
    return if RangeMatches(range, totals) then Ok(p) else Err(ChunkMismatch);
  }

  // All chunks.

  function Names(inputs: seq<RawInput>): seq<Bytes> {
    Lists.Map((input: RawInput) => input.name, inputs)
  }

  function Decoded(inputs: seq<RawInput>, codec: Codec): seq<Transaction> {
    if inputs == [] then []
    else Decoded(inputs[..|inputs| - 1], codec) + ReadAll(inputs[|inputs| - 1].contents, codec).txs
  }

  ghost predicate ChunksFit(inputs: seq<RawInput>, codec: Codec, parses: Transaction -> bool) {
    if inputs == [] then true
    else
      var init, input := inputs[..|inputs| - 1], inputs[|inputs| - 1];
      && ChunksFit(init, codec, parses)
      && ChunkFits(Decoded(init, codec), ReadAll(input.contents, codec), VersionRange(input.name), parses)
  }

  ghost predicate Acceptable(inputs: seq<RawInput>, requireContiguous: bool, codec: Codec,
                             parses: Transaction -> bool) {
    inputs != [] && DeclaredOk(DeclaredRanges(Names(inputs)), requireContiguous) && ChunksFit(inputs, codec, parses)
  }

  lemma {:induction false} PrefixFits(inputs: seq<RawInput>, n: nat, codec: Codec, parses: Transaction -> bool)
    requires n <= |inputs| && ChunksFit(inputs, codec, parses)
    ensures ChunksFit(inputs[..n], codec, parses)
  {
    if n == |inputs| {
      assert inputs[..n] == inputs;
    } else {
      PrefixFits(inputs[..|inputs| - 1], n, codec, parses);
      assert inputs[..|inputs| - 1][..n] == inputs[..n];
    }
  }

  method NormalizeChunks(inputs: seq<RawInput>, codec: Codec,
                         parses: Transaction -> bool) returns (r: Result<Progress, NormalizeError>)
    ensures r.Ok? <==> ChunksFit(inputs, codec, parses)
    ensures r.Ok? ==> Tracks(r.value) && r.value.rows == Decoded(inputs, codec)
  {
    var p := Progress(None, None, 0, {}, []);
    for i := 0 to |inputs|
      invariant Tracks(p) && p.rows == Decoded(inputs[..i], codec) && ChunksFit(inputs[..i], codec, parses)
    {
      assert inputs[..i + 1][..i] == inputs[..i];
      if ChunksFit(inputs, codec, parses) {
        PrefixFits(inputs, i + 1, codec, parses);
      }
      var after := NormalizeChunk(inputs[i], codec, parses, p);
      if after.Err? {
        return Err(after.error);
      }
      p := after.value;
    }
    assert inputs[..|inputs|] == inputs;
    r := Ok(p);
  }

  datatype Manifest = Manifest(startVersion: u64, endVersion: Option<u64>, rawTransactionCount: u64)

  datatype Dataset = Dataset(manifest: Manifest, rows: seq<Transaction>)

  ghost predicate Describes(dataset: Dataset, rows: seq<Transaction>) {
    && dataset.rows == rows
    && dataset.manifest.rawTransactionCount == |rows| % U64_LIMIT
    && Bounds(rows, if rows == [] then None else Some(dataset.manifest.startVersion), dataset.manifest.endVersion)
  }

  /** Normalizes the chunks of a directory, which must be contiguous, or a single file. */
  method Normalize(inputs: seq<RawInput>, requireContiguous: bool, codec: Codec, parses: Transaction -> bool)
    returns (r: Result<Dataset, NormalizeError>)
    ensures r.Ok? <==> Acceptable(inputs, requireContiguous, codec, parses)
    ensures r.Ok? ==> Describes(r.value, Decoded(inputs, codec))
  {
    if inputs == [] {
      return Err(NoInputs);
    }
    var ok := ValidateDeclaredSequence(DeclaredRanges(Names(inputs)), requireContiguous);
    if !ok {
      return Err(BadDeclaredSequence);
    }
    var p := NormalizeChunks(inputs, codec, parses);
    if p.Err? {
      return Err(p.error);
    }
    var first := if p.value.first.Some? then p.value.first.value else 0;
    r := Ok(Dataset(Manifest(first, p.value.last, p.value.count), p.value.rows));
  }

  /** Whether the benchmark accepts the range of a manifest. */
  predicate ManifestRangeOk(m: Manifest) {
    && m.endVersion.Some? && m.endVersion.value >= m.startVersion && m.rawTransactionCount != 0
    && m.endVersion.value - m.startVersion < U64_MAX
    && m.rawTransactionCount == m.endVersion.value - m.startVersion + 1
  }

  // Soundness.

  ghost predicate EndsWithRange(rows: seq<Transaction>, range: DeclaredRange) {
    && rows != [] && Consecutive(rows, VersionAt(rows, 0))
    && (range.Some? ==> VersionAt(rows, |rows| - 1) == range.value.1)
  }

  lemma NextChunkContinues(rows: seq<Transaction>, range: DeclaredRange, read: StreamRead, next: DeclaredRange,
                           parses: Transaction -> bool)
    requires EndsWithRange(rows, range) && ChunkFits(rows, read, next, parses)
    requires range.Some? && next.Some? && next.value.0 == range.value.1 + 1
    ensures EndsWithRange(rows + read.txs, next)
  {
    assert VersionAt(rows, |rows| - 1) == VersionAt(rows, 0) + |rows| - 1;
    ConsecutiveAppend(rows, read.txs, VersionAt(rows, 0));
    assert VersionAt(rows + read.txs, |rows + read.txs| - 1) == VersionAt(read.txs, |read.txs| - 1);
    assert VersionAt(rows + read.txs, 0) == VersionAt(rows, 0);
  }

  lemma RangesFollow(inputs: seq<RawInput>, i: nat)
    requires 0 < i < |inputs| && InSequence(DeclaredRanges(Names(inputs)))
    ensures
      var range, next := VersionRange(inputs[i - 1].name), VersionRange(inputs[i].name);
      range.Some? && next.Some? && next.value.0 == range.value.1 + 1
  {
    var ranges := DeclaredRanges(Names(inputs));
    assert Follows(ranges, i) && ranges[i] == VersionRange(inputs[i].name)
           && ranges[i - 1] == VersionRange(inputs[i - 1].name);
  }

  lemma LastChunk(inputs: seq<RawInput>, n: nat, codec: Codec, parses: Transaction -> bool)
    requires 0 < n <= |inputs| && ChunksFit(inputs[..n], codec, parses)
    ensures
      var init, input := Decoded(inputs[..n - 1], codec), inputs[n - 1];
      var read := ReadAll(input.contents, codec);
      && Decoded(inputs[..n], codec) == init + read.txs && ChunksFit(inputs[..n - 1], codec, parses)
      && ChunkFits(init, read, VersionRange(input.name), parses)
  {
    assert inputs[..n][..n - 1] == inputs[..n - 1];
  }

  lemma FirstChunkEnds(read: StreamRead, range: DeclaredRange, parses: Transaction -> bool)
    requires ChunkOk(read, range, parses)
    ensures EndsWithRange([] + read.txs, range)
  {
    assert [] + read.txs == read.txs;
  }

  /** The decoded transactions up to the end of the n-th chunk are consecutive. */
  lemma {:induction false} ContiguousChunks(inputs: seq<RawInput>, n: nat, codec: Codec, parses: Transaction -> bool)
    requires 0 < n <= |inputs| && ChunksFit(inputs[..n], codec, parses)
    requires n == 1 || InSequence(DeclaredRanges(Names(inputs)))
    ensures EndsWithRange(Decoded(inputs[..n], codec), VersionRange(inputs[n - 1].name))
  {
    LastChunk(inputs, n, codec, parses);
    var read, range := ReadAll(inputs[n - 1].contents, codec), VersionRange(inputs[n - 1].name);
    if n == 1 {
      FirstChunkEnds(read, range, parses);
    } else {
      ContiguousChunks(inputs, n - 1, codec, parses);
      RangesFollow(inputs, n - 1);
      NextChunkContinues(Decoded(inputs[..n - 1], codec), VersionRange(inputs[n - 2].name), read, range, parses);
    }
  }

  lemma BoundsOfConsecutive(rows: seq<Transaction>, start: nat, first: Option<u64>, last: Option<u64>)
    requires rows != [] && Consecutive(rows, start) && Bounds(rows, first, last)
    ensures first == Some(VersionAt(rows, 0)) && first.value == start && last.value == start + |rows| - 1
  {
    var i: nat :| i < |rows| && VersionAt(rows, i) == first.value;
    var j: nat :| j < |rows| && VersionAt(rows, j) == last.value;
    assert first.value <= VersionAt(rows, 0) && VersionAt(rows, |rows| - 1) <= last.value;
  }

  lemma AcceptedIsConsecutive(inputs: seq<RawInput>, requireContiguous: bool, codec: Codec, parses: Transaction -> bool)
    requires requireContiguous || |inputs| == 1
    requires Acceptable(inputs, requireContiguous, codec, parses)
    ensures
      var rows := Decoded(inputs, codec);
      rows != [] && Consecutive(rows, VersionAt(rows, 0))
  {
    assert inputs[..|inputs|] == inputs;
    ContiguousChunks(inputs, |inputs|, codec, parses);
  }

  lemma ManifestOfConsecutive(dataset: Dataset, start: nat)
    requires dataset.rows != [] && Consecutive(dataset.rows, start) && Describes(dataset, dataset.rows)
    ensures dataset.manifest.startVersion == start && dataset.manifest.endVersion == Some(start + |dataset.rows| - 1)
    ensures ManifestRangeOk(dataset.manifest) <==> |dataset.rows| < U64_LIMIT
    ensures ManifestRangeOk(dataset.manifest) ==> dataset.manifest.rawTransactionCount == |dataset.rows|
  {
    BoundsOfConsecutive(dataset.rows, start, Some(dataset.manifest.startVersion), dataset.manifest.endVersion);
  }

  /** Whatever the files, an accepted input holds each version from the manifest's start to its end once, in
      order, and the benchmark accepts the manifest unless it spans every version there is. */
  lemma NormalizerIsSound(inputs: seq<RawInput>, requireContiguous: bool, codec: Codec, parses: Transaction -> bool,
                          dataset: Dataset)
    requires requireContiguous || |inputs| == 1
    requires Acceptable(inputs, requireContiguous, codec, parses) && Describes(dataset, Decoded(inputs, codec))
    ensures dataset.rows == Decoded(inputs, codec)
    ensures Consecutive(dataset.rows, dataset.manifest.startVersion)
    ensures dataset.manifest.endVersion.Some?
    ensures |dataset.rows| == dataset.manifest.endVersion.value - dataset.manifest.startVersion + 1
    ensures ManifestRangeOk(dataset.manifest) <==> |dataset.rows| < U64_LIMIT
    ensures ManifestRangeOk(dataset.manifest) ==> dataset.manifest.rawTransactionCount == |dataset.rows|
  {
    AcceptedIsConsecutive(inputs, requireContiguous, codec, parses);
    ManifestOfConsecutive(dataset, VersionAt(dataset.rows, 0));
  }

  lemma {:induction false} SequenceGrows(ranges: seq<DeclaredRange>, i: nat, j: nat)
    requires InSequence(ranges) && i < j < |ranges|
    ensures ranges[i].value.1 < ranges[j].value.0
  {
    assert Follows(ranges, j);
    if i < j - 1 {
      SequenceGrows(ranges, i, j - 1);
    }
  }

  /** Two chunks of a directory that declare a common version keep it from being accepted, in whatever order
      they are listed. */
  lemma OverlapIsRefused(inputs: seq<RawInput>, i: nat, j: nat, version: u64, codec: Codec, parses: Transaction -> bool)
    requires i < |inputs| && j < |inputs| && i != j
    requires VersionRange(inputs[i].name).Some? && VersionRange(inputs[j].name).Some?
    requires VersionRange(inputs[i].name).value.0 <= version <= VersionRange(inputs[i].name).value.1
    requires VersionRange(inputs[j].name).value.0 <= version <= VersionRange(inputs[j].name).value.1
    ensures !Acceptable(inputs, true, codec, parses)
  {
    var ranges := DeclaredRanges(Names(inputs));
    var low, high := if i < j then i else j, if i < j then j else i;
    assert ranges[i] == VersionRange(inputs[i].name) && ranges[j] == VersionRange(inputs[j].name);
    if InSequence(ranges) {
      SequenceGrows(ranges, low, high);
    }
  }
}
