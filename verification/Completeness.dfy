/** What the recorder leaves, the normalizer accepts. */
module Completeness {
  import opened Prelude
  import opened Framing
  import opened ChunkNames
  import opened RawChunks
  import opened RecordedDir
  import opened Normalizer
  import opened Recorder
  import opened RecorderSafety
  import opened Retries
  import Lists

  function PathOf(c: ChunkEntry): Bytes {
    c.path
  }

  function InputsOf(files: map<Bytes, Bytes>, listing: seq<Bytes>): seq<RawInput> {
    Lists.Map((name: Bytes) => RawInput(name, if name in files then files[name] else []), listing)
  }

  /** The outcome of normalizing the files in the order of the listing. */
  ghost predicate NormalizedAs(r: Result<Dataset, NormalizeError>, files: map<Bytes, Bytes>, listing: seq<Bytes>,
                               codec: Codec, parses: Transaction -> bool)
  {
    && (r.Ok? <==> Acceptable(InputsOf(files, listing), true, codec, parses))
    && (r.Ok? ==> Describes(r.value, Decoded(InputsOf(files, listing), codec)))
  }

  /** Normalizes a directory of chunk files. */
  method NormalizeDirectory(files: map<Bytes, Bytes>, codec: Codec, parses: Transaction -> bool)
    returns (r: Result<Dataset, NormalizeError>)
    ensures exists listing :: ChunkListing(files.Keys, listing) && NormalizedAs(r, files, listing, codec, parses)
  {
    var listing := ResolveRawInputs(files.Keys);
    r := Normalize(InputsOf(files, listing), true, codec, parses);
    assert NormalizedAs(r, files, listing, codec, parses);
  }

  // The listing of a recorded directory.

  lemma ListedPaths(chunks: seq<ChunkEntry>, origin: nat, next: nat, limit: nat)
    requires Partition(chunks, origin, next, limit)
    ensures forall i :: 0 <= i < |chunks| ==> IsChunkFile(chunks[i].path)
    ensures forall i :: 0 <= i < |chunks| ==> VersionRange(chunks[i].path) == Some((chunks[i].first, chunks[i].last))
  {
    PartitionNeighbours(chunks, origin, next, limit);
    forall i | 0 <= i < |chunks|
      ensures IsChunkFile(chunks[i].path) && VersionRange(chunks[i].path) == Some((chunks[i].first, chunks[i].last))
    {
      RangeOfName(chunks[i].first, chunks[i].last);
    }
  }

  lemma StartsEarlier(a: Bytes, b: Bytes)
    requires VersionRange(a).Some? && VersionRange(b).Some? && VersionRange(a).value.0 < VersionRange(b).value.0
    ensures ByStart(a, b) && a != b
  {
  }

  lemma PathsSorted(chunks: seq<ChunkEntry>, origin: nat, next: nat, limit: nat)
    requires Partition(chunks, origin, next, limit)
    ensures Lists.Distinct(Lists.Map(PathOf, chunks)) && Lists.SortedBy(ByStart, Lists.Map(PathOf, chunks))
  {
    ListedPaths(chunks, origin, next, limit);
    PartitionOrdered(chunks, origin, next, limit);
    PartitionNeighbours(chunks, origin, next, limit);
    var paths := Lists.Map(PathOf, chunks);
    forall i, j | 0 <= i < j < |paths|
      ensures ByStart(paths[i], paths[j]) && paths[i] != paths[j]
    {
      StartsEarlier(chunks[i].path, chunks[j].path);
    }
  }

  lemma PathsAreChunkFiles(chunks: seq<ChunkEntry>, origin: nat, next: nat, limit: nat, name: Bytes)
    requires Partition(chunks, origin, next, limit) && name in Paths(chunks)
    ensures IsChunkFile(name)
  {
    PartitionBounds(chunks, origin, next, limit);
    var c :| c in chunks && c.path == name;
    RangeOfName(c.first, c.last);
  }

  /** Sorted for the normalizer, the files of a recorded directory are its chunks in order. */
  lemma ListingIsPaths(names: set<Bytes>, chunks: seq<ChunkEntry>, origin: nat, next: nat, limit: nat,
                       listing: seq<Bytes>)
    requires Partition(chunks, origin, next, limit) && names == Paths(chunks) && ChunkListing(names, listing)
    ensures listing == Lists.Map(PathOf, chunks)
  {
    var paths := Lists.Map(PathOf, chunks);
    forall name
      ensures name in listing <==> name in paths
    {
      Lists.MapMembers(PathOf, chunks, name);
      if name in Paths(chunks) {
        PathsAreChunkFiles(chunks, origin, next, limit, name);
      }
    }
    PathsSorted(chunks, origin, next, limit);
    ByStartIsTotal();
    Lists.DistinctSameMembersPermute(listing, paths);
    Lists.SortedPermutationsEqual(ByStart, listing, paths);
  }

  // Its contents.

  lemma ConsecutiveIsDistinct(rows: seq<Transaction>, start: nat)
    requires Consecutive(rows, start)
    ensures DistinctVersions(rows)
  {
  }

  lemma SliceConsecutive(held: seq<Transaction>, from: nat, to: nat, origin: nat)
    requires Consecutive(held, origin) && from < to <= |held|
    ensures Consecutive(held[..to], origin) && Consecutive(held[from..to], origin + from)
    ensures VersionAt(held[from..to], 0) == origin + from
    ensures VersionAt(held[from..to], |held[from..to]| - 1) == origin + to - 1
  {
    assert forall i: nat :: i < to ==> VersionAt(held[..to], i) == VersionAt(held, i);
    assert forall i: nat :: i < to - from ==> VersionAt(held[from..to], i) == VersionAt(held, from + i);
  }

  lemma SliceFits(held: seq<Transaction>, from: nat, to: nat, origin: nat, range: DeclaredRange,
                  parses: Transaction -> bool)
    requires Consecutive(held, origin) && from < to <= |held| && to - from <= U64_MAX
    requires range.Some? && range.value.0 == origin + from && range.value.1 == origin + to - 1
    requires forall t :: t in held ==> parses(t)
    ensures held[..from] + held[from..to] == held[..to]
    ensures ChunkFits(held[..from], StreamRead(held[from..to], true), range, parses)
  {
    SliceConsecutive(held, from, to, origin);
    ConsecutiveIsDistinct(held[..to], origin);
    assert held[..from] + held[from..to] == held[..to];
  }

  /** A chunk of the recorded transactions reads back as them and fits behind those before it. */
  lemma RecordedChunkFits(contents: Bytes, held: seq<Transaction>, from: nat, to: nat, origin: nat,
                          range: DeclaredRange, codec: Codec, parses: Transaction -> bool)
    requires codec.Faithful() && Consecutive(held, origin) && IsSlice(contents, held, from, to, codec)
    requires range.Some? && range.value.0 == origin + from && range.value.1 == origin + to - 1
    requires forall t :: t in held ==> parses(t)
    ensures ChunkFits(held[..from], ReadAll(contents, codec), range, parses)
    ensures held[..from] + ReadAll(contents, codec).txs == held[..to]
  {
    FramesRoundTrip(held[from..to], codec);
    SliceFits(held, from, to, origin, range, parses);
  }

  /** The input holds the transactions of the chunk's range, under a name that declares it. */
  ghost predicate Piece(input: RawInput, c: ChunkEntry, held: seq<Transaction>, origin: nat, codec: Codec) {
    && origin <= c.first && IsSlice(input.contents, held, c.first - origin, c.last + 1 - origin, codec)
    && VersionRange(input.name) == Some((c.first, c.last))
  }

  ghost predicate PieceAt(inputs: seq<RawInput>, chunks: seq<ChunkEntry>, i: nat, held: seq<Transaction>, origin: nat,
                          codec: Codec) {
    i < |inputs| && i < |chunks| && Piece(inputs[i], chunks[i], held, origin, codec)
  }

  ghost predicate IsSlice(contents: Bytes, held: seq<Transaction>, from: nat, to: int, codec: Codec) {
    from < to <= |held| && to - from <= U64_MAX && contents == Frames(held[from..to], codec)
  }

  lemma PieceFits(input: RawInput, c: ChunkEntry, held: seq<Transaction>, origin: nat, codec: Codec,
                  parses: Transaction -> bool)
    requires codec.Faithful() && Consecutive(held, origin) && (forall t :: t in held ==> parses(t))
    requires Piece(input, c, held, origin, codec)
    ensures
      var read := ReadAll(input.contents, codec);
      && ChunkFits(held[..c.first - origin], read, VersionRange(input.name), parses)
      && held[..c.first - origin] + read.txs == held[..c.last + 1 - origin]
  {
    RecordedChunkFits(input.contents, held, c.first - origin, c.last + 1 - origin, origin, VersionRange(input.name),
      codec, parses);
  }

  /** Inputs that read back as `rows`. */
  ghost predicate ReadsBack(inputs: seq<RawInput>, rows: seq<Transaction>, codec: Codec, parses: Transaction -> bool) {
    Decoded(inputs, codec) == rows && ChunksFit(inputs, codec, parses)
  }

  lemma OneMoreReadsBack(inputs: seq<RawInput>, n: nat, rows: seq<Transaction>, codec: Codec,
                         parses: Transaction -> bool)
    requires n < |inputs| && ReadsBack(inputs[..n], rows, codec, parses)
    requires ChunkFits(rows, ReadAll(inputs[n].contents, codec), VersionRange(inputs[n].name), parses)
    ensures ReadsBack(inputs[..n + 1], rows + ReadAll(inputs[n].contents, codec).txs, codec, parses)
  {
    assert inputs[..n + 1][..n] == inputs[..n];
  }

  lemma OneMorePiece(inputs: seq<RawInput>, n: nat, c: ChunkEntry, held: seq<Transaction>, origin: nat, codec: Codec,
                     parses: Transaction -> bool)
    requires codec.Faithful() && Consecutive(held, origin) && (forall t :: t in held ==> parses(t))
    requires n < |inputs| && Piece(inputs[n], c, held, origin, codec)
    requires ReadsBack(inputs[..n], held[..c.first - origin], codec, parses)
    ensures ReadsBack(inputs[..n + 1], held[..c.last + 1 - origin], codec, parses)
  {
    PieceFits(inputs[n], c, held, origin, codec, parses);
    OneMoreReadsBack(inputs, n, held[..c.first - origin], codec, parses);
  }

  ghost predicate Touching(chunks: seq<ChunkEntry>, origin: nat) {
    && (chunks != [] ==> chunks[0].first == origin)
    && forall i: nat :: 0 < i < |chunks| ==> Touches(chunks, i)
  }

  function Upto(chunks: seq<ChunkEntry>, n: nat, origin: nat): int
    requires n <= |chunks|
  {
    if n == 0 then 0 else chunks[n - 1].last + 1 - origin
  }

  lemma UptoFirst(chunks: seq<ChunkEntry>, n: nat, origin: nat)
    requires n < |chunks| && Touching(chunks, origin)
    ensures Upto(chunks, n, origin) == chunks[n].first - origin
  {
    assert n > 0 ==> Touches(chunks, n);
  }

  ghost predicate ReadsBackUpto(inputs: seq<RawInput>, chunks: seq<ChunkEntry>, n: nat, held: seq<Transaction>,
                                origin: nat, codec: Codec, parses: Transaction -> bool)
  {
    && n <= |inputs| && n <= |chunks| && 0 <= Upto(chunks, n, origin) <= |held|
    && ReadsBack(inputs[..n], held[..Upto(chunks, n, origin)], codec, parses)
  }

  lemma NextPieceReadsBack(inputs: seq<RawInput>, chunks: seq<ChunkEntry>, n: nat, held: seq<Transaction>, origin: nat,
                           codec: Codec, parses: Transaction -> bool)
    requires codec.Faithful() && Consecutive(held, origin) && (forall t :: t in held ==> parses(t))
    requires Touching(chunks, origin) && PieceAt(inputs, chunks, n, held, origin, codec)
    requires ReadsBackUpto(inputs, chunks, n, held, origin, codec, parses)
    ensures ReadsBackUpto(inputs, chunks, n + 1, held, origin, codec, parses)
  {
    UptoFirst(chunks, n, origin);
    OneMorePiece(inputs, n, chunks[n], held, origin, codec, parses);
  }

  /** Pieces that touch read back as everything up to where the last one ends. */
  lemma {:induction false} PiecesReadBack(inputs: seq<RawInput>, chunks: seq<ChunkEntry>, n: nat,
                                          held: seq<Transaction>, origin: nat, codec: Codec,
                                          parses: Transaction -> bool)
    requires codec.Faithful() && Consecutive(held, origin) && (forall t :: t in held ==> parses(t))
    requires n <= |inputs| == |chunks| && Touching(chunks, origin)
    requires forall i: nat :: i < n ==> PieceAt(inputs, chunks, i, held, origin, codec)
    ensures ReadsBackUpto(inputs, chunks, n, held, origin, codec, parses)
    decreases n
  {
    if n > 0 {
      PiecesReadBack(inputs, chunks, n - 1, held, origin, codec, parses);
      assert PieceAt(inputs, chunks, n - 1, held, origin, codec);
      NextPieceReadsBack(inputs, chunks, n - 1, held, origin, codec, parses);
    }
  }

  lemma InputIsPiece(files: map<Bytes, Bytes>, c: ChunkEntry, held: seq<Transaction>, origin: nat, limit: u64,
                     codec: Codec)
    requires FileHolds(files, c, held, origin, codec) && c.path == ChunkName(c.first, c.last)
             && c.last - c.first + 1 <= limit
    ensures Piece(RawInput(c.path, files[c.path]), c, held, origin, codec)
  {
    RangeOfName(c.first, c.last);
  }

  lemma {:induction false} PartitionWidths(chunks: seq<ChunkEntry>, origin: nat, next: nat, limit: nat)
    requires Partition(chunks, origin, next, limit)
    ensures forall i :: 0 <= i < |chunks| ==> chunks[i].last - chunks[i].first + 1 <= limit
  {
    if chunks != [] {
      PartitionWidths(chunks[..|chunks| - 1], origin, chunks[|chunks| - 1].first, limit);
    }
  }

  lemma PartitionAt(chunks: seq<ChunkEntry>, origin: nat, next: nat, limit: nat, i: nat)
    requires Partition(chunks, origin, next, limit) && i < |chunks|
    ensures chunks[i].path == ChunkName(chunks[i].first, chunks[i].last)
            && chunks[i].last - chunks[i].first + 1 <= limit
  {
    PartitionNeighbours(chunks, origin, next, limit);
    PartitionWidths(chunks, origin, next, limit);
  }

  lemma InputAtIsPiece(files: map<Bytes, Bytes>, chunks: seq<ChunkEntry>, held: seq<Transaction>, origin: nat,
                       limit: u64, codec: Codec, i: nat)
    requires Recorded(files, chunks, held, origin, limit, codec) && i < |chunks|
    ensures PieceAt(InputsOf(files, Lists.Map(PathOf, chunks)), chunks, i, held, origin, codec)
  {
    PartitionAt(chunks, origin, origin + |held|, limit, i);
    assert chunks[i] in chunks;
    InputIsPiece(files, chunks[i], held, origin, limit, codec);
    assert InputsOf(files, Lists.Map(PathOf, chunks))[i] == RawInput(chunks[i].path, files[chunks[i].path]);
  }

  lemma ChunksTouch(chunks: seq<ChunkEntry>, origin: nat, next: nat, limit: nat)
    requires Partition(chunks, origin, next, limit)
    ensures Touching(chunks, origin)
    ensures Upto(chunks, |chunks|, origin) == next - origin
  {
    PartitionNeighbours(chunks, origin, next, limit);
  }

  lemma NamesOfInputs(files: map<Bytes, Bytes>, listing: seq<Bytes>)
    ensures Names(InputsOf(files, listing)) == listing
  {
  }

  lemma RangesInSequence(ranges: seq<DeclaredRange>, chunks: seq<ChunkEntry>, origin: nat)
    requires |ranges| == |chunks| && Touching(chunks, origin)
    requires forall i :: 0 <= i < |chunks| ==>
               ranges[i] == Some((chunks[i].first, chunks[i].last)) && chunks[i].first <= chunks[i].last
    ensures InSequence(ranges)
  {
    forall i: nat | 0 < i < |ranges|
      ensures Follows(ranges, i)
    {
      assert Touches(chunks, i);
    }
  }

  lemma DeclaredInSequence(chunks: seq<ChunkEntry>, origin: nat, next: nat, limit: nat)
    requires Partition(chunks, origin, next, limit)
    ensures InSequence(DeclaredRanges(Lists.Map(PathOf, chunks)))
  {
    ListedPaths(chunks, origin, next, limit);
    PartitionNeighbours(chunks, origin, next, limit);
    ChunksTouch(chunks, origin, next, limit);
    RangesInSequence(DeclaredRanges(Lists.Map(PathOf, chunks)), chunks, origin);
  }

  lemma AllPiecesReadBack(inputs: seq<RawInput>, chunks: seq<ChunkEntry>, held: seq<Transaction>, origin: nat,
                          codec: Codec, parses: Transaction -> bool)
    requires codec.Faithful() && Consecutive(held, origin) && (forall t :: t in held ==> parses(t))
    requires |inputs| == |chunks| && Touching(chunks, origin) && Upto(chunks, |chunks|, origin) == |held|
    requires forall i: nat :: i < |chunks| ==> PieceAt(inputs, chunks, i, held, origin, codec)
    ensures ReadsBack(inputs, held, codec, parses)
  {
    PiecesReadBack(inputs, chunks, |chunks|, held, origin, codec, parses);
    assert inputs[..|chunks|] == inputs && held[..|held|] == held;
  }

  lemma RecordedReadsBack(files: map<Bytes, Bytes>, chunks: seq<ChunkEntry>, held: seq<Transaction>, origin: nat,
                          limit: u64, codec: Codec, parses: Transaction -> bool)
    requires codec.Faithful() && (forall t :: t in held ==> parses(t))
    requires Recorded(files, chunks, held, origin, limit, codec)
    ensures ReadsBack(InputsOf(files, Lists.Map(PathOf, chunks)), held, codec, parses)
  {
    var inputs := InputsOf(files, Lists.Map(PathOf, chunks));
    forall i: nat | i < |chunks|
      ensures PieceAt(inputs, chunks, i, held, origin, codec)
    {
      InputAtIsPiece(files, chunks, held, origin, limit, codec, i);
    }
    ChunksTouch(chunks, origin, origin + |held|, limit);
    AllPiecesReadBack(inputs, chunks, held, origin, codec, parses);
  }

  /** A recorded directory is accepted and yields exactly the recorded transactions. */
  lemma RecordedIsAccepted(files: map<Bytes, Bytes>, chunks: seq<ChunkEntry>, held: seq<Transaction>, origin: nat,
                           limit: u64, codec: Codec, parses: Transaction -> bool, listing: seq<Bytes>)
    requires codec.Faithful() && (forall t :: t in held ==> parses(t)) && held != []
    requires Recorded(files, chunks, held, origin, limit, codec) && ChunkListing(files.Keys, listing)
    ensures Acceptable(InputsOf(files, listing), true, codec, parses)
    ensures Decoded(InputsOf(files, listing), codec) == held
  {
    ListingIsPaths(files.Keys, chunks, origin, origin + |held|, limit, listing);
    RecordedReadsBack(files, chunks, held, origin, limit, codec, parses);
    DeclaredInSequence(chunks, origin, origin + |held|, limit);
    NamesOfInputs(files, listing);
  }

  /** The dataset is the held transactions, and its manifest names their range. */
  ghost predicate DescribesRange(dataset: Dataset, held: seq<Transaction>, origin: nat) {
    && dataset.rows == held
    && dataset.manifest.startVersion == origin && dataset.manifest.endVersion == Some(origin + |held| - 1)
    && (ManifestRangeOk(dataset.manifest) <==> |held| < U64_LIMIT)
  }

  ghost predicate AcceptedAsRecorded(files: map<Bytes, Bytes>, listing: seq<Bytes>, held: seq<Transaction>, origin: nat,
                                     codec: Codec, parses: Transaction -> bool, dataset: Dataset)
  {
    && Acceptable(InputsOf(files, listing), true, codec, parses)
    && (Describes(dataset, Decoded(InputsOf(files, listing), codec)) ==> DescribesRange(dataset, held, origin))
  }

  lemma ManifestOfHeld(dataset: Dataset, rows: seq<Transaction>, held: seq<Transaction>, origin: nat)
    requires held != [] && Consecutive(held, origin) && rows == held
    ensures Describes(dataset, rows) ==> DescribesRange(dataset, held, origin)
  {
    if Describes(dataset, rows) {
      ManifestOfConsecutive(dataset, origin);
    }
  }

  lemma RecordedNormalizes(files: map<Bytes, Bytes>, chunks: seq<ChunkEntry>, held: seq<Transaction>, origin: nat,
                           limit: u64, codec: Codec, parses: Transaction -> bool, listing: seq<Bytes>, dataset: Dataset)
    requires codec.Faithful() && (forall t :: t in held ==> parses(t)) && held != []
    requires Recorded(files, chunks, held, origin, limit, codec) && ChunkListing(files.Keys, listing)
    ensures AcceptedAsRecorded(files, listing, held, origin, codec, parses, dataset)
  {
    RecordedIsAccepted(files, chunks, held, origin, limit, codec, parses, listing);
    ManifestOfHeld(dataset, Decoded(InputsOf(files, listing), codec), held, origin);
  }

  /** Whatever a recorder has left, at its end or at any checkpoint, the normalizer accepts, and the manifest
      names exactly the recorded range. A crash between a rename and its checkpoint leaves the files of that
      checkpoint. */
  lemma RecorderOutputNormalizes(dir: DirState, chunks: seq<ChunkEntry>, held: seq<Transaction>, origin: nat,
                                 limit: u64, codec: Codec, parses: Transaction -> bool, listing: seq<Bytes>,
                                 dataset: Dataset)
    requires codec.Faithful() && (forall t :: t in held ==> parses(t)) && held != []
    requires Kept(dir, chunks, held, origin, limit, codec)
    ensures ChunkListing(dir.files.Keys, listing) ==>
              AcceptedAsRecorded(dir.files, listing, held, origin, codec, parses, dataset)
    ensures forall s :: s in dir.history && ChunkListing(s.files.Keys, listing) ==>
              AcceptedAsRecorded(s.files, listing, held[..s.checkpoint.nextStart - origin], origin, codec, parses,
                dataset)
  {
    if ChunkListing(dir.files.Keys, listing) {
      RecordedNormalizes(dir.files, chunks, held, origin, limit, codec, parses, listing, dataset);
    }
    forall s | s in dir.history && ChunkListing(s.files.Keys, listing)
      ensures AcceptedAsRecorded(s.files, listing, held[..s.checkpoint.nextStart - origin], origin, codec, parses,
              dataset)
    {
      assert SoundSnapshot(s, held, origin, limit, codec);
      var prefix := held[..s.checkpoint.nextStart - origin];
      RecordedNormalizes(s.files, s.checkpoint.chunks, prefix, origin, limit, codec, parses, listing, dataset);
    }
  }

  ghost predicate NormalizesTo(dir: DirState, held: seq<Transaction>, origin: nat, codec: Codec,
                               parses: Transaction -> bool) {
    held != [] ==>
      forall listing: seq<Bytes>, dataset: Dataset :: ChunkListing(dir.files.Keys, listing) ==>
        AcceptedAsRecorded(dir.files, listing, held, origin, codec, parses, dataset)
  }

  lemma KeptNormalizes(dir: DirState, chunks: seq<ChunkEntry>, held: seq<Transaction>, origin: nat, limit: u64,
                       codec: Codec, parses: Transaction -> bool)
    requires codec.Faithful() && (forall t :: t in held ==> parses(t))
    requires Kept(dir, chunks, held, origin, limit, codec)
    ensures NormalizesTo(dir, held, origin, codec, parses)
  {
    if held != [] {
      forall listing: seq<Bytes>, dataset: Dataset | ChunkListing(dir.files.Keys, listing)
        ensures AcceptedAsRecorded(dir.files, listing, held, origin, codec, parses, dataset)
      {
        RecordedNormalizes(dir.files, chunks, held, origin, limit, codec, parses, listing, dataset);
      }
    }
  }

  /** From an empty directory to a dataset: however the network batches and breaks, what the recorder has left
      normalizes to the ledger from the requested start up to the cursor. */
  lemma RecordThenNormalize(request: Request, network: Network, ledger: nat -> Transaction, maxRetries: nat,
                            codec: Codec, parses: Transaction -> bool)
    returns (held: seq<Transaction>)
    requires request.chunkLimit >= 1 && request.previousChunks == [] && Honest(network, ledger)
    requires codec.Faithful() && forall t :: parses(t)
    ensures FromLedger(held, request.startVersion, ledger)
    ensures
      var res := RecordFrom(EMPTY_DIR, request, network, request.maxRawBytes, 0, 0, maxRetries, codec);
      && NormalizesTo(res.dir, held, request.startVersion, codec, parses)
      && (res.r.Ok? ==> held != [] && res.r.value == request.startVersion + |held|)
  {
    var chunks;
    chunks, held := FreshRecordingIsSafe(request, network, ledger, maxRetries, codec);
    var res := RecordFrom(EMPTY_DIR, request, network, request.maxRawBytes, 0, 0, maxRetries, codec);
    KeptNormalizes(res.dir, chunks, held, request.startVersion, request.chunkLimit, codec, parses);
  }
}
