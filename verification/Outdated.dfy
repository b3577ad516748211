/** A recorder that resumes from a checkpoint which a crash has outdated: the chunk that was renamed last, but that the
    checkpoint does not list, is an orphan. */
module Outdated {
  import opened Prelude
  import opened Framing
  import opened ChunkNames
  import opened RawChunks
  import opened RecordedDir
  import opened Recorder
  import opened RecorderSafety
  import opened Retries
  import opened Crashes
  import opened FirstChunks

  /** There is a chunk up to `last` that starts at the cursor of the checkpoint. */
  predicate Orphan(dir: DirState, last: u64) {
    && dir.checkpoint.Some? && dir.checkpoint.value.nextStart <= last
    && ChunkName(dir.checkpoint.value.nextStart, last) in dir.files
  }

  /** The only one, behind chunks that can be counted. */
  ghost predicate OneOrphan(dir: DirState, last: u64) {
    && Orphan(dir, last) && TotalCount(dir.checkpoint.value.chunks) <= U64_MAX
    && forall end: u64 :: ChunkName(dir.checkpoint.value.nextStart, end) in dir.files ==> end == last
  }

  /** Two chunks that start at the same version. */
  predicate Overlap(files: map<Bytes, Bytes>, start: u64, a: u64, b: u64) {
    a != b && start <= a && start <= b && ChunkName(start, a) in files && ChunkName(start, b) in files
  }

  ghost predicate Overlapping(files: map<Bytes, Bytes>) {
    exists start, a, b :: Overlap(files, start, a, b)
  }

  lemma GrownStaysOverlapping(files: map<Bytes, Bytes>, more: map<Bytes, Bytes>)
    requires Overlapping(files) && Grown(files, more)
    ensures Overlapping(more)
  {
    var start, a, b :| Overlap(files, start, a, b);
    assert Overlap(more, start, a, b);
  }

  // What such a crash leaves.

  lemma StartsOnce(chunks: seq<ChunkEntry>, c: ChunkEntry, d: ChunkEntry, origin: nat, next: nat, limit: nat)
    requires Partition(chunks, origin, next, limit) && c in chunks && d in chunks && c.first == d.first
    ensures c == d
  {
    PartitionOrdered(chunks, origin, next, limit);
    PartitionBounds(chunks, origin, next, limit);
    var i :| 0 <= i < |chunks| && chunks[i] == c;
    var j :| 0 <= j < |chunks| && chunks[j] == d;
  }

  lemma NamedOnce(chunks: seq<ChunkEntry>, c: ChunkEntry, origin: nat, next: nat, limit: nat, last: u64)
    requires Partition(chunks, origin, next, limit) && c in chunks
    requires ChunkName(c.first, last) in Paths(chunks)
    ensures last == c.last
  {
    PartitionBounds(chunks, origin, next, limit);
    var d :| d in chunks && d.path == ChunkName(c.first, last);
    NamesInjective(d.first, d.last, c.first, last);
    StartsOnce(chunks, c, d, origin, next, limit);
  }

  lemma LastIsOrphan(dir: DirState, chunks: seq<ChunkEntry>, c: ChunkEntry, origin: nat, next: nat, limit: nat)
    requires Partition(chunks, origin, next, limit) && dir.files.Keys == Paths(chunks) && c in chunks
    requires dir.checkpoint.Some? && dir.checkpoint.value.nextStart == c.first
    requires TotalCount(dir.checkpoint.value.chunks) <= U64_MAX
    ensures OneOrphan(dir, c.last)
  {
    PartitionBounds(chunks, origin, next, limit);
    assert c.path in Paths(chunks);
    forall end: u64 | ChunkName(c.first, end) in dir.files
      ensures end == c.last
    {
      NamedOnce(chunks, c, origin, next, limit, end);
    }
  }

  lemma RenamedChunk(s: Session, held: seq<Transaction>, origin: nat, width: nat, codec: Codec)
    requires Stored(s.dir, s.run.chunks, held, origin, width, codec) && RenameOutdates(s)
    requires Consecutive(s.open, origin + |held|) && s.run.last == Some(EntryFor(s.open).last)
    ensures EntryFor(s.open).first == s.dir.checkpoint.value.nextStart
    ensures TotalCount(s.dir.checkpoint.value.chunks) <= U64_MAX
  {
    SegmentEnds(s.open, origin + |held|);
    PartitionBounds(s.run.chunks, origin, origin + |held|, width);
  }

  lemma RenameLeavesOrphan(s: Session, log: seq<Transaction>, held: seq<Transaction>, written: seq<Transaction>,
                           origin: nat, width: nat, codec: Codec)
    requires Written(s, log, held, written, origin, width, codec) && RenameOutdates(s)
    ensures OneOrphan(Finish(s, codec).dir, s.run.last.value)
  {
    RenameAddsFile(s, log, held, written, origin, width, codec);
    LastWritten(s, log, held, written, origin, width, codec);
    ConsecutiveEnd(held, s.open, origin);
    SegmentEnds(s.open, origin + |held|);
    RenamedChunk(s, held, origin, width, codec);
    var after := Finish(s, codec);
    LastIsOrphan(after.dir, after.run.chunks, EntryFor(s.open), origin, origin + |log + written|, width);
  }

  lemma OrphanBesideKeys(dir: DirState, other: DirState, last: u64)
    requires OneOrphan(dir, last) && other.files == dir.files && other.checkpoint == dir.checkpoint
    ensures OneOrphan(other, last)
  {
  }

  lemma CursorOfRenamed(s: Session, request: Request, point: CrashPoint, log: seq<Transaction>, held: seq<Transaction>,
                        written: seq<Transaction>, origin: nat, width: nat, codec: Codec)
    requires Written(s, log, held, written, origin, width, codec) && RenameOutdates(s)
    requires request.startVersion == origin + |log|
    ensures
      var after := Renamed(s, request, point, codec);
      OneOrphan(after, s.run.last.value) && after.checkpoint.value.nextStart >= request.startVersion
  {
    RenameLeavesOrphan(s, log, held, written, origin, width, codec);
    OrphanBesideKeys(Finish(s, codec).dir, Renamed(s, request, point, codec), s.run.last.value);
  }

  /** A crash that outdates the checkpoint leaves an orphan that ends with the last version written. */
  lemma CrashLeavesOrphan(dir: DirState, request: Request, txs: seq<Transaction>, point: CrashPoint,
                          log: seq<Transaction>, origin: nat, width: nat, codec: Codec)
    returns (last: u64)
    requires Begins(dir, request, log, origin, width, codec) && Consecutive(txs, request.startVersion)
    requires OutdatesCheckpoint(dir, request, txs, point, codec)
    ensures OneOrphan(CrashOf(dir, request, txs, point, codec), last)
    ensures InterruptedAt(dir, request, txs, point, codec).run.last == Some(last)
    ensures CrashOf(dir, request, txs, point, codec).checkpoint.value.nextStart >= request.startVersion
  {
    var s := InterruptedAt(dir, request, txs, point, codec);
    var held, written := InterruptedLeaves(dir, request, txs, point, log, origin, width, codec);
    LastWritten(s, log, held, written, origin, width, codec);
    CursorOfRenamed(s, request, point, log, held, written, origin, width, codec);
    last := s.run.last.value;
  }

  lemma {:induction false} AllInFirstChunk(request: Request, txs: seq<Transaction>, codec: Codec)
    requires request.maxRawBytes.None? && |txs| <= request.chunkLimit
    ensures FirstChunk(request, txs, codec) == txs
  {
    if txs != [] {
      AllInFirstChunk(request, txs[..|txs| - 1], codec);
    }
  }

  lemma InitIsOpen(dir: DirState, request: Request, txs: seq<Transaction>, codec: Codec)
    requires request.maxRawBytes.None? && 0 < |txs| <= request.chunkLimit && |Frames(txs, codec)| <= U64_MAX
    ensures StillOpen(Steps(Start(dir, request), request, txs[..|txs| - 1], codec), dir, txs[..|txs| - 1], codec)
  {
    AllInFirstChunk(request, txs[..|txs| - 1], codec);
    StepsComeToFirst(dir, request, txs[..|txs| - 1], codec);
  }

  /** Transactions that fit in the first chunk are all in it when the run is interrupted. */
  lemma TakenInFirst(dir: DirState, request: Request, txs: seq<Transaction>, codec: Codec)
    requires request.maxRawBytes.None? && 0 < |txs| <= request.chunkLimit && |Frames(txs, codec)| <= U64_MAX
    ensures StillOpen(TakenSoFar(Start(dir, request), request, txs, codec), dir, txs, codec)
  {
    var init := txs[..|txs| - 1];
    var before := Steps(Start(dir, request), request, init, codec);
    assert init + [txs[|txs| - 1]] == txs;
    InitIsOpen(dir, request, txs, codec);
    assert !Stopped(before, request);
    AddStaysOpen(before, dir, init, txs[|txs| - 1], codec);
  }

  /** It is easily done: beside any checkpoint, by a crash behind the rename of the very first chunk. */
  lemma FirstRenameOutdates(dir: DirState, request: Request, txs: seq<Transaction>, codec: Codec)
    requires dir.checkpoint.Some? && request.maxRawBytes.None? && 0 < |txs| <= request.chunkLimit
    requires |Frames(txs, codec)| <= U64_MAX && txs[|txs| - 1].version < U64_MAX
    ensures OutdatesCheckpoint(dir, request, txs, AfterRename, codec)
  {
    TakenInFirst(dir, request, txs, codec);
  }

  // What a recorder that resumes makes of it.

  ghost predicate Resumes(dir: DirState, request: Request) {
    && dir.checkpoint.Some? && request.startVersion == dir.checkpoint.value.nextStart
    && request.previousChunks == dir.checkpoint.value.chunks && request.chunkLimit >= 1
  }

  /** Whether the first chunk is complete, but not the orphan once more. */
  predicate Overlaps(request: Request, delivered: seq<Transaction>, last: u64, codec: Codec) {
    var first := FirstChunk(request, delivered, codec);
    CompletesFirst(request, first, codec) && request.startVersion + |first| - 1 != last
  }

  lemma AddedOverlaps(dir: DirState, request: Request, after: DirState, first: seq<Transaction>, last: u64,
                      codec: Codec)
    requires Resumes(dir, request) && Orphan(dir, last) && Adds(dir, after, first, codec)
    requires Consecutive(first, request.startVersion) && Grown(dir.files, after.files)
    ensures Overlapping(after.files) && after != dir
  {
    SegmentEnds(first, request.startVersion);
    assert Overlap(after.files, request.startVersion, last, EntryFor(first).last);
  }

  /** A recorder that resumes from an outdated checkpoint, over however many streams, writes an overlapping chunk or
      changes nothing at all: the former if and only if it completes a first chunk that ends elsewhere than the
      orphan does. */
  lemma ResumedRecording(dir: DirState, request: Request, network: Network, limit: Option<u64>, total: u64,
                         retries: nat, maxRetries: nat, last: u64, codec: Codec)
    requires retries <= maxRetries && Resumes(dir, request) && Orphan(dir, last)
    requires Consecutive(Delivered(network(retries, request.startVersion)), request.startVersion)
    ensures
      var after := RecordFrom(dir, request, network, limit, total, retries, maxRetries, codec).dir;
      && (after == dir || Overlapping(after.files))
      && (OneOrphan(dir, last) ==>
           (after != dir <==> Overlaps(request, Delivered(network(retries, request.startVersion)), last, codec)))
  {
    var all := Delivered(network(retries, request.startVersion));
    var first := FirstChunk(request, all, codec);
    RecordingDecides(dir, request, network, limit, total, retries, maxRetries, codec);
    RecordingGrows(dir, request, network, limit, total, retries, maxRetries, codec);
    if first != [] {
      FirstChunkNamed(request, all, codec);
      if EntryFor(first).path !in dir.files && CompletesFirst(request, first, codec) {
        AddedOverlaps(dir, request, RecordFrom(dir, request, network, limit, total, retries, maxRetries, codec).dir,
          first, last, codec);
      }
    }
  }

  /** If it crashes again, that is no different. */
  lemma ResumedCrash(dir: DirState, request: Request, txs: seq<Transaction>, point: CrashPoint, last: u64, codec: Codec)
    requires Resumes(dir, request) && Orphan(dir, last) && Consecutive(txs, request.startVersion)
    ensures
      var after := CrashOf(dir, request, txs, point, codec);
      after == dir || Overlapping(after.files)
  {
    var after := CrashOf(dir, request, txs, point, codec);
    var first := CrashDecides(dir, request, txs, point, codec);
    CrashGrows(dir, request, txs, point, codec);
    if after != dir {
      assert txs == first + txs[|first|..];
      ConsecutiveEnd(first, txs[|first|..], request.startVersion);
      AddedOverlaps(dir, request, after, first, last, codec);
    }
  }
}
