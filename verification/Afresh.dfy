/** A recorder that starts afresh, that is, without resuming, in a directory that already holds something. */
module Afresh {
  import opened Prelude
  import opened Framing
  import opened ChunkNames
  import opened RawChunks
  import opened RecordedDir
  import opened Recorder
  import opened RecorderSafety
  import opened Retries
  import opened Crashes
  import opened FirstChunks
  import opened Invocations

  ghost predicate AllNew(chunks: seq<ChunkEntry>, files: map<Bytes, Bytes>) {
    forall c :: c in chunks ==> c.path !in files
  }

  /** The checkpoint lists none of these files. */
  ghost predicate Unlisted(checkpoint: Option<Checkpoint>, files: map<Bytes, Bytes>) {
    checkpoint.Some? && AllNew(checkpoint.value.chunks, files)
  }

  /** A run in a directory with the files of `base`, which it does not list. Until it has saved, nothing is changed. */
  ghost predicate Apart(s: Session, base: DirState, saved: bool) {
    && Grown(base.files, s.dir.files) && AllNew(s.run.chunks, base.files)
    && ((!saved && s.dir == base) || Unlisted(s.dir.checkpoint, base.files) || IsFlushError(s.error))
  }

  lemma FinishStaysApart(s: Session, base: DirState, codec: Codec)
    requires Grown(base.files, s.dir.files) && AllNew(s.run.chunks, base.files)
    ensures
      var after := Finish(s, codec);
      Grown(base.files, after.dir.files) && AllNew(after.run.chunks, base.files)
  {
  }

  lemma SaveIsUnlisted(s: Session, base: DirState, request: Request, status: Status, stopped: bool)
    requires s.error.None? && s.run.last.Some? && AllNew(s.run.chunks, base.files)
    ensures
      var after := Save(s, request, status, stopped);
      Unlisted(after.dir.checkpoint, base.files) || IsFlushError(after.error)
  {
  }

  lemma StepStaysApart(s: Session, base: DirState, saved: bool, request: Request, tx: Transaction, codec: Codec)
    requires Apart(s, base, saved) && s.error.None?
    ensures Apart(Step(s, request, tx, codec), base, saved)
  {
    var added := Add(s, tx, codec);
    FinishStaysApart(added, base, codec);
    var finished := Finish(added, codec);
    if added.error.None? && finished.error.None? {
      SaveIsUnlisted(finished, base, request, Recording, false);
    }
  }

  lemma {:induction false} StepsStayApart(s: Session, base: DirState, saved: bool, request: Request,
                                          txs: seq<Transaction>, codec: Codec)
    requires Apart(s, base, saved)
    ensures Apart(Steps(s, request, txs, codec), base, saved)
  {
    if txs != [] {
      var before := Steps(s, request, txs[..|txs| - 1], codec);
      StepsStayApart(s, base, saved, request, txs[..|txs| - 1], codec);
      if before.error.None? {
        StepStaysApart(before, base, saved, request, txs[|txs| - 1], codec);
      }
    }
  }

  /** A key file that stands in the way is the one case in which a chunk is added and not saved. */
  lemma CloseStaysApart(s: Session, base: DirState, saved: bool, request: Request, status: Status, stopped: bool,
                        codec: Codec)
    requires Apart(s, base, saved) && s.error.None? && s.run.last.Some?
    ensures
      var after := Close(s, request, status, stopped, codec);
      || Unlisted(after.dir.checkpoint, base.files) || IsFlushError(after.error)
      || (!saved && s.dir == base && after.error.Some? && after.dir == Finish(s, codec).dir
          && (after.error == Some(KeyFileExists) ==> (request.startVersion, s.run.last.value) in base.keyFiles))
  {
    FinishStaysApart(s, base, codec);
    var kept := KeepKeys(Finish(s, codec), request);
    if kept.error.None? {
      SaveIsUnlisted(kept, base, request, status, stopped);
    }
  }

  /** The first chunk was added, but a key file stood in the way. */
  ghost predicate Obstructed(after: DirState, base: DirState, request: Request, first: seq<Transaction>) {
    && first != [] && EntryFor(first).path !in base.files
    && after.files.Keys == base.files.Keys + {EntryFor(first).path}
    && (request.startVersion, EntryFor(first).last) in base.keyFiles
  }

  /** Where a run or a recording that began with the files of `base` leaves the directory. */
  ghost predicate Settled(after: DirState, error: Option<RecordError>, base: DirState, saved: bool, request: Request,
                          first: seq<Transaction>) {
    || Unlisted(after.checkpoint, base.files) || IsFlushError(error)
    || (!saved && (after == base || Obstructed(after, base, request, first)))
  }

  function ErrorOf<T>(r: Result<T, RecordError>): Option<RecordError> {
    if r.Err? then Some(r.error) else None
  }

  lemma CloseSettles(s: Session, base: DirState, saved: bool, request: Request, first: seq<Transaction>,
                     status: Status, stopped: bool, codec: Codec)
    requires Apart(s, base, saved) && s.error.None? && s.run.last.Some?
    requires s.dir == base ==> StillOpen(s, base, first, codec)
    ensures
      var after := Close(s, request, status, stopped, codec);
      && Settled(after.dir, after.error, base, saved, request, first)
      && (after.error.None? ==> Unlisted(after.dir.checkpoint, base.files))
  {
    CloseStaysApart(s, base, saved, request, status, stopped, codec);
  }

  lemma EndingSettles(s: Session, base: DirState, saved: bool, request: Request, first: seq<Transaction>,
                      delivered: seq<Transaction>, broken: bool, codec: Codec)
    requires Apart(s, base, saved) && (s.error.None? && s.dir == base ==> StillOpen(s, base, first, codec))
    ensures
      var run := Ending(s, request, delivered, broken, codec);
      && Settled(run.dir, ErrorOf(run.outcome), base, saved, request, first)
      && (run.outcome.Ok? ==> Unlisted(run.dir.checkpoint, base.files))
  {
    if s.error.None? && s.run.last.Some? {
      CloseSettles(s, base, saved, request, first, Partial, false, codec);
      CloseSettles(s, base, saved, request, first, Complete, AtLimit(request, s.run.raw) && delivered != [], codec);
    }
  }

  lemma RunSettles(dir: DirState, base: DirState, saved: bool, request: Request, events: seq<StreamEvent>, codec: Codec)
    requires request.chunkLimit >= 1 && AllNew(request.previousChunks, base.files)
    requires if saved then Unlisted(dir.checkpoint, base.files) && Grown(base.files, dir.files) else dir == base
    ensures
      var run := RunOf(dir, request, events, codec);
      && Settled(run.dir, ErrorOf(run.outcome), base, saved, request, FirstChunk(request, Delivered(events), codec))
      && (run.outcome.Ok? ==> Unlisted(run.dir.checkpoint, base.files))
      && Grown(base.files, run.dir.files)
  {
    var start, all := Start(dir, request), Delivered(events);
    var s := Steps(start, request, all, codec);
    RunGrows(dir, request, events, codec);
    StepsStayApart(start, base, saved, request, all, codec);
    StepsComeToFirst(dir, request, all, codec);
    EndingSettles(s, base, saved, request, FirstChunk(request, all, codec), all, Broken in events, codec);
  }

  lemma {:induction false} LaterRunsSettle(dir: DirState, base: DirState, request: Request, network: Network,
                                           limit: Option<u64>, total: u64, retries: nat, maxRetries: nat, codec: Codec)
    requires retries <= maxRetries && request.chunkLimit >= 1 && AllNew(request.previousChunks, base.files)
    requires Unlisted(dir.checkpoint, base.files) && Grown(base.files, dir.files)
    ensures
      var recording := RecordFrom(dir, request, network, limit, total, retries, maxRetries, codec);
      Unlisted(recording.dir.checkpoint, base.files) || IsFlushError(ErrorOf(recording.r))
    decreases maxRetries - retries
  {
    var events := network(retries, request.startVersion);
    var run := RunOf(dir, request, events, codec);
    RunSettles(dir, base, true, request, events, codec);
    var next := RecordingGoesOn(dir, request, network, limit, total, retries, maxRetries, codec);
    if next.Some? {
      LaterRunsSettle(run.dir, base, next.value.0, network, limit, next.value.1, retries + 1, maxRetries, codec);
    }
  }

  /** A recording that started without a list of the chunks that are there does not list them when it ends. */
  lemma RecordingSettles(dir: DirState, request: Request, network: Network, limit: Option<u64>, total: u64,
                         retries: nat, maxRetries: nat, codec: Codec)
    requires retries <= maxRetries && request.chunkLimit >= 1 && request.previousChunks == []
    ensures
      var first := FirstChunk(request, Delivered(network(retries, request.startVersion)), codec);
      var recording := RecordFrom(dir, request, network, limit, total, retries, maxRetries, codec);
      Settled(recording.dir, ErrorOf(recording.r), dir, false, request, first)
  {
    var events := network(retries, request.startVersion);
    var run := RunOf(dir, request, events, codec);
    RunSettles(dir, dir, false, request, events, codec);
    var next := RecordingGoesOn(dir, request, network, limit, total, retries, maxRetries, codec);
    if next.Some? {
      LaterRunsSettle(run.dir, dir, next.value.0, network, limit, next.value.1, retries + 1, maxRetries, codec);
    }
  }

  // Neither is such a directory complete.

  /** No chunk reaches the largest version. */
  ghost predicate EndsEarly(files: map<Bytes, Bytes>) {
    forall first: u64 :: ChunkName(first, U64_MAX) !in files
  }

  lemma UnlistedIsNotKept(after: DirState, files: map<Bytes, Bytes>, name: Bytes, codec: Codec)
    requires Unlisted(after.checkpoint, files) && Grown(files, after.files) && name in files && EndsEarly(after.files)
    ensures !IsKept(after, codec)
  {
    forall chunks, held, origin: nat, width: nat
      ensures !Kept(after, chunks, held, origin, width, codec)
    {
      if Kept(after, chunks, held, origin, width, codec) {
        assert name in Paths(chunks);
        if origin + |held| > U64_MAX {
          var c := ReachesTheEnd(chunks, origin, origin + |held|, width);
        }
      }
    }
  }

  lemma {:induction false} SomeChunkCovers(chunks: seq<ChunkEntry>, origin: nat, next: nat, limit: nat, version: nat)
    returns (c: ChunkEntry)
    requires Partition(chunks, origin, next, limit) && origin <= version < next
    ensures c in chunks && c.first <= version <= c.last
  {
    c := chunks[|chunks| - 1];
    if version < c.first {
      c := SomeChunkCovers(chunks[..|chunks| - 1], origin, c.first, limit, version);
    }
  }

  lemma CoveredOnce(chunks: seq<ChunkEntry>, c: ChunkEntry, d: ChunkEntry, origin: nat, next: nat, limit: nat,
                    version: nat)
    requires Partition(chunks, origin, next, limit) && c in chunks && d in chunks
    requires c.first <= version <= c.last && d.first <= version <= d.last
    ensures c == d
  {
    PartitionOrdered(chunks, origin, next, limit);
    var i :| 0 <= i < |chunks| && chunks[i] == c;
    var j :| 0 <= j < |chunks| && chunks[j] == d;
  }

  /** The chunk that a name in a partition stands for. */
  lemma NamedChunk(chunks: seq<ChunkEntry>, origin: nat, next: nat, limit: nat, first: u64, last: u64)
    returns (c: ChunkEntry)
    requires Partition(chunks, origin, next, limit) && ChunkName(first, last) in Paths(chunks)
    ensures c in chunks && c.first == first && c.last == last && c.path == ChunkName(first, last)
  {
    PartitionBounds(chunks, origin, next, limit);
    c :| c in chunks && c.path == ChunkName(first, last);
    NamesInjective(c.first, c.last, first, last);
  }

  lemma SameChunk(chunks: seq<ChunkEntry>, origin: nat, next: nat, limit: nat, first: u64, last: u64, a: u64, b: u64)
    requires Partition(chunks, origin, next, limit) && first <= a <= last && a <= b
    requires ChunkName(first, last) in Paths(chunks) && ChunkName(a, b) in Paths(chunks)
    ensures ChunkName(first, last) == ChunkName(a, b)
  {
    var c := NamedChunk(chunks, origin, next, limit, first, last);
    var d := NamedChunk(chunks, origin, next, limit, a, b);
    CoveredOnce(chunks, c, d, origin, next, limit, a);
  }

  /** A chunk of a new name within the versions that are held overlaps one that is there. */
  lemma AddedWithinIsNotKept(dir: DirState, after: DirState, chunks: seq<ChunkEntry>, held: seq<Transaction>,
                             origin: nat, width: nat, first: u64, last: u64, codec: Codec)
    requires Kept(dir, chunks, held, origin, width, codec) && origin <= first <= last < origin + |held|
    requires ChunkName(first, last) !in dir.files && after.files.Keys == dir.files.Keys + {ChunkName(first, last)}
    ensures !IsKept(after, codec)
  {
    var c := SomeChunkCovers(chunks, origin, origin + |held|, width, first);
    PartitionBounds(chunks, origin, origin + |held|, width);
    var name := ChunkName(c.first, c.last);
    assert c.path == name && c.path in Paths(chunks);
    assert name in dir.files;
    forall more, txs, start: nat, limit: nat
      ensures !Kept(after, more, txs, start, limit, codec)
    {
      if Kept(after, more, txs, start, limit, codec) {
        SameChunk(more, start, start + |txs|, limit, c.first, c.last, first, last);
      }
    }
  }

  lemma ObstructedIsNotKept(dir: DirState, after: DirState, request: Request, first: seq<Transaction>,
                            chunks: seq<ChunkEntry>, held: seq<Transaction>, origin: nat, width: nat, codec: Codec)
    requires Obstructed(after, dir, request, first) && Kept(dir, chunks, held, origin, width, codec)
    requires Consecutive(first, request.startVersion)
    ensures !IsKept(after, codec)
  {
    var last := EntryFor(first).last;
    SegmentEnds(first, request.startVersion);
    assert KeyFileSound((request.startVersion, last), dir.keyFiles[(request.startVersion, last)], origin,
                        origin + |held|);
    AddedWithinIsNotKept(dir, after, chunks, held, origin, width, request.startVersion, last, codec);
  }

  lemma AfreshIsNotKept(dir: DirState, after: DirState, request: Request, error: Option<RecordError>,
                        first: seq<Transaction>, chunks: seq<ChunkEntry>, held: seq<Transaction>, origin: nat,
                        width: nat, codec: Codec)
    requires Kept(dir, chunks, held, origin, width, codec) && held != [] && Consecutive(first, request.startVersion)
    requires Settled(after, error, dir, false, request, first) && !IsFlushError(error)
    requires Grown(dir.files, after.files) && EndsEarly(after.files)
    ensures IsKept(after, codec) <==> after == dir
  {
    if after != dir {
      if Unlisted(after.checkpoint, dir.files) {
        assert chunks[0].path in Paths(chunks);
        UnlistedIsNotKept(after, dir.files, chunks[0].path, codec);
      } else {
        ObstructedIsNotKept(dir, after, request, first, chunks, held, origin, width, codec);
      }
    }
  }

  /** An honest recorder that starts afresh in a directory which holds something leaves it as good as ever if and only
      if it leaves it exactly as it was, short of the largest version. */
  lemma AfreshKeptIff(dir: DirState, inv: Invocation, loaded: LoadedState, ledger: nat -> Transaction,
                      chunks: seq<ChunkEntry>, held: seq<Transaction>, origin: nat, codec: Codec)
    requires !inv.resume && Honest(inv.network, ledger) && Resolve(inv, loaded).Ok?
    requires Kept(dir, chunks, held, origin, U64_MAX, codec) && held != []
    ensures
      var recording := RecordFrom(dir, Resolve(inv, loaded).value, inv.network, inv.maxRawBytes, 0, 0, inv.maxRetries,
                                  codec);
      !IsFlushError(ErrorOf(recording.r)) && EndsEarly(recording.dir.files) ==>
        (IsKept(recording.dir, codec) <==> recording.dir == dir)
  {
    var request := Resolve(inv, loaded).value;
    var all := Delivered(inv.network(0, request.startVersion));
    var first := FirstChunk(request, all, codec);
    var recording := RecordFrom(dir, request, inv.network, inv.maxRawBytes, 0, 0, inv.maxRetries, codec);
    RecordingSettles(dir, request, inv.network, inv.maxRawBytes, 0, 0, inv.maxRetries, codec);
    RecordingGrows(dir, request, inv.network, inv.maxRawBytes, 0, 0, inv.maxRetries, codec);
    FirstChunkIsPrefix(request, all, codec);
    PrefixOfLedger(first, all, request.startVersion, ledger);
    if !IsFlushError(ErrorOf(recording.r)) && EndsEarly(recording.dir.files) {
      AfreshIsNotKept(dir, recording.dir, request, ErrorOf(recording.r), first, chunks, held, origin, U64_MAX, codec);
    }
  }

  // If it crashes.

  lemma InterruptedStaysApart(dir: DirState, request: Request, txs: seq<Transaction>, point: CrashPoint, codec: Codec)
    requires request.previousChunks == []
    ensures Apart(InterruptedAt(dir, request, txs, point, codec), dir, false)
  {
    StepsStayApart(Start(dir, request), dir, false, request, txs, codec);
    if txs != [] {
      StepsStayApart(Start(dir, request), dir, false, request, txs[..|txs| - 1], codec);
    }
  }

  lemma RenamingKeepsCheckpoint(dir: DirState, request: Request, txs: seq<Transaction>, point: CrashPoint, codec: Codec)
    ensures CrashOf(dir, request, txs, point, codec).checkpoint ==
            InterruptedAt(dir, request, txs, point, codec).dir.checkpoint
  {
  }

  /** A checkpoint that stands does not list a file of a new name. */
  lemma StandingIsNotKept(dir: DirState, after: DirState, name: Bytes, chunks: seq<ChunkEntry>, held: seq<Transaction>,
                          origin: nat, width: nat, codec: Codec)
    requires Kept(dir, chunks, held, origin, width, codec) && held != [] && dir.checkpoint.Some?
    requires after.checkpoint == dir.checkpoint && Grown(dir.files, after.files) && EndsEarly(after.files)
    requires name in after.files && name !in dir.files
    ensures !IsKept(after, codec)
  {
    assert chunks[0].path in Paths(chunks);
    if origin + |held| > U64_MAX {
      var c := ReachesTheEnd(chunks, origin, origin + |held|, width);
      assert false;
    }
    forall more, txs, start: nat, limit: nat
      ensures !Kept(after, more, txs, start, limit, codec)
    {
      if Kept(after, more, txs, start, limit, codec) && start + |txs| > U64_MAX {
        assert name in Paths(more);
        var c := ReachesTheEnd(more, start, start + |txs|, limit);
      }
    }
  }

  /** The same if it crashes, at whatever point, while a checkpoint stands. */
  lemma AfreshCrashKeptIff(dir: DirState, request: Request, txs: seq<Transaction>, point: CrashPoint,
                           chunks: seq<ChunkEntry>, held: seq<Transaction>, origin: nat, width: nat, codec: Codec)
    requires Kept(dir, chunks, held, origin, width, codec) && held != [] && dir.checkpoint.Some?
    requires request.previousChunks == [] && request.chunkLimit >= 1
    ensures
      var s, after := InterruptedAt(dir, request, txs, point, codec), CrashOf(dir, request, txs, point, codec);
      !IsFlushError(s.error) && EndsEarly(after.files) ==> (IsKept(after, codec) <==> after == dir)
  {
    var s, after := InterruptedAt(dir, request, txs, point, codec), CrashOf(dir, request, txs, point, codec);
    if !IsFlushError(s.error) && EndsEarly(after.files) && after != dir {
      var first := CrashDecides(dir, request, txs, point, codec);
      CrashGrows(dir, request, txs, point, codec);
      InterruptedStaysApart(dir, request, txs, point, codec);
      RenamingKeepsCheckpoint(dir, request, txs, point, codec);
      if Unlisted(s.dir.checkpoint, dir.files) {
        assert chunks[0].path in Paths(chunks);
        UnlistedIsNotKept(after, dir.files, chunks[0].path, codec);
      } else {
        StandingIsNotKept(dir, after, EntryFor(first).path, chunks, held, origin, width, codec);
      }
    }
  }
}
