/** The first chunk a run completes decides what it can do to a directory that already holds files: nothing is ever
    overwritten, and a run that does not complete a chunk of a new name changes nothing at all. */
module FirstChunks {
  import opened Prelude
  import opened Framing
  import opened ChunkNames
  import opened RawChunks
  import opened RecordedDir
  import opened Recorder
  import opened RecorderSafety
  import opened Retries
  import opened Crashes

  /** Every file of `files` is still there, as it was. */
  ghost predicate Grown(files: map<Bytes, Bytes>, more: map<Bytes, Bytes>) {
    forall name :: name in files ==> name in more && more[name] == files[name]
  }

  /** What is written before the first chunk is complete: up to the chunk size or the byte limit, as far as the
      stream gets. */
  function FirstChunk(request: Request, txs: seq<Transaction>, codec: Codec): seq<Transaction> {
    if txs == [] then []
    else
      var init := txs[..|txs| - 1];
      var before := FirstChunk(request, init, codec);
      if before == init && |before| < request.chunkLimit && !AtLimit(request, |Frames(before, codec)|) then txs
      else before
  }

  lemma {:induction false} FirstChunkIsPrefix(request: Request, txs: seq<Transaction>, codec: Codec)
    ensures FirstChunk(request, txs, codec) <= txs
  {
    if txs != [] {
      FirstChunkIsPrefix(request, txs[..|txs| - 1], codec);
    }
  }

  // One step after another.

  lemma FinishGrows(s: Session, codec: Codec)
    ensures Grown(s.dir.files, Finish(s, codec).dir.files)
  {
  }

  lemma StepGrows(s: Session, request: Request, tx: Transaction, codec: Codec)
    ensures Grown(s.dir.files, Step(s, request, tx, codec).dir.files)
  {
    FinishGrows(Add(s, tx, codec), codec);
  }

  lemma {:induction false} StepsGrow(s: Session, request: Request, txs: seq<Transaction>, codec: Codec)
    ensures Grown(s.dir.files, Steps(s, request, txs, codec).dir.files)
  {
    if txs != [] {
      StepsGrow(s, request, txs[..|txs| - 1], codec);
      StepGrows(Steps(s, request, txs[..|txs| - 1], codec), request, txs[|txs| - 1], codec);
    }
  }

  lemma CloseGrows(s: Session, request: Request, status: Status, stopped: bool, codec: Codec)
    requires s.run.last.Some?
    ensures Grown(s.dir.files, Close(s, request, status, stopped, codec).dir.files)
  {
    FinishGrows(s, codec);
  }

  lemma EndingGrows(s: Session, request: Request, delivered: seq<Transaction>, broken: bool, codec: Codec)
    ensures Grown(s.dir.files, Ending(s, request, delivered, broken, codec).dir.files)
  {
    if s.run.last.Some? {
      CloseGrows(s, request, Partial, false, codec);
      CloseGrows(s, request, Complete, AtLimit(request, s.run.raw) && delivered != [], codec);
    }
  }

  /** A run never loses or overwrites a file, whatever its stream delivers. */
  lemma RunGrows(dir: DirState, request: Request, events: seq<StreamEvent>, codec: Codec)
    ensures Grown(dir.files, RunOf(dir, request, events, codec).dir.files)
  {
    var s := Steps(Start(dir, request), request, Delivered(events), codec);
    StepsGrow(Start(dir, request), request, Delivered(events), codec);
    EndingGrows(s, request, Delivered(events), Broken in events, codec);
  }

  lemma RecordingGrows(dir: DirState, request: Request, network: Network, limit: Option<u64>, total: u64, retries: nat,
                       maxRetries: nat, codec: Codec)
    requires retries <= maxRetries
    ensures Grown(dir.files, RecordFrom(dir, request, network, limit, total, retries, maxRetries, codec).dir.files)
  {
    var keeps := (d: DirState) => Grown(dir.files, d.files);
    forall before, next: Request, n: nat
      ensures RunKeeps(keeps, before, next, network, n, codec)
    {
      if keeps(before) {
        RunGrows(before, next, network(n, next.startVersion), codec);
      }
    }
    RecordingKeeps(keeps, dir, request, network, limit, total, retries, maxRetries, codec);
  }

  lemma CrashGrows(dir: DirState, request: Request, txs: seq<Transaction>, point: CrashPoint, codec: Codec)
    ensures Grown(dir.files, CrashOf(dir, request, txs, point, codec).files)
  {
    if txs != [] {
      StepsGrow(Start(dir, request), request, txs[..|txs| - 1], codec);
    }
    StepsGrow(Start(dir, request), request, txs, codec);
    FinishGrows(InterruptedAt(dir, request, txs, point, codec), codec);
  }

  // The first chunk.

  /** A run whose first chunk is still open. */
  ghost predicate StillOpen(s: Session, dir: DirState, first: seq<Transaction>, codec: Codec) {
    && s.error.None? && s.dir == dir && s.open == first && s.run.raw == |Frames(first, codec)|
    && s.run.last == (if first == [] then None else Some(VersionAt(first, |first| - 1)))
  }

  /** How far a run has come with its first chunk: it was too large to count, is open, was refused, or is there. */
  ghost predicate ComesToFirst(s: Session, dir: DirState, request: Request, first: seq<Transaction>, codec: Codec) {
    if |Frames(first, codec)| > U64_MAX then s.error == Some(RawBytesOverflow) && s.dir == dir
    else if first == [] || |first| < request.chunkLimit then StillOpen(s, dir, first, codec)
    else if EntryFor(first).path in dir.files then s.error == Some(RefusingToOverwrite) && s.dir == dir
    else Adds(dir, s.dir, first, codec)
  }

  /** The first chunk is there, and was not before. */
  ghost predicate Adds(dir: DirState, after: DirState, first: seq<Transaction>, codec: Codec) {
    && first != [] && EntryFor(first).path !in dir.files
    && EntryFor(first).path in after.files && after.files[EntryFor(first).path] == Frames(first, codec)
  }

  lemma FramesOfMore(txs: seq<Transaction>, tx: Transaction, codec: Codec)
    ensures |Frames(txs + [tx], codec)| == |Frames(txs, codec)| + |Frame(tx, codec)|
  {
    assert (txs + [tx])[..|txs|] == txs;
  }

  /** One transaction more in the first chunk. */
  lemma AddStaysOpen(s: Session, dir: DirState, first: seq<Transaction>, tx: Transaction, codec: Codec)
    requires StillOpen(s, dir, first, codec)
    ensures
      var added := Add(s, tx, codec);
      if |Frames(first + [tx], codec)| <= U64_MAX then StillOpen(added, dir, first + [tx], codec)
      else added.error == Some(RawBytesOverflow) && added.dir == dir
  {
    FramesOfMore(first, tx, codec);
  }

  lemma OneMoreInFirst(s: Session, dir: DirState, request: Request, first: seq<Transaction>, tx: Transaction,
                       codec: Codec)
    requires StillOpen(s, dir, first, codec) && |first| < request.chunkLimit
    ensures ComesToFirst(Step(s, request, tx, codec), dir, request, first + [tx], codec)
  {
    AddStaysOpen(s, dir, first, tx, codec);
  }

  /** A first chunk that is not full ends with the stream or at the byte limit. */
  lemma {:induction false} FirstChunkEnds(request: Request, txs: seq<Transaction>, codec: Codec)
    ensures
      var first := FirstChunk(request, txs, codec);
      first == txs || |first| >= request.chunkLimit || AtLimit(request, |Frames(first, codec)|)
  {
    if txs != [] {
      FirstChunkEnds(request, txs[..|txs| - 1], codec);
    }
  }

  /** The transactions behind the first chunk do not matter to it. */
  lemma OneMoreBehindFirst(s: Session, dir: DirState, request: Request, first: seq<Transaction>, tx: Transaction,
                           codec: Codec)
    requires ComesToFirst(s, dir, request, first, codec) && request.chunkLimit >= 1
    requires |first| >= request.chunkLimit || AtLimit(request, |Frames(first, codec)|)
    ensures
      ComesToFirst(if Stopped(s, request) then s else Step(s, request, tx, codec), dir, request, first, codec)
  {
    StepGrows(s, request, tx, codec);
  }

  lemma OneMoreComesToFirst(s: Session, dir: DirState, request: Request, init: seq<Transaction>, tx: Transaction,
                            codec: Codec)
    requires ComesToFirst(s, dir, request, FirstChunk(request, init, codec), codec) && request.chunkLimit >= 1
    ensures ComesToFirst(if Stopped(s, request) then s else Step(s, request, tx, codec), dir, request,
                         FirstChunk(request, init + [tx], codec), codec)
  {
    var before := FirstChunk(request, init, codec);
    assert (init + [tx])[..|init|] == init;
    FirstChunkEnds(request, init, codec);
    if before == init && |before| < request.chunkLimit && !AtLimit(request, |Frames(before, codec)|) {
      FramesOfMore(init, tx, codec);
      if |Frames(init, codec)| <= U64_MAX {
        OneMoreInFirst(s, dir, request, init, tx, codec);
      }
    } else {
      OneMoreBehindFirst(s, dir, request, before, tx, codec);
    }
  }

  lemma {:induction false} StepsComeToFirst(dir: DirState, request: Request, txs: seq<Transaction>, codec: Codec)
    requires request.chunkLimit >= 1
    ensures ComesToFirst(Steps(Start(dir, request), request, txs, codec), dir, request,
                         FirstChunk(request, txs, codec), codec)
  {
    if txs != [] {
      var init, tx := txs[..|txs| - 1], txs[|txs| - 1];
      StepsComeToFirst(dir, request, init, codec);
      assert txs == init + [tx];
      OneMoreComesToFirst(Steps(Start(dir, request), request, init, codec), dir, request, init, tx, codec);
      StepsOne(Start(dir, request), request, init, tx, codec);
    }
  }

  // How a run ends that completes it, or does not.

  /** Whether the run gets as far as completing its first chunk. */
  predicate CompletesFirst(request: Request, first: seq<Transaction>, codec: Codec) {
    && request.startVersion <= request.endVersion && TotalCount(request.previousChunks) <= U64_MAX
    && first != [] && |Frames(first, codec)| <= U64_MAX
  }

  lemma OpenFirstCloses(s: Session, dir: DirState, request: Request, first: seq<Transaction>, status: Status,
                        stopped: bool, codec: Codec)
    requires StillOpen(s, dir, first, codec) && first != []
    ensures
      var after := Close(s, request, status, stopped, codec);
      if EntryFor(first).path in dir.files then after.error == Some(RefusingToOverwrite) && after.dir == dir
      else Adds(dir, after.dir, first, codec)
  {
    var finished := Finish(s, codec);
    assert EntryFor(first).path !in dir.files ==> Adds(dir, finished.dir, first, codec);
  }

  /** What the first chunk makes of a run. */
  ghost predicate Decides(run: RunResult, dir: DirState, first: seq<Transaction>, completes: bool, codec: Codec) {
    if completes && first != [] && EntryFor(first).path !in dir.files then Adds(dir, run.dir, first, codec)
    else run.dir == dir && run.outcome.Err? && (run.outcome.error == RefusingToOverwrite <==> completes)
  }

  lemma EndingDecides(s: Session, dir: DirState, request: Request, first: seq<Transaction>, delivered: seq<Transaction>,
                      broken: bool, codec: Codec)
    requires ComesToFirst(s, dir, request, first, codec) && request.chunkLimit >= 1
    ensures Decides(Ending(s, request, delivered, broken, codec), dir, first,
                    first != [] && |Frames(first, codec)| <= U64_MAX, codec)
  {
    EndingGrows(s, request, delivered, broken, codec);
    if |Frames(first, codec)| <= U64_MAX && 0 < |first| < request.chunkLimit {
      OpenFirstCloses(s, dir, request, first, Partial, false, codec);
      OpenFirstCloses(s, dir, request, first, Complete, AtLimit(request, s.run.raw) && delivered != [], codec);
    }
  }

  /** A run changes a directory if and only if it completes a first chunk whose name is new; it is refused and
      changes nothing if and only if it completes one whose name is taken. */
  lemma FirstChunkDecides(dir: DirState, request: Request, events: seq<StreamEvent>, codec: Codec)
    requires request.chunkLimit >= 1
    ensures
      var first := FirstChunk(request, Delivered(events), codec);
      Decides(RunOf(dir, request, events, codec), dir, first, CompletesFirst(request, first, codec), codec)
  {
    var first := FirstChunk(request, Delivered(events), codec);
    StepsComeToFirst(dir, request, Delivered(events), codec);
    EndingDecides(Steps(Start(dir, request), request, Delivered(events), codec), dir, request, first,
      Delivered(events), Broken in events, codec);
  }

  lemma AddsAndGrows(dir: DirState, after: DirState, later: DirState, first: seq<Transaction>, codec: Codec)
    requires Adds(dir, after, first, codec) && Grown(after.files, later.files)
    ensures Adds(dir, later, first, codec)
  {
  }

  /** The same holds of a recording: if its first run changes nothing, no other run follows. */
  lemma RecordingDecides(dir: DirState, request: Request, network: Network, limit: Option<u64>, total: u64,
                         retries: nat, maxRetries: nat, codec: Codec)
    requires retries <= maxRetries && request.chunkLimit >= 1
    ensures
      var first := FirstChunk(request, Delivered(network(retries, request.startVersion)), codec);
      var after := RecordFrom(dir, request, network, limit, total, retries, maxRetries, codec).dir;
      if CompletesFirst(request, first, codec) && EntryFor(first).path !in dir.files
      then Adds(dir, after, first, codec)
      else after == dir
  {
    var events := network(retries, request.startVersion);
    var run := RunOf(dir, request, events, codec);
    FirstChunkDecides(dir, request, events, codec);
    var next := RecordingGoesOn(dir, request, network, limit, total, retries, maxRetries, codec);
    var first := FirstChunk(request, Delivered(events), codec);
    if next.Some? {
      var after := RecordFrom(run.dir, next.value.0, network, limit, next.value.1, retries + 1, maxRetries, codec).dir;
      RecordingGrows(run.dir, next.value.0, network, limit, next.value.1, retries + 1, maxRetries, codec);
      AddsAndGrows(dir, run.dir, after, first, codec);
    }
  }

  /** Nothing has happened to the directory yet, and what is open is a prefix of what has been taken. */
  ghost predicate StillClean(s: Session, dir: DirState, taken: seq<Transaction>) {
    s.dir == dir && (s.error.None? ==> s.open <= taken && (s.open == [] ==> s.run.last.None?))
  }

  lemma OpenIsClean(s: Session, dir: DirState, first: seq<Transaction>, taken: seq<Transaction>, codec: Codec)
    requires StillOpen(s, dir, first, codec) && first <= taken
    ensures StillClean(s, dir, taken)
  {
  }

  lemma OneMoreTaken(s: Session, dir: DirState, init: seq<Transaction>, tx: Transaction, codec: Codec)
    requires StillOpen(s, dir, init, codec)
    ensures StillClean(Add(s, tx, codec), dir, init + [tx])
  {
  }

  lemma AddComesToFirst(s: Session, dir: DirState, request: Request, init: seq<Transaction>, tx: Transaction,
                        codec: Codec)
    requires ComesToFirst(s, dir, request, FirstChunk(request, init, codec), codec) && request.chunkLimit >= 1
    ensures
      var added := if Stopped(s, request) then s else Add(s, tx, codec);
      StillClean(added, dir, init + [tx]) || Adds(dir, added.dir, FirstChunk(request, init, codec), codec)
  {
    var first := FirstChunk(request, init, codec);
    FirstChunkEnds(request, init, codec);
    FirstChunkIsPrefix(request, init, codec);
    if StillOpen(s, dir, first, codec) {
      if Stopped(s, request) {
        OpenIsClean(s, dir, first, init + [tx], codec);
      } else if first == init {
        OneMoreTaken(s, dir, init, tx, codec);
      }
    }
  }

  /** What has been taken before a crash: the first chunk is there, or nothing has happened to the directory yet. */
  lemma TakenComesToFirst(dir: DirState, request: Request, txs: seq<Transaction>, codec: Codec)
    requires request.chunkLimit >= 1
    ensures
      var s := TakenSoFar(Start(dir, request), request, txs, codec);
      StillClean(s, dir, txs) || (txs != [] && Adds(dir, s.dir, FirstChunk(request, txs[..|txs| - 1], codec), codec))
  {
    if txs != [] {
      var init := txs[..|txs| - 1];
      StepsComeToFirst(dir, request, init, codec);
      AddComesToFirst(Steps(Start(dir, request), request, init, codec), dir, request, init, txs[|txs| - 1], codec);
      assert init + [txs[|txs| - 1]] == txs;
    }
  }

  lemma RenameDecides(s: Session, request: Request, point: CrashPoint, codec: Codec)
    requires s.error.None? && (s.open == [] ==> s.run.last.None?)
    ensures
      var after := Renamed(s, request, point, codec);
      after == s.dir || (s.open != [] && Adds(s.dir, after, s.open, codec))
  {
  }

  lemma RenamedGrows(s: Session, request: Request, point: CrashPoint, codec: Codec)
    ensures Grown(s.dir.files, Renamed(s, request, point, codec).files)
  {
    FinishGrows(s, codec);
  }

  lemma StepsAreClean(dir: DirState, request: Request, txs: seq<Transaction>, codec: Codec)
    requires request.chunkLimit >= 1
    ensures
      var s := Steps(Start(dir, request), request, txs, codec);
      StillClean(s, dir, txs) || Adds(dir, s.dir, FirstChunk(request, txs, codec), codec)
  {
    StepsComeToFirst(dir, request, txs, codec);
    FirstChunkIsPrefix(request, txs, codec);
  }

  lemma InterruptedDecides(dir: DirState, request: Request, txs: seq<Transaction>, point: CrashPoint, codec: Codec)
    returns (first: seq<Transaction>)
    requires request.chunkLimit >= 1
    ensures first <= txs
    ensures
      var s := InterruptedAt(dir, request, txs, point, codec);
      StillClean(s, dir, txs) || Adds(dir, s.dir, first, codec)
  {
    if point.WhileWriting? || point.AfterRename? {
      first := if txs == [] then [] else FirstChunk(request, txs[..|txs| - 1], codec);
      TakenComesToFirst(dir, request, txs, codec);
      if txs != [] {
        FirstChunkIsPrefix(request, txs[..|txs| - 1], codec);
      }
    } else {
      first := FirstChunk(request, txs, codec);
      StepsAreClean(dir, request, txs, codec);
      FirstChunkIsPrefix(request, txs, codec);
    }
  }

  /** A crash leaves the directory as it was, or with a first chunk of a new name. */
  lemma CrashDecides(dir: DirState, request: Request, txs: seq<Transaction>, point: CrashPoint, codec: Codec)
    returns (first: seq<Transaction>)
    requires request.chunkLimit >= 1
    ensures first <= txs
    ensures
      var after := CrashOf(dir, request, txs, point, codec);
      after == dir || Adds(dir, after, first, codec)
  {
    var s, after := InterruptedAt(dir, request, txs, point, codec), CrashOf(dir, request, txs, point, codec);
    first := InterruptedDecides(dir, request, txs, point, codec);
    RenamedGrows(s, request, point, codec);
    if Adds(dir, s.dir, first, codec) {
      AddsAndGrows(dir, s.dir, after, first, codec);
    } else if s.error.None? {
      first := s.open;
      RenameDecides(s, request, point, codec);
    }
  }

  /** With consecutive versions the first chunk is named after the start of the run. */
  lemma FirstChunkNamed(request: Request, txs: seq<Transaction>, codec: Codec)
    requires Consecutive(txs, request.startVersion) && FirstChunk(request, txs, codec) != []
    ensures
      var first := FirstChunk(request, txs, codec);
      && Consecutive(first, request.startVersion) && request.startVersion + |first| <= U64_LIMIT
      && EntryFor(first).path == ChunkName(request.startVersion, request.startVersion + |first| - 1)
  {
    var first := FirstChunk(request, txs, codec);
    FirstChunkIsPrefix(request, txs, codec);
    assert txs == first + txs[|first|..];
    ConsecutiveEnd(first, txs[|first|..], request.startVersion);
    SegmentEnds(first, request.startVersion);
  }
}
