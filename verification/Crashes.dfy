/** A recorder that crashes: what it leaves, when that is as good as ever, and when it outdates the checkpoint. */
module Crashes {
  import opened Prelude
  import opened Framing
  import opened ChunkNames
  import opened RawChunks
  import opened RecordedDir
  import opened Recorder
  import opened RecorderSafety

  /** Where a run can crash: before the open chunk is renamed, after the rename, after the checkpoint, and, once the
      stream is over, after the key file. */
  datatype CrashPoint = WhileWriting | AfterRename | AfterCheckpoint | AfterKeyFile

  /** A run that has taken `txs` and written the last of them, but has not completed a chunk for it yet. */
  function TakenSoFar(start: Session, request: Request, txs: seq<Transaction>, codec: Codec): Session {
    if txs == [] then start
    else
      var before := Steps(start, request, txs[..|txs| - 1], codec);
      if Stopped(before, request) then before else Add(before, txs[|txs| - 1], codec)
  }

  /** The run as it stands before what the crash interrupts. */
  function InterruptedAt(dir: DirState, request: Request, txs: seq<Transaction>, point: CrashPoint, codec: Codec)
    : Session
  {
    if point.WhileWriting? || point.AfterRename? then TakenSoFar(Start(dir, request), request, txs, codec)
    else Steps(Start(dir, request), request, txs, codec)
  }

  predicate Renames(point: CrashPoint) {
    point.AfterRename? || point.AfterKeyFile?
  }

  /** The chunk is renamed, and the key file perhaps. */
  function Renamed(s: Session, request: Request, point: CrashPoint, codec: Codec): DirState {
    if point.AfterRename? || s.run.last.None? then Finish(s, codec).dir else KeepKeys(Finish(s, codec), request).dir
  }

  function CrashOf(dir: DirState, request: Request, txs: seq<Transaction>, point: CrashPoint, codec: Codec): DirState {
    var s := InterruptedAt(dir, request, txs, point, codec);
    if s.error.Some? || !Renames(point) then s.dir else Renamed(s, request, point, codec)
  }

  /** A rename that is not followed by its checkpoint leaves an older checkpoint out of date. Once the largest
      version is recorded there is no checkpoint to follow. */
  predicate OutdatesCheckpoint(dir: DirState, request: Request, txs: seq<Transaction>, point: CrashPoint,
                               codec: Codec) {
    var s := InterruptedAt(dir, request, txs, point, codec);
    Renames(point) && s.error.None? && RenameOutdates(s)
  }

  predicate RenameOutdates(s: Session) {
    s.open != [] && s.dir.checkpoint.Some? && s.run.last != Some(U64_MAX)
  }

  /** A run about to start behind a recorded range. */
  ghost predicate Begins(dir: DirState, request: Request, log: seq<Transaction>, origin: nat, width: nat,
                         codec: Codec) {
    && 1 <= request.chunkLimit <= width && origin + |log| == request.startVersion
    && Stored(dir, request.previousChunks, log, origin, width, codec)
    && KeyFilesSound(dir.keyFiles, origin, request.startVersion)
  }

  // The crashes that leave the directory as good as ever.

  /** Nothing lost but the open chunk. */
  lemma SoundIsKept(s: Session, request: Request, log: seq<Transaction>, held: seq<Transaction>,
                    written: seq<Transaction>, origin: nat, width: nat, codec: Codec)
    requires Sound(s, request, log, held, written, origin, width, codec)
    ensures Kept(s.dir, s.run.chunks, held, origin, width, codec)
  {
    KeyFilesStaySound(s.dir.keyFiles, origin, origin + |log|, origin + |held|);
  }

  /** What is written, whether or not its chunk is complete: the facts a crash leaves behind. */
  ghost predicate Written(s: Session, log: seq<Transaction>, held: seq<Transaction>, written: seq<Transaction>,
                          origin: nat, width: nat, codec: Codec)
  {
    && s.error.None? && log <= held && log + written == held + s.open && |s.open| <= width
    && Consecutive(log + written, origin)
    && Stored(s.dir, s.run.chunks, held, origin, width, codec)
    && Counted(s.run, written, codec) && Listed(s.versions, origin + |log|, |written|)
    && KeyFilesSound(s.dir.keyFiles, origin, origin + |log|)
  }

  lemma LastWritten(s: Session, log: seq<Transaction>, held: seq<Transaction>, written: seq<Transaction>, origin: nat,
                    width: nat, codec: Codec)
    requires Written(s, log, held, written, origin, width, codec) && (written != [] || s.open != [])
    ensures s.run.last.Some? && s.run.last.value as int + 1 == origin + |log + written|
  {
    ConsecutiveEnd(log, written, origin);
  }

  /** The same once the chunk is complete. */
  ghost predicate Completed(s: Session, log: seq<Transaction>, written: seq<Transaction>, origin: nat, width: nat,
                            codec: Codec)
  {
    && s.error.None? && Kept(s.dir, s.run.chunks, log + written, origin, width, codec)
    && (s.run.last.Some? <==> written != []) && (written != [] ==> s.run.last.value + 1 == origin + |log + written|)
    && Listed(s.versions, origin + |log|, |written|) && KeyFilesSound(s.dir.keyFiles, origin, origin + |log|)
  }

  lemma RenamedIsKept(s: Session, log: seq<Transaction>, held: seq<Transaction>, written: seq<Transaction>, origin: nat,
                      width: nat, codec: Codec)
    requires Written(s, log, held, written, origin, width, codec) && !RenameOutdates(s)
    ensures Completed(Finish(s, codec), log, written, origin, width, codec)
  {
    var all := log + written;
    ConsecutiveEnd(held, s.open, origin);
    FinishStores(s, held, origin, width, codec);
    HistoryExtends(s.dir.history, held, s.open, origin, width, codec);
    KeyFilesStaySound(s.dir.keyFiles, origin, origin + |log|, origin + |all|);
    if s.open == [] {
      assert held + s.open == held;
    }
    if written != [] {
      LastWritten(s, log, held, written, origin, width, codec);
    }
  }

  lemma KeyFileIsKept(s: Session, request: Request, log: seq<Transaction>, written: seq<Transaction>, origin: nat,
                      width: nat, codec: Codec)
    requires Completed(s, log, written, origin, width, codec)
    requires written != [] && request.startVersion == origin + |log|
    ensures Kept(KeepKeys(s, request).dir, s.run.chunks, log + written, origin, width, codec)
  {
    KeysAreKept(s, request, origin, origin + |log + written|);
  }

  /** What a run had written when it was interrupted. */
  ghost predicate Leaves(s: Session, log: seq<Transaction>, held: seq<Transaction>, written: seq<Transaction>,
                         origin: nat, width: nat, codec: Codec)
  {
    && log <= held && held <= log + written
    && Kept(s.dir, s.run.chunks, held, origin, width, codec)
    && (s.error.None? ==> Written(s, log, held, written, origin, width, codec))
  }

  lemma StepsLeave(start: Session, request: Request, txs: seq<Transaction>, log: seq<Transaction>, origin: nat,
                   width: nat, codec: Codec)
    returns (held: seq<Transaction>, written: seq<Transaction>)
    requires Sound(start, request, log, log, [], origin, width, codec)
    requires Consecutive(txs, origin + |log|)
    ensures written <= txs && Leaves(Steps(start, request, txs, codec), log, held, written, origin, width, codec)
    ensures
      var after := Steps(start, request, txs, codec);
      !Stopped(after, request) ==> written == txs && Sound(after, request, log, held, written, origin, width, codec)
  {
    held, written := StepsKeepSound(start, request, txs, log, origin, width, codec);
    var after := Steps(start, request, txs, codec);
    if after.error.None? {
      SoundIsKept(after, request, log, held, written, origin, width, codec);
    }
  }

  lemma TakenLeaves(start: Session, request: Request, txs: seq<Transaction>, log: seq<Transaction>, origin: nat,
                    width: nat, codec: Codec)
    returns (held: seq<Transaction>, written: seq<Transaction>)
    requires Sound(start, request, log, log, [], origin, width, codec) && start.open == []
    requires Consecutive(txs, origin + |log|)
    ensures written <= txs && Leaves(TakenSoFar(start, request, txs, codec), log, held, written, origin, width, codec)
  {
    if txs == [] {
      held, written := StepsLeave(start, request, txs, log, origin, width, codec);
    } else {
      var init, tx := txs[..|txs| - 1], txs[|txs| - 1];
      NextVersion(log, init, txs, origin);
      held, written := StepsLeave(start, request, init, log, origin, width, codec);
      var before := Steps(start, request, init, codec);
      if !Stopped(before, request) {
        AddKeepsSound(before, request, tx, log, held, written, origin, width, codec);
        written := txs;
      }
    }
  }

  lemma InterruptedLeaves(dir: DirState, request: Request, txs: seq<Transaction>, point: CrashPoint,
                          log: seq<Transaction>, origin: nat, width: nat, codec: Codec)
    returns (held: seq<Transaction>, written: seq<Transaction>)
    requires Begins(dir, request, log, origin, width, codec) && Consecutive(txs, request.startVersion)
    ensures written <= txs
    ensures Leaves(InterruptedAt(dir, request, txs, point, codec), log, held, written, origin, width, codec)
  {
    StartIsSound(dir, request, log, origin, width, codec);
    if point.WhileWriting? || point.AfterRename? {
      held, written := TakenLeaves(Start(dir, request), request, txs, log, origin, width, codec);
    } else {
      held, written := StepsLeave(Start(dir, request), request, txs, log, origin, width, codec);
    }
  }

  lemma RenamedAtIsKept(s: Session, request: Request, point: CrashPoint, log: seq<Transaction>, held: seq<Transaction>,
                        written: seq<Transaction>, origin: nat, width: nat, codec: Codec)
    requires Written(s, log, held, written, origin, width, codec) && !RenameOutdates(s)
    requires request.startVersion == origin + |log|
    ensures Kept(Renamed(s, request, point, codec), Finish(s, codec).run.chunks, log + written, origin, width, codec)
  {
    RenamedIsKept(s, log, held, written, origin, width, codec);
    if !point.AfterRename? && s.run.last.Some? {
      KeyFileIsKept(Finish(s, codec), request, log, written, origin, width, codec);
    }
  }

  /** A crash that does not outdate a checkpoint leaves a longer recorded range. */
  lemma CrashIsKept(dir: DirState, request: Request, txs: seq<Transaction>, point: CrashPoint, log: seq<Transaction>,
                    origin: nat, width: nat, codec: Codec)
    returns (chunks: seq<ChunkEntry>, held: seq<Transaction>)
    requires Begins(dir, request, log, origin, width, codec) && Consecutive(txs, request.startVersion)
    requires !OutdatesCheckpoint(dir, request, txs, point, codec)
    ensures log <= held && held <= log + txs
    ensures Kept(CrashOf(dir, request, txs, point, codec), chunks, held, origin, width, codec)
  {
    var s := InterruptedAt(dir, request, txs, point, codec);
    var written;
    held, written := InterruptedLeaves(dir, request, txs, point, log, origin, width, codec);
    chunks := s.run.chunks;
    if Renames(point) && s.error.None? {
      chunks := Finish(s, codec).run.chunks;
      RenamedAtIsKept(s, request, point, log, held, written, origin, width, codec);
      held := log + written;
    }
    assert held <= log + txs;
  }

  // The crash that does not: a rename without its checkpoint, while an older checkpoint stands.

  ghost predicate IsKept(dir: DirState, codec: Codec) {
    exists chunks, held, origin, width :: Kept(dir, chunks, held, origin, width, codec)
  }

  /** Chunks that reach the largest version have a file that is named after it. */
  lemma ReachesTheEnd(chunks: seq<ChunkEntry>, origin: nat, next: nat, limit: nat)
    returns (c: ChunkEntry)
    requires Partition(chunks, origin, next, limit) && chunks != [] && next > U64_MAX
    ensures c.last == U64_MAX && c.path == ChunkName(c.first, c.last) && c.path in Paths(chunks)
  {
    c := chunks[|chunks| - 1];
  }

  lemma EndIsNotNamed(chunks: seq<ChunkEntry>, origin: nat, next: nat, limit: nat, first: u64)
    requires Partition(chunks, origin, next, limit) && next <= U64_MAX
    ensures ChunkName(first, U64_MAX) !in Paths(chunks)
  {
    PartitionBounds(chunks, origin, next, limit);
    forall c | c in chunks
      ensures c.path != ChunkName(first, U64_MAX)
    {
      if c.path == ChunkName(first, U64_MAX) {
        NamesInjective(c.first, c.last, first, U64_MAX);
      }
    }
  }

  /** Neither can the chunks that the checkpoint lists be all the files, nor can others that reach the end. */
  lemma ExtraFileIsNotKept(after: DirState, listed: seq<ChunkEntry>, origin: nat, next: nat, width: nat,
                           chunks: seq<ChunkEntry>, held: seq<Transaction>, start: nat, limit: nat, codec: Codec)
    requires Partition(listed, origin, next, width) && next <= U64_MAX && after.files.Keys == Paths(listed)
    requires after.checkpoint.Some? && listed != []
    requires after.files.Keys != Paths(after.checkpoint.value.chunks)
    ensures !Kept(after, chunks, held, start, limit, codec)
  {
    if Kept(after, chunks, held, start, limit, codec) && start + |held| > U64_MAX {
      assert listed[0].path in Paths(listed);
      var c := ReachesTheEnd(chunks, start, start + |held|, limit);
      EndIsNotNamed(listed, origin, next, width, c.first);
    }
  }

  lemma FinishAdds(s: Session, held: seq<Transaction>, origin: nat, width: nat, codec: Codec)
    requires Recorded(s.dir.files, s.run.chunks, held, origin, width, codec) && |s.open| <= width
    requires s.open != [] && Consecutive(s.open, origin + |held|)
    ensures
      var after := Finish(s, codec);
      && after.dir == s.dir.(files := after.dir.files)
      && Partition(after.run.chunks, origin, origin + |held + s.open|, width) && EntryFor(s.open) in after.run.chunks
      && after.dir.files.Keys == Paths(after.run.chunks)
      && EntryFor(s.open).path in after.dir.files && EntryFor(s.open).path !in s.dir.files
  {
    AppendChunk(s.dir.files, s.run.chunks, held, s.open, origin, width, codec);
  }

  /** The checkpoint lists one chunk too few. */
  lemma RenameAddsFile(s: Session, log: seq<Transaction>, held: seq<Transaction>, written: seq<Transaction>,
                       origin: nat, width: nat, codec: Codec)
    requires Written(s, log, held, written, origin, width, codec) && RenameOutdates(s)
    ensures
      var after := Finish(s, codec);
      && Partition(after.run.chunks, origin, origin + |log + written|, width) && origin + |log + written| <= U64_MAX
      && EntryFor(s.open) in after.run.chunks && after.dir == s.dir.(files := after.dir.files)
      && after.dir.files.Keys == Paths(after.run.chunks)
      && after.dir.files.Keys != Paths(s.dir.checkpoint.value.chunks)
  {
    ConsecutiveEnd(held, s.open, origin);
    LastWritten(s, log, held, written, origin, width, codec);
    FinishAdds(s, held, origin, width, codec);
  }

  lemma OutdatedIsNotKept(s: Session, request: Request, point: CrashPoint, log: seq<Transaction>,
                          held: seq<Transaction>, written: seq<Transaction>, origin: nat, width: nat, codec: Codec)
    requires Written(s, log, held, written, origin, width, codec) && RenameOutdates(s)
    ensures !IsKept(Renamed(s, request, point, codec), codec)
  {
    RenameAddsFile(s, log, held, written, origin, width, codec);
    var after := Renamed(s, request, point, codec);
    forall chunks, txs, start, limit
      ensures !Kept(after, chunks, txs, start, limit, codec)
    {
      ExtraFileIsNotKept(after, Finish(s, codec).run.chunks, origin, origin + |log + written|, width, chunks, txs,
        start, limit, codec);
    }
  }

  /** A crash leaves the directory as good as ever if and only if it does not outdate its checkpoint. */
  lemma CrashKeptIff(dir: DirState, request: Request, txs: seq<Transaction>, point: CrashPoint, log: seq<Transaction>,
                     origin: nat, width: nat, codec: Codec)
    requires Begins(dir, request, log, origin, width, codec) && Consecutive(txs, request.startVersion)
    ensures IsKept(CrashOf(dir, request, txs, point, codec), codec) <==>
            !OutdatesCheckpoint(dir, request, txs, point, codec)
  {
    if OutdatesCheckpoint(dir, request, txs, point, codec) {
      var s := InterruptedAt(dir, request, txs, point, codec);
      var held, written := InterruptedLeaves(dir, request, txs, point, log, origin, width, codec);
      OutdatedIsNotKept(s, request, point, log, held, written, origin, width, codec);
    } else {
      var chunks, held := CrashIsKept(dir, request, txs, point, log, origin, width, codec);
    }
  }

  function Bare(dir: DirState): DirState {
    dir.(checkpoint := None)
  }

  lemma BareFinish(s: Session, codec: Codec)
    ensures
      var bare := Finish(s.(dir := Bare(s.dir)), codec);
      bare == Finish(s, codec).(dir := Bare(Finish(s, codec).dir))
  {
  }

  lemma BareKeys(s: Session, request: Request)
    requires s.run.last.Some?
    ensures KeepKeys(s.(dir := Bare(s.dir)), request).dir == Bare(KeepKeys(s, request).dir)
  {
  }

  lemma BareRename(s: Session, request: Request, point: CrashPoint, codec: Codec)
    ensures Renamed(s.(dir := Bare(s.dir)), request, point, codec) == Bare(Renamed(s, request, point, codec))
  {
    BareFinish(s, codec);
    if s.run.last.Some? {
      BareKeys(Finish(s, codec), request);
    }
  }

  lemma BareIsKept(s: Session, request: Request, point: CrashPoint, log: seq<Transaction>, held: seq<Transaction>,
                   written: seq<Transaction>, origin: nat, width: nat, codec: Codec)
    requires Written(s, log, held, written, origin, width, codec) && request.startVersion == origin + |log|
    ensures Kept(Bare(Renamed(s, request, point, codec)), Finish(s, codec).run.chunks, log + written, origin, width,
                 codec)
  {
    BareFinish(s, codec);
    BareRename(s, request, point, codec);
    var bare := s.(dir := Bare(s.dir));
    assert Written(bare, log, held, written, origin, width, codec);
    RenamedAtIsKept(bare, request, point, log, held, written, origin, width, codec);
  }

  /** The files themselves are as good as ever after any crash: without the checkpoint, the directory is kept. */
  lemma OutdatedCheckpointLosesNothing(dir: DirState, request: Request, txs: seq<Transaction>, point: CrashPoint,
                                       log: seq<Transaction>, origin: nat, width: nat, codec: Codec)
    returns (chunks: seq<ChunkEntry>, held: seq<Transaction>)
    requires Begins(dir, request, log, origin, width, codec) && Consecutive(txs, request.startVersion)
    ensures log <= held && held <= log + txs
    ensures Kept(Bare(CrashOf(dir, request, txs, point, codec)), chunks, held, origin, width, codec)
  {
    if OutdatesCheckpoint(dir, request, txs, point, codec) {
      var s := InterruptedAt(dir, request, txs, point, codec);
      var written;
      held, written := InterruptedLeaves(dir, request, txs, point, log, origin, width, codec);
      BareIsKept(s, request, point, log, held, written, origin, width, codec);
      chunks, held := Finish(s, codec).run.chunks, log + written;
      assert held <= log + txs;
    } else {
      chunks, held := CrashIsKept(dir, request, txs, point, log, origin, width, codec);
    }
  }
}
