/** What one stream run guarantees, when the stream delivers consecutive versions from the requested start. */
module RecorderSafety {
  import opened Prelude
  import opened Framing
  import opened RawChunks
  import opened RecordedDir
  import opened Recorder

  /** The directory holds `held`; its checkpoint, if there is one, says so, and every checkpoint before it was
      true. No chunk is wider than `width`. */
  ghost predicate Stored(dir: DirState, chunks: seq<ChunkEntry>, held: seq<Transaction>, origin: nat, width: nat,
                         codec: Codec) {
    && Recorded(dir.files, chunks, held, origin, width, codec)
    && SoundHistory(dir.history, held, origin, width, codec)
    && Current(dir.checkpoint, chunks, held, origin)
  }

  /** What a run keeps however it ends: only once the largest version is recorded can a chunk be missing from
      the checkpoint. */
  ghost predicate Retained(dir: DirState, chunks: seq<ChunkEntry>, held: seq<Transaction>, origin: nat, width: nat,
                           codec: Codec) {
    && Recorded(dir.files, chunks, held, origin, width, codec)
    && SoundHistory(dir.history, held, origin, width, codec)
    && (origin + |held| <= U64_MAX ==> Current(dir.checkpoint, chunks, held, origin))
  }

  /** The same, and every key file lists the versions its name spans. */
  ghost predicate Kept(dir: DirState, chunks: seq<ChunkEntry>, held: seq<Transaction>, origin: nat, width: nat,
                       codec: Codec) {
    Retained(dir, chunks, held, origin, width, codec) && KeyFilesSound(dir.keyFiles, origin, origin + |held|)
  }

  /** The counters of the run describe what it has written. */
  ghost predicate Counted(run: Run, written: seq<Transaction>, codec: Codec) {
    && run.count == |written|
    && run.last == (if written == [] then None else Some(written[|written| - 1].version))
    && run.raw == |Frames(written, codec)|
  }

  ghost predicate Listed(versions: seq<u64>, start: nat, n: nat) {
    start + n <= U64_LIMIT && versions == VersionsFrom(start, n)
  }

  /** Everything but the last transaction was written below the byte limit. */
  ghost predicate WithinBudget(written: seq<Transaction>, limit: Option<u64>, codec: Codec) {
    written != [] && limit.Some? ==> |Frames(written[..|written| - 1], codec)| < limit.value
  }

  predicate IsFlushError(error: Option<RecordError>) {
    error == Some(CountOverflow) || error == Some(CursorAtEnd)
  }

  // Completing a chunk, keeping the key file, and saving.

  lemma FinishStores(s: Session, held: seq<Transaction>, origin: nat, width: nat, codec: Codec)
    requires s.error.None? && |s.open| <= width && Consecutive(s.open, origin + |held|)
    requires Recorded(s.dir.files, s.run.chunks, held, origin, width, codec)
    ensures
      var after := Finish(s, codec);
      && after.error.None? && after.open == [] && after.versions == s.versions
      && Recorded(after.dir.files, after.run.chunks, held + s.open, origin, width, codec)
      && after.dir == s.dir.(files := after.dir.files)
      && after.run == s.run.(chunks := after.run.chunks)
  {
    if s.open == [] {
      assert held + s.open == held;
    } else {
      AppendChunk(s.dir.files, s.run.chunks, held, s.open, origin, width, codec);
    }
  }

  /** The key file of a run behind all earlier ones has a free name. */
  lemma KeysAreKept(s: Session, request: Request, origin: nat, next: nat)
    requires s.error.None? && s.run.last.Some? && s.run.last.value as int + 1 == next && request.startVersion < next
    requires KeyFilesSound(s.dir.keyFiles, origin, request.startVersion) && origin <= request.startVersion
    requires Listed(s.versions, request.startVersion, next - request.startVersion)
    ensures
      var after := KeepKeys(s, request);
      && after == s.(dir := s.dir.(keyFiles := after.dir.keyFiles))
      && KeyFilesSound(after.dir.keyFiles, origin, next)
  {
    var name := (request.startVersion, s.run.last.value);
    forall k | k in s.dir.keyFiles
      ensures k != name
    {
      assert KeyFileSound(k, s.dir.keyFiles[k], origin, request.startVersion);
    }
    var after := KeepKeys(s, request).dir.keyFiles;
    forall k | k in after
      ensures KeyFileSound(k, after[k], origin, next)
    {
      if k != name {
        assert KeyFileSound(k, s.dir.keyFiles[k], origin, request.startVersion);
      }
    }
  }

  lemma KeyFilesStaySound(keyFiles: map<KeyName, Bytes>, origin: nat, next: nat, later: nat)
    requires KeyFilesSound(keyFiles, origin, next) && next <= later
    ensures KeyFilesSound(keyFiles, origin, later)
  {
    forall k | k in keyFiles
      ensures KeyFileSound(k, keyFiles[k], origin, later)
    {
      assert KeyFileSound(k, keyFiles[k], origin, next);
    }
  }

  lemma CheckpointIsSound(files: map<Bytes, Bytes>, checkpoint: Checkpoint, all: seq<Transaction>, origin: nat,
                          width: nat, codec: Codec)
    requires all != []
    requires Recorded(files, checkpoint.chunks, all, origin, width, codec)
    requires checkpoint.lastSuccess as int + 1 == checkpoint.nextStart == origin + |all|
             && checkpoint.totalCount == |all|
    ensures SoundSnapshot(Snapshot(files, checkpoint), all, origin, width, codec)
    ensures Current(Some(checkpoint), checkpoint.chunks, all, origin)
  {
    assert all[..|all|] == all;
  }

  lemma SaveStores(s: Session, request: Request, status: Status, stopped: bool, held: seq<Transaction>,
                   more: seq<Transaction>, origin: nat, width: nat, codec: Codec)
    requires s.error.None? && s.run.last.Some? && held + more != []
    requires s.run.last.value as int + 1 == origin + |held + more|
    requires Recorded(s.dir.files, s.run.chunks, held + more, origin, width, codec)
    requires SoundHistory(s.dir.history, held, origin, width, codec)
    ensures
      var after := Save(s, request, status, stopped);
      && after.run == s.run && after.open == s.open && after.versions == s.versions
      && after.dir.files == s.dir.files && after.dir.keyFiles == s.dir.keyFiles
      && Retained(after.dir, s.run.chunks, held + more, origin, width, codec)
      && (after.error.None? <==> origin + |held + more| <= U64_MAX)
      && (after.error.None? ==> after.dir.checkpoint.Some? && after.dir.checkpoint.value.runCount == s.run.count)
      && (after.error.Some? ==> IsFlushError(after.error))
  {
    var all := held + more;
    PartitionBounds(s.run.chunks, origin, origin + |all|, width);
    HistoryExtends(s.dir.history, held, more, origin, width, codec);
    if s.run.last.value < U64_MAX {
      CheckpointIsSound(s.dir.files, CheckpointOf(request, s.run, status, stopped), all, origin, width, codec);
    }
  }

  /** Completing the open chunk and saving stores everything, unless the cursor cannot advance. */
  lemma FlushStores(s: Session, request: Request, status: Status, stopped: bool, held: seq<Transaction>, origin: nat,
                    width: nat, codec: Codec)
    requires s.error.None? && |s.open| <= width && Consecutive(held + s.open, origin) && held + s.open != []
    requires s.run.last == Some((held + s.open)[|held + s.open| - 1].version)
    requires Stored(s.dir, s.run.chunks, held, origin, width, codec)
    ensures
      var after := Flush(s, request, status, stopped, codec);
      && after.open == [] && after.run == s.run.(chunks := after.run.chunks)
      && after.versions == s.versions && after.dir.keyFiles == s.dir.keyFiles
      && (after.error.None? <==> origin + |held + s.open| <= U64_MAX)
      && (after.error.Some? ==> IsFlushError(after.error))
      && Retained(after.dir, after.run.chunks, held + s.open, origin, width, codec)
  {
    ConsecutiveEnd(held, s.open, origin);
    FinishStores(s, held, origin, width, codec);
    SaveStores(Finish(s, codec), request, status, stopped, held, s.open, origin, width, codec);
  }

  /** The same at the end of a run, whose key file is then in place too. */
  lemma CloseStores(s: Session, request: Request, status: Status, stopped: bool, held: seq<Transaction>, origin: nat,
                    width: nat, codec: Codec)
    requires s.error.None? && |s.open| <= width && Consecutive(held + s.open, origin) && held + s.open != []
    requires s.run.last == Some((held + s.open)[|held + s.open| - 1].version)
    requires Stored(s.dir, s.run.chunks, held, origin, width, codec)
    requires KeyFilesSound(s.dir.keyFiles, origin, request.startVersion)
             && origin <= request.startVersion < origin + |held + s.open|
    requires Listed(s.versions, request.startVersion, origin + |held + s.open| - request.startVersion)
    ensures
      var after := Close(s, request, status, stopped, codec);
      && after.run == s.run.(chunks := after.run.chunks)
      && (after.error.None? <==> origin + |held + s.open| <= U64_MAX)
      && (after.error.None? ==> after.dir.checkpoint.Some? && after.dir.checkpoint.value.runCount == s.run.count)
      && (after.error.Some? ==> IsFlushError(after.error))
      && Kept(after.dir, after.run.chunks, held + s.open, origin, width, codec)
  {
    ConsecutiveEnd(held, s.open, origin);
    FinishStores(s, held, origin, width, codec);
    var finished := Finish(s, codec);
    KeysAreKept(finished, request, origin, origin + |held + s.open|);
    SaveStores(KeepKeys(finished, request), request, status, stopped, held, s.open, origin, width, codec);
  }

  lemma ConsecutiveEnd(a: seq<Transaction>, b: seq<Transaction>, origin: nat)
    requires Consecutive(a + b, origin)
    ensures Consecutive(a, origin) && Consecutive(b, origin + |a|)
    ensures a + b != [] ==> (a + b)[|a + b| - 1].version == origin + |a + b| - 1
  {
    assert forall i: nat :: i < |a| ==> VersionAt(a + b, i) == VersionAt(a, i);
    assert forall i: nat :: i < |b| ==> VersionAt(a + b, |a| + i) == VersionAt(b, i);
    assert a + b != [] ==> VersionAt(a + b, |a + b| - 1) == origin + |a + b| - 1;
  }

  // Inside a run.

  /** A run that has written `written` behind `log`, of which everything but the open chunk is in `held`. */
  ghost predicate Sound(s: Session, request: Request, log: seq<Transaction>, held: seq<Transaction>,
                        written: seq<Transaction>, origin: nat, width: nat, codec: Codec) {
    && s.error.None?
    && log <= held && log + written == held + s.open && |s.open| < request.chunkLimit <= width
    && Consecutive(log + written, origin)
    && Stored(s.dir, s.run.chunks, held, origin, width, codec)
    && Counted(s.run, written, codec) && Listed(s.versions, origin + |log|, |written|)
    && KeyFilesSound(s.dir.keyFiles, origin, origin + |log|)
    && WithinBudget(written, request.maxRawBytes, codec)
  }

  ghost predicate StoppedSound(s: Session, request: Request, log: seq<Transaction>, held: seq<Transaction>,
                               written: seq<Transaction>, origin: nat, width: nat, codec: Codec) {
    && ((s.error == Some(RawBytesOverflow) && |Frames(written, codec)| > U64_MAX)
        || (IsFlushError(s.error) && origin + |held| > U64_MAX))
    && log <= held && held <= log + written
    && Kept(s.dir, s.run.chunks, held, origin, width, codec)
    && WithinBudget(written, request.maxRawBytes, codec)
  }

  lemma OneMoreCounted(run: Run, written: seq<Transaction>, limit: Option<u64>, tx: Transaction, raw: u64, codec: Codec)
    requires Counted(run, written, codec) && (limit.Some? ==> run.raw < limit.value)
    requires raw == run.raw + |Frame(tx, codec)|
    ensures Counted(run.(count := run.count + 1, last := Some(tx.version), raw := raw), written + [tx], codec)
  {
    assert (written + [tx])[..|written|] == written;
  }

  lemma OneMoreWithinBudget(run: Run, written: seq<Transaction>, limit: Option<u64>, tx: Transaction, codec: Codec)
    requires Counted(run, written, codec) && (limit.Some? ==> run.raw < limit.value)
    ensures WithinBudget(written + [tx], limit, codec)
  {
    assert (written + [tx])[..|written + [tx]| - 1] == written;
  }

  lemma OneMoreConsecutive(txs: seq<Transaction>, tx: Transaction, origin: nat)
    requires Consecutive(txs, origin) && tx.version == origin + |txs|
    ensures Consecutive(txs + [tx], origin)
  {
    ConsecutiveAppend(txs, [tx], origin);
  }

  lemma OneMoreListed(versions: seq<u64>, start: nat, n: nat, version: u64)
    requires Listed(versions, start, n) && version == start + n
    ensures Listed(versions + [version], start, n + 1)
  {
  }

  /** One transaction written but not yet flushed. */
  lemma AddKeepsSound(s: Session, request: Request, tx: Transaction, log: seq<Transaction>, held: seq<Transaction>,
                      written: seq<Transaction>, origin: nat, width: nat, codec: Codec)
    requires Sound(s, request, log, held, written, origin, width, codec)
    requires tx.version == origin + |log + written| && !AtLimit(request, s.run.raw)
    ensures
      var added := Add(s, tx, codec);
      && added.dir == s.dir && added.run.chunks == s.run.chunks && added.open == s.open + [tx]
      && log + (written + [tx]) == held + added.open && Consecutive(log + (written + [tx]), origin)
      && WithinBudget(written + [tx], request.maxRawBytes, codec)
      && (added.error.None? ==>
            && Counted(added.run, written + [tx], codec)
            && Listed(added.versions, origin + |log|, |written + [tx]|))
      && (added.error.Some? ==>
            added.error == Some(RawBytesOverflow) && |Frames(written + [tx], codec)| > U64_MAX)
  {
    var added := Add(s, tx, codec);
    OneMoreConsecutive(log + written, tx, origin);
    OneMoreWithinBudget(s.run, written, request.maxRawBytes, tx, codec);
    assert log + (written + [tx]) == log + written + [tx] == held + added.open;
    if added.error.None? {
      OneMoreCounted(s.run, written, request.maxRawBytes, tx, added.run.raw, codec);
      OneMoreListed(s.versions, origin + |log|, |written|, tx.version);
    }
  }

  lemma StepKeepsSound(s: Session, request: Request, tx: Transaction, log: seq<Transaction>, held: seq<Transaction>,
                       written: seq<Transaction>, origin: nat, width: nat, codec: Codec)
    returns (after: seq<Transaction>)
    requires Sound(s, request, log, held, written, origin, width, codec)
    requires tx.version == origin + |log + written| && !AtLimit(request, s.run.raw)
    ensures RunSound(Step(s, request, tx, codec), request, log, after, written + [tx], origin, width, codec)
  {
    var added := Add(s, tx, codec);
    after := held;
    AddKeepsSound(s, request, tx, log, held, written, origin, width, codec);
    KeyFilesStaySound(s.dir.keyFiles, origin, origin + |log|, origin + |held|);
    if added.error.None? && |added.open| >= request.chunkLimit {
      after := held + added.open;
      FlushStores(added, request, Recording, false, held, origin, width, codec);
      KeyFilesStaySound(s.dir.keyFiles, origin, origin + |log|, origin + |after|);
      assert after + [] == after;
    }
  }

  ghost predicate RunSound(s: Session, request: Request, log: seq<Transaction>, held: seq<Transaction>,
                           written: seq<Transaction>, origin: nat, width: nat, codec: Codec) {
    if s.error.None? then Sound(s, request, log, held, written, origin, width, codec)
    else StoppedSound(s, request, log, held, written, origin, width, codec)
  }

  lemma NextVersion(log: seq<Transaction>, taken: seq<Transaction>, txs: seq<Transaction>, origin: nat)
    requires Consecutive(txs, origin + |log|) && txs != [] && taken == txs[..|txs| - 1]
    ensures txs[|txs| - 1].version == origin + |log + taken|
    ensures Consecutive(taken, origin + |log|) && taken + [txs[|txs| - 1]] == txs
  {
    assert VersionAt(txs, |txs| - 1) == origin + |log| + |taken|;
    assert txs == taken + [txs[|txs| - 1]];
    ConsecutiveEnd(taken, [txs[|txs| - 1]], origin + |log|);
  }

  lemma {:induction false} StepsKeepSound(start: Session, request: Request, txs: seq<Transaction>,
                                          log: seq<Transaction>, origin: nat, width: nat, codec: Codec)
    returns (held: seq<Transaction>, taken: seq<Transaction>)
    requires Sound(start, request, log, log, [], origin, width, codec)
    requires Consecutive(txs, origin + |log|)
    ensures taken <= txs
    ensures
      var after := Steps(start, request, txs, codec);
      RunSound(after, request, log, held, taken, origin, width, codec)
      && (taken == txs || after.error.Some? || AtLimit(request, after.run.raw))
  {
    held, taken := log, [];
    if txs != [] {
      var init, tx := txs[..|txs| - 1], txs[|txs| - 1];
      NextVersion(log, init, txs, origin);
      held, taken := StepsKeepSound(start, request, init, log, origin, width, codec);
      var before := Steps(start, request, init, codec);
      if !Stopped(before, request) {
        held := StepKeepsSound(before, request, tx, log, held, taken, origin, width, codec);
        taken := txs;
      }
    }
  }

  // How a run ends.

  /** What a run has written behind `log` when it ends, given the stream delivered `delivered`: everything,
      unless the byte limit or an error stopped it. */
  ghost predicate SafeRun(run: RunResult, request: Request, log: seq<Transaction>, delivered: seq<Transaction>,
                          broken: bool, chunks: seq<ChunkEntry>, held: seq<Transaction>, origin: nat, width: nat,
                          codec: Codec) {
    && log <= held && held <= log + delivered
    && Kept(run.dir, chunks, held, origin, width, codec)
    && WithinBudget(held[|log|..], request.maxRawBytes, codec)
    && match run.outcome
       case Ok(Finished(next, raw, stopped)) =>
         && held != log && SafeCursor(run.dir, chunks, next, raw, log, held, origin, codec)
         && (stopped <==> request.maxRawBytes.Some? && raw >= request.maxRawBytes.value)
         && (!stopped ==> held == log + delivered && !broken)
       case Ok(Interrupted(next, raw)) =>
         && held != log && SafeCursor(run.dir, chunks, next, raw, log, held, origin, codec)
         && (request.maxRawBytes.Some? ==> raw < request.maxRawBytes.value) && held == log + delivered && broken
       case Err(e) => SafeError(e, request, log, delivered, broken, held, origin, codec)
  }

  /** The cursor stands behind everything held, and the checkpoint agrees. */
  ghost predicate SafeCursor(dir: DirState, chunks: seq<ChunkEntry>, next: u64, raw: u64, log: seq<Transaction>,
                             held: seq<Transaction>, origin: nat, codec: Codec)
    requires |log| <= |held|
  {
    && dir.checkpoint.Some? && Current(dir.checkpoint, chunks, held, origin)
    && next == origin + |held| && dir.checkpoint.value.nextStart == next
    && dir.checkpoint.value.runCount == |held| - |log|
    && raw == |Frames(held[|log|..], codec)|
  }

  ghost predicate SafeError(e: RecordError, request: Request, log: seq<Transaction>, delivered: seq<Transaction>,
                            broken: bool, held: seq<Transaction>, origin: nat, codec: Codec)
  {
    match e
    case EndBeforeStart => request.endVersion < request.startVersion && held == log
    case StreamFailed => held == log && broken && delivered == []
    case ZeroTransactions => held == log && (delivered == [] || request.maxRawBytes == Some(0))
    case RawBytesOverflow => |Frames(delivered, codec)| > U64_MAX
    case CountOverflow => origin + |held| > U64_MAX
    case CursorAtEnd => origin + |held| > U64_MAX
    case _ => false
  }

  lemma FramesPrefix(txs: seq<Transaction>, n: nat, codec: Codec)
    requires n <= |txs|
    ensures |Frames(txs[..n], codec)| <= |Frames(txs, codec)|
  {
    FramesAppend(txs[..n], txs[n..], codec);
    assert txs[..n] + txs[n..] == txs;
  }

  lemma BudgetOfPrefix(prefix: seq<Transaction>, written: seq<Transaction>, limit: Option<u64>, codec: Codec)
    requires prefix <= written && WithinBudget(written, limit, codec)
    ensures WithinBudget(prefix, limit, codec)
  {
    if prefix != [] {
      var n := |prefix| - 1;
      FramesPrefix(written[..|written| - 1], n, codec);
      assert written[..|written| - 1][..n] == prefix[..n];
    }
  }

  lemma HeldPrefix(log: seq<Transaction>, held: seq<Transaction>, written: seq<Transaction>,
                   delivered: seq<Transaction>)
    requires log <= held && held <= log + written && written <= delivered
    ensures held[|log|..] <= written && held <= log + delivered
    ensures held == log + written ==> held[|log|..] == written
  {
    var rest := held[|log|..];
    assert forall i :: 0 <= i < |rest| ==> rest[i] == (log + written)[|log| + i];
  }

  lemma EndsWithError(s: Session, request: Request, log: seq<Transaction>, held: seq<Transaction>,
                      written: seq<Transaction>, delivered: seq<Transaction>, broken: bool, origin: nat, width: nat,
                      codec: Codec)
    requires StoppedSound(s, request, log, held, written, origin, width, codec) && written <= delivered
    ensures SafeRun(RunResult(Err(s.error.value), s.dir), request, log, delivered, broken, s.run.chunks, held, origin,
            width, codec)
  {
    HeldPrefix(log, held, written, delivered);
    BudgetOfPrefix(held[|log|..], written, request.maxRawBytes, codec);
    FramesPrefix(delivered, |written|, codec);
    assert delivered[..|written|] == written;
  }

  lemma EndsEmpty(s: Session, request: Request, log: seq<Transaction>, held: seq<Transaction>,
                  delivered: seq<Transaction>, broken: bool, origin: nat, width: nat, codec: Codec)
    requires Sound(s, request, log, held, [], origin, width, codec)
    requires delivered == [] || AtLimit(request, s.run.raw)
    ensures held == log
    ensures SafeRun(Ending(s, request, delivered, broken, codec), request, log, delivered, broken, s.run.chunks, log,
            origin, width, codec)
  {
    assert log + [] == log;
    assert held == log;
    assert log <= log + delivered;
    assert log[|log|..] == [];
  }

  lemma EndsClosed(s: Session, request: Request, log: seq<Transaction>, held: seq<Transaction>,
                   written: seq<Transaction>, status: Status, stopped: bool, origin: nat, width: nat, codec: Codec)
    requires Sound(s, request, log, held, written, origin, width, codec) && written != []
    requires request.startVersion == origin + |log|
    ensures
      var after := Close(s, request, status, stopped, codec);
      var all := log + written;
      && Kept(after.dir, after.run.chunks, all, origin, width, codec)
      && all[|log|..] == written
      && (after.error.None? <==> origin + |all| <= U64_MAX)
      && (after.error.Some? ==> IsFlushError(after.error))
      && (after.error.None? ==> SafeCursor(after.dir, after.run.chunks, Cursor(s), s.run.raw, log, all, origin, codec))
  {
    ConsecutiveEnd(log, written, origin);
    CloseStores(s, request, status, stopped, held, origin, width, codec);
    assert (log + written)[|log|..] == written;
  }

  lemma EndsSafely(s: Session, request: Request, log: seq<Transaction>, held: seq<Transaction>,
                   written: seq<Transaction>, delivered: seq<Transaction>, broken: bool, origin: nat, width: nat,
                   codec: Codec)
    returns (chunks: seq<ChunkEntry>, left: seq<Transaction>)
    requires RunSound(s, request, log, held, written, origin, width, codec) && written <= delivered
    requires request.startVersion == origin + |log|
    requires written == delivered || s.error.Some? || AtLimit(request, s.run.raw)
    ensures SafeRun(Ending(s, request, delivered, broken, codec), request, log, delivered, broken, chunks, left, origin,
            width, codec)
  {
    var stopped := AtLimit(request, s.run.raw) && delivered != [];
    if s.error.Some? {
      chunks, left := s.run.chunks, held;
      EndsWithError(s, request, log, held, written, delivered, broken, origin, width, codec);
    } else if written == [] {
      chunks, left := s.run.chunks, log;
      EndsEmpty(s, request, log, held, delivered, broken, origin, width, codec);
    } else {
      var status := if broken && !stopped then Partial else Complete;
      var after := Close(s, request, status, stopped, codec);
      chunks, left := after.run.chunks, log + written;
      EndsClosed(s, request, log, held, written, status, stopped, origin, width, codec);
      HeldPrefix(log, left, written, delivered);
      assert status == Partial ==> !stopped;
    }
  }

  lemma StartIsSound(dir: DirState, request: Request, log: seq<Transaction>, origin: nat, width: nat, codec: Codec)
    requires 1 <= request.chunkLimit <= width && origin + |log| == request.startVersion
    requires Stored(dir, request.previousChunks, log, origin, width, codec)
    requires KeyFilesSound(dir.keyFiles, origin, request.startVersion)
    ensures Sound(Start(dir, request), request, log, log, [], origin, width, codec)
  {
    assert log + [] == log;
  }

  /** A run started behind a recorded range, with or without a checkpoint, leaves a longer recorded range: the
      chunks partition it, it is a prefix of what the stream delivered, and each outcome says how much of it
      there is. */
  lemma RunIsSafe(dir: DirState, request: Request, events: seq<StreamEvent>, log: seq<Transaction>, origin: nat,
                  width: nat, codec: Codec)
    returns (chunks: seq<ChunkEntry>, held: seq<Transaction>)
    requires 1 <= request.chunkLimit <= width && origin + |log| == request.startVersion
    requires Stored(dir, request.previousChunks, log, origin, width, codec)
    requires KeyFilesSound(dir.keyFiles, origin, request.startVersion)
    requires Consecutive(Delivered(events), request.startVersion)
    ensures SafeRun(RunOf(dir, request, events, codec), request, log, Delivered(events), Broken in events, chunks, held,
            origin, width, codec)
  {
    chunks, held := request.previousChunks, log;
    PartitionBounds(request.previousChunks, origin, request.startVersion, width);
    assert log + [] == log && log[|log|..] == [];
    if request.startVersion <= request.endVersion {
      var start := Start(dir, request);
      StartIsSound(dir, request, log, origin, width, codec);
      var taken;
      held, taken := StepsKeepSound(start, request, Delivered(events), log, origin, width, codec);
      chunks, held := EndsSafely(Steps(start, request, Delivered(events), codec), request, log, held, taken,
                                 Delivered(events), Broken in events, origin, width, codec);
    }
  }
}
