/** A recording over several streams: an interrupted one is resumed from its cursor with what is left of
    the byte budget. */
module Retries {
  import opened Prelude
  import opened Framing
  import opened RawChunks
  import opened RecordedDir
  import opened Recorder
  import opened RecorderSafety
  import Resume

  /** What the network does with the n-th request, which starts at a given version. */
  type Network = (nat, u64) -> seq<StreamEvent>

  datatype RecordResult = RecordResult(r: Result<u64, RecordError>, dir: DirState, runs: nat, total: u64)

  function Left(limit: Option<u64>, total: u64): Option<u64> {
    if limit.Some? && total <= limit.value then Some(limit.value - total) else None
  }

  function Continued(request: Request, next: u64, dir: DirState, limit: Option<u64>, total: u64): Request {
    var chunks := if dir.checkpoint.Some? then dir.checkpoint.value.chunks else [];
    request.(startVersion := next, maxRawBytes := Left(limit, total), previousChunks := chunks)
  }

  /** The recording from its `retries`-th retry on. */
  function RecordFrom(dir: DirState, request: Request, network: Network, limit: Option<u64>, total: u64, retries: nat,
                      maxRetries: nat, codec: Codec): RecordResult
    requires retries <= maxRetries
    decreases maxRetries - retries, 1
  {
    AfterRun(RunOf(dir, request, network(retries, request.startVersion), codec),
             request, network, limit, total, retries, maxRetries, codec)
  }

  /** The recording once a run has ended. */
  function AfterRun(run: RunResult, request: Request, network: Network, limit: Option<u64>, total: u64, retries: nat,
                    maxRetries: nat, codec: Codec): RecordResult
    requires retries <= maxRetries
    decreases maxRetries - retries, 0
  {
    if run.outcome.Err? then RecordResult(Err(run.outcome.error), run.dir, retries + 1, total)
    else
      var outcome := run.outcome.value;
      if total + outcome.rawBytes > U64_MAX then RecordResult(Err(RawBytesOverflow), run.dir, retries + 1, total)
      else
        var sum := total + outcome.rawBytes;
        if outcome.Finished? || outcome.nextStart > request.endVersion || (limit.Some? && sum >= limit.value) then
          RecordResult(Ok(outcome.nextStart), run.dir, retries + 1, sum)
        else if retries == maxRetries then RecordResult(Err(RetryLimit), run.dir, retries + 1, sum)
        else
          RecordFrom(run.dir, Continued(request, outcome.nextStart, run.dir, limit, sum), network, limit, sum,
                     retries + 1, maxRetries, codec)
  }

  /** A checkpoint that says how a run to this cursor ended has been written. */
  predicate Checkpointed(dir: DirState, request: Request, status: Status, stopped: bool, raw: nat, next: u64) {
    && dir.checkpoint.Some?
    && var c := dir.checkpoint.value;
       && c.status == status && c.stoppedAtByteLimit == stopped && c.rawBytes == raw
       && c.startVersion == request.startVersion && c.endVersion == request.endVersion
       && c.maxRawBytes == request.maxRawBytes && c.nextStart == next && c.lastSuccess as int + 1 == next
  }

  lemma SavedIsCheckpointed(s: Session, request: Request, status: Status, stopped: bool)
    requires s.run.last.Some?
    ensures
      var after := Save(s, request, status, stopped);
      after.error.None? ==> Checkpointed(after.dir, request, status, stopped, s.run.raw, Cursor(s))
  {
  }

  lemma ClosedIsCheckpointed(s: Session, request: Request, status: Status, stopped: bool, codec: Codec)
    requires s.run.last.Some?
    ensures
      var after := Close(s, request, status, stopped, codec);
      after.error.None? ==> Checkpointed(after.dir, request, status, stopped, s.run.raw, Cursor(s))
  {
    SavedIsCheckpointed(KeepKeys(Finish(s, codec), request), request, status, stopped);
  }

  /** The checkpoint says what the outcome says. */
  predicate OutcomeSaved(run: RunResult, request: Request) {
    match run.outcome
    case Ok(Finished(next, raw, stopped)) => Checkpointed(run.dir, request, Complete, stopped, raw, next)
    case Ok(Interrupted(next, raw)) => Checkpointed(run.dir, request, Partial, false, raw, next)
    case Err(_) => true
  }

  lemma EndingIsCheckpointed(s: Session, request: Request, delivered: seq<Transaction>, broken: bool, codec: Codec)
    ensures OutcomeSaved(Ending(s, request, delivered, broken, codec), request)
  {
    if s.run.last.Some? {
      var stopped := AtLimit(request, s.run.raw) && delivered != [];
      ClosedIsCheckpointed(s, request, Partial, false, codec);
      ClosedIsCheckpointed(s, request, Complete, stopped, codec);
    }
  }

  /** A run that has an outcome has written a checkpoint that says the same: complete or partial, its range, bytes and
      cursor, and whether the byte limit stopped it. */
  lemma OutcomeIsCheckpointed(dir: DirState, request: Request, events: seq<StreamEvent>, codec: Codec)
    ensures OutcomeSaved(RunOf(dir, request, events, codec), request)
  {
    var s := Steps(Start(dir, request), request, Delivered(events), codec);
    EndingIsCheckpointed(s, request, Delivered(events), Broken in events, codec);
  }

  /** The checkpoint that stood before, or one that says the run is still recording. */
  predicate StillRecording(dir: DirState, before: DirState, request: Request) {
    || dir.checkpoint == before.checkpoint
    || (dir.checkpoint.Some? && dir.checkpoint.value.lastSuccess < U64_MAX
        && Checkpointed(dir, request, Recording, false, dir.checkpoint.value.rawBytes,
                        dir.checkpoint.value.lastSuccess + 1))
  }

  /** Before a run is closed, no checkpoint of its own says that it is over. */
  lemma {:induction false} StepsStillRecord(dir: DirState, request: Request, txs: seq<Transaction>, codec: Codec)
    ensures StillRecording(Steps(Start(dir, request), request, txs, codec).dir, dir, request)
  {
    if txs != [] {
      var init, tx := txs[..|txs| - 1], txs[|txs| - 1];
      StepsStillRecord(dir, request, init, codec);
      var added := Add(Steps(Start(dir, request), request, init, codec), tx, codec);
      if added.error.None? {
        SavedIsCheckpointed(Finish(added, codec), request, Recording, false);
      }
    }
  }

  /** The next request, with the chunks that the checkpoint lists. */
  method ResumeRequest(dir: RecordDir, request: Request, next: u64, limit: Option<u64>,
                       total: u64) returns (resumed: Request)
    requires dir.checkpoint.Some?
    requires if limit.Some? then total <= limit.value else request.maxRawBytes.None?
    ensures resumed == Continued(request, next, dir.State(), limit, total)
  {
    var state := Resume.LoadResumeState(Resume.SavedIn(dir.checkpoint), dir.files.Keys);
    resumed := request.(startVersion := next, previousChunks := state.value.chunks);
    if limit.Some? {
      resumed := resumed.(maxRawBytes := Some(limit.value - total));
    }
  }

  /** What to do once a run has ended: the recording's result, or the request that continues it. */
  method Decide(dir: RecordDir, outcome: Result<Outcome, RecordError>, request: Request, network: Network,
                limit: Option<u64>, total: u64, retries: nat, maxRetries: nat, codec: Codec)
    returns (done: Option<Result<u64, RecordError>>, next: Request, sum: u64)
    requires retries <= maxRetries && (outcome.Ok? ==> dir.checkpoint.Some?)
    requires limit.None? ==> request.maxRawBytes.None?
    ensures limit.None? ==> next.maxRawBytes.None?
    ensures
      var recording := AfterRun(RunResult(outcome, dir.State()), request, network, limit, total, retries, maxRetries,
        codec);
      match done
      case Some(r) => r == recording.r && recording.dir == dir.State()
      case None => retries < maxRetries
                   && recording == RecordFrom(dir.State(), next, network, limit, sum, retries + 1, maxRetries, codec)
  {
    next, sum := request, total;
    if outcome.Err? {
      return Some(Err(outcome.error)), next, sum;
    }
    if total + outcome.value.rawBytes > U64_MAX {
      return Some(Err(RawBytesOverflow)), next, sum;
    }
    sum := total + outcome.value.rawBytes;
    var cursor := outcome.value.nextStart;
    if outcome.value.Finished? || cursor > request.endVersion {
      return Some(Ok(cursor)), next, sum;
    }
    if limit.Some? && sum >= limit.value {
      return Some(Ok(cursor)), next, sum;
    }
    if retries >= maxRetries {
      return Some(Err(RetryLimit)), next, sum;
    }
    next := ResumeRequest(dir, request, cursor, limit, sum);
    done := None;
  }

  method RecordWithRetries(dir: RecordDir, initial: Request, network: Network, maxRetries: nat, codec: Codec)
    returns (r: Result<u64, RecordError>, ghost recording: RecordResult)
    modifies dir
    ensures recording == RecordFrom(old(dir.State()), initial, network, initial.maxRawBytes, 0, 0, maxRetries, codec)
    ensures r == recording.r && dir.State() == recording.dir
  {
    var request, limit, total: u64, retries := initial, initial.maxRawBytes, 0, 0;
    recording := RecordFrom(dir.State(), initial, network, limit, 0, 0, maxRetries, codec);
    while true
      invariant 0 <= retries <= maxRetries
      invariant recording == RecordFrom(dir.State(), request, network, limit, total, retries, maxRetries, codec)
      invariant limit.None? ==> request.maxRawBytes.None?
      decreases maxRetries - retries
    {
      OutcomeIsCheckpointed(dir.State(), request, network(retries, request.startVersion), codec);
      var outcome := RecordStream(dir, request, network(retries, request.startVersion), codec);
      var done;
      done, request, total := Decide(dir, outcome, request, network, limit, total, retries, maxRetries, codec);
      if done.Some? {
        return done.value, recording;
      }
      retries := retries + 1;
    }
  }

  /** A recording is over after its first run, or goes on where that run left the directory. */
  lemma RecordingGoesOn(dir: DirState, request: Request, network: Network, limit: Option<u64>, total: u64, retries: nat,
                        maxRetries: nat, codec: Codec)
    returns (next: Option<(Request, u64)>)
    requires retries <= maxRetries
    ensures
      var run := RunOf(dir, request, network(retries, request.startVersion), codec);
      && next == NextRequest(run, request, limit, total, retries, maxRetries)
      && GoesOn(RecordFrom(dir, request, network, limit, total, retries, maxRetries, codec), run, next, network, limit,
        retries, maxRetries, codec)
  {
    var run := RunOf(dir, request, network(retries, request.startVersion), codec);
    next := NextRequest(run, request, limit, total, retries, maxRetries);
    AfterRunGoesOn(run, request, network, limit, total, retries, maxRetries, codec);
  }

  ghost predicate GoesOn(recording: RecordResult, run: RunResult, next: Option<(Request, u64)>, network: Network,
                         limit: Option<u64>, retries: nat, maxRetries: nat, codec: Codec)
  {
    if next.None? then recording.dir == run.dir && (run.outcome.Err? ==> recording.r == Err(run.outcome.error))
    else
      && run.outcome.Ok? && retries < maxRetries
      && recording == RecordFrom(run.dir, next.value.0, network, limit, next.value.1, retries + 1, maxRetries, codec)
  }

  predicate Continues(run: RunResult, request: Request, total: u64, retries: nat, maxRetries: nat) {
    && run.outcome.Ok? && run.outcome.value.Interrupted? && total + run.outcome.value.rawBytes <= U64_MAX
    && run.outcome.value.nextStart <= request.endVersion && retries < maxRetries
  }

  function NextRequest(run: RunResult, request: Request, limit: Option<u64>, total: u64, retries: nat, maxRetries: nat)
    : Option<(Request, u64)>
  {
    if Continues(run, request, total, retries, maxRetries)
       && !(limit.Some? && total + run.outcome.value.rawBytes >= limit.value)
    then
      var sum := total + run.outcome.value.rawBytes;
      Some((Continued(request, run.outcome.value.nextStart, run.dir, limit, sum), sum))
    else None
  }

  lemma AfterRunGoesOn(run: RunResult, request: Request, network: Network, limit: Option<u64>, total: u64,
                       retries: nat, maxRetries: nat, codec: Codec)
    requires retries <= maxRetries
    ensures GoesOn(AfterRun(run, request, network, limit, total, retries, maxRetries, codec), run,
                   NextRequest(run, request, limit, total, retries, maxRetries), network, limit, retries, maxRetries,
                   codec)
  {
  }

  ghost predicate RunKeeps(keeps: DirState -> bool, dir: DirState, request: Request, network: Network, n: nat,
                           codec: Codec) {
    keeps(dir) ==> keeps(RunOf(dir, request, network(n, request.startVersion), codec).dir)
  }

  /** What every run keeps, whatever its request, a recording keeps. */
  lemma {:induction false} RecordingKeeps(keeps: DirState -> bool, dir: DirState, request: Request, network: Network,
                                          limit: Option<u64>, total: u64, retries: nat, maxRetries: nat, codec: Codec)
    requires retries <= maxRetries && keeps(dir)
    requires forall before, next: Request, n: nat :: RunKeeps(keeps, before, next, network, n, codec)
    ensures keeps(RecordFrom(dir, request, network, limit, total, retries, maxRetries, codec).dir)
    decreases maxRetries - retries
  {
    var run := RunOf(dir, request, network(retries, request.startVersion), codec);
    var next := RecordingGoesOn(dir, request, network, limit, total, retries, maxRetries, codec);
    assert RunKeeps(keeps, dir, request, network, retries, codec);
    if next.Some? {
      RecordingKeeps(keeps, run.dir, next.value.0, network, limit, next.value.1, retries + 1, maxRetries, codec);
    }
  }

  // Safety of the whole recording.

  function TransactionAt(txs: seq<Transaction>, i: nat): Transaction
    requires i < |txs|
  {
    txs[i]
  }

  /** The transactions of a ledger from version `start` on. */
  ghost predicate FromLedger(txs: seq<Transaction>, start: nat, ledger: nat -> Transaction) {
    && Consecutive(txs, start)
    && forall i: nat :: i < |txs| ==> TransactionAt(txs, i) == ledger(start + i)
  }

  /** Every stream delivers the ledger from the version it was asked for, as far as it gets. */
  ghost predicate Honest(network: Network, ledger: nat -> Transaction) {
    forall n: nat, start: u64 :: FromLedger(Delivered(network(n, start)), start, ledger)
  }

  lemma LedgerGrows(log: seq<Transaction>, more: seq<Transaction>, held: seq<Transaction>, origin: nat,
                    ledger: nat -> Transaction)
    requires FromLedger(log, origin, ledger) && FromLedger(more, origin + |log|, ledger)
    requires log <= held && held <= log + more
    ensures FromLedger(held, origin, ledger)
  {
    ConsecutiveAppend(log, more, origin);
    forall i: nat | i < |held|
      ensures VersionAt(held, i) == origin + i && TransactionAt(held, i) == ledger(origin + i)
    {
      assert held[i] == (log + more)[i] && VersionAt(held, i) == VersionAt(log + more, i);
      assert TransactionAt(held, i) == if i < |log| then TransactionAt(log, i) else TransactionAt(more, i - |log|);
    }
  }

  lemma PrefixOfLedger(txs: seq<Transaction>, all: seq<Transaction>, start: nat, ledger: nat -> Transaction)
    requires FromLedger(all, start, ledger) && txs <= all
    ensures FromLedger(txs, start, ledger)
  {
    forall i: nat | i < |txs|
      ensures VersionAt(txs, i) == start + i && TransactionAt(txs, i) == ledger(start + i)
    {
      assert VersionAt(txs, i) == VersionAt(all, i) && TransactionAt(txs, i) == TransactionAt(all, i);
    }
  }

  /** What a run writes within what is left of the budget stays within the budget. */
  lemma BudgetAddsUp(before: seq<Transaction>, written: seq<Transaction>, limit: Option<u64>, total: u64, codec: Codec)
    requires total == |Frames(before, codec)| && (limit.Some? ==> total <= limit.value)
    requires WithinBudget(before, limit, codec) && WithinBudget(written, Left(limit, total), codec)
    ensures WithinBudget(before + written, limit, codec)
    ensures |Frames(before + written, codec)| == total + |Frames(written, codec)|
  {
    FramesAppend(before, written, codec);
    if written == [] {
      assert before + written == before;
    } else {
      var init := written[..|written| - 1];
      FramesAppend(before, init, codec);
      assert (before + written)[..|before + written| - 1] == before + init;
    }
  }

  /** What a recording that began with `base` transactions leaves behind. */
  ghost predicate SafeRecording(res: RecordResult, request: Request, limit: Option<u64>, retries: nat, maxRetries: nat,
                                log: seq<Transaction>, base: nat, chunks: seq<ChunkEntry>, held: seq<Transaction>,
                                origin: nat, width: nat, codec: Codec)
    requires base <= |log|
  {
    && log <= held
    && Kept(res.dir, chunks, held, origin, width, codec)
    && WithinBudget(held[base..], limit, codec)
    && retries < res.runs <= maxRetries + 1
    && match res.r
       case Ok(next) =>
         held != log && next == origin + |held| && res.total == |Frames(held[base..], codec)|
       case Err(e) =>
         && (e == EndBeforeStart ==> request.endVersion < request.startVersion)
         && (e == RetryLimit ==> res.runs == maxRetries + 1 && held != log && origin + |held| <= request.endVersion
                                 && (limit.Some? ==> res.total < limit.value))
         && e != RefusingToOverwrite && e != EmptyChunk && e != KeyFileExists
  }

  ghost predicate Resumable(dir: DirState, request: Request, limit: Option<u64>, total: u64, log: seq<Transaction>,
                            base: nat, origin: nat, width: nat, codec: Codec)
    requires base <= |log|
  {
    && 1 <= request.chunkLimit <= width && origin + |log| == request.startVersion
    && KeyFilesSound(dir.keyFiles, origin, request.startVersion)
    && Stored(dir, request.previousChunks, log, origin, width, codec)
    && total == |Frames(log[base..], codec)|
    && WithinBudget(log[base..], limit, codec)
    && (limit.Some? ==> total <= limit.value) && request.maxRawBytes == Left(limit, total)
  }

  /** One run within a recording, as far as the recording is concerned. */
  lemma RunInRecording(run: RunResult, request: Request, limit: Option<u64>, total: u64, log: seq<Transaction>,
                       base: nat, delivered: seq<Transaction>, broken: bool, chunks: seq<ChunkEntry>,
                       held: seq<Transaction>, origin: nat, width: nat, codec: Codec)
    requires base <= |log| && total == |Frames(log[base..], codec)| && (limit.Some? ==> total <= limit.value)
    requires WithinBudget(log[base..], limit, codec) && request.maxRawBytes == Left(limit, total)
    requires SafeRun(run, request, log, delivered, broken, chunks, held, origin, width, codec)
    ensures WithinBudget(held[base..], limit, codec)
    ensures run.outcome.Ok? ==> |Frames(held[base..], codec)| == total + run.outcome.value.rawBytes
    ensures run.outcome.Ok? && run.outcome.value.Interrupted? && limit.Some? ==>
              total + run.outcome.value.rawBytes < limit.value
  {
    BudgetAddsUp(log[base..], held[|log|..], limit, total, codec);
    assert log[base..] + held[|log|..] == held[base..];
  }

  lemma NextIsResumable(run: RunResult, request: Request, limit: Option<u64>, total: u64, log: seq<Transaction>,
                        base: nat, delivered: seq<Transaction>, broken: bool, chunks: seq<ChunkEntry>,
                        held: seq<Transaction>, origin: nat, width: nat, codec: Codec)
    requires base <= |log| && 1 <= request.chunkLimit <= width
    requires SafeRun(run, request, log, delivered, broken, chunks, held, origin, width, codec)
    requires run.outcome.Ok? && run.outcome.value.Interrupted?
    requires WithinBudget(held[base..], limit, codec)
    requires total == |Frames(held[base..], codec)| && (limit.Some? ==> total <= limit.value)
    ensures Resumable(run.dir, Continued(request, run.outcome.value.nextStart, run.dir, limit, total), limit, total,
                      held, base, origin, width, codec)
  {
  }

  /** The facts about a run that decide how its recording goes on. */
  ghost predicate RanSafely(run: RunResult, request: Request, limit: Option<u64>, total: u64, log: seq<Transaction>,
                            base: nat, delivered: seq<Transaction>, broken: bool, chunks: seq<ChunkEntry>,
                            held: seq<Transaction>, origin: nat, width: nat, codec: Codec)
    requires base <= |log|
  {
    && SafeRun(run, request, log, delivered, broken, chunks, held, origin, width, codec)
    && WithinBudget(held[base..], limit, codec)
    && (run.outcome.Ok? ==> |Frames(held[base..], codec)| == total + run.outcome.value.rawBytes)
    && (run.outcome.Ok? && run.outcome.value.Interrupted? && limit.Some? ==>
      total + run.outcome.value.rawBytes < limit.value)
  }

  lemma RunEndsRecording(run: RunResult, request: Request, network: Network, limit: Option<u64>, total: u64,
                         retries: nat, maxRetries: nat, log: seq<Transaction>, base: nat, delivered: seq<Transaction>,
                         broken: bool, chunks: seq<ChunkEntry>, held: seq<Transaction>, origin: nat, width: nat,
                         codec: Codec)
    requires retries <= maxRetries && base <= |log|
    requires RanSafely(run, request, limit, total, log, base, delivered, broken, chunks, held, origin, width, codec)
    requires !Continues(run, request, total, retries, maxRetries)
    ensures SafeRecording(AfterRun(run, request, network, limit, total, retries, maxRetries, codec), request, limit,
                          retries, maxRetries, log, base, chunks, held, origin, width, codec)
  {
  }

  lemma LaterIsSafe(res: RecordResult, request: Request, next: Request, limit: Option<u64>, retries: nat,
                    maxRetries: nat, log: seq<Transaction>, longer: seq<Transaction>, base: nat,
                    chunks: seq<ChunkEntry>, held: seq<Transaction>, origin: nat, width: nat, codec: Codec)
    requires base <= |log| && log <= longer
    requires next.startVersion <= next.endVersion == request.endVersion && next.chunkLimit == request.chunkLimit
    requires SafeRecording(res, next, limit, retries + 1, maxRetries, longer, base, chunks, held, origin, width, codec)
    ensures SafeRecording(res, request, limit, retries, maxRetries, log, base, chunks, held, origin, width, codec)
  {
    if |held| == |log| {
      assert longer == held;
    }
  }

  /** The first run of what remains of a recording. */
  lemma FirstRun(dir: DirState, request: Request, events: seq<StreamEvent>, ledger: nat -> Transaction,
                 limit: Option<u64>, total: u64, log: seq<Transaction>, base: nat, origin: nat, width: nat,
                 codec: Codec)
    returns (chunks: seq<ChunkEntry>, held: seq<Transaction>)
    requires base <= |log| && FromLedger(log, origin, ledger)
    requires FromLedger(Delivered(events), request.startVersion, ledger)
    requires Resumable(dir, request, limit, total, log, base, origin, width, codec)
    ensures FromLedger(held, origin, ledger)
    ensures RanSafely(RunOf(dir, request, events, codec), request, limit, total, log, base, Delivered(events),
                      Broken in events, chunks, held, origin, width, codec)
  {
    chunks, held := RunIsSafe(dir, request, events, log, origin, width, codec);
    LedgerGrows(log, Delivered(events), held, origin, ledger);
    RunInRecording(RunOf(dir, request, events, codec), request, limit, total, log, base, Delivered(events),
                   Broken in events, chunks, held, origin, width, codec);
  }

  /** The rest of a recording that goes on after a run. */
  lemma {:induction false} RestIsSafe(run: RunResult, request: Request, network: Network, ledger: nat -> Transaction,
                                      limit: Option<u64>, sum: u64, retries: nat, maxRetries: nat,
                                      log: seq<Transaction>, base: nat, held: seq<Transaction>, origin: nat, width: nat,
                                      codec: Codec)
    returns (chunks: seq<ChunkEntry>, all: seq<Transaction>)
    requires retries < maxRetries && base <= |log| && log <= held && 1 <= request.chunkLimit <= width
    requires Honest(network, ledger) && FromLedger(held, origin, ledger)
    requires run.outcome.Ok? && run.outcome.value.nextStart <= request.endVersion
    requires
      var next := Continued(request, run.outcome.value.nextStart, run.dir, limit, sum);
      Resumable(run.dir, next, limit, sum, held, base, origin, width, codec)
    ensures FromLedger(all, origin, ledger)
    ensures
      var next := Continued(request, run.outcome.value.nextStart, run.dir, limit, sum);
      SafeRecording(RecordFrom(run.dir, next, network, limit, sum, retries + 1, maxRetries, codec), request, limit,
                    retries, maxRetries, log, base, chunks, all, origin, width, codec)
    decreases maxRetries - retries, 0
  {
    var next := Continued(request, run.outcome.value.nextStart, run.dir, limit, sum);
    chunks, all := RecordingIsSafe(run.dir, next, network, ledger, limit, sum, retries + 1, maxRetries, held, base,
      origin, width, codec);
    LaterIsSafe(RecordFrom(run.dir, next, network, limit, sum, retries + 1, maxRetries, codec),
                request, next, limit, retries, maxRetries, log, held, base, chunks, all, origin, width, codec);
  }

  lemma AfterRunContinues(run: RunResult, request: Request, network: Network, limit: Option<u64>, total: u64,
                          retries: nat, maxRetries: nat, codec: Codec)
    requires Continues(run, request, total, retries, maxRetries)
    requires limit.Some? ==> total + run.outcome.value.rawBytes < limit.value
    ensures
      var sum := total + run.outcome.value.rawBytes;
      AfterRun(run, request, network, limit, total, retries, maxRetries, codec) ==
        RecordFrom(run.dir, Continued(request, run.outcome.value.nextStart, run.dir, limit, sum), network, limit, sum,
                   retries + 1, maxRetries, codec)
  {
  }

  /** A run either ends its recording safely or leaves a directory from which the rest can be recorded. */
  ghost predicate Decided(run: RunResult, request: Request, network: Network, limit: Option<u64>, total: u64,
                          retries: nat, maxRetries: nat, log: seq<Transaction>, base: nat, chunks: seq<ChunkEntry>,
                          held: seq<Transaction>, origin: nat, width: nat, codec: Codec)
    requires base <= |log| && retries <= maxRetries
  {
    if Continues(run, request, total, retries, maxRetries) then
      var sum := total + run.outcome.value.rawBytes;
      && log <= held && (limit.Some? ==> sum < limit.value)
      && Resumable(run.dir, Continued(request, run.outcome.value.nextStart, run.dir, limit, sum), limit, sum, held,
        base, origin, width, codec)
    else
      SafeRecording(AfterRun(run, request, network, limit, total, retries, maxRetries, codec), request, limit, retries,
                    maxRetries, log, base, chunks, held, origin, width, codec)
  }

  lemma RunDecides(run: RunResult, request: Request, network: Network, limit: Option<u64>, total: u64, retries: nat,
                   maxRetries: nat, log: seq<Transaction>, base: nat, delivered: seq<Transaction>, broken: bool,
                   chunks: seq<ChunkEntry>, held: seq<Transaction>, origin: nat, width: nat, codec: Codec)
    requires retries <= maxRetries && base <= |log| && 1 <= request.chunkLimit <= width
    requires RanSafely(run, request, limit, total, log, base, delivered, broken, chunks, held, origin, width, codec)
    ensures Decided(run, request, network, limit, total, retries, maxRetries, log, base, chunks, held, origin, width,
            codec)
  {
    if Continues(run, request, total, retries, maxRetries) {
      NextIsResumable(run, request, limit, total + run.outcome.value.rawBytes, log, base, delivered, broken, chunks,
        held, origin, width, codec);
    } else {
      RunEndsRecording(run, request, network, limit, total, retries, maxRetries, log, base, delivered, broken,
                       chunks, held, origin, width, codec);
    }
  }

  lemma {:induction false} AfterRunIsSafe(run: RunResult, request: Request, network: Network,
                                          ledger: nat -> Transaction, limit: Option<u64>, total: u64, retries: nat,
                                          maxRetries: nat, log: seq<Transaction>, base: nat, chunks: seq<ChunkEntry>,
                                          held: seq<Transaction>, origin: nat, width: nat, codec: Codec)
    returns (lastChunks: seq<ChunkEntry>, all: seq<Transaction>)
    requires retries <= maxRetries && base <= |log| && 1 <= request.chunkLimit <= width
    requires Honest(network, ledger) && FromLedger(held, origin, ledger)
    requires Decided(run, request, network, limit, total, retries, maxRetries, log, base, chunks, held, origin, width,
             codec)
    ensures FromLedger(all, origin, ledger)
    ensures SafeRecording(AfterRun(run, request, network, limit, total, retries, maxRetries, codec), request, limit,
                          retries, maxRetries, log, base, lastChunks, all, origin, width, codec)
    decreases maxRetries - retries, 1
  {
    if Continues(run, request, total, retries, maxRetries) {
      var sum := total + run.outcome.value.rawBytes;
      AfterRunContinues(run, request, network, limit, total, retries, maxRetries, codec);
      lastChunks, all := RestIsSafe(run, request, network, ledger, limit, sum, retries, maxRetries, log, base, held,
        origin, width, codec);
    } else {
      lastChunks, all := chunks, held;
    }
  }

  /** A whole recording from an honest network: whatever the batches, the interruptions and the budget, the
      directory holds the ledger from `origin` to the cursor, every chunk and checkpoint was true when it was
      written, and no transaction was written once the budget was spent. */
  lemma {:induction false} RecordingIsSafe(dir: DirState, request: Request, network: Network,
                                           ledger: nat -> Transaction, limit: Option<u64>, total: u64, retries: nat,
                                           maxRetries: nat, log: seq<Transaction>, base: nat, origin: nat, width: nat,
                                           codec: Codec)
    returns (chunks: seq<ChunkEntry>, held: seq<Transaction>)
    requires retries <= maxRetries && base <= |log|
    requires Honest(network, ledger) && FromLedger(log, origin, ledger)
    requires Resumable(dir, request, limit, total, log, base, origin, width, codec)
    ensures FromLedger(held, origin, ledger)
    ensures SafeRecording(RecordFrom(dir, request, network, limit, total, retries, maxRetries, codec), request, limit,
                          retries, maxRetries, log, base, chunks, held, origin, width, codec)
    decreases maxRetries - retries, 2
  {
    var events := network(retries, request.startVersion);
    chunks, held := FirstRun(dir, request, events, ledger, limit, total, log, base, origin, width, codec);
    RunDecides(RunOf(dir, request, events, codec), request, network, limit, total, retries, maxRetries, log, base,
               Delivered(events), Broken in events, chunks, held, origin, width, codec);
    chunks, held := AfterRunIsSafe(RunOf(dir, request, events, codec), request, network, ledger, limit, total, retries,
                                   maxRetries, log, base, chunks, held, origin, width, codec);
  }

  /** A recorder started in an empty directory. */
  lemma FreshRecordingIsSafe(request: Request, network: Network, ledger: nat -> Transaction, maxRetries: nat,
                             codec: Codec)
    returns (chunks: seq<ChunkEntry>, held: seq<Transaction>)
    requires request.chunkLimit >= 1 && request.previousChunks == [] && Honest(network, ledger)
    ensures FromLedger(held, request.startVersion, ledger)
    ensures SafeRecording(RecordFrom(EMPTY_DIR, request, network, request.maxRawBytes, 0, 0, maxRetries, codec),
                          request, request.maxRawBytes, 0, maxRetries, [], 0, chunks, held, request.startVersion,
                          request.chunkLimit, codec)
  {
    NothingRecorded(request.startVersion, request.chunkLimit, codec);
    chunks, held := RecordingIsSafe(EMPTY_DIR, request, network, ledger, request.maxRawBytes, 0, 0, maxRetries,
                                    [], 0, request.startVersion, request.chunkLimit, codec);
  }
}
