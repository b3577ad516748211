/** What can happen to a directory: the recorder is invoked again and again, each time with its own options and
    network, it may crash, and its checkpoint and files may be lost or replaced. */
module Invocations {
  import opened Prelude
  import opened Framing
  import opened RecordedDir
  import opened Recorder
  import opened Retries
  import opened Crashes
  import Resume

  /** The options of one invocation. A low start is one that is suspicious on the main network. */
  datatype Invocation = Invocation(
    resume: bool, requestedStart: Option<u64>, requestedEnd: Option<u64>, transactionsCount: Option<u64>,
    onMainnet: bool, allowLowStart: bool, maxRawBytes: Option<u64>, chunkLimit: u64, keySampleLimit: u64,
    maxRetries: nat, network: Network)

  datatype InvocationError =
    | NotResumable(resume: Resume.ResumeError) | NoStart | ConflictingEnds | ZeroCount | CountPastEnd | ZeroChunkLimit
    | SuspiciousStart | NoEnd | RecordingFailed(recording: RecordError)

  const LOW_START: u64 := 1_000_000_000

  type LoadedState = Result<Resume.ResumeState, Resume.ResumeError>

  // One invocation.

  /** The cursor of the loaded state, or the requested start. */
  function StartOf(inv: Invocation, state: Resume.ResumeState): Option<u64> {
    if inv.resume then if state.nextStart.Some? then state.nextStart else inv.requestedStart
    else Some(if inv.requestedStart.Some? then inv.requestedStart.value else 0)
  }

  /** The requested end, or the one behind as many versions as are requested. */
  function EndOf(inv: Invocation, start: u64): (end: Result<Option<u64>, InvocationError>)
    ensures inv.requestedEnd.None? && inv.transactionsCount.Some? ==>
              (end.Ok? <==> 0 < inv.transactionsCount.value <= U64_LIMIT - start)
    ensures inv.requestedEnd.None? && inv.transactionsCount.Some? && end.Ok? ==>
              end.value.Some? && end.value.value - start + 1 == inv.transactionsCount.value
  {
    match (inv.requestedEnd, inv.transactionsCount)
    case (Some(_), Some(_)) => Err(ConflictingEnds)
    case (Some(end), None) => Ok(Some(end))
    case (None, Some(count)) =>
      if count == 0 then Err(ZeroCount)
      else if start + (count - 1) > U64_MAX then Err(CountPastEnd)
      else Ok(Some(start + (count - 1)))
    case (None, None) => Ok(None)
  }

  predicate Suspicious(inv: Invocation, start: u64, end: Option<u64>) {
    && inv.onMainnet && !inv.allowLowStart && start < LOW_START
    && (if end.Some? then end.value else 0) >= LOW_START
  }

  /** The request that the options make of the loaded state. The state must load even if it is then not used. */
  function Resolve(inv: Invocation, loaded: LoadedState): Result<Request, InvocationError> {
    if loaded.Err? then Err(NotResumable(loaded.error))
    else
      var start := StartOf(inv, loaded.value);
      if start.None? then Err(NoStart)
      else
        var end := EndOf(inv, start.value);
        if end.Err? then Err(end.error)
        else if inv.chunkLimit == 0 then Err(ZeroChunkLimit)
        else if Suspicious(inv, start.value, end.value) then Err(SuspiciousStart)
        else if end.value.None? then Err(NoEnd)
        else
          Ok(Request(start.value, end.value.value, inv.maxRawBytes, inv.chunkLimit, inv.keySampleLimit,
                     if inv.resume then loaded.value.chunks else []))
  }

  /** The end is given, or follows from the number of versions, of which there is at least one. */
  predicate AsksForRange(inv: Invocation, start: u64, end: u64) {
    || (inv.requestedEnd == Some(end) && inv.transactionsCount.None?)
    || (inv.requestedEnd.None? && inv.transactionsCount == Some(end - start + 1) && start <= end)
  }

  /** Exactly the options that make a request to record `start` to `end`. On the main network it must not reach from
      within the first billion versions beyond them, unless that is allowed. */
  lemma ResolvesIff(inv: Invocation, loaded: LoadedState, start: u64, end: u64)
    ensures
      var request := Resolve(inv, loaded);
      request.Ok? && request.value.startVersion == start && request.value.endVersion == end <==>
        && loaded.Ok? && StartOf(inv, loaded.value) == Some(start) && AsksForRange(inv, start, end)
        && inv.chunkLimit > 0
        && (inv.onMainnet && !inv.allowLowStart ==> start >= 1_000_000_000 || end < 1_000_000_000)
    ensures
      var request := Resolve(inv, loaded);
      request.Ok? ==>
        && request.value.maxRawBytes == inv.maxRawBytes && request.value.chunkLimit == inv.chunkLimit
        && request.value.keySampleLimit == inv.keySampleLimit
        && request.value.previousChunks == if inv.resume then loaded.value.chunks else []
  {
  }

  datatype InvocationResult = InvocationResult(r: Result<u64, InvocationError>, dir: DirState)

  function RecordingOf(dir: DirState, inv: Invocation, request: Request, codec: Codec): InvocationResult {
    var res := RecordFrom(dir, request, inv.network, inv.maxRawBytes, 0, 0, inv.maxRetries, codec);
    InvocationResult(if res.r.Ok? then Ok(res.r.value) else Err(RecordingFailed(res.r.error)), res.dir)
  }

  function InvocationOf(dir: DirState, inv: Invocation, loaded: LoadedState, codec: Codec): InvocationResult {
    var request := Resolve(inv, loaded);
    if request.Err? then InvocationResult(Err(request.error), dir)
    else RecordingOf(dir, inv, request.value, codec)
  }

  ghost predicate LoadedFrom(dir: DirState, loaded: LoadedState) {
    Resume.Loaded(Resume.SavedIn(dir.checkpoint), dir.files.Keys, loaded)
  }

  method LoadState(dir: RecordDir) returns (loaded: LoadedState)
    ensures LoadedFrom(dir.State(), loaded)
  {
    loaded := Resume.LoadResumeState(Resume.SavedIn(dir.checkpoint), dir.files.Keys);
  }

  method RecordLive(dir: RecordDir, inv: Invocation, request: Request, codec: Codec)
    returns (r: Result<u64, InvocationError>)
    requires request.maxRawBytes == inv.maxRawBytes
    modifies dir
    ensures InvocationResult(r, dir.State()) == RecordingOf(old(dir.State()), inv, request, codec)
  {
    var result, recording := RecordWithRetries(dir, request, inv.network, inv.maxRetries, codec);
    r := if result.Ok? then Ok(result.value) else Err(RecordingFailed(result.error));
  }

  method Record(dir: RecordDir, inv: Invocation, codec: Codec)
    returns (r: Result<u64, InvocationError>, ghost loaded: LoadedState)
    modifies dir
    ensures LoadedFrom(old(dir.State()), loaded)
    ensures InvocationResult(r, dir.State()) == InvocationOf(old(dir.State()), inv, loaded, codec)
  {
    var found := LoadState(dir);
    loaded := found;
    var request := Resolve(inv, found);
    if request.Err? {
      return Err(request.error), loaded;
    }
    r := RecordLive(dir, inv, request.value, codec);
  }

  // What happens to a directory.

  datatype Event =
    | Invoked(inv: Invocation)
    | Crashed(inv: Invocation, taken: seq<Transaction>, point: CrashPoint)
    | CheckpointReplaced(checkpoint: Option<Checkpoint>)
    | FilesLost(names: set<Bytes>, keys: set<KeyName>)

  /** A crashed invocation got as far as taking a prefix of its first stream. */
  ghost predicate CrashesTo(before: DirState, inv: Invocation, loaded: LoadedState, taken: seq<Transaction>,
                            point: CrashPoint, after: DirState, codec: Codec)
  {
    var request := Resolve(inv, loaded);
    && request.Ok? && request.value.startVersion <= request.value.endVersion
    && taken <= Delivered(inv.network(0, request.value.startVersion))
    && after == CrashOf(before, request.value, taken, point, codec)
  }

  ghost predicate Happens(before: DirState, e: Event, after: DirState, codec: Codec) {
    match e
    case Invoked(inv) =>
      exists loaded :: LoadedFrom(before, loaded) && after == InvocationOf(before, inv, loaded, codec).dir
    case Crashed(inv, taken, point) =>
      exists loaded :: LoadedFrom(before, loaded) && CrashesTo(before, inv, loaded, taken, point, after, codec)
    case CheckpointReplaced(checkpoint) => after == before.(checkpoint := checkpoint)
    case FilesLost(names, keys) => after == before.(files := before.files - names, keyFiles := before.keyFiles - keys)
  }

  predicate Invokes(e: Event) {
    e.Invoked? || e.Crashed?
  }

  /** The network of an invocation is honest. */
  ghost predicate Proper(e: Event, ledger: nat -> Transaction) {
    Invokes(e) ==> Honest(e.inv.network, ledger)
  }

  /** The states that an initially empty directory goes through. */
  ghost predicate Life(states: seq<DirState>, events: seq<Event>, ledger: nat -> Transaction, codec: Codec) {
    && |states| == |events| + 1 && states[0] == EMPTY_DIR
    && forall i: nat :: i < |events| ==> LifeStep(states, events, i, ledger, codec)
  }

  ghost predicate LifeStep(states: seq<DirState>, events: seq<Event>, i: nat, ledger: nat -> Transaction,
                           codec: Codec) {
    && i < |events| && i + 1 < |states|
    && Proper(events[i], ledger) && Happens(states[i], events[i], states[i + 1], codec)
  }

  /** A later stream of a recording is the first stream of an invocation that resumes with what is left of the budget.
      So a crash in any stream is the crash of an invocation in its first. */
  lemma LaterStreamResumes(dir: DirState, request: Request, events: seq<StreamEvent>, limit: Option<u64>, total: u64,
                           retries: nat, maxRetries: nat, inv: Invocation, loaded: LoadedState, codec: Codec)
    requires
      var run := RunOf(dir, request, events, codec);
      NextRequest(run, request, limit, total, retries, maxRetries).Some? && LoadedFrom(run.dir, loaded)
    requires inv.resume && inv.requestedEnd == Some(request.endVersion) && inv.transactionsCount.None?
    requires inv.allowLowStart && inv.chunkLimit == request.chunkLimit >= 1
    requires inv.keySampleLimit == request.keySampleLimit
    ensures
      var run := RunOf(dir, request, events, codec);
      var next := NextRequest(run, request, limit, total, retries, maxRetries).value.0;
      inv.maxRawBytes == next.maxRawBytes ==> Resolve(inv, loaded) == Ok(next)
  {
    OutcomeIsCheckpointed(dir, request, events, codec);
  }
}
