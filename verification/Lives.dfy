/** What a directory holds over its life: always the truth, in an orderly life the whole truth, and behind an outdated
    checkpoint nothing more. */
module Lives {
  import opened Prelude
  import opened Framing
  import opened RawChunks
  import opened RecordedDir
  import opened Recorder
  import opened RecorderSafety
  import opened Retries
  import opened Crashes
  import opened FirstChunks
  import opened Outdated
  import opened LedgerFiles
  import opened Invocations
  import Lists
  import Resume

  // At every time every file is true.

  lemma ResolvedHonestly(inv: Invocation, loaded: LoadedState, taken: seq<Transaction>, ledger: nat -> Transaction)
    requires Resolve(inv, loaded).Ok? && Honest(inv.network, ledger)
    requires taken <= Delivered(inv.network(0, Resolve(inv, loaded).value.startVersion))
    ensures FromLedger(taken, Resolve(inv, loaded).value.startVersion, ledger)
  {
    var start := Resolve(inv, loaded).value.startVersion;
    PrefixOfLedger(taken, Delivered(inv.network(0, start)), start, ledger);
  }

  lemma EventIsTrue(dir: DirState, e: Event, next: DirState, ledger: nat -> Transaction, codec: Codec)
    requires Proper(e, ledger) && Happens(dir, e, next, codec) && TrueFiles(dir.files, ledger, codec)
    ensures TrueFiles(next.files, ledger, codec)
  {
    match e
    case Invoked(inv) =>
      var loaded :| LoadedFrom(dir, loaded) && next == InvocationOf(dir, inv, loaded, codec).dir;
      if Resolve(inv, loaded).Ok? {
        RecordingIsTrue(dir, Resolve(inv, loaded).value, inv.network, ledger, inv.maxRawBytes, 0, 0, inv.maxRetries,
          codec);
      }
    case Crashed(inv, taken, point) =>
      var loaded :| LoadedFrom(dir, loaded) && CrashesTo(dir, inv, loaded, taken, point, next, codec);
      ResolvedHonestly(inv, loaded, taken, ledger);
      CrashIsTrue(dir, Resolve(inv, loaded).value, taken, point, ledger, codec);
    case _ =>
  }

  /** Whatever happens to a directory, each of its chunk files holds exactly the versions of the ledger that it is
      named after: wherever the recorder starts, resumed or not, though checkpoints are lost or exchanged for others,
      files are lost, and the recorder crashes wherever it may. */
  lemma {:induction false} LifeIsTrue(states: seq<DirState>, events: seq<Event>, n: nat, ledger: nat -> Transaction,
                                      codec: Codec)
    requires Life(states, events, ledger, codec) && n < |states|
    ensures TrueFiles(states[n].files, ledger, codec)
  {
    if n > 0 {
      LifeIsTrue(states, events, n - 1, ledger, codec);
      assert LifeStep(states, events, n - 1, ledger, codec);
      EventIsTrue(states[n - 1], events[n - 1], states[n], ledger, codec);
    }
  }

  /** Only losing files takes any away. */
  lemma EventGrows(dir: DirState, e: Event, next: DirState, codec: Codec)
    requires Happens(dir, e, next, codec) && !e.FilesLost?
    ensures Grown(dir.files, next.files)
  {
    match e
    case Invoked(inv) =>
      var loaded :| LoadedFrom(dir, loaded) && next == InvocationOf(dir, inv, loaded, codec).dir;
      if Resolve(inv, loaded).Ok? {
        RecordingGrows(dir, Resolve(inv, loaded).value, inv.network, inv.maxRawBytes, 0, 0, inv.maxRetries, codec);
      }
    case Crashed(inv, taken, point) =>
      var loaded :| LoadedFrom(dir, loaded) && CrashesTo(dir, inv, loaded, taken, point, next, codec);
      CrashGrows(dir, Resolve(inv, loaded).value, taken, point, codec);
    case _ =>
  }

  // What an orderly life keeps besides.

  /** The recorder starts afresh only in an empty directory, checkpoints are only lost, and no crash outdates one. */
  ghost predicate Orderly(dir: DirState, e: Event, codec: Codec) {
    match e
    case Invoked(inv) => inv.resume || dir == EMPTY_DIR
    case Crashed(inv, taken, point) =>
      && (inv.resume || dir == EMPTY_DIR)
      && forall loaded :: LoadedFrom(dir, loaded) && Resolve(inv, loaded).Ok? ==>
           !OutdatesCheckpoint(dir, Resolve(inv, loaded).value, taken, point, codec)
    case CheckpointReplaced(checkpoint) => checkpoint.None?
    case FilesLost(_, _) => false
  }

  ghost predicate OrderlyLife(states: seq<DirState>, events: seq<Event>, ledger: nat -> Transaction, codec: Codec) {
    Life(states, events, ledger, codec) && forall i: nat :: i < |events| ==> OrderlyStep(states, events, i, codec)
  }

  ghost predicate OrderlyStep(states: seq<DirState>, events: seq<Event>, i: nat, codec: Codec) {
    i < |events| && i < |states| && Orderly(states[i], events[i], codec)
  }

  /** The ledger from `origin` on, in chunks. */
  ghost predicate Holding(dir: DirState, chunks: seq<ChunkEntry>, held: seq<Transaction>, origin: nat,
                          ledger: nat -> Transaction, codec: Codec)
  {
    Kept(dir, chunks, held, origin, U64_MAX, codec) && FromLedger(held, origin, ledger)
  }

  lemma EmptyHolding(dir: DirState, chunks: seq<ChunkEntry>, origin: nat, codec: Codec)
    requires Kept(dir, chunks, [], origin, U64_MAX, codec) && origin <= U64_MAX
    ensures dir == EMPTY_DIR && chunks == []
  {
    Resume.EmptyPartition(chunks, origin, U64_MAX);
    assert dir.files.Keys == {};
    forall k: KeyName, contents: Bytes
      ensures !KeyFileSound(k, contents, origin, origin)
    {
    }
    assert forall k :: k !in dir.keyFiles;
    forall s: Snapshot
      ensures !SoundSnapshot(s, [], origin, U64_MAX, codec)
    {
    }
    assert forall s :: s !in dir.history;
    Lists.HasMember(dir.history);
  }

  lemma EmptyIsHolding(origin: nat, ledger: nat -> Transaction, codec: Codec)
    ensures Holding(EMPTY_DIR, [], [], origin, ledger, codec)
  {
    NothingRecorded(origin, U64_MAX, codec);
  }

  /** A directory that holds something loads exactly that and resumes behind it; one that holds nothing starts
      where it is asked to, and so does a recorder that does not resume. */
  lemma StartsBehind(dir: DirState, inv: Invocation, loaded: LoadedState, chunks: seq<ChunkEntry>,
                     held: seq<Transaction>, origin: nat, codec: Codec)
    requires LoadedFrom(dir, loaded)
    requires Kept(dir, chunks, held, origin, U64_MAX, codec) && origin + |held| <= U64_MAX
    ensures loaded.Ok? && loaded.value.chunks == chunks
    ensures held == [] <==> dir == EMPTY_DIR
    ensures
      var asked := inv.requestedStart;
      StartOf(inv, loaded.value) ==
        if inv.resume && held != [] then Some(origin + |held|)
        else if inv.resume || asked.Some? then asked
        else Some(0)
  {
    if held == [] {
      EmptyHolding(dir, chunks, origin, codec);
    } else {
      PartitionBounds(chunks, origin, origin + |held|, U64_MAX);
      Lists.HasMember(held);
    }
    Resume.LoadedIsExact(dir.checkpoint, dir.files.Keys, chunks, held, origin, U64_MAX, loaded);
  }

  /** Behind what the directory holds, or wherever it is asked to when that is nothing. */
  lemma ResolvesBehind(dir: DirState, inv: Invocation, loaded: LoadedState, chunks: seq<ChunkEntry>,
                       held: seq<Transaction>, origin: nat, ledger: nat -> Transaction, codec: Codec)
    returns (start: nat)
    requires LoadedFrom(dir, loaded) && (inv.resume || dir == EMPTY_DIR) && Resolve(inv, loaded).Ok?
    requires Holding(dir, chunks, held, origin, ledger, codec) && origin + |held| <= U64_MAX
    ensures held != [] ==> start == origin
    ensures
      var request := Resolve(inv, loaded).value;
      && 1 <= request.chunkLimit && start + |held| == request.startVersion && request.maxRawBytes == inv.maxRawBytes
      && Holding(dir, request.previousChunks, held, start, ledger, codec)
  {
    StartsBehind(dir, inv, loaded, chunks, held, origin, codec);
    start := origin;
    if held == [] {
      EmptyHolding(dir, chunks, origin, codec);
      start := Resolve(inv, loaded).value.startVersion;
      EmptyIsHolding(start, ledger, codec);
    }
  }

  lemma RecordsBehind(dir: DirState, request: Request, inv: Invocation, ledger: nat -> Transaction,
                      log: seq<Transaction>, origin: nat, codec: Codec)
    returns (chunks: seq<ChunkEntry>, held: seq<Transaction>)
    requires Honest(inv.network, ledger) && request.chunkLimit >= 1 && request.maxRawBytes == inv.maxRawBytes
    requires origin + |log| == request.startVersion
    requires Holding(dir, request.previousChunks, log, origin, ledger, codec)
    ensures log <= held
    ensures
      var res := RecordFrom(dir, request, inv.network, inv.maxRawBytes, 0, 0, inv.maxRetries, codec);
      Holding(res.dir, chunks, held, origin, ledger, codec)
  {
    assert log[|log|..] == [];
    chunks, held := RecordingIsSafe(dir, request, inv.network, ledger, inv.maxRawBytes, 0, 0, inv.maxRetries,
                                    log, |log|, origin, U64_MAX, codec);
  }

  /** An invocation leaves a longer holding. */
  lemma InvokedKeeps(dir: DirState, inv: Invocation, loaded: LoadedState, ledger: nat -> Transaction,
                     chunks: seq<ChunkEntry>, held: seq<Transaction>, origin: nat, codec: Codec)
    returns (start: nat, after: seq<ChunkEntry>, more: seq<Transaction>)
    requires LoadedFrom(dir, loaded) && (inv.resume || dir == EMPTY_DIR) && Honest(inv.network, ledger)
    requires Holding(dir, chunks, held, origin, ledger, codec) && origin + |held| <= U64_MAX
    ensures held != [] ==> start == origin && held <= more
    ensures Holding(InvocationOf(dir, inv, loaded, codec).dir, after, more, start, ledger, codec)
  {
    start, after, more := origin, chunks, held;
    if Resolve(inv, loaded).Ok? {
      start := ResolvesBehind(dir, inv, loaded, chunks, held, origin, ledger, codec);
      after, more := RecordsBehind(dir, Resolve(inv, loaded).value, inv, ledger, held, start, codec);
    }
  }

  lemma CrashesBehind(dir: DirState, request: Request, txs: seq<Transaction>, point: CrashPoint, log: seq<Transaction>,
                      origin: nat, ledger: nat -> Transaction, codec: Codec)
    returns (chunks: seq<ChunkEntry>, held: seq<Transaction>)
    requires request.chunkLimit >= 1 && origin + |log| == request.startVersion
    requires Holding(dir, request.previousChunks, log, origin, ledger, codec)
    requires FromLedger(txs, request.startVersion, ledger) && !OutdatesCheckpoint(dir, request, txs, point, codec)
    ensures log <= held
    ensures Holding(CrashOf(dir, request, txs, point, codec), chunks, held, origin, ledger, codec)
  {
    chunks, held := CrashIsKept(dir, request, txs, point, log, origin, U64_MAX, codec);
    LedgerGrows(log, txs, held, origin, ledger);
  }

  lemma CrashKeeps(dir: DirState, inv: Invocation, loaded: LoadedState, taken: seq<Transaction>, point: CrashPoint,
                   next: DirState, ledger: nat -> Transaction, chunks: seq<ChunkEntry>, held: seq<Transaction>,
                   origin: nat, codec: Codec)
    returns (start: nat, after: seq<ChunkEntry>, more: seq<Transaction>)
    requires LoadedFrom(dir, loaded) && Orderly(dir, Crashed(inv, taken, point), codec)
    requires Honest(inv.network, ledger) && CrashesTo(dir, inv, loaded, taken, point, next, codec)
    requires Holding(dir, chunks, held, origin, ledger, codec) && origin + |held| <= U64_MAX
    ensures held != [] ==> start == origin && held <= more
    ensures Holding(next, after, more, start, ledger, codec)
  {
    start := ResolvesBehind(dir, inv, loaded, chunks, held, origin, ledger, codec);
    ResolvedHonestly(inv, loaded, taken, ledger);
    after, more := CrashesBehind(dir, Resolve(inv, loaded).value, taken, point, held, start, ledger, codec);
  }

  lemma EventKeeps(dir: DirState, e: Event, next: DirState, ledger: nat -> Transaction, chunks: seq<ChunkEntry>,
                   held: seq<Transaction>, origin: nat, codec: Codec)
    returns (start: nat, after: seq<ChunkEntry>, more: seq<Transaction>)
    requires Proper(e, ledger) && Orderly(dir, e, codec) && Happens(dir, e, next, codec)
    requires Holding(dir, chunks, held, origin, ledger, codec) && origin + |held| <= U64_MAX
    ensures held != [] ==> start == origin && held <= more
    ensures Holding(next, after, more, start, ledger, codec)
  {
    match e
    case Invoked(inv) =>
      var loaded :| LoadedFrom(dir, loaded) && next == InvocationOf(dir, inv, loaded, codec).dir;
      start, after, more := InvokedKeeps(dir, inv, loaded, ledger, chunks, held, origin, codec);
    case Crashed(inv, taken, point) =>
      var loaded :| LoadedFrom(dir, loaded) && CrashesTo(dir, inv, loaded, taken, point, next, codec);
      start, after, more := CrashKeeps(dir, inv, loaded, taken, point, next, ledger, chunks, held, origin, codec);
    case CheckpointReplaced(_) =>
      start, after, more := origin, chunks, held;
  }

  /** However often the recorder is invoked, with whatever ends, budgets, chunk sizes, retries and breaks, and
      though it crashes and checkpoints are lost: at every time of an orderly life the chunk files are exactly the
      ledger from some origin up to some version, once each and in order. Only after the largest version is there no
      telling. */
  lemma {:induction false} LifeIsSafe(states: seq<DirState>, events: seq<Event>, n: nat, ledger: nat -> Transaction,
                                      codec: Codec)
    returns (last: nat, origin: nat, chunks: seq<ChunkEntry>, held: seq<Transaction>)
    requires OrderlyLife(states, events, ledger, codec) && n < |states|
    ensures last <= n && Holding(states[last], chunks, held, origin, ledger, codec)
    ensures last == n || origin + |held| > U64_MAX
  {
    if n == 0 {
      last, origin, chunks, held := 0, 0, [], [];
      EmptyIsHolding(0, ledger, codec);
    } else {
      last, origin, chunks, held := LifeIsSafe(states, events, n - 1, ledger, codec);
      if origin + |held| <= U64_MAX {
        assert LifeStep(states, events, last, ledger, codec) && OrderlyStep(states, events, last, codec);
        origin, chunks, held := EventKeeps(states[last], events[last], states[n], ledger, chunks, held, origin, codec);
        last := n;
      }
    }
  }

  // What becomes of a directory whose checkpoint is outdated.

  /** The recorder only resumes. */
  predicate OnlyResumes(e: Event) {
    Invokes(e) && e.inv.resume
  }

  lemma LoadsCheckpoint(dir: DirState, inv: Invocation, loaded: LoadedState)
    requires LoadedFrom(dir, loaded) && dir.checkpoint.Some? && inv.resume
    ensures Resolve(inv, loaded).Ok? ==> Resumes(dir, Resolve(inv, loaded).value)
  {
  }

  lemma OrphanEvent(dir: DirState, e: Event, next: DirState, last: u64, ledger: nat -> Transaction, codec: Codec)
    requires OnlyResumes(e) && Proper(e, ledger) && Happens(dir, e, next, codec) && Orphan(dir, last)
    ensures next == dir || Overlapping(next.files)
  {
    match e
    case Invoked(inv) =>
      var loaded :| LoadedFrom(dir, loaded) && next == InvocationOf(dir, inv, loaded, codec).dir;
      LoadsCheckpoint(dir, inv, loaded);
      if Resolve(inv, loaded).Ok? {
        ResumedRecording(dir, Resolve(inv, loaded).value, inv.network, inv.maxRawBytes, 0, 0, inv.maxRetries, last,
          codec);
      }
    case Crashed(inv, taken, point) =>
      var loaded :| LoadedFrom(dir, loaded) && CrashesTo(dir, inv, loaded, taken, point, next, codec);
      LoadsCheckpoint(dir, inv, loaded);
      ResolvedHonestly(inv, loaded, taken, ledger);
      ResumedCrash(dir, Resolve(inv, loaded).value, taken, point, last, codec);
  }

  /** However often a recorder resumes from an outdated checkpoint, and though it crashes again: the directory stays
      exactly as it is, or two of its chunks overlap from some time on. */
  lemma {:induction false} OrphanStaysOrOverlaps(states: seq<DirState>, events: seq<Event>, from: nat, n: nat,
                                                 last: u64, ledger: nat -> Transaction, codec: Codec)
    requires Life(states, events, ledger, codec) && from <= n < |states| && Orphan(states[from], last)
    requires forall i: nat :: from <= i < n ==> OnlyResumes(events[i])
    ensures states[n] == states[from] || Overlapping(states[n].files)
  {
    if n > from {
      OrphanStaysOrOverlaps(states, events, from, n - 1, last, ledger, codec);
      assert LifeStep(states, events, n - 1, ledger, codec);
      if states[n - 1] == states[from] {
        OrphanEvent(states[n - 1], events[n - 1], states[n], last, ledger, codec);
      } else {
        EventGrows(states[n - 1], events[n - 1], states[n], codec);
        GrownStaysOverlapping(states[n - 1].files, states[n].files);
      }
    }
  }
}
