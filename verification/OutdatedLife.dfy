/** An outdated checkpoint and an overlap do come about, from an empty directory and an honest network. */
module OutdatedLife {
  import opened Prelude
  import opened Framing
  import opened RawChunks
  import opened RecordedDir
  import opened Recorder
  import opened RecorderSafety
  import opened Retries
  import opened Crashes
  import opened FirstChunks
  import opened Outdated
  import opened Invocations
  import opened Lives
  import Resume

  /** The ledger from `start` on, at most `n` transactions of it. */
  function LedgerFrom(ledger: nat -> Transaction, start: u64, n: nat): seq<Transaction> {
    seq(if start + n <= U64_LIMIT then n else U64_LIMIT - start, i requires 0 <= i => ledger(start + i))
  }

  /** A network that answers every request with at most `n` transactions. */
  function Brief(ledger: nat -> Transaction, n: nat): Network {
    (k: nat, start: u64) => [Batch(LedgerFrom(ledger, start, n))]
  }

  ghost predicate Numbered(ledger: nat -> Transaction) {
    forall v: u64 :: ledger(v).version == v
  }

  lemma BriefDelivers(ledger: nat -> Transaction, n: nat, k: nat, start: u64)
    requires Numbered(ledger)
    ensures Delivered(Brief(ledger, n)(k, start)) == LedgerFrom(ledger, start, n)
    ensures Broken !in Brief(ledger, n)(k, start) && FromLedger(LedgerFrom(ledger, start, n), start, ledger)
  {
    var events, txs := Brief(ledger, n)(k, start), LedgerFrom(ledger, start, n);
    assert Delivered(events[..0]) == [];
    forall i: nat | i < |txs|
      ensures VersionAt(txs, i) == start + i && TransactionAt(txs, i) == ledger(start + i)
    {
      assert txs[i] == ledger(start + i);
    }
  }

  lemma BriefIsHonest(ledger: nat -> Transaction, n: nat)
    requires Numbered(ledger)
    ensures Honest(Brief(ledger, n), ledger)
  {
    forall k: nat, start: u64
      ensures FromLedger(Delivered(Brief(ledger, n)(k, start)), start, ledger)
    {
      BriefDelivers(ledger, n, k, start);
    }
  }

  lemma OneIsHeld(run: RunResult, request: Request, tx: Transaction, chunks: seq<ChunkEntry>, held: seq<Transaction>,
                  codec: Codec)
    requires SafeRun(run, request, [], [tx], false, chunks, held, 0, U64_MAX, codec)
    requires |Frame(tx, codec)| <= U64_MAX && request.maxRawBytes.None? && request.startVersion == 0
    ensures held == [tx] && run.dir.checkpoint.Some?
  {
    assert [] + [tx] == [tx];
    FramesOfMore([], tx, codec);
  }

  lemma FirstRecorded(request: Request, ledger: nat -> Transaction, codec: Codec)
    returns (chunks: seq<ChunkEntry>)
    requires Numbered(ledger) && |Frame(ledger(0), codec)| <= U64_MAX
    requires request.startVersion == 0 && request.maxRawBytes.None? && request.previousChunks == []
    requires request.chunkLimit >= 1
    ensures
      var run := RunOf(EMPTY_DIR, request, Brief(ledger, 1)(0, 0), codec);
      Kept(run.dir, chunks, [ledger(0)], 0, U64_MAX, codec) && run.dir.checkpoint.Some?
  {
    var events, tx := Brief(ledger, 1)(0, 0), ledger(0);
    BriefDelivers(ledger, 1, 0, 0);
    assert LedgerFrom(ledger, 0, 1) == [tx];
    NothingRecorded(0, U64_MAX, codec);
    var held;
    chunks, held := RunIsSafe(EMPTY_DIR, request, events, [], 0, U64_MAX, codec);
    OneIsHeld(RunOf(EMPTY_DIR, request, events, codec), request, tx, chunks, held, codec);
  }

  lemma EmptyLoads()
    ensures LoadedFrom(EMPTY_DIR, Ok(Resume.ResumeState(None, None, [])))
  {
    var names := EMPTY_DIR.files.Keys;
    assert names == {};
    assert RangeListing(names, []) && Resume.Inferred([], Ok(None));
    assert Resume.InferredFrom(names, Ok(None));
  }

  /** Resumes if it can, without any limits, up to `end`. */
  function Resuming(end: u64, chunkLimit: u64, network: Network): Invocation {
    Invocation(true, Some(0), Some(end), None, false, true, None, chunkLimit, 0, 0, network)
  }

  lemma FirstInvocation(ledger: nat -> Transaction, codec: Codec)
    returns (e: Event, after: DirState, chunks: seq<ChunkEntry>)
    requires Numbered(ledger) && |Frame(ledger(0), codec)| <= U64_MAX
    ensures OnlyResumes(e) && Proper(e, ledger) && Happens(EMPTY_DIR, e, after, codec)
    ensures Kept(after, chunks, [ledger(0)], 0, U64_MAX, codec) && after.checkpoint.Some?
  {
    var inv := Resuming(1, 1, Brief(ledger, 1));
    var loaded: LoadedState := Ok(Resume.ResumeState(None, None, []));
    EmptyLoads();
    var request := Resolve(inv, loaded).value;
    after := InvocationOf(EMPTY_DIR, inv, loaded, codec).dir;
    var next := RecordingGoesOn(EMPTY_DIR, request, inv.network, None, 0, 0, 0, codec);
    chunks := FirstRecorded(request, ledger, codec);
    BriefIsHonest(ledger, 1);
    e := Invoked(inv);
  }

  lemma LoadsSaved(dir: DirState)
    requires dir.checkpoint.Some?
    ensures LoadedFrom(dir, Ok(Resume.StateIn(Resume.SavedIn(dir.checkpoint))))
  {
  }

  lemma SecondRequest(dir: DirState, chunks: seq<ChunkEntry>, ledger: nat -> Transaction, codec: Codec)
    requires Kept(dir, chunks, [ledger(0)], 0, U64_MAX, codec) && dir.checkpoint.Some?
    ensures
      var loaded: LoadedState := Ok(Resume.StateIn(Resume.SavedIn(dir.checkpoint)));
      var request := Request(1, 1, None, 1, 0, chunks);
      && Resolve(Resuming(1, 1, Brief(ledger, 1)), loaded) == Ok(request)
      && Begins(dir, request, [ledger(0)], 0, U64_MAX, codec)
  {
    var loaded: LoadedState := Ok(Resume.StateIn(Resume.SavedIn(dir.checkpoint)));
    LoadsSaved(dir);
    StartsBehind(dir, Resuming(1, 1, Brief(ledger, 1)), loaded, chunks, [ledger(0)], 0, codec);
  }

  lemma OneOutdates(dir: DirState, request: Request, log: seq<Transaction>, tx: Transaction, codec: Codec)
    requires Begins(dir, request, log, 0, U64_MAX, codec) && dir.checkpoint.Some?
    requires request.maxRawBytes.None? && request.chunkLimit >= 1 && |Frame(tx, codec)| <= U64_MAX
    requires request.startVersion == tx.version < U64_MAX
    ensures
      var after := CrashOf(dir, request, [tx], AfterRename, codec);
      OneOrphan(after, tx.version) && after.checkpoint.value.nextStart == tx.version
  {
    var txs := [tx];
    assert Frames(txs, codec) == Frames([], codec) + Frame(tx, codec) by {
      assert txs[..0] == [];
    }
    FirstRenameOutdates(dir, request, txs, codec);
    TakenInFirst(dir, request, txs, codec);
    var last := CrashLeavesOrphan(dir, request, txs, AfterRename, log, 0, U64_MAX, codec);
  }

  lemma SecondCrash(dir: DirState, chunks: seq<ChunkEntry>, ledger: nat -> Transaction, codec: Codec)
    returns (e: Event, after: DirState)
    requires Numbered(ledger) && |Frame(ledger(1), codec)| <= U64_MAX
    requires Kept(dir, chunks, [ledger(0)], 0, U64_MAX, codec) && dir.checkpoint.Some?
    ensures OnlyResumes(e) && Proper(e, ledger) && Happens(dir, e, after, codec)
    ensures OneOrphan(after, 1) && after.checkpoint.value.nextStart == 1
  {
    var loaded: LoadedState := Ok(Resume.StateIn(Resume.SavedIn(dir.checkpoint)));
    var request, taken := Request(1, 1, None, 1, 0, chunks), [ledger(1)];
    LoadsSaved(dir);
    SecondRequest(dir, chunks, ledger, codec);
    BriefDelivers(ledger, 1, 0, 1);
    assert LedgerFrom(ledger, 1, 1) == taken;
    after := CrashOf(dir, request, taken, AfterRename, codec);
    assert CrashesTo(dir, Resuming(1, 1, Brief(ledger, 1)), loaded, taken, AfterRename, after, codec);
    OneOutdates(dir, request, [ledger(0)], ledger(1), codec);
    BriefIsHonest(ledger, 1);
    e := Crashed(Resuming(1, 1, Brief(ledger, 1)), taken, AfterRename);
  }

  lemma ThirdOverlaps(dir: DirState, ledger: nat -> Transaction, codec: Codec)
    returns (e: Event, after: DirState)
    requires Numbered(ledger) && |Frames(LedgerFrom(ledger, 1, 2), codec)| <= U64_MAX
    requires OneOrphan(dir, 1) && dir.checkpoint.value.nextStart == 1
    ensures OnlyResumes(e) && Proper(e, ledger) && Happens(dir, e, after, codec) && Overlapping(after.files)
  {
    var inv, loaded: LoadedState :=
      Resuming(2, 2, Brief(ledger, 2)), Ok(Resume.StateIn(Resume.SavedIn(dir.checkpoint)));
    LoadsSaved(dir);
    var request := Resolve(inv, loaded).value;
    after := InvocationOf(dir, inv, loaded, codec).dir;
    BriefDelivers(ledger, 2, 0, 1);
    AllInFirstChunk(request, LedgerFrom(ledger, 1, 2), codec);
    ResumedRecording(dir, request, inv.network, None, 0, 0, 0, 1, codec);
    BriefIsHonest(ledger, 2);
    e := Invoked(inv);
  }

  ghost predicate LeadsTo(states: seq<DirState>, events: seq<Event>, dir: DirState, ledger: nat -> Transaction,
                          codec: Codec) {
    && Life(states, events, ledger, codec) && states[|events|] == dir
    && forall e :: e in events ==> OnlyResumes(e)
  }

  /** The recorder, always asked to resume, can leave an initially empty directory like this. */
  ghost predicate Reachable(dir: DirState, ledger: nat -> Transaction, codec: Codec) {
    exists states, events :: LeadsTo(states, events, dir, ledger, codec)
  }

  lemma LifeGoesOn(states: seq<DirState>, events: seq<Event>, e: Event, next: DirState, ledger: nat -> Transaction,
                   codec: Codec)
    requires Life(states, events, ledger, codec)
    requires Proper(e, ledger) && Happens(states[|events|], e, next, codec)
    ensures Life(states + [next], events + [e], ledger, codec)
  {
    var longer, more := states + [next], events + [e];
    forall i: nat | i < |more|
      ensures LifeStep(longer, more, i, ledger, codec)
    {
      assert i < |events| ==> LifeStep(states, events, i, ledger, codec);
    }
  }

  lemma ReachesNext(dir: DirState, e: Event, next: DirState, ledger: nat -> Transaction, codec: Codec)
    requires Reachable(dir, ledger, codec)
    requires OnlyResumes(e) && Proper(e, ledger) && Happens(dir, e, next, codec)
    ensures Reachable(next, ledger, codec)
  {
    var states, events :| LeadsTo(states, events, dir, ledger, codec);
    LifeGoesOn(states, events, e, next, ledger, codec);
    assert LeadsTo(states + [next], events + [e], next, ledger, codec);
  }

  /** Whatever the ledger: a second invocation can crash behind its first rename, and a third, which asks for larger
      chunks, then writes an overlapping one. */
  lemma OutdatedIsReachable(ledger: nat -> Transaction, codec: Codec)
    returns (crashed: DirState, overlapping: DirState)
    requires Numbered(ledger) && |Frame(ledger(0), codec)| <= U64_MAX && |Frame(ledger(1), codec)| <= U64_MAX
    requires |Frames(LedgerFrom(ledger, 1, 2), codec)| <= U64_MAX
    ensures Reachable(crashed, ledger, codec) && OneOrphan(crashed, 1)
    ensures Reachable(overlapping, ledger, codec) && Overlapping(overlapping.files)
  {
    assert LeadsTo([EMPTY_DIR], [], EMPTY_DIR, ledger, codec);
    var first, dir, chunks := FirstInvocation(ledger, codec);
    ReachesNext(EMPTY_DIR, first, dir, ledger, codec);
    var second, third;
    second, crashed := SecondCrash(dir, chunks, ledger, codec);
    ReachesNext(dir, second, crashed, ledger, codec);
    third, overlapping := ThirdOverlaps(crashed, ledger, codec);
    ReachesNext(crashed, third, overlapping, ledger, codec);
  }
}
