/** Whatever state a directory is in, each of its chunk files holds exactly the versions of the ledger that its name
    says: no run, retry or crash ever adds a file for which that does not hold. */
module LedgerFiles {
  import opened Prelude
  import opened Framing
  import opened RawChunks
  import opened RecordedDir
  import opened Recorder
  import opened Retries
  import opened Crashes

  /** A stretch of the ledger, from wherever it starts. */
  ghost predicate Stretch(txs: seq<Transaction>, ledger: nat -> Transaction) {
    txs != [] ==> FromLedger(txs, VersionAt(txs, 0), ledger)
  }

  ghost predicate TrueFile(name: Bytes, contents: Bytes, ledger: nat -> Transaction, codec: Codec) {
    exists txs :: Holds(txs, name, contents, ledger, codec)
  }

  ghost predicate Holds(txs: seq<Transaction>, name: Bytes, contents: Bytes, ledger: nat -> Transaction, codec: Codec) {
    txs != [] && Stretch(txs, ledger) && name == EntryFor(txs).path && contents == Frames(txs, codec)
  }

  ghost predicate TrueFiles(files: map<Bytes, Bytes>, ledger: nat -> Transaction, codec: Codec) {
    forall name :: name in files ==> TrueFile(name, files[name], ledger, codec)
  }

  /** A run whose open chunk is a stretch of the ledger as well, up to `next` if the run still goes on. */
  ghost predicate TrueRun(s: Session, request: Request, next: nat, ledger: nat -> Transaction, codec: Codec) {
    && TrueFiles(s.dir.files, ledger, codec) && Stretch(s.open, ledger)
    && (!Stopped(s, request) && s.open != [] ==> VersionAt(s.open, |s.open| - 1) + 1 == next)
  }

  lemma OneMoreStretches(txs: seq<Transaction>, tx: Transaction, ledger: nat -> Transaction)
    requires Stretch(txs, ledger) && tx == ledger(tx.version)
    requires txs != [] ==> VersionAt(txs, |txs| - 1) + 1 == tx.version
    ensures Stretch(txs + [tx], ledger)
  {
    var longer := txs + [tx];
    var start: nat := VersionAt(longer, 0);
    forall i: nat | i < |longer|
      ensures VersionAt(longer, i) == start + i && TransactionAt(longer, i) == ledger(start + i)
    {
      if i < |txs| {
        assert VersionAt(longer, i) == VersionAt(txs, i) && TransactionAt(longer, i) == TransactionAt(txs, i);
      } else if txs != [] {
        assert VersionAt(txs, i - 1) == start + i - 1;
      }
    }
  }

  lemma FinishIsTrue(s: Session, ledger: nat -> Transaction, codec: Codec)
    requires TrueFiles(s.dir.files, ledger, codec) && Stretch(s.open, ledger)
    ensures TrueFiles(Finish(s, codec).dir.files, ledger, codec)
  {
    if s.open != [] {
      assert Holds(s.open, EntryFor(s.open).path, Frames(s.open, codec), ledger, codec);
    }
  }

  lemma AddIsTrue(s: Session, request: Request, tx: Transaction, ledger: nat -> Transaction, codec: Codec)
    requires TrueRun(s, request, tx.version, ledger, codec) && !Stopped(s, request) && tx == ledger(tx.version)
    ensures TrueRun(Add(s, tx, codec), request, tx.version + 1, ledger, codec)
  {
    OneMoreStretches(s.open, tx, ledger);
  }

  lemma StepIsTrue(s: Session, request: Request, tx: Transaction, ledger: nat -> Transaction, codec: Codec)
    requires TrueRun(s, request, tx.version, ledger, codec) && !Stopped(s, request) && tx == ledger(tx.version)
    ensures TrueRun(Step(s, request, tx, codec), request, tx.version + 1, ledger, codec)
  {
    AddIsTrue(s, request, tx, ledger, codec);
    FinishIsTrue(Add(s, tx, codec), ledger, codec);
  }

  lemma LedgerEnd(txs: seq<Transaction>, start: nat, ledger: nat -> Transaction)
    requires FromLedger(txs, start, ledger) && txs != []
    ensures FromLedger(txs[..|txs| - 1], start, ledger)
    ensures txs[|txs| - 1].version == start + |txs| - 1 && txs[|txs| - 1] == ledger(txs[|txs| - 1].version)
  {
    PrefixOfLedger(txs[..|txs| - 1], txs, start, ledger);
    assert VersionAt(txs, |txs| - 1) == start + |txs| - 1;
    assert TransactionAt(txs, |txs| - 1) == ledger(start + |txs| - 1);
  }

  lemma {:induction false} StepsAreTrue(dir: DirState, request: Request, txs: seq<Transaction>, start: nat,
                                        ledger: nat -> Transaction, codec: Codec)
    requires TrueFiles(dir.files, ledger, codec) && FromLedger(txs, start, ledger)
    ensures TrueRun(Steps(Start(dir, request), request, txs, codec), request, start + |txs|, ledger, codec)
  {
    if txs != [] {
      var init := txs[..|txs| - 1];
      LedgerEnd(txs, start, ledger);
      StepsAreTrue(dir, request, init, start, ledger, codec);
      var before := Steps(Start(dir, request), request, init, codec);
      if !Stopped(before, request) {
        StepIsTrue(before, request, txs[|txs| - 1], ledger, codec);
      }
    }
  }

  lemma CloseIsTrue(s: Session, request: Request, status: Status, stopped: bool, ledger: nat -> Transaction,
                    codec: Codec)
    requires TrueFiles(s.dir.files, ledger, codec) && Stretch(s.open, ledger) && s.run.last.Some?
    ensures TrueFiles(Close(s, request, status, stopped, codec).dir.files, ledger, codec)
  {
    FinishIsTrue(s, ledger, codec);
  }

  lemma EndingIsTrue(s: Session, request: Request, delivered: seq<Transaction>, broken: bool,
                     ledger: nat -> Transaction, codec: Codec)
    requires TrueFiles(s.dir.files, ledger, codec) && Stretch(s.open, ledger)
    ensures TrueFiles(Ending(s, request, delivered, broken, codec).dir.files, ledger, codec)
  {
    if s.run.last.Some? {
      CloseIsTrue(s, request, Partial, false, ledger, codec);
      CloseIsTrue(s, request, Complete, AtLimit(request, s.run.raw) && delivered != [], ledger, codec);
    }
  }

  /** Whatever the directory, the checkpoint and the start. */
  lemma RunIsTrue(dir: DirState, request: Request, events: seq<StreamEvent>, ledger: nat -> Transaction, codec: Codec)
    requires TrueFiles(dir.files, ledger, codec)
    requires FromLedger(Delivered(events), request.startVersion, ledger)
    ensures TrueFiles(RunOf(dir, request, events, codec).dir.files, ledger, codec)
  {
    var delivered := Delivered(events);
    StepsAreTrue(dir, request, delivered, request.startVersion, ledger, codec);
    EndingIsTrue(Steps(Start(dir, request), request, delivered, codec), request, delivered, Broken in events, ledger,
      codec);
  }

  lemma FirstRunIsTrue(dir: DirState, request: Request, network: Network, n: nat, ledger: nat -> Transaction,
                       codec: Codec)
    requires TrueFiles(dir.files, ledger, codec) && Honest(network, ledger)
    ensures TrueFiles(RunOf(dir, request, network(n, request.startVersion), codec).dir.files, ledger, codec)
  {
    RunIsTrue(dir, request, network(n, request.startVersion), ledger, codec);
  }

  lemma RecordingIsTrue(dir: DirState, request: Request, network: Network, ledger: nat -> Transaction,
                        limit: Option<u64>, total: u64, retries: nat, maxRetries: nat, codec: Codec)
    requires retries <= maxRetries && TrueFiles(dir.files, ledger, codec) && Honest(network, ledger)
    ensures TrueFiles(RecordFrom(dir, request, network, limit, total, retries, maxRetries, codec).dir.files, ledger,
                      codec)
  {
    var keeps := (d: DirState) => TrueFiles(d.files, ledger, codec);
    forall before, next: Request, n: nat
      ensures RunKeeps(keeps, before, next, network, n, codec)
    {
      if keeps(before) {
        FirstRunIsTrue(before, next, network, n, ledger, codec);
      }
    }
    RecordingKeeps(keeps, dir, request, network, limit, total, retries, maxRetries, codec);
  }

  lemma TakenIsTrue(dir: DirState, request: Request, txs: seq<Transaction>, start: nat, ledger: nat -> Transaction,
                    codec: Codec)
    requires TrueFiles(dir.files, ledger, codec) && FromLedger(txs, start, ledger)
    ensures TrueRun(TakenSoFar(Start(dir, request), request, txs, codec), request, start + |txs|, ledger, codec)
  {
    if txs != [] {
      var init := txs[..|txs| - 1];
      LedgerEnd(txs, start, ledger);
      StepsAreTrue(dir, request, init, start, ledger, codec);
      var before := Steps(Start(dir, request), request, init, codec);
      if !Stopped(before, request) {
        AddIsTrue(before, request, txs[|txs| - 1], ledger, codec);
      }
    }
  }

  lemma CrashIsTrue(dir: DirState, request: Request, txs: seq<Transaction>, point: CrashPoint,
                    ledger: nat -> Transaction, codec: Codec)
    requires TrueFiles(dir.files, ledger, codec) && FromLedger(txs, request.startVersion, ledger)
    ensures TrueFiles(CrashOf(dir, request, txs, point, codec).files, ledger, codec)
  {
    TakenIsTrue(dir, request, txs, request.startVersion, ledger, codec);
    StepsAreTrue(dir, request, txs, request.startVersion, ledger, codec);
    FinishIsTrue(InterruptedAt(dir, request, txs, point, codec), ledger, codec);
  }
}
