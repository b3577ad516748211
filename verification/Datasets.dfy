/** What the normalizer makes of a directory at any time of its life. */
module Datasets {
  import opened Prelude
  import opened Framing
  import opened ChunkNames
  import opened RawChunks
  import opened RecordedDir
  import opened Normalizer
  import opened Recorder
  import opened Retries
  import opened Crashes
  import opened LedgerFiles
  import opened Outdated
  import opened Completeness
  import opened Invocations
  import opened Lives

  // Every accepted dataset is a stretch of the ledger.

  /** Each row is the ledger's transaction of its version. */
  ghost predicate TrueRows(rows: seq<Transaction>, ledger: nat -> Transaction) {
    forall i: nat :: i < |rows| ==> TransactionAt(rows, i) == ledger(VersionAt(rows, i))
  }

  lemma TrueRowsAppend(a: seq<Transaction>, b: seq<Transaction>, ledger: nat -> Transaction)
    requires TrueRows(a, ledger) && TrueRows(b, ledger)
    ensures TrueRows(a + b, ledger)
  {
    forall i: nat | i < |a + b|
      ensures TransactionAt(a + b, i) == ledger(VersionAt(a + b, i))
    {
      if i < |a| {
        assert TransactionAt(a + b, i) == TransactionAt(a, i);
      } else {
        assert TransactionAt(a + b, i) == TransactionAt(b, i - |a|);
      }
    }
  }

  /** A true file reads back as rows of the ledger. */
  lemma TrueFileReads(name: Bytes, contents: Bytes, ledger: nat -> Transaction, codec: Codec)
    requires codec.Faithful() && TrueFile(name, contents, ledger, codec)
    ensures TrueRows(ReadAll(contents, codec).txs, ledger)
  {
    var txs :| Holds(txs, name, contents, ledger, codec);
    FramesRoundTrip(txs, codec);
    forall i: nat | i < |txs|
      ensures TransactionAt(txs, i) == ledger(VersionAt(txs, i))
    {
      assert VersionAt(txs, i) == VersionAt(txs, 0) + i;
    }
  }

  ghost predicate TrueInput(input: RawInput, ledger: nat -> Transaction, codec: Codec) {
    TrueFile(input.name, input.contents, ledger, codec)
  }

  lemma {:induction false} TrueInputsDecode(inputs: seq<RawInput>, ledger: nat -> Transaction, codec: Codec)
    requires codec.Faithful() && forall input :: input in inputs ==> TrueInput(input, ledger, codec)
    ensures TrueRows(Decoded(inputs, codec), ledger)
  {
    if inputs != [] {
      var init, input := inputs[..|inputs| - 1], inputs[|inputs| - 1];
      TrueInputsDecode(init, ledger, codec);
      assert TrueInput(input, ledger, codec);
      TrueFileReads(input.name, input.contents, ledger, codec);
      TrueRowsAppend(Decoded(init, codec), ReadAll(input.contents, codec).txs, ledger);
    }
  }

  lemma ListedInputsAreTrue(files: map<Bytes, Bytes>, listing: seq<Bytes>, ledger: nat -> Transaction, codec: Codec)
    requires TrueFiles(files, ledger, codec) && ChunkListing(files.Keys, listing)
    ensures forall input :: input in InputsOf(files, listing) ==> TrueInput(input, ledger, codec)
  {
    var inputs := InputsOf(files, listing);
    forall input | input in inputs
      ensures TrueInput(input, ledger, codec)
    {
      var i :| 0 <= i < |inputs| && inputs[i] == input;
      assert listing[i] in listing;
    }
  }

  lemma TrueRowsAreLedger(rows: seq<Transaction>, start: nat, ledger: nat -> Transaction)
    requires TrueRows(rows, ledger) && Consecutive(rows, start)
    ensures FromLedger(rows, start, ledger)
  {
    forall i: nat | i < |rows|
      ensures TransactionAt(rows, i) == ledger(start + i)
    {
      assert VersionAt(rows, i) == start + i;
    }
  }

  /** An accepted dataset is the ledger from some version to some version. */
  ghost predicate LedgerDataset(dataset: Dataset, ledger: nat -> Transaction) {
    && dataset.rows != [] && FromLedger(dataset.rows, dataset.manifest.startVersion, ledger)
    && dataset.manifest.endVersion == Some(dataset.manifest.startVersion + |dataset.rows| - 1)
    && (ManifestRangeOk(dataset.manifest) <==> |dataset.rows| < U64_LIMIT)
  }

  lemma TrueRowsDescribe(dataset: Dataset, rows: seq<Transaction>, ledger: nat -> Transaction)
    requires rows != [] && Consecutive(rows, VersionAt(rows, 0)) && TrueRows(rows, ledger) && Describes(dataset, rows)
    ensures LedgerDataset(dataset, ledger)
  {
    TrueRowsAreLedger(rows, VersionAt(rows, 0), ledger);
    ManifestOfConsecutive(dataset, VersionAt(rows, 0));
  }

  lemma TrueFilesNormalize(files: map<Bytes, Bytes>, listing: seq<Bytes>, ledger: nat -> Transaction, codec: Codec,
                           parses: Transaction -> bool, dataset: Dataset)
    requires codec.Faithful() && TrueFiles(files, ledger, codec) && ChunkListing(files.Keys, listing)
    requires Acceptable(InputsOf(files, listing), true, codec, parses)
    requires Describes(dataset, Decoded(InputsOf(files, listing), codec))
    ensures LedgerDataset(dataset, ledger)
  {
    var inputs := InputsOf(files, listing);
    AcceptedIsConsecutive(inputs, true, codec, parses);
    ListedInputsAreTrue(files, listing, ledger, codec);
    TrueInputsDecode(inputs, ledger, codec);
    TrueRowsDescribe(dataset, Decoded(inputs, codec), ledger);
  }

  /** Whatever has happened to a directory, whether or not the recorder was resumed, wherever it crashed, and though
      files and checkpoints have been lost or exchanged: what the normalizer accepts is the ledger from some version to
      some version, every one of them once, in order and unaltered. */
  lemma AcceptedIsLedger(states: seq<DirState>, events: seq<Event>, n: nat, ledger: nat -> Transaction, codec: Codec,
                         parses: Transaction -> bool, listing: seq<Bytes>, dataset: Dataset)
    requires Life(states, events, ledger, codec) && n < |states|
    requires codec.Faithful() && ChunkListing(states[n].files.Keys, listing)
    requires Acceptable(InputsOf(states[n].files, listing), true, codec, parses)
    requires Describes(dataset, Decoded(InputsOf(states[n].files, listing), codec))
    ensures LedgerDataset(dataset, ledger)
  {
    LifeIsTrue(states, events, n, ledger, codec);
    TrueFilesNormalize(states[n].files, listing, ledger, codec, parses, dataset);
  }

  // In an orderly life the dataset is complete.

  /** At every time of an orderly life, crashes and lost checkpoints included, the directory normalizes to the ledger
      from an origin up to a version. */
  lemma LifeNormalizes(states: seq<DirState>, events: seq<Event>, n: nat, ledger: nat -> Transaction, codec: Codec,
                       parses: Transaction -> bool)
    returns (last: nat, origin: nat, held: seq<Transaction>)
    requires OrderlyLife(states, events, ledger, codec) && n < |states|
    requires codec.Faithful() && forall t :: parses(t)
    ensures last <= n && FromLedger(held, origin, ledger)
    ensures NormalizesTo(states[last], held, origin, codec, parses)
    ensures last == n || origin + |held| > U64_MAX
  {
    var chunks;
    last, origin, chunks, held := LifeIsSafe(states, events, n, ledger, codec);
    KeptNormalizes(states[last], chunks, held, origin, U64_MAX, codec, parses);
  }

  // Behind an outdated checkpoint it is complete, or there is none.

  /** What any crash leaves of an orderly directory normalizes, even if it outdates the checkpoint. */
  lemma CrashNormalizes(dir: DirState, request: Request, txs: seq<Transaction>, point: CrashPoint, origin: nat,
                        log: seq<Transaction>, ledger: nat -> Transaction, codec: Codec, parses: Transaction -> bool)
    returns (held: seq<Transaction>)
    requires Begins(dir, request, log, origin, U64_MAX, codec) && FromLedger(log, origin, ledger)
    requires FromLedger(txs, request.startVersion, ledger) && codec.Faithful() && forall t :: parses(t)
    ensures log <= held && FromLedger(held, origin, ledger)
    ensures NormalizesTo(CrashOf(dir, request, txs, point, codec), held, origin, codec, parses)
  {
    var after := CrashOf(dir, request, txs, point, codec);
    var chunks;
    chunks, held := OutdatedCheckpointLosesNothing(dir, request, txs, point, log, origin, U64_MAX, codec);
    LedgerGrows(log, txs, held, origin, ledger);
    KeptNormalizes(Bare(after), chunks, held, origin, U64_MAX, codec, parses);
    assert NormalizesTo(Bare(after), held, origin, codec, parses) ==>
           NormalizesTo(after, held, origin, codec, parses);
  }

  lemma ListedAt(files: map<Bytes, Bytes>, listing: seq<Bytes>, first: u64, last: u64)
    returns (i: nat)
    requires ChunkListing(files.Keys, listing) && ChunkName(first, last) in files
    ensures i < |listing| && InputsOf(files, listing)[i].name == ChunkName(first, last)
    ensures VersionRange(ChunkName(first, last)) == Some((first, last))
  {
    RangeOfName(first, last);
    assert ChunkName(first, last) in listing;
    i :| i < |listing| && listing[i] == ChunkName(first, last);
  }

  lemma OverlappingIsRefused(files: map<Bytes, Bytes>, listing: seq<Bytes>, codec: Codec, parses: Transaction -> bool)
    requires Overlapping(files) && ChunkListing(files.Keys, listing)
    ensures !Acceptable(InputsOf(files, listing), true, codec, parses)
  {
    var start, a, b :| Overlap(files, start, a, b);
    var i := ListedAt(files, listing, start, a);
    var j := ListedAt(files, listing, start, b);
    OverlapIsRefused(InputsOf(files, listing), i, j, start, codec, parses);
  }

  /** However often a recorder resumes from an outdated checkpoint: the directory stays exactly as the crash left it,
      or from some time on the normalizer accepts nothing from it. */
  lemma OrphanStaysOrIsRefused(states: seq<DirState>, events: seq<Event>, from: nat, n: nat, last: u64,
                               ledger: nat -> Transaction, codec: Codec, parses: Transaction -> bool,
                               listing: seq<Bytes>)
    requires Life(states, events, ledger, codec) && from <= n < |states| && Orphan(states[from], last)
    requires forall i: nat :: from <= i < n ==> OnlyResumes(events[i])
    requires ChunkListing(states[n].files.Keys, listing)
    ensures states[n] == states[from] || !Acceptable(InputsOf(states[n].files, listing), true, codec, parses)
  {
    OrphanStaysOrOverlaps(states, events, from, n, last, ledger, codec);
    if Overlapping(states[n].files) {
      OverlappingIsRefused(states[n].files, listing, codec, parses);
    }
  }
}
