/** The recorder: a stream of transactions written to chunks with a checkpoint after each, interrupted
    and retried under a byte budget. The environment chooses the batches and where the stream breaks.

    The methods change the directory step by step; each is tied to a function on values, and
    RecorderSafety proves what those functions guarantee. */
module Recorder {
  import opened Prelude
  import opened Framing
  import opened ChunkNames
  import opened RawChunks
  import opened RecordedDir
  import opened KeySampling

  /** A message of the stream, or its failure. A list of events that runs out is the end of the stream. */
  datatype StreamEvent = Batch(txs: seq<Transaction>) | Broken

  datatype Request = Request(startVersion: u64, endVersion: u64, maxRawBytes: Option<u64>, chunkLimit: u64,
                             keySampleLimit: u64, previousChunks: seq<ChunkEntry>)

  datatype Outcome =
    | Finished(nextStart: u64, rawBytes: u64, stoppedAtByteLimit: bool)
    | Interrupted(nextStart: u64, rawBytes: u64)

  datatype RecordError =
    | EndBeforeStart | StreamFailed | ZeroTransactions | RefusingToOverwrite | EmptyChunk
    | RawBytesOverflow | CountOverflow | CursorAtEnd | KeyFileExists | RetryLimit

  /** The variables of one stream run. */
  datatype Run = Run(count: nat, last: Option<u64>, raw: u64, chunks: seq<ChunkEntry>)

  /** The directory, the run, the transactions of the chunk that is still open, and the versions for the key file. */
  datatype Session = Session(dir: DirState, run: Run, open: seq<Transaction>, versions: seq<u64>,
                             error: Option<RecordError>)

  // What each step does.

  predicate AtLimit(request: Request, raw: nat) {
    request.maxRawBytes.Some? && raw >= request.maxRawBytes.value
  }

  function Start(dir: DirState, request: Request): Session {
    Session(dir, Run(0, None, 0, request.previousChunks), [], [], None)
  }

  /** The open chunk, if there is one, renamed into place. */
  function Finish(s: Session, codec: Codec): Session {
    if s.open == [] then s
    else
      var entry := EntryFor(s.open);
      if entry.path in s.dir.files then s.(error := Some(RefusingToOverwrite))
      else
        s.(dir := s.dir.(files := s.dir.files[entry.path := Frames(s.open, codec)]),
           run := s.run.(chunks := s.run.chunks + [entry]), open := [])
  }

  function CheckpointOf(request: Request, run: Run, status: Status, stopped: bool): Checkpoint
    requires run.last.Some? && run.last.value < U64_MAX
  {
    Checkpoint(status, request.startVersion, request.endVersion, run.count, TotalCount(run.chunks), run.raw,
               request.maxRawBytes, run.last.value, run.last.value + 1, stopped, run.chunks)
  }

  /** The checkpoint written, unless a number in it overflows. */
  function Save(s: Session, request: Request, status: Status, stopped: bool): Session
    requires s.run.last.Some?
  {
    if s.error.Some? then s
    else if TotalCount(s.run.chunks) > U64_MAX then s.(error := Some(CountOverflow))
    else if s.run.last.value == U64_MAX then s.(error := Some(CursorAtEnd))
    else
      var checkpoint := CheckpointOf(request, s.run, status, stopped);
      s.(dir := s.dir.(checkpoint := Some(checkpoint), history := s.dir.history + [Snapshot(s.dir.files, checkpoint)]))
  }

  /** The key file of the run renamed into place, unless there is one of its name. */
  function KeepKeys(s: Session, request: Request): Session
    requires s.run.last.Some?
  {
    var name := (request.startVersion, s.run.last.value);
    if s.error.Some? then s
    else if name in s.dir.keyFiles then s.(error := Some(KeyFileExists))
    else s.(dir := s.dir.(keyFiles := s.dir.keyFiles[name := Encoded(s.versions)]))
  }

  function Flush(s: Session, request: Request, status: Status, stopped: bool, codec: Codec): Session
    requires s.run.last.Some?
  {
    Save(Finish(s, codec), request, status, stopped)
  }

  /** What a run does last: complete the chunk, keep the key file, and save. */
  function Close(s: Session, request: Request, status: Status, stopped: bool, codec: Codec): Session
    requires s.run.last.Some?
  {
    Save(KeepKeys(Finish(s, codec), request), request, status, stopped)
  }

  /** One transaction written to the open chunk and counted. */
  function Add(s: Session, tx: Transaction, codec: Codec): Session {
    var raw := s.run.raw + |Frame(tx, codec)|;
    var longer := s.(open := s.open + [tx]);
    if raw > U64_MAX then longer.(error := Some(RawBytesOverflow))
    else
      longer.(run := s.run.(count := s.run.count + 1, last := Some(tx.version), raw := raw),
              versions := s.versions + [tx.version])
  }

  /** One transaction more, and a checkpoint if that fills the chunk. */
  function Step(s: Session, request: Request, tx: Transaction, codec: Codec): Session {
    var added := Add(s, tx, codec);
    if added.error.None? && |added.open| >= request.chunkLimit
    then Flush(added, request, Recording, false, codec)
    else added
  }

  /** Transactions until the byte limit or an error stops the run. */
  function Steps(s: Session, request: Request, txs: seq<Transaction>, codec: Codec): Session {
    if txs == [] then s
    else
      var before := Steps(s, request, txs[..|txs| - 1], codec);
      if before.error.Some? || AtLimit(request, before.run.raw) then before
      else Step(before, request, txs[|txs| - 1], codec)
  }

  /** The transactions the stream delivers before it breaks or ends. */
  function Delivered(events: seq<StreamEvent>): seq<Transaction> {
    if events == [] then []
    else
      var before := Delivered(events[..|events| - 1]);
      if Broken in events then before else before + events[|events| - 1].txs
  }

  datatype RunResult = RunResult(outcome: Result<Outcome, RecordError>, dir: DirState)

  function Outcomes(s: Session, ok: Outcome): RunResult {
    RunResult(if s.error.Some? then Err(s.error.value) else Ok(ok), s.dir)
  }

  function Cursor(s: Session): u64 {
    if s.run.last.Some? && s.run.last.value < U64_MAX then s.run.last.value + 1 else 0
  }

  /** How a run ends that has taken all it will take. */
  function Ending(s: Session, request: Request, delivered: seq<Transaction>, broken: bool, codec: Codec): RunResult {
    var stopped := AtLimit(request, s.run.raw) && delivered != [];
    if s.error.Some? then RunResult(Err(s.error.value), s.dir)
    else if s.run.last.None? then RunResult(Err(if broken && !stopped then StreamFailed else ZeroTransactions), s.dir)
    else if broken && !stopped then
      Outcomes(Close(s, request, Partial, false, codec), Interrupted(Cursor(s), s.run.raw))
    else
      Outcomes(Close(s, request, Complete, stopped, codec), Finished(Cursor(s), s.run.raw, stopped))
  }

  function RunOf(dir: DirState, request: Request, events: seq<StreamEvent>, codec: Codec): RunResult {
    if request.endVersion < request.startVersion then RunResult(Err(EndBeforeStart), dir)
    else if TotalCount(request.previousChunks) > U64_MAX then RunResult(Err(CountOverflow), dir)
    else
      var delivered := Delivered(events);
      Ending(Steps(Start(dir, request), request, delivered, codec), request, delivered, Broken in events, codec)
  }

  // The recorder itself.

  class ActiveChunk {
    const first: u64
    var last: Option<u64>
    var count: nat
    var buffer: Bytes
    ghost var written: seq<Transaction>

    ghost predicate Valid(codec: Codec)
      reads this
    {
      && count == |written| && buffer == Frames(written, codec)
      && last == (if written == [] then None else Some(written[|written| - 1].version))
      && (written != [] ==> first == written[0].version)
    }

    constructor (first: u64, codec: Codec)
      ensures Valid(codec) && this.first == first && written == []
    {
      this.first, last, count, buffer, written := first, None, 0, [], [];
    }

    method Write(tx: Transaction, codec: Codec) returns (bytes: nat)
      requires Valid(codec) && (written == [] ==> tx.version == first)
      modifies this
      ensures Valid(codec) && written == old(written) + [tx] && bytes == |Frame(tx, codec)|
    {
      var frame := Frame(tx, codec);
      buffer := buffer + frame;
      last := Some(tx.version);
      count := count + 1;
      bytes := |frame|;
      written := written + [tx];
      assert written[..|written| - 1] == old(written);
    }

    /** Renames the finished file into place, unless a file of that name is there. */
    method Finish(dir: RecordDir, codec: Codec) returns (r: Result<ChunkEntry, RecordError>)
      requires Valid(codec)
      modifies dir`files
      ensures written == [] ==> r == Err(EmptyChunk)
      ensures written != [] && EntryFor(written).path in old(dir.files) ==> r == Err(RefusingToOverwrite)
      ensures written != [] && EntryFor(written).path !in old(dir.files) ==>
                r == Ok(EntryFor(written))
                  && dir.files == old(dir.files)[EntryFor(written).path := Frames(written, codec)]
      ensures r.Err? ==> dir.files == old(dir.files)
    {
      if last.None? {
        return Err(EmptyChunk);
      }
      var path := ChunkName(first, last.value);
      if path in dir.files {
        return Err(RefusingToOverwrite);
      }
      dir.files := dir.files[path := buffer];
      return Ok(ChunkEntry(path, first, last.value, count));
    }
  }

  method SumCounts(chunks: seq<ChunkEntry>) returns (total: Option<u64>)
    ensures total == if TotalCount(chunks) <= U64_MAX then Some(TotalCount(chunks)) else None
  {
    var sum: u64 := 0;
    for i := 0 to |chunks|
      invariant sum == TotalCount(chunks[..i])
    {
      assert chunks[..i + 1][..i] == chunks[..i];
      if sum + chunks[i].count > U64_MAX {
        CountsGrow(chunks, i + 1);
        return None;
      }
      sum := sum + chunks[i].count;
    }
    assert chunks[..|chunks|] == chunks;
    return Some(sum);
  }

  lemma {:induction false} CountsGrow(chunks: seq<ChunkEntry>, n: nat)
    requires n <= |chunks|
    ensures TotalCount(chunks[..n]) <= TotalCount(chunks)
  {
    if n == |chunks| {
      assert chunks[..n] == chunks;
    } else {
      var init := chunks[..|chunks| - 1];
      CountsGrow(init, n);
      assert init[..n] == chunks[..n];
    }
  }

  /** An open chunk has at least one transaction. */
  ghost predicate Open(active: ActiveChunk?, codec: Codec)
    reads active
  {
    active != null ==> active.Valid(codec) && active.written != []
  }

  /** The transactions of the chunk that is open, if one is. */
  ghost function OpenIn(active: ActiveChunk?): seq<Transaction>
    reads active
  {
    if active == null then [] else active.written
  }

  ghost function SessionOf(dir: RecordDir, run: Run, active: ActiveChunk?, keys: KeyWriter,
                           error: Option<RecordError>): Session
    reads dir, active, keys
  {
    Session(dir.State(), run, OpenIn(active), keys.written, error)
  }

  method FinishActiveChunk(dir: RecordDir, run: Run, active: ActiveChunk?, ghost keys: KeyWriter, codec: Codec)
    returns (after: Run, next: ActiveChunk?, error: Option<RecordError>)
    requires Open(active, codec)
    modifies dir
    ensures SessionOf(dir, after, next, keys, error) == Finish(old(SessionOf(dir, run, active, keys, None)), codec)
    ensures next == null || next == active
  {
    after, next, error := run, active, None;
    if active != null {
      var entry := active.Finish(dir, codec);
      if entry.Err? {
        error := Some(entry.error);
      } else {
        after, next := run.(chunks := run.chunks + [entry.value]), null;
      }
    }
  }

  method WriteCheckpoint(dir: RecordDir, request: Request, run: Run, status: Status, stopped: bool,
                         ghost active: ActiveChunk?, ghost keys: KeyWriter)
    returns (error: Option<RecordError>)
    requires run.last.Some?
    modifies dir
    ensures SessionOf(dir, run, active, keys, error) ==
            Save(old(SessionOf(dir, run, active, keys, None)), request, status, stopped)
  {
    var total := SumCounts(run.chunks);
    if total.None? {
      return Some(CountOverflow);
    }
    if run.last.value == U64_MAX {
      return Some(CursorAtEnd);
    }
    var checkpoint := Checkpoint(status, request.startVersion, request.endVersion, run.count, total.value, run.raw,
                                 request.maxRawBytes, run.last.value, run.last.value + 1, stopped, run.chunks);
    dir.checkpoint := Some(checkpoint);
    dir.history := dir.history + [Snapshot(dir.files, checkpoint)];
    return None;
  }

  /** Renames the key file into place. */
  method FinishKeys(dir: RecordDir, request: Request, run: Run, keys: KeyWriter, ghost active: ActiveChunk?)
    returns (error: Option<RecordError>)
    requires run.last.Some? && keys.Valid()
    modifies dir
    ensures SessionOf(dir, run, active, keys, error) == KeepKeys(old(SessionOf(dir, run, active, keys, None)), request)
  {
    var name := (request.startVersion, run.last.value);
    if name in dir.keyFiles {
      return Some(KeyFileExists);
    }
    dir.keyFiles := dir.keyFiles[name := keys.txVersions];
    return None;
  }

  /** Completes the open chunk and writes the checkpoint. */
  method FinishAndSave(dir: RecordDir, request: Request, run: Run, active: ActiveChunk?, ghost keys: KeyWriter,
                       status: Status, stopped: bool, codec: Codec)
    returns (after: Run, next: ActiveChunk?, error: Option<RecordError>)
    requires Open(active, codec) && run.last.Some?
    modifies dir
    ensures SessionOf(dir, after, next, keys, error) ==
            Flush(old(SessionOf(dir, run, active, keys, None)), request, status, stopped, codec)
    ensures next == null || next == active
  {
    after, next, error := FinishActiveChunk(dir, run, active, keys, codec);
    if error.None? {
      error := WriteCheckpoint(dir, request, after, status, stopped, next, keys);
    }
  }

  method CloseRun(dir: RecordDir, request: Request, run: Run, active: ActiveChunk?, keys: KeyWriter, status: Status,
                  stopped: bool, codec: Codec)
    returns (error: Option<RecordError>, ghost after: Run, ghost next: ActiveChunk?)
    requires Open(active, codec) && run.last.Some? && keys.Valid()
    modifies dir
    ensures SessionOf(dir, after, next, keys, error) ==
            Close(old(SessionOf(dir, run, active, keys, None)), request, status, stopped, codec)
    ensures next == null || next == active
  {
    var finished, left;
    finished, left, error := FinishActiveChunk(dir, run, active, keys, codec);
    after, next := finished, left;
    if error.None? {
      error := FinishKeys(dir, request, finished, keys, left);
    }
    if error.None? {
      error := WriteCheckpoint(dir, request, finished, status, stopped, left, keys);
    }
  }

  /** The open chunk, or a new one that starts with the transaction. */
  method OpenFor(active: ActiveChunk?, tx: Transaction, codec: Codec) returns (writer: ActiveChunk)
    requires Open(active, codec)
    ensures writer.Valid(codec) && (writer.written == [] ==> tx.version == writer.first)
    ensures writer.written == OpenIn(active) && (writer == active || fresh(writer))
  {
    if active == null {
      writer := new ActiveChunk(tx.version, codec);
    } else {
      writer := active;
    }
  }

  lemma AddedFits(s: Session, tx: Transaction, codec: Codec)
    requires s.run.raw + |Frame(tx, codec)| <= U64_MAX && s.error.None?
    ensures
      Add(s, tx, codec) ==
        Session(s.dir, Run(s.run.count + 1, Some(tx.version), s.run.raw + |Frame(tx, codec)|, s.run.chunks),
                s.open + [tx], s.versions + [tx.version], None)
  {
  }

  lemma AddedOverflows(s: Session, tx: Transaction, codec: Codec)
    requires s.run.raw + |Frame(tx, codec)| > U64_MAX
    ensures Add(s, tx, codec) == Session(s.dir, s.run, s.open + [tx], s.versions, Some(RawBytesOverflow))
  {
  }

  /** Writes one transaction to the open chunk, opening one if there is none, and counts it. */
  method AddTransaction(dir: RecordDir, run: Run, active: ActiveChunk?, keys: KeyWriter, tx: Transaction, codec: Codec)
    returns (after: Run, writer: ActiveChunk, error: Option<RecordError>)
    requires Open(active, codec) && keys.Valid() && run.count == |keys.written|
    modifies active, keys
    ensures SessionOf(dir, after, writer, keys, error) == Add(old(SessionOf(dir, run, active, keys, None)), tx, codec)
    ensures Open(writer, codec) && writer.count == |writer.written| && (writer == active || fresh(writer))
    ensures keys.Valid() && after.count == |keys.written|
  {
    ghost var before := SessionOf(dir, run, active, keys, None);
    writer := OpenFor(active, tx, codec);
    var bytes := writer.Write(tx, codec);
    if run.raw + bytes > U64_MAX {
      AddedOverflows(before, tx, codec);
      return run, writer, Some(RawBytesOverflow);
    }
    keys.WriteVersion(tx.version, run.count);
    AddedFits(before, tx, codec);
    after, error := Run(run.count + 1, Some(tx.version), run.raw + bytes, run.chunks), None;
  }

  method RecordTransaction(dir: RecordDir, request: Request, run: Run, active: ActiveChunk?, keys: KeyWriter,
                           tx: Transaction, codec: Codec)
    returns (after: Run, next: ActiveChunk?, error: Option<RecordError>)
    requires Open(active, codec) && keys.Valid() && run.count == |keys.written|
    modifies dir, active, keys
    ensures SessionOf(dir, after, next, keys, error) ==
            Step(old(SessionOf(dir, run, active, keys, None)), request, tx, codec)
    ensures Open(next, codec) && (next == null || next == active || fresh(next))
    ensures keys.Valid() && after.count == |keys.written|
  {
    var counted, writer, failed := AddTransaction(dir, run, active, keys, tx, codec);
    if failed.Some? || writer.count < request.chunkLimit {
      return counted, writer, failed;
    }
    after, next, error := FinishAndSave(dir, request, counted, writer, keys, Recording, false, codec);
  }

  lemma StepsOne(s: Session, request: Request, txs: seq<Transaction>, tx: Transaction, codec: Codec)
    ensures
      var before := Steps(s, request, txs, codec);
      Steps(s, request, txs + [tx], codec) ==
        if before.error.Some? || AtLimit(request, before.run.raw) then before else Step(before, request, tx, codec)
  {
    assert (txs + [tx])[..|txs|] == txs;
  }

  /** A run that has stopped takes nothing more. */
  lemma {:induction false} StepsStopped(s: Session, request: Request, txs: seq<Transaction>, more: seq<Transaction>,
                                        codec: Codec)
    requires
      var before := Steps(s, request, txs, codec);
      before.error.Some? || AtLimit(request, before.run.raw)
    ensures Steps(s, request, txs + more, codec) == Steps(s, request, txs, codec)
    decreases |more|
  {
    if more == [] {
      assert txs + more == txs;
    } else {
      var init := more[..|more| - 1];
      StepsStopped(s, request, txs, init, codec);
      assert txs + more == txs + init + [more[|more| - 1]];
      StepsOne(s, request, txs + init, more[|more| - 1], codec);
    }
  }

  predicate Stopped(s: Session, request: Request) {
    s.error.Some? || AtLimit(request, s.run.raw)
  }

  /** Taking the transactions of a message one at a time. */
  lemma StepsAt(s: Session, request: Request, taken: seq<Transaction>, txs: seq<Transaction>, j: nat, codec: Codec)
    requires j < |txs|
    ensures
      var before := Steps(s, request, taken + txs[..j], codec);
      Steps(s, request, taken + txs[..j + 1], codec) ==
        if Stopped(before, request) then before else Step(before, request, txs[j], codec)
  {
    assert taken + txs[..j + 1] == taken + txs[..j] + [txs[j]];
    StepsOne(s, request, taken + txs[..j], txs[j], codec);
  }

  lemma StepsStopAt(s: Session, request: Request, taken: seq<Transaction>, txs: seq<Transaction>, j: nat, codec: Codec)
    requires j <= |txs|
    ensures
      var before := Steps(s, request, taken + txs[..j], codec);
      Stopped(before, request) || j == |txs| ==> Steps(s, request, taken + txs, codec) == before
  {
    assert taken + txs == taken + txs[..j] + txs[j..];
    if j == |txs| {
      assert txs[..j] == txs;
    } else if Stopped(Steps(s, request, taken + txs[..j], codec), request) {
      StepsStopped(s, request, taken + txs[..j], txs[j..], codec);
    }
  }

  /** Writes the transactions of one message until the byte limit is reached. */
  method RecordBatch(dir: RecordDir, request: Request, run: Run, active: ActiveChunk?, keys: KeyWriter,
                     txs: seq<Transaction>, codec: Codec, ghost start: Session, ghost taken: seq<Transaction>)
    returns (after: Run, next: ActiveChunk?, error: Option<RecordError>, stopped: bool)
    requires Open(active, codec) && keys.Valid() && run.count == |keys.written|
    requires SessionOf(dir, run, active, keys, None) == Steps(start, request, taken, codec)
    requires taken != [] ==> !AtLimit(request, run.raw)
    modifies dir, active, keys
    ensures SessionOf(dir, after, next, keys, error) == Steps(start, request, taken + txs, codec)
    ensures error.None? ==> (stopped <==> taken + txs != [] && AtLimit(request, after.raw))
    ensures Open(next, codec) && (next == null || next == active || fresh(next))
    ensures keys.Valid() && after.count == |keys.written|
  {
    after, next, error, stopped := run, active, None, false;
    assert taken + txs[..0] == taken;
    for j := 0 to |txs|
      invariant error.None? && !stopped
      invariant Open(next, codec) && (next == null || next == active || fresh(next))
      invariant keys.Valid() && after.count == |keys.written|
      invariant SessionOf(dir, after, next, keys, None) == Steps(start, request, taken + txs[..j], codec)
      invariant taken + txs[..j] != [] ==> !AtLimit(request, after.raw)
    {
      StepsStopAt(start, request, taken, txs, j, codec);
      if AtLimit(request, after.raw) {
        stopped := true;
        return;
      }
      StepsAt(start, request, taken, txs, j, codec);
      after, next, error := RecordTransaction(dir, request, after, next, keys, txs[j], codec);
      StepsStopAt(start, request, taken, txs, j + 1, codec);
      stopped := error.None? && AtLimit(request, after.raw);
      if error.Some? || stopped {
        return;
      }
    }
    StepsStopAt(start, request, taken, txs, |txs|, codec);
  }

  lemma {:induction false} DeliveredPrefix(events: seq<StreamEvent>, i: nat)
    requires i <= |events|
    ensures Delivered(events[..i]) <= Delivered(events)
    ensures Broken in events[..i] ==> Delivered(events[..i]) == Delivered(events)
  {
    if i == |events| {
      assert events[..i] == events;
    } else {
      var init := events[..|events| - 1];
      DeliveredPrefix(init, i);
      assert init[..i] == events[..i];
    }
  }

  lemma DeliveredStep(events: seq<StreamEvent>, i: nat)
    requires i < |events| && Broken !in events[..i]
    ensures Delivered(events[..i + 1]) == Delivered(events[..i]) + if events[i].Batch? then events[i].txs else []
    ensures Broken in events[..i + 1] <==> events[i].Broken?
  {
    var longer := events[..i + 1];
    assert longer[..i] == events[..i] && longer[i] == events[i];
    assert forall e :: e in longer <==> e in events[..i] || e == events[i];
  }

  /** Once a run has stopped, or the stream has broken or ended, the rest of the stream does not matter. */
  lemma RestIgnored(s: Session, request: Request, events: seq<StreamEvent>, i: nat, codec: Codec)
    requires i <= |events| && Broken !in events[..i]
    requires Stopped(Steps(s, request, Delivered(events[..i]), codec), request) || i == |events| || events[i].Broken?
    ensures Steps(s, request, Delivered(events), codec) == Steps(s, request, Delivered(events[..i]), codec)
    ensures Delivered(events[..i]) <= Delivered(events)
    ensures i == |events| || events[i].Broken? ==> Delivered(events) == Delivered(events[..i])
  {
    DeliveredPrefix(events, i);
    if i < |events| && events[i].Broken? {
      DeliveredStep(events, i);
      DeliveredPrefix(events, i + 1);
      assert Delivered(events[..i]) + [] == Delivered(events[..i]);
    } else if i == |events| {
      assert events[..i] == events;
    } else {
      var taken, all := Delivered(events[..i]), Delivered(events);
      StepsStopped(s, request, taken, all[|taken|..], codec);
      assert taken + all[|taken|..] == all;
    }
  }

  lemma StepCounts(s: Session, request: Request, tx: Transaction, codec: Codec)
    requires s.error.None?
    ensures Step(s, request, tx, codec).error.None? ==> Step(s, request, tx, codec).run.last.Some?
  {
    var added := Add(s, tx, codec);
    if added.error.None? {
      assert Finish(added, codec).run.last == added.run.last;
    }
  }

  /** A chunk is open only when something was counted. */
  lemma {:induction false} OpenIsCounted(s: Session, request: Request, txs: seq<Transaction>, codec: Codec)
    requires s.run.last.None? && s.open == [] && s.error.None?
    ensures
      var after := Steps(s, request, txs, codec);
      after.error.None? && after.run.last.None? ==> after.open == []
  {
    if txs != [] {
      var before := Steps(s, request, txs[..|txs| - 1], codec);
      OpenIsCounted(s, request, txs[..|txs| - 1], codec);
      if before.error.None? {
        StepCounts(before, request, txs[|txs| - 1], codec);
      }
    }
  }

  /** How the run ends once it takes no more. */
  method EndRun(dir: RecordDir, request: Request, run: Run, active: ActiveChunk?, keys: KeyWriter, broken: bool,
                stopped: bool, codec: Codec, ghost delivered: seq<Transaction>)
    returns (r: Result<Outcome, RecordError>)
    requires Open(active, codec) && keys.Valid()
    requires run.last.None? ==> active == null
    requires stopped <==> AtLimit(request, run.raw) && delivered != []
    modifies dir
    ensures RunResult(r, dir.State()) ==
            Ending(old(SessionOf(dir, run, active, keys, None)), request, delivered, broken, codec)
  {
    if broken && !stopped {
      if run.last.None? {
        return Err(StreamFailed);
      }
      var error, after, next := CloseRun(dir, request, run, active, keys, Partial, false, codec);
      return if error.Some? then Err(error.value) else Ok(Interrupted(run.last.value + 1, run.raw));
    }
    if run.last.None? {
      return Err(ZeroTransactions);
    }
    var error, after, next := CloseRun(dir, request, run, active, keys, Complete, stopped, codec);
    return if error.Some? then Err(error.value) else Ok(Finished(run.last.value + 1, run.raw, stopped));
  }

  /** Records one stream until it ends, breaks, or the byte limit is reached. A connection that is refused is
      a stream that breaks before its first message. */
  method RecordStream(dir: RecordDir, request: Request, events: seq<StreamEvent>, codec: Codec)
    returns (r: Result<Outcome, RecordError>)
    modifies dir
    ensures RunResult(r, dir.State()) == RunOf(old(dir.State()), request, events, codec)
  {
    if request.endVersion < request.startVersion {
      return Err(EndBeforeStart);
    }
    var keys := new KeyWriter((request.endVersion - request.startVersion + 1) % U64_LIMIT, request.keySampleLimit);
    var prior := SumCounts(request.previousChunks);
    if prior.None? {
      return Err(CountOverflow);
    }
    ghost var start := Start(dir.State(), request);
    var run, active: ActiveChunk?, error, stopped := Run(0, None, 0, request.previousChunks), null, None, false;
    var i := 0;
    while i < |events| && !stopped && events[i].Batch?
      invariant i <= |events| && Broken !in events[..i]
      invariant error.None? && Open(active, codec) && (active == null || fresh(active))
      invariant fresh(keys) && keys.Valid() && run.count == |keys.written|
      invariant SessionOf(dir, run, active, keys, None) == Steps(start, request, Delivered(events[..i]), codec)
      invariant stopped <==> Delivered(events[..i]) != [] && AtLimit(request, run.raw)
    {
      DeliveredStep(events, i);
      run, active, error, stopped :=
        RecordBatch(dir, request, run, active, keys, events[i].txs, codec, start, Delivered(events[..i]));
      i := i + 1;
      if error.Some? {
        RestIgnored(start, request, events, i, codec);
        return Err(error.value);
      }
    }
    RestIgnored(start, request, events, i, codec);
    OpenIsCounted(start, request, Delivered(events[..i]), codec);
    r := EndRun(dir, request, run, active, keys, i < |events| && !stopped, stopped, codec, Delivered(events));
  }
}
