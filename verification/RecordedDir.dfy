/** The directory a recorder fills: completed chunk files, the checkpoint, and what it means for
    them to hold a range of transactions. */
module RecordedDir {
  import opened Prelude
  import opened Framing
  import opened ChunkNames
  import opened RawChunks
  import B = ByteOrder
  import KeySampling

  datatype Status = Recording | Partial | Complete

  datatype Checkpoint = Checkpoint(
    status: Status, startVersion: u64, endVersion: u64, runCount: nat, totalCount: nat, rawBytes: nat,
    maxRawBytes: Option<u64>, lastSuccess: u64, nextStart: u64, stoppedAtByteLimit: bool, chunks: seq<ChunkEntry>)

  /** The chunk files as they stood when a checkpoint was written. */
  datatype Snapshot = Snapshot(files: map<Bytes, Bytes>, checkpoint: Checkpoint)

  /** The name of a key file: the start of its run and the last version the run recorded. */
  type KeyName = (u64, u64)

  /** What the directory is at one time. */
  datatype DirState = DirState(files: map<Bytes, Bytes>, keyFiles: map<KeyName, Bytes>, checkpoint: Option<Checkpoint>,
                               history: seq<Snapshot>)

  const EMPTY_DIR: DirState := DirState(map[], map[], None, [])

  class RecordDir {
    var files: map<Bytes, Bytes>
    var keyFiles: map<KeyName, Bytes>
    var checkpoint: Option<Checkpoint>
    ghost var history: seq<Snapshot>

    constructor ()
      ensures State() == EMPTY_DIR
    {
      files, keyFiles, checkpoint, history := map[], map[], None, [];
    }

    ghost function State(): DirState
      reads this
    {
      DirState(files, keyFiles, checkpoint, history)
    }
  }

  function Paths(chunks: seq<ChunkEntry>): set<Bytes> {
    set c | c in chunks :: c.path
  }

  /** The file of a chunk holds the frames of the transactions in the chunk's range. */
  ghost predicate FileHolds(files: map<Bytes, Bytes>, c: ChunkEntry, txs: seq<Transaction>, origin: nat, codec: Codec) {
    && origin <= c.first <= c.last < origin + |txs|
    && c.path in files
    && files[c.path] == Frames(txs[c.first - origin..c.last + 1 - origin], codec)
  }

  /** The files are exactly the listed chunks, which cut `txs`, consecutive from `origin`, into pieces. */
  ghost predicate Recorded(files: map<Bytes, Bytes>, chunks: seq<ChunkEntry>, txs: seq<Transaction>, origin: nat,
                           limit: nat, codec: Codec) {
    && Consecutive(txs, origin)
    && Partition(chunks, origin, origin + |txs|, limit)
    && files.Keys == Paths(chunks)
    && forall c :: c in chunks ==> FileHolds(files, c, txs, origin, codec)
  }

  /** The checkpoint lists the chunks and points behind the last recorded version. */
  ghost predicate ListsAll(c: Checkpoint, chunks: seq<ChunkEntry>, txs: seq<Transaction>, origin: nat) {
    && txs != [] && c.chunks == chunks
    && c.lastSuccess as int + 1 == c.nextStart == origin + |txs|
    && c.totalCount == |txs|
  }

  /** The checkpoint, where there is one, is not out of date. */
  ghost predicate Current(checkpoint: Option<Checkpoint>, chunks: seq<ChunkEntry>, txs: seq<Transaction>, origin: nat) {
    checkpoint.Some? ==> ListsAll(checkpoint.value, chunks, txs, origin)
  }

  function VersionsFrom(start: nat, n: nat): (versions: seq<u64>)
    requires start + n <= U64_LIMIT
    ensures |versions| == n
  {
    seq(n, i requires 0 <= i < n => start + i)
  }

  /** Each key file lists exactly the versions its name spans, all of them from `origin` up to `next`. */
  ghost predicate KeyFilesSound(keyFiles: map<KeyName, Bytes>, origin: nat, next: nat) {
    forall k :: k in keyFiles ==> KeyFileSound(k, keyFiles[k], origin, next)
  }

  ghost predicate KeyFileSound(k: KeyName, contents: Bytes, origin: nat, next: nat) {
    origin <= k.0 <= k.1 < next && contents == KeySampling.Encoded(VersionsFrom(k.0, k.1 - k.0 + 1))
  }

  /** The i-th eight bytes of a sound key file are the i-th version that its name spans. */
  lemma KeyFileReads(k: KeyName, contents: Bytes, origin: nat, next: nat, i: nat)
    requires KeyFileSound(k, contents, origin, next) && i <= k.1 - k.0
    ensures |contents| == 8 * (k.1 - k.0 + 1)
    ensures contents[8 * i..8 * i + 8] == B.BigEndian(k.0 + i, 8)
    ensures B.Number(contents[8 * i..8 * i + 8]) == k.0 + i
  {
    KeySampling.EncodedAt(VersionsFrom(k.0, k.1 - k.0 + 1), i);
    KeySampling.EncodedReads(VersionsFrom(k.0, k.1 - k.0 + 1), i);
  }

  /** At the time of the checkpoint its chunks held exactly the versions before its cursor. */
  ghost predicate SoundSnapshot(s: Snapshot, txs: seq<Transaction>, origin: nat, limit: nat, codec: Codec) {
    var n := s.checkpoint.nextStart as int - origin;
    && 0 < n <= |txs|
    && s.checkpoint.lastSuccess as int + 1 == s.checkpoint.nextStart
    && s.checkpoint.totalCount == n
    && Recorded(s.files, s.checkpoint.chunks, txs[..n], origin, limit, codec)
  }

  ghost predicate SoundHistory(history: seq<Snapshot>, txs: seq<Transaction>, origin: nat, limit: nat, codec: Codec) {
    forall s :: s in history ==> SoundSnapshot(s, txs, origin, limit, codec)
  }

  lemma HistoryExtends(history: seq<Snapshot>, txs: seq<Transaction>, more: seq<Transaction>, origin: nat, limit: nat,
                       codec: Codec)
    requires SoundHistory(history, txs, origin, limit, codec)
    ensures SoundHistory(history, txs + more, origin, limit, codec)
  {
    forall s | s in history
      ensures SoundSnapshot(s, txs + more, origin, limit, codec)
    {
      var n := s.checkpoint.nextStart as int - origin;
      assert (txs + more)[..n] == txs[..n];
    }
  }

  lemma FileStillHolds(files: map<Bytes, Bytes>, path: Bytes, contents: Bytes, c: ChunkEntry, txs: seq<Transaction>,
                       more: seq<Transaction>, origin: nat, codec: Codec)
    requires FileHolds(files, c, txs, origin, codec) && c.path != path
    ensures FileHolds(files[path := contents], c, txs + more, origin, codec)
  {
    assert (txs + more)[c.first - origin..c.last + 1 - origin] == txs[c.first - origin..c.last + 1 - origin];
  }

  /** The next chunk's name is new. */
  lemma FreshName(chunks: seq<ChunkEntry>, origin: nat, next: nat, limit: nat, first: u64, last: u64)
    requires Partition(chunks, origin, next, limit) && first >= next
    ensures ChunkName(first, last) !in Paths(chunks)
  {
    PartitionBounds(chunks, origin, next, limit);
    forall c | c in chunks
      ensures c.path != ChunkName(first, last)
    {
      if c.path == ChunkName(first, last) {
        NamesInjective(c.first, c.last, first, last);
      }
    }
  }

  function EntryFor(segment: seq<Transaction>): ChunkEntry
    requires segment != []
  {
    var first, last := VersionAt(segment, 0), VersionAt(segment, |segment| - 1);
    ChunkEntry(ChunkName(first, last), first, last, |segment|)
  }

  lemma ConsecutiveAppend(txs: seq<Transaction>, segment: seq<Transaction>, origin: nat)
    requires Consecutive(txs, origin) && Consecutive(segment, origin + |txs|)
    ensures Consecutive(txs + segment, origin)
  {
    forall i: nat | i < |txs + segment|
      ensures VersionAt(txs + segment, i) == origin + i
    {
      assert i < |txs| ==> VersionAt(txs + segment, i) == VersionAt(txs, i);
      assert i >= |txs| ==> VersionAt(txs + segment, i) == VersionAt(segment, i - |txs|);
    }
  }

  lemma NewFileHolds(files: map<Bytes, Bytes>, entry: ChunkEntry, txs: seq<Transaction>, segment: seq<Transaction>,
                     origin: nat, codec: Codec)
    requires segment != []
    requires entry.first == origin + |txs| && entry.last as int + 1 == origin + |txs| + |segment|
    ensures FileHolds(files[entry.path := Frames(segment, codec)], entry, txs + segment, origin, codec)
  {
    assert (txs + segment)[entry.first - origin..entry.last as int + 1 - origin] == segment;
  }

  lemma AppendPartition(chunks: seq<ChunkEntry>, entry: ChunkEntry, origin: nat, next: nat, limit: nat)
    requires Partition(chunks, origin, next, limit)
    requires entry.first == next && entry.first <= entry.last && entry.count == entry.last - entry.first + 1 <= limit
    requires entry.path == ChunkName(entry.first, entry.last)
    ensures Partition(chunks + [entry], origin, entry.last + 1, limit)
    ensures Paths(chunks + [entry]) == Paths(chunks) + {entry.path}
  {
    assert (chunks + [entry])[..|chunks|] == chunks;
  }

  lemma AppendFiles(files: map<Bytes, Bytes>, chunks: seq<ChunkEntry>, txs: seq<Transaction>, segment: seq<Transaction>,
                    entry: ChunkEntry, origin: nat, codec: Codec)
    requires forall c :: c in chunks ==> FileHolds(files, c, txs, origin, codec)
    requires segment != [] && entry.path !in Paths(chunks)
    requires entry.first == origin + |txs| && entry.last as int + 1 == origin + |txs| + |segment|
    ensures forall c :: c in chunks + [entry] ==>
              FileHolds(files[entry.path := Frames(segment, codec)], c, txs + segment, origin, codec)
  {
    forall c | c in chunks + [entry]
      ensures FileHolds(files[entry.path := Frames(segment, codec)], c, txs + segment, origin, codec)
    {
      if c in chunks {
        assert c.path in Paths(chunks);
        FileStillHolds(files, entry.path, Frames(segment, codec), c, txs, segment, origin, codec);
      } else {
        NewFileHolds(files, entry, txs, segment, origin, codec);
      }
    }
  }

  lemma SegmentEnds(segment: seq<Transaction>, start: nat)
    requires segment != [] && Consecutive(segment, start)
    ensures EntryFor(segment).first == start && EntryFor(segment).last as int + 1 == start + |segment|
  {
  }

  /** Completing a chunk behind the recorded range extends the range. */
  lemma AppendChunk(files: map<Bytes, Bytes>, chunks: seq<ChunkEntry>, txs: seq<Transaction>, segment: seq<Transaction>,
                    origin: nat, limit: nat, codec: Codec)
    requires Recorded(files, chunks, txs, origin, limit, codec)
    requires segment != [] && |segment| <= limit && Consecutive(segment, origin + |txs|)
    ensures EntryFor(segment).path !in files
    ensures Recorded(files[EntryFor(segment).path := Frames(segment, codec)], chunks + [EntryFor(segment)],
                     txs + segment, origin, limit, codec)
  {
    var entry := EntryFor(segment);
    SegmentEnds(segment, origin + |txs|);
    FreshName(chunks, origin, origin + |txs|, limit, entry.first, entry.last);
    ConsecutiveAppend(txs, segment, origin);
    AppendPartition(chunks, entry, origin, origin + |txs|, limit);
    AppendFiles(files, chunks, txs, segment, entry, origin, codec);
  }

  lemma NothingRecorded(origin: nat, limit: nat, codec: Codec)
    ensures Recorded(map[], [], [], origin, limit, codec)
    ensures Current(None, [], [], origin) && KeyFilesSound(map[], origin, origin)
  {
  }
}
