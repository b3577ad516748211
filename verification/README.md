# A verified model of the hot index

This project models two parts of the repository and the layer that joins them, and proves what they promise.

**Two storage engines that must agree.** `RocksDbEngine` answers every query by walking forward over
separator-joined byte keys; `MemoryEngine` answers the same queries by filtering, sorting and truncating typed maps.
The modules `Keys`, `Rocks`, `Memory`, `Agreement`, `Scans`, `PointReads`, `DerivedReads`, `FillActivities`, `Checksums`,
`Decimal`, `DecimalText`, `Numerals`, `Totals` and `Volume` prove that the keys order and separate rows as the tuples
they encode do, that after the same puts the engines hold the same rows exactly when fill ids, builder fills and
activities are consistent, how far each scan then agrees, what point reads, activity scans and builder volumes answer in
terms of what was put, that checksums and builder volumes are equal, and that the decimal accumulator behind the volume
is exact.

**The recorder protocol.** `Framing`, `ChunkNames`, `RawChunks`, `RecordedDir`, `Recorder`, `RecorderSafety`, `Resume`,
`Retries`, `Crashes`, `FirstChunks`, `Outdated`, `LedgerFiles`, `Invocations`, `Lives`, `OutdatedLife`, `Afresh`,
`Normalizer`, `Completeness` and `Datasets` follow a stream of transactions into length-delimited frames, chunk files and
checkpoints, through interruptions, retries under a shrinking byte budget, repeated invocations, crashes, lost files and
lost or replaced checkpoints, and back through the normalizer. The network is an environment: for every request it
chooses the batches and where the stream breaks. The one assumption about it is that it is honest, that is, it delivers
the ledger's consecutive versions from the requested start; the recorder never checks this and the normalizer does.

What is proved of a directory over its life comes in two strengths. Whatever happens to it, every chunk file holds
exactly the stretch of the ledger that it is named after, and every dataset the normalizer accepts is a stretch of the
ledger (`Lives.LifeIsTrue`, `Datasets.AcceptedIsLedger`). In an orderly life it is also complete: it is exactly the
ledger from an origin up to the cursor, and the normalizer accepts it (`Lives.LifeIsSafe`, `Datasets.LifeNormalizes`).
Of what the recorder itself does, two things are not orderly: a crash that outdates a checkpoint, and a start without
`--resume` in a used directory. It is proved exactly when each of them leaves the directory sound
(`Crashes.CrashKeptIff`, `Afresh.AfreshKeptIff`, `Afresh.AfreshCrashKeptIff`).

**The glue.** `QueryCorpus`, `QueryHits`, `Replays`, `BenchWorkers` and `KeySampling` prove that the corpus of benchmark
queries covers its dataset and hits after a replay, that the strided workers execute every iteration exactly once and
count exactly the queries that fail, and that the recorder's key files and samples are complete.

## How to read it

Code that changes things step by step is a class or a method with loops (`Rocks.RocksDbEngine`, `Memory.MemoryEngine`,
`Decimal.DecimalAccumulator`, `Framing.Reader`, `Recorder.ActiveChunk`, `RecordedDir.RecordDir`, and so on). Each method
is proved equal to a function on values, and the lemmas are about those functions: `Recorder.RecordStream` computes
`Recorder.RunOf`, and `RecorderSafety.RunIsSafe` says what `RunOf` guarantees. Text is its UTF-8 bytes, which Rust
compares bytewise. A column family or a `BTreeMap` is a list of pairs in key order (`OrderedMaps`), and RocksDB is one
such list per column family, iterated in bytewise order, with the last put of a key winning; nothing else is assumed of
it. Machine integers are the subset types `byte`, `u32` and `u64`, and every place that checks, saturates or wraps says
so. A `u64` counter that the code increments without a check wraps as in a release build. Automatic induction is
switched off on every recursive lemma, so each inductive proof is written out, and on the few others where it stands in
the way of the solver.

Where the code does something one might not expect, the model follows the code:

* `scan_prefix` pushes before it looks at the limit, so a limit of zero returns one row. The scan theorems say that the
  engines agree exactly when the limit is at least one or there is nothing to return.
* The engines agree only for consistent puts. `Agreement.SameRowsIffConsistent` gives the exact condition.
* `i128::MIN` has no absolute value, so its text carries a second sign among the digits. `DecimalText.ParseOfText` shows
  that it is the one accumulator whose text does not parse back, and `DecimalText.LeastValueOccurs` that two additions
  reach it without overflowing. Its text is still no other value's text (`DecimalText.TextIsCanonical`).
* `execute_query` looks up transactions, but without any transaction rows the corpus asks for event versions. Those
  queries miss: `QueryHits.RocksDbCorpusHits` gives the exact condition.
* The retry loop tests whether the byte limit was reached after an interruption. That never happens: a run that reaches
  its limit stops and completes first (`RecorderSafety.RunIsSafe`).
* The chunk name parser accepts plus signs and leading zeros, so not every name that declares a range is the name the
  recorder prints for it (`ChunkNames.NameOfRange`). `ChunkNames.RangeReads` says which names declare which range.
* A dataset that spans every 64-bit version would be normalized with a wrapped count and is the one accepted input whose
  manifest the benchmark refuses (`Normalizer.NormalizerIsSound`).
* A crash between a chunk's rename and its checkpoint leaves an older checkpoint out of date, and that is the one kind of
  crash that a recorder does not recover from (`Crashes.CrashKeptIff`). Nothing is lost by it: the directory still
  normalizes (`Datasets.CrashNormalizes`), and once the checkpoint is removed it is as good as ever
  (`Crashes.OutdatedCheckpointLosesNothing`). But a recorder that resumes before that either changes nothing at all or
  writes a chunk that overlaps the renamed one. The latter happens if and only if the first chunk it completes ends
  elsewhere than the renamed one does (`Outdated.ResumedRecording`), be it for another chunk size, a byte limit or a
  stream that breaks early. Overlapping chunks stay, and the normalizer refuses them (`Datasets.OrphanStaysOrIsRefused`);
  removing the checkpoint no longer helps. `OutdatedLife.OutdatedIsReachable` gets there from an empty directory.
* A recorder that starts without `--resume` in a directory that holds something either changes nothing or leaves chunks
  that no checkpoint lists together (`Afresh.AfreshKeptIff`), even if it starts right behind the last of them.
* A recorder that writes the largest version completes the chunk but cannot write the checkpoint, because the cursor
  cannot advance (`RecorderSafety.RunIsSafe`, through `Kept`).

`dafny verify dfyconfig.toml` checks the project.

## Model

| member | source | states |
|---|---|---|
| `ByteOrder.BigEndianOrder` | crates/decibel-hotindex-storage/src/key.rs:5-11 | Fixed-width big-endian bytes compare exactly as the integers, and different integers have different bytes. |
| `ByteOrder.BigEndianReads` | crates/decibel-hotindex-storage/src/key.rs:5-11 | Big-endian bytes read back as the integer. |
| `ByteOrder.TerminatedTextDecides` | crates/decibel-hotindex-storage/src/key.rs:149-174 | Zero-terminated, two different zero-free texts decide a comparison alone, whatever bytes follow. |
| `ByteOrder.TerminatedTextPrefix` | crates/decibel-hotindex-storage/src/key.rs:161-174 | A zero-terminated text is a prefix of another key exactly when the texts are the same. |
| `Keys.JoinSegments` | crates/decibel-hotindex-storage/src/key.rs:149-159 | The loop joins the segments with a zero byte between neighbours. |
| `Keys.BuildKey` | crates/decibel-hotindex-storage/src/key.rs:149-159 | A composite key is the joined encodings of its segments. |
| `Keys.PrefixSegments` | crates/decibel-hotindex-storage/src/key.rs:161-165 | The joined segments with a closing zero byte; for one segment, the prefix that scans use. |
| `Keys.SegmentOrder` | crates/decibel-hotindex-storage/src/key.rs:5-15 | One encoded segment compares as its value: text bytewise, versions upwards, timestamps newest first. |
| `Keys.KeyOrder` | crates/decibel-hotindex-storage/src/key.rs:38-142 | For zero-free texts the bytewise order of composite keys is the tuple order, although integer segments may contain zero bytes. |
| `Keys.KeyInjective` | crates/decibel-hotindex-storage/src/key.rs:38-181 | Two tuples of one shape with the same key are the same tuple. |
| `Keys.PrefixExact` | crates/decibel-hotindex-storage/src/key.rs:53-165 | A key starts with the prefix of a text exactly when its first segment is that text. |
| `Keys.EventKeyOrder` | crates/decibel-hotindex-storage/src/key.rs:21-26 | Event keys order by version then index and are injective. |
| `Keys.TxKeyOrder` | crates/decibel-hotindex-storage/src/key.rs:17-19 | Transaction keys order as versions and are injective. |
| `Keys.OptionalTextOrder` | crates/decibel-hotindex-storage/src/key.rs:176-181 | An absent subaccount sorts before every present one, present ones by text, no two share an encoding, and the encoding stays zero-free. |
| `Rocks.PutJson` | crates/decibel-hotindex-storage/src/rocksdb_engine.rs:70-75 | A put replaces the value under its key and keeps key order. |
| `Rocks.RocksDbEngine.PutFill` | crates/decibel-hotindex-storage/src/rocksdb_engine.rs:154-184 | A fill is written under its market key, its account key and as an activity; nothing else changes. |
| `Rocks.RocksDbEngine.PutPosition` | crates/decibel-hotindex-storage/src/rocksdb_engine.rs:190-200 | A position is written under its account, market and subaccount key. |
| `Rocks.RocksDbEngine.PutBuilderAttribution` | crates/decibel-hotindex-storage/src/rocksdb_engine.rs:202-213 | A builder row is written under its builder, time, market and fill key. |
| `Rocks.RocksDbEngine.PutActivity` | crates/decibel-hotindex-storage/src/rocksdb_engine.rs:215-227 | An activity is written under its key, replacing one of the same key. |
| `Rocks.RunIsTables` | crates/decibel-hotindex-storage/src/rocksdb_engine.rs:142-235 | After any puts each column family maps every key put to the last row put under it. |
| `Rocks.PrefixBlockEnds` | crates/decibel-hotindex-storage/src/rocksdb_engine.rs:88-110 | Keys with one prefix are contiguous, so stopping at the first key without it misses none. |
| `Rocks.ScanPrefix` | crates/decibel-hotindex-storage/src/rocksdb_engine.rs:88-110 | The walk with its early breaks returns the first rows, in key order, of exactly the keys with the prefix; a limit of zero acts as one. |
| `Rocks.RocksDbEngine.ScanMarketFills` | crates/decibel-hotindex-storage/src/rocksdb_engine.rs:272-278 | The market scan is the prefix scan of the market. |
| `Rocks.RocksDbEngine.GetPositionsByAccount` | crates/decibel-hotindex-storage/src/rocksdb_engine.rs:264-270 | Positions are the unlimited prefix scan of the account. |
| `Rocks.RocksDbEngine.LatestCheckpointTimestampUs` | crates/decibel-hotindex-storage/src/rocksdb_engine.rs:128-138 | The largest timestamp of any checkpoint, zero without one. |
| `Rocks.RocksDbEngine.GetBuilderCodeVolume` | crates/decibel-hotindex-storage/src/rocksdb_engine.rs:300-353 | Reports window, counts and sums of the rows the builder prefix scan visits. |
| `Memory.MemoryEngine.PutFill` | crates/decibel-hotindex-storage/src/memory_engine.rs:48-61 | A fill replaces the one of its fill id and appends an activity. |
| `Memory.MemoryEngine.PutActivity` | crates/decibel-hotindex-storage/src/memory_engine.rs:89-92 | Activities are appended, never replaced. |
| `Memory.MemoryEngine.PutBuilderAttribution` | crates/decibel-hotindex-storage/src/memory_engine.rs:82-87 | A builder row replaces the one of its builder and fill id. |
| `Memory.PutKeepsOrder` | crates/decibel-hotindex-storage/src/memory_engine.rs:36-98 | Every put leaves each map holding its rows under their own keys, in increasing key order. |
| `Memory.RunIsTables` | crates/decibel-hotindex-storage/src/memory_engine.rs:36-98 | After any puts each map holds the last row put under each key, and activities hold every one put, in order. |
| `Memory.MemoryEngine.ScanMarketFills` | crates/decibel-hotindex-storage/src/memory_engine.rs:128-139 | At most the limit of the stored rows of that market, and only those: as many as there are up to the limit, sorted, and no omitted one sorts before a returned one. |
| `Memory.MemoryEngine.ScanAccountFills` | crates/decibel-hotindex-storage/src/memory_engine.rs:141-152 | At most the limit of the stored rows of that account, and only those: as many as there are up to the limit, sorted, and no omitted one sorts before a returned one. |
| `Memory.MemoryEngine.ScanBuilderCodeFills` | crates/decibel-hotindex-storage/src/memory_engine.rs:154-173 | At most the limit of the stored rows of that builder, and only those: as many as there are up to the limit, sorted, and no omitted one sorts before a returned one. |
| `Memory.MemoryEngine.ScanMarketActivity` | crates/decibel-hotindex-storage/src/memory_engine.rs:244-260 | At most the limit of the stored rows of that market's activity, and only those: as many as there are up to the limit, sorted, and no omitted one sorts before a returned one. |
| `Memory.MemoryEngine.GetPositionsByAccount` | crates/decibel-hotindex-storage/src/memory_engine.rs:116-126 | Exactly the stored positions of the account, none missing, in strict key order. |
| `Memory.MemoryEngine.GetBuilderCodeVolume` | crates/decibel-hotindex-storage/src/memory_engine.rs:175-242 | Reports window, counts and sums of the stored rows of the builder. |
| `PointReads.PointReadAnswers` | crates/decibel-hotindex-storage/src/rocksdb_engine.rs:237-258 | On either engine each element of a point read is the last transaction put at its version, and nothing if and only if none was put. |
| `PointReads.PointReadsAgree` | crates/decibel-hotindex-storage/src/memory_engine.rs:100-110 | Both engines answer every point read alike, whatever was put. |
| `PointReads.OrderReadAnswers` | crates/decibel-hotindex-storage/src/memory_engine.rs:112-114 | On either engine the read of an order is the last one put under its id, and nothing if and only if none was put. |
| `FillActivities.MemoryScanIsPut` | crates/decibel-hotindex-storage/src/memory_engine.rs:244-260 | The full activity scan of a market in memory returns exactly what was put there: the activities, and for every fill a row with its market, version, index and time, its id as summary, and the type fill. |
| `FillActivities.RocksDbScanIsPut` | crates/decibel-hotindex-storage/src/rocksdb_engine.rs:355-361 | So does the RocksDB scan when no activity key is put twice. |
| `FillActivities.FillIsScanned` | crates/decibel-hotindex-storage/src/memory_engine.rs:48-61 | Every fill put is found by the activity scans of both engines, field by field; on RocksDB when no activity key is put twice. |
| `FillActivities.FillIsPlaced` | crates/decibel-hotindex-storage/src/rocksdb_engine.rs:154-184 | Even when activity keys repeat, the RocksDB scan returns an activity with the market, type, version, index and time of every fill put. |
| `Lists.StableSortIsStable` | crates/decibel-hotindex-storage/src/memory_engine.rs:255-259 | The stable sort leaves equal elements in the order in which they stood. |
| `LastWins.TableHolds` | crates/decibel-hotindex-storage/src/memory_engine.rs:36-98 | A map filled in order holds exactly the last row of every key that occurs, in increasing key order. |
| `LastWins.StoresAgree` | crates/decibel-hotindex-storage/src/memory_engine.rs:275-384 | Two stores of the same puts, one keyed coarsely and one by the encoded key, list the same pairs exactly when the coarse key fixes the encoded one. |
| `LastWins.VectorAgrees` | crates/decibel-hotindex-storage/src/memory_engine.rs:89-92 | A store that keeps every row lists what a keyed store holds exactly when no key repeats. |
| `Agreement.SameRowsIffConsistent` | crates/decibel-hotindex-storage/src/memory_engine.rs:275-384 | After any puts with zero-free texts both engines hold the same key-sorted rows in every column family if and only if fill ids and builder fills fix their keys and no activity key is put twice. |
| `Scans.MarketScanAgrees` | crates/decibel-hotindex-storage/src/rocksdb_engine.rs:272-278 | Equal (timestamp, version) sequences after truncation, if and only if the limit is at least one or there are no rows. |
| `Scans.MarketScanIdenticalIff` | crates/decibel-hotindex-storage/src/memory_engine.rs:401-409 | Market scans are identical rows for every limit if and only if, among the stored fills of the market, event index never falls as fill id rises at one timestamp and version. |
| `Scans.AccountScanAgrees` | crates/decibel-hotindex-storage/src/rocksdb_engine.rs:280-286 | Equal timestamp sequences after truncation, if and only if the limit is at least one or there are no rows. |
| `Scans.AccountScanIdenticalIff` | crates/decibel-hotindex-storage/src/memory_engine.rs:141-152 | Account scans are identical rows for every limit if and only if, among the stored fills of the account, market-then-id order never contradicts version-then-index order at one timestamp. |
| `Scans.BuilderScanAgrees` | crates/decibel-hotindex-storage/src/rocksdb_engine.rs:288-298 | Equal timestamp sequences after truncation, if and only if the limit is at least one or there are no rows. |
| `Scans.BuilderScanIdenticalIff` | crates/decibel-hotindex-storage/src/memory_engine.rs:154-173 | Builder scans are identical rows for every limit if and only if, among the stored rows of the builder, a smaller market never comes with a larger fill id at one timestamp. |
| `DerivedReads.PositionsIdentical` | crates/decibel-hotindex-storage/src/memory_engine.rs:116-126 | Positions of an account are the same rows in the same order, subaccounts included, for any puts whatever. |
| `DerivedReads.VolumeAgrees` | crates/decibel-hotindex-storage/src/rocksdb_engine.rs:300-353 | Both engines report the same builder volume field by field, although they visit rows in different orders. |
| `DerivedReads.VolumeIsReported` | crates/decibel-hotindex-storage/src/memory_engine.rs:175-242 | After any puts the volume of either engine reports the window, the counts and the sums of the stored rows of the builder. |
| `DerivedReads.ActivityScanAgrees` | crates/decibel-hotindex-storage/src/rocksdb_engine.rs:355-361 | Equal timestamp sequences of market activity, if and only if the limit is at least one or there are no rows. |
| `DerivedReads.ActivityScanIdenticalIff` | crates/decibel-hotindex-storage/src/memory_engine.rs:244-260 | Activity scans are identical rows for every limit if and only if, among the activities put for the market, type-first order at one timestamp never contradicts version-first order nor, where that ties, the order of the puts. |
| `Checksums.ChecksumCf` | crates/decibel-hotindex-storage/src/memory_engine.rs:427-444 | The running hash sees exactly the length-prefixed stream of the rows, and the count is their number. |
| `Checksums.UpdateChecksum` | crates/decibel-hotindex-storage/src/memory_engine.rs:446-451 | One row feeds length, key, length, value. |
| `Checksums.StreamDecodes` | crates/decibel-hotindex-storage/src/memory_engine.rs:446-451 | Two row lists feed the hash the same bytes if and only if they are the same list. |
| `Checksums.ChecksumsAgreeIff` | crates/decibel-hotindex-storage/src/rocksdb_engine.rs:375-399 | Consistent puts give equal checksums under any hash; under a collision-free one equal checksums need consistent puts. |
| `Checksums.ChecksumsCountKeys` | crates/decibel-hotindex-storage/src/rocksdb_engine.rs:375-399 | After any puts every column family is listed under its name with as many rows as there are different keys put. |
| `Decimal.DecimalAccumulator.Add` | crates/decibel-hotindex-storage/src/memory_engine.rs:469-481 | One addition aligns the scales digit by digit and adds; text that does not parse changes nothing. |
| `Numerals.NumeralParses` | crates/decibel-hotindex-storage/src/memory_engine.rs:516-552 | White space, an optional sign, digits with at most one point anywhere among or around them, and white space parse to the number they stand for, unless the digits exceed 127 bits. |
| `Numerals.ParsedIsNumeral` | crates/decibel-hotindex-storage/src/memory_engine.rs:516-552 | Nothing else parses. |
| `Decimal.AccumulateIsExact` | crates/decibel-hotindex-storage/src/memory_engine.rs:468-482 | After any additions the scale is the largest parsed and the units are the exact sum at that scale, wrapped once. |
| `Decimal.AccumulateOrderFree` | crates/decibel-hotindex-storage/src/memory_engine.rs:468-482 | The accumulator does not depend on the order of additions. |
| `Decimal.NoOverflow` | crates/decibel-hotindex-storage/src/memory_engine.rs:468-482 | While the magnitudes at the final scale sum to less than 2^127, no step of any addition overflows and the sum is exact. |
| `DecimalText.TrimTrailingZeros` | crates/decibel-hotindex-storage/src/memory_engine.rs:549-553 | The loop drops exactly the trailing zeros. |
| `DecimalText.Render` | crates/decibel-hotindex-storage/src/memory_engine.rs:484-514 | Printing writes sign, whole part and trimmed fraction. |
| `DecimalText.ParseOfText` | crates/decibel-hotindex-storage/src/memory_engine.rs:516-547 | Parsing the printed text returns the same rational in lowest terms, if and only if the units are not the least `i128`. |
| `DecimalText.TextIsCanonical` | crates/decibel-hotindex-storage/src/memory_engine.rs:484-514 | Any two accumulators print the same text if and only if they denote the same rational, the least `i128` included. |
| `DecimalText.TextShape` | crates/decibel-hotindex-storage/src/memory_engine.rs:484-514 | For every accumulator no printed fraction ends in zero, and the text starts with a sign exactly when the number is negative. |
| `DecimalText.LeastValueOccurs` | crates/decibel-hotindex-storage/src/memory_engine.rs:468-482 | Two additions reach the least `i128`, neither of them overflowing. |
| `Volume.VolumeReports` | crates/decibel-hotindex-storage/src/memory_engine.rs:189-241 | The window ends at the greatest of the row times and the checkpoint and starts at the least positive time less than its length before that; trades and accounts are those of the rows in it; both texts denote the sums of their parsed amounts unless those overflow; the fee is there if and only if one of them has one. |
| `Volume.ComputeVolume` | crates/decibel-hotindex-storage/src/memory_engine.rs:175-242 | The volume reports this of its rows; there is none without rows. |
| `Totals.TotalDenotes` | crates/decibel-hotindex-storage/src/memory_engine.rs:463-516 | The printed total of an accumulator parses back to the sum, over the rationals, of what was added. |
| `Volume.Tally` | crates/decibel-hotindex-storage/src/memory_engine.rs:207-228 | The loop counts trades and distinct accounts and accumulates both amounts. |
| `Volume.VolumeOrderFree` | crates/decibel-hotindex-storage/src/memory_engine.rs:175-242 | The volume depends on which rows a builder has, not on their order. |
| `Framing.Reader.ReadVarintLen` | crates/decibel-dataset/src/main.rs:1410-1432 | The length loop reads a base-128 varint of at most ten bytes, reports a clean end only before the first byte, and drops bits beyond the 64th. |
| `Framing.Reader.ReadNext` | crates/decibel-dataset/src/main.rs:1396-1408 | The next message and what remains, the end of the stream, or an error. |
| `Framing.VarintReads` | crates/decibel-dataset/src/main.rs:1365-1380 | A written length reads back as the length, whatever follows. |
| `Framing.PrefixReads` | crates/decibel-dataset/src/main.rs:1410-1432 | Any length prefix, however it was written, reads as its payload bits modulo 2^64 if one of its first ten bytes is its last, as nothing if it is empty, and is bad otherwise. |
| `Framing.FramesRoundTrip` | crates/decibel-dataset/src/main.rs:1396-1408 | Reading what was framed returns exactly the messages, then the end of the stream. |
| `Framing.TruncatedStreamReads` | crates/decibel-dataset/src/main.rs:93-112 | Cutting the stream after any number of bytes leaves exactly the frames that fit, and reading ends cleanly only between frames. |
| `Framing.SomeFramesFit` | crates/decibel-dataset/src/main.rs:93-112 | Every cut has a number of whole frames that fit. |
| `Framing.InspectRaw` | crates/decibel-dataset/src/main.rs:88-125 | The report describes the readable messages; a broken end fails it only without the truncation flag and below the limit. |
| `Framing.FaithfulCodecExists` | crates/decibel-dataset/src/main.rs:1365-1380 | The assumption made of the message encoding can be met. |
| `ChunkNames.RangeOfName` | crates/decibel-dataset/src/main.rs:2885-2897 | A printed chunk name declares the range it was printed from. |
| `ChunkNames.NamesInjective` | crates/decibel-dataset/src/main.rs:1241-1244 | Different ranges have different names. |
| `ChunkNames.NameOfRange` | crates/decibel-dataset/src/main.rs:2885-2897 | A name that declares a range is its printed name if and only if both numbers have no plus sign and no leading zero. |
| `ChunkNames.RangeReads` | crates/decibel-dataset/src/main.rs:2885-2897 | For any name and any two versions: the name declares that range if and only if it spells the first version, an underscore and the last between prefix and suffix. |
| `ChunkNames.NumberReads` | crates/decibel-dataset/src/main.rs:2891-2892 | A text parses to a version if and only if it is the printed version behind any number of zeros and at most one plus sign. |
| `ChunkNames.ChunkFileReads` | crates/decibel-dataset/src/main.rs:2871-2879 | A name is that of a chunk file if and only if it is any text between prefix and suffix, which cannot overlap. |
| `RawChunks.ValidateDeclaredSequence` | crates/decibel-dataset/src/main.rs:2750-2791 | Accepts exactly contiguous, well-formed ranges or, when contiguity is not required, well-formed ranges or a single undeclared file. |
| `RawChunks.ListRanges` | crates/decibel-dataset/src/main.rs:584-594 | The files that declare a range, each once, in range order. |
| `RawChunks.ResolveRawInputs` | crates/decibel-dataset/src/main.rs:2838-2869 | The chunk files of a directory, each once, ordered by start version then name. |
| `RawChunks.ListingOrder` | crates/decibel-dataset/src/main.rs:2855-2859 | In such a listing, files that declare no range come first, by name, and the others by first version, then by name. |
| `RawChunks.ByStartIsTotal` | crates/decibel-dataset/src/main.rs:2855-2859 | The order of chunk files is total and leaves no ties. |
| `Recorder.ActiveChunk.Write` | crates/decibel-dataset/src/main.rs:1226-1231 | Appends one frame and updates last version and count. |
| `Recorder.ActiveChunk.Finish` | crates/decibel-dataset/src/main.rs:1237-1267 | Renames the chunk into place under its range, refusing an empty chunk or an existing file. |
| `Recorder.SumCounts` | crates/decibel-dataset/src/main.rs:1287-1292 | The sum of the chunk counts, unless it overflows. |
| `Recorder.WriteCheckpoint` | crates/decibel-dataset/src/main.rs:1283-1333 | Writes the totals and the cursor behind the last version, or fails and writes nothing. |
| `Recorder.FinishAndSave` | crates/decibel-dataset/src/main.rs:918-944 | Completing the open chunk then saving is the flush step. |
| `Recorder.AddTransaction` | crates/decibel-dataset/src/main.rs:898-917 | Writing one transaction to the open chunk, counting it and noting its version for the key file. |
| `Recorder.FinishKeys` | crates/decibel-dataset/src/main.rs:1475-1494 | Renames the key file into place under its run's range, refusing an existing one. |
| `Recorder.CloseRun` | crates/decibel-dataset/src/main.rs:848-876 | A run closes by completing the chunk, keeping the key file and saving, in that order. |
| `Recorder.RecordTransaction` | crates/decibel-dataset/src/main.rs:898-944 | Writing one transaction, counting it and flushing a full chunk is the step function. |
| `Recorder.RecordBatch` | crates/decibel-dataset/src/main.rs:889-954 | The inner loop with its two limit checks takes transactions until the limit or an error stops it. |
| `Recorder.EndRun` | crates/decibel-dataset/src/main.rs:848-1013 | A broken or ended stream closes the run as partial or complete, or fails with nothing recorded. |
| `Recorder.RecordStream` | crates/decibel-dataset/src/main.rs:781-1014 | The whole run computes `RunOf` for every stream, directory and request. |
| `RecordedDir.AppendChunk` | crates/decibel-dataset/src/main.rs:1237-1267 | A new chunk behind a recorded range has a free name and extends the range; every file still holds its transactions. |
| `RecorderSafety.FlushStores` | crates/decibel-dataset/src/main.rs:1189-1199 | Completing a chunk and saving stores everything, if and only if the cursor can advance. |
| `RecorderSafety.KeysAreKept` | crates/decibel-dataset/src/main.rs:1475-1494 | The key file of a run behind all earlier ones has a free name, and lists exactly the versions its name spans. |
| `KeySampling.EncodedAt` | crates/decibel-dataset/src/main.rs:1465-1466 | The key file has eight bytes for every version, and the k-th eight are the big-endian bytes of the k-th version. |
| `KeySampling.EncodedIsExact` | crates/decibel-dataset/src/main.rs:1465-1466 | Key files are equal if and only if they list the same versions. |
| `RecordedDir.KeyFileReads` | crates/decibel-dataset/src/main.rs:1475-1494 | A sound key file is as long as its name spans, and its i-th eight bytes read back as the i-th version of that span. |
| `RecorderSafety.CloseStores` | crates/decibel-dataset/src/main.rs:964-1008 | Closing a run stores chunks, key file and checkpoint, if and only if the cursor can advance. |
| `RecorderSafety.StepKeepsSound` | crates/decibel-dataset/src/main.rs:898-944 | One transaction keeps the run invariant: chunks partition what is held, counters match, and it was written below the limit. |
| `RecorderSafety.StepsKeepSound` | crates/decibel-dataset/src/main.rs:845-963 | Any number of transactions keeps it; the run stops early only for the limit or an error. |
| `RecorderSafety.RunIsSafe` | crates/decibel-dataset/src/main.rs:781-1014 | A run over consecutive versions, started with or without a checkpoint, leaves a longer recorded range whose chunks partition it; each outcome says how much was taken, cursor and bytes are exact, an interrupted run took everything delivered and stayed below the limit, and no chunk or key file is ever refused. |
| `Resume.InferResumeState` | crates/decibel-dataset/src/main.rs:579-637 | Infers chunks and cursor from the sorted names, or reports none, a bad sequence or an overflow. |
| `Resume.LoadResumeState` | crates/decibel-dataset/src/main.rs:535-577 | The saved state, its cursor told from the last version where the field is missing, or completed from the chunk names. |
| `Resume.LoadedReads` | crates/decibel-dataset/src/main.rs:535-577 | Whatever was saved and whatever the names: a saved cursor decides, else the saved last version, else the greatest version a name declares; saved chunks are never replaced. |
| `Resume.InferenceIsExact` | crates/decibel-dataset/src/main.rs:579-637 | From the names of a recorded directory it infers the chunks themselves and the cursor behind them; it fails if and only if the versions are used up. |
| `Resume.CheckpointAgrees` | crates/decibel-dataset/src/main.rs:1283-1317 | The checkpoint of such a directory holds the same last version, cursor and chunks, and its count is the sum of theirs. |
| `Resume.LoadedIsExact` | crates/decibel-dataset/src/main.rs:535-577 | A directory that holds transactions loads exactly its chunks and the cursor behind them, whether its checkpoint is there or lost; one that holds none loads no cursor. |
| `Resume.PartLoadsTheSame` | crates/decibel-dataset/src/main.rs:535-577 | A checkpoint that has lost its cursor, its last version or both still loads the same cursor and chunks. |
| `Resume.InspectionResumes` | crates/decibel-dataset/src/main.rs:88-125 | Inspecting a cut chunk of consecutive versions counts what fits and names the first version behind it as the one to continue with. |
| `Retries.RecordWithRetries` | crates/decibel-dataset/src/main.rs:712-779 | The retry loop computes `RecordFrom`. |
| `Retries.Decide` | crates/decibel-dataset/src/main.rs:725-776 | After a run: done, out of retries, or the request that continues from the cursor with the budget left. |
| `Retries.OutcomeIsCheckpointed` | crates/decibel-dataset/src/main.rs:964-1008 | A run with an outcome has written a checkpoint that says the same: complete or partial, its range, bytes and cursor, and whether the byte limit stopped it. |
| `Retries.StepsStillRecord` | crates/decibel-dataset/src/main.rs:920-944 | Before a run is closed its checkpoints say that it is still recording. |
| `Retries.BudgetAddsUp` | crates/decibel-dataset/src/main.rs:749-757 | Staying within what is left of the budget stays within the budget. |
| `Retries.RecordingIsSafe` | crates/decibel-dataset/src/main.rs:712-779 | Over all retries the directory holds the ledger from the origin to the cursor, each transaction was written while the total was below the original limit, at most one run more than the retries took place, and the start never passes the end. |
| `Retries.FreshRecordingIsSafe` | crates/decibel-dataset/src/main.rs:712-779 | The same for a recorder started in an empty directory. |
| `Crashes.CrashIsKept` | crates/decibel-dataset/src/main.rs:1237-1267 | A crash that does not outdate the checkpoint leaves a longer recorded range, with every chunk, checkpoint and key file sound. |
| `Crashes.CrashKeptIff` | crates/decibel-dataset/src/main.rs:898-1008 | At whatever point a run behind a recorded range crashes, the directory stays sound if and only if the crash does not come between a rename and its checkpoint while an older checkpoint stands. |
| `Crashes.OutdatedCheckpointLosesNothing` | crates/decibel-dataset/src/main.rs:1237-1267 | After a crash at any point the files still hold everything recorded, and without the checkpoint the directory is sound. |
| `FirstChunks.RunGrows` | crates/decibel-dataset/src/main.rs:1244-1250 | No run loses or overwrites a chunk file, whatever its stream delivers and wherever it starts. |
| `FirstChunks.FirstChunkDecides` | crates/decibel-dataset/src/main.rs:898-963 | A run changes the directory if and only if it completes a first chunk whose name is new; it is refused and changes nothing if and only if it completes one whose name is taken. |
| `FirstChunks.RecordingDecides` | crates/decibel-dataset/src/main.rs:712-779 | The same for a recording over any number of streams. |
| `Outdated.CrashLeavesOrphan` | crates/decibel-dataset/src/main.rs:1237-1267 | A crash that outdates the checkpoint leaves exactly one chunk that starts at the cursor of the checkpoint, and it ends with the last version written. |
| `Outdated.ResumedRecording` | crates/decibel-dataset/src/main.rs:663-779 | A recorder that resumes from such a checkpoint leaves the directory exactly as it was, or with two chunks that start at the same version; the latter if and only if it completes a first chunk that does not end where the chunk there ends. |
| `Outdated.ResumedCrash` | crates/decibel-dataset/src/main.rs:1237-1267 | If it crashes again, the directory too is exactly as it was or holds two such chunks. |
| `LedgerFiles.RunIsTrue` | crates/decibel-dataset/src/main.rs:781-1014 | From any directory whose files each hold the stretch of the ledger they are named after, with any checkpoint and any start, a run over an honest stream leaves such a directory. |
| `LedgerFiles.RecordingIsTrue` | crates/decibel-dataset/src/main.rs:712-779 | So does a recording over any number of streams. |
| `LedgerFiles.CrashIsTrue` | crates/decibel-dataset/src/main.rs:1237-1267 | So does a crash at any point. |
| `Invocations.EndOf` | crates/decibel-dataset/src/main.rs:687-710 | With a transaction count, the end is the one that makes the range that long, and there is one if and only if the count is positive and the range fits. |
| `Invocations.ResolvesIff` | crates/decibel-dataset/src/main.rs:366-409 | Exactly which options and loaded states make a request for a range, and the request they make. |
| `Invocations.Record` | crates/decibel-dataset/src/main.rs:361-435 | One live invocation: load the state, resolve start and end or report why not, and record with retries. |
| `Invocations.LaterStreamResumes` | crates/decibel-dataset/src/main.rs:767-775 | A later stream of a recording is the first stream of an invocation that resumes with what is left of the budget. |
| `Lives.StartsBehind` | crates/decibel-dataset/src/main.rs:663-685 | A sound directory loads exactly what it holds; a recorder that resumes starts right behind it, and one that does not, or finds nothing, starts where it is asked to. |
| `Lives.LifeIsTrue` | crates/decibel-dataset/src/main.rs:781-1014 | Over any number of invocations, resumed or not, with their own options and networks, crashes at any point, lost files and lost or replaced checkpoints, every chunk file always holds exactly the stretch of the ledger that it is named after. |
| `Lives.EventGrows` | crates/decibel-dataset/src/main.rs:1244-1250 | Whatever happens, chunk files are only added and never altered, unless files are lost. |
| `Lives.InvokedKeeps` | crates/decibel-dataset/src/main.rs:361-435 | An invocation that resumes, or starts in an empty directory, leaves the directory holding a longer stretch of the same ledger, however it ends. |
| `Lives.LifeIsSafe` | crates/decibel-dataset/src/main.rs:712-779 | In an orderly life, over any number of invocations, crashes and lost checkpoints, the chunk files are always the whole ledger from an origin up to a version, until the largest version is recorded. |
| `Lives.OrphanStaysOrOverlaps` | crates/decibel-dataset/src/main.rs:663-685 | However often a recorder resumes from an outdated checkpoint, crashing or not, the directory stays exactly as it is or overlaps from some time on. |
| `OutdatedLife.OutdatedIsReachable` | crates/decibel-dataset/src/main.rs:1237-1267 | From an empty directory and an honest network: a crash that outdates the checkpoint, and a later invocation that then overlaps. |
| `Afresh.AfreshKeptIff` | crates/decibel-dataset/src/main.rs:663-685 | A recorder that does not resume in a directory that holds something leaves it sound if and only if it leaves it exactly as it was, short of the largest version. |
| `Afresh.AfreshCrashKeptIff` | crates/decibel-dataset/src/main.rs:663-685 | The same if it crashes, at whatever point, while a checkpoint stands. |
| `Normalizer.AddRow` | crates/decibel-dataset/src/main.rs:1919-1937 | Adds a row to the totals, if and only if its version is new. |
| `Normalizer.NormalizeChunk` | crates/decibel-dataset/src/main.rs:1887-1946 | Accepts a chunk if and only if it reads to its end, is consecutive, matches its declared range, repeats no version and its events parse. |
| `Normalizer.Normalize` | crates/decibel-dataset/src/main.rs:1865-1948 | Accepts the inputs if and only if the declared ranges and every chunk are acceptable; the manifest has the least and greatest version and the wrapped count. |
| `Normalizer.NormalizerIsSound` | crates/decibel-dataset/src/main.rs:1865-2039 | For any files whatever, an accepted input holds each version from start to end once, in order; the benchmark accepts the manifest if and only if it does not span all 64-bit versions. |
| `Normalizer.OverlapIsRefused` | crates/decibel-dataset/src/main.rs:2750-2791 | A directory with two chunks that declare a common version is never accepted. |
| `Normalizer.ManifestOfConsecutive` | crates/decibel-hotindex-bench/src/main.rs:1242-1272 | The manifest of consecutive rows names their first and last version and passes the range check if and only if the count did not wrap. |
| `Completeness.NormalizeDirectory` | crates/decibel-dataset/src/main.rs:302-330 | Normalizes the chunk files of a directory in listing order. |
| `Completeness.ListingIsPaths` | crates/decibel-dataset/src/main.rs:2838-2869 | Sorted for the normalizer, the files of a recorded directory are its chunks in order. |
| `Completeness.RecordedIsAccepted` | crates/decibel-dataset/src/main.rs:1877-1948 | A recorded directory is accepted and decodes to exactly the recorded transactions. |
| `Completeness.RecorderOutputNormalizes` | crates/decibel-hotindex-bench/src/main.rs:1242-1272 | Whatever a recorder has left, at its end or at any checkpoint, normalizes to the recorded range with an accepted manifest. |
| `Completeness.RecordThenNormalize` | crates/decibel-dataset/src/main.rs:712-779 | From an empty directory and an honest network, recording then normalizing yields the ledger from the requested start to the cursor. |
| `Datasets.AcceptedIsLedger` | crates/decibel-dataset/src/main.rs:1865-1948 | Whatever has happened to a directory, a dataset accepted from it is the ledger from some version to some version, each once, in order and unaltered. |
| `Datasets.LifeNormalizes` | crates/decibel-dataset/src/main.rs:1865-1948 | At every time of an orderly life the directory normalizes to the whole ledger from an origin up to a version. |
| `Datasets.CrashNormalizes` | crates/decibel-dataset/src/main.rs:1865-1948 | What any crash leaves of an orderly directory normalizes, even if it outdates the checkpoint. |
| `Datasets.OrphanStaysOrIsRefused` | crates/decibel-dataset/src/main.rs:2750-2791 | Behind an outdated checkpoint a directory stays exactly as the crash left it, or from some time on nothing is accepted from it. |
| `KeySampling.KeyWriter.constructor` | crates/decibel-dataset/src/main.rs:1444-1463 | The stride is the expected count over the limit, rounded up, and at least one. |
| `KeySampling.KeyWriter.WriteVersion` | crates/decibel-dataset/src/main.rs:1465-1473 | Every stride-th version is sampled up to the limit; the eight big-endian bytes of every version are appended to the key file. |
| `KeySampling.StrideSuffices` | crates/decibel-dataset/src/main.rs:1453-1454 | Rounding the stride up keeps the samples within the limit. |
| `KeySampling.SamplesAreComplete` | crates/decibel-dataset/src/main.rs:1453-1472 | Up to the expected number of versions the samples are exactly those at multiples of the stride, and the limit never drops one. |
| `QueryCorpus.PointQueries` | crates/decibel-dataset/src/main.rs:2361-2389 | One query per distinct version. |
| `QueryCorpus.FillQueries` | crates/decibel-dataset/src/main.rs:2391-2414 | One market scan per distinct market and one account scan per distinct account. |
| `QueryCorpus.BuilderQueries` | crates/decibel-dataset/src/main.rs:2416-2437 | One scan and one volume query per distinct builder. |
| `QueryCorpus.BuildQueryCorpus` | crates/decibel-dataset/src/main.rs:2354-2453 | Every version, market, account and builder is covered exactly once, the multi-get asks for the first hundred versions ascending, and nothing else occurs. |
| `QueryHits.ReplayIntoMemory` | crates/decibel-dataset/src/main.rs:1706-1750 | A replay leaves the engine in the state its puts describe. |
| `QueryHits.ReplayIntoRocksDb` | crates/decibel-dataset/src/main.rs:1706-1750 | A replay leaves the database in the state its puts describe. |
| `Replays.ReplayPutsKinds` | crates/decibel-dataset/src/main.rs:1706-1750 | Of each kind a replay puts exactly the rows of the dataset, once each and in order. |
| `QueryHits.PointQueryHits` | crates/decibel-hotindex-bench/src/main.rs:792-801 | On both engines a point query hits exactly the versions that have a transaction row. |
| `QueryHits.MultiGetHits` | crates/decibel-hotindex-bench/src/main.rs:803-825 | A multi-get succeeds if and only if there is a transaction at each of its versions, and otherwise reports missing rows. |
| `QueryHits.MalformedFails` | crates/decibel-hotindex-bench/src/main.rs:790-868 | A query fails for what it lacks, or for a limit of zero, if and only if it is malformed. |
| `QueryHits.RocksDbCorpusHits` | crates/decibel-hotindex-bench/src/main.rs:790-868 | On RocksDB all corpus queries succeed if and only if there are transaction rows or no events. |
| `QueryHits.MemoryCorpusHits` | crates/decibel-hotindex-bench/src/main.rs:790-868 | In memory they succeed if and only if, besides, every fill's market and account survive the replacement of fills by id. |
| `QueryHits.FixedFillsSurvive` | crates/decibel-hotindex-storage/src/memory_engine.rs:48-61 | They survive when a fill id fixes market and account. |
| `QueryHits.ReplacedFillVanishes` | crates/decibel-hotindex-storage/src/memory_engine.rs:48-61 | They need not survive otherwise. |
| `BenchWorkers.DeterministicRng.NextUsize` | crates/decibel-hotindex-bench/src/main.rs:757-770 | The generator advances once with wrapping arithmetic and returns an index below the bound, unless there is no choice. |
| `BenchWorkers.DeterministicRng.NextZipfLike` | crates/decibel-hotindex-bench/src/main.rs:772-779 | The whole part of the cubed fraction times the length, which over the reals lies within the length even without the guard. |
| `BenchWorkers.QueryIndex` | crates/decibel-hotindex-bench/src/main.rs:734-745 | The n-th choice of a generator: the iteration in turn, or determined by the seed and n; always within a non-empty corpus. |
| `BenchWorkers.MeasureQueryWorker` | crates/decibel-hotindex-bench/src/main.rs:671-716 | A worker executes exactly the iterations of its residue class, once each, queries for each the record that its generator chooses, and counts exactly those that fail. |
| `BenchWorkers.FinishQueryResults` | crates/decibel-hotindex-bench/src/main.rs:718-732 | Operations and errors are the sums over the workers. |
| `BenchWorkers.WorkersPartition` | crates/decibel-hotindex-bench/src/main.rs:592-617 | The workers' shares together are every iteration exactly once. |
| `BenchWorkers.WarmUp` | crates/decibel-hotindex-bench/src/main.rs:582-586 | Warming up ends with the error of the first query that fails, if one does. |
| `BenchWorkers.SequentialFailures` | crates/decibel-hotindex-bench/src/main.rs:592-617 | In turn, the failures of all workers are those of the iterations, whoever executes them. |
| `BenchWorkers.MeasureQueries` | crates/decibel-hotindex-bench/src/main.rs:576-618 | A measurement succeeds if and only if the concurrency is allowed and no query fails while warming up; its operations are the iterations and its errors exactly the failing queries, none if all queries of the corpus hit and all if all miss. |

## Left out

* gRPC, TLS, authentication, asynchronous execution and zstd: the stream is an environment and compression is the identity.
* RocksDB internals (compaction, flushing, statistics) and `stats` of both engines.
* SHA-256, JSON and protobuf bodies: functions given as parameters; a proof that needs it assumes that decoding inverts
  encoding, or that the hash has no collisions. A protobuf message body is at most 1 GiB.
* Event extraction: a predicate on transactions given as a parameter. Completeness assumes that every transaction's
  events parse.
* Unicode whitespace: trimming a decimal removes ASCII whitespace only.
* Floating point: throughput, percentages, rate scheduling and histograms. The zipfian index is computed over the reals.
* The seeds of the benchmark's generators are parameters, and `IngestRows::replay_each` is not modelled beyond the replay
  order of a dataset.
- Recorder.RecordStream: does not write the sample, query and manifest files beside the key file. A failure to write one
  of them ends the run as a crash after the key file does, which is modelled.
- Invocations.Record: does not have the mode without `--live`, which records nothing and writes a planned checkpoint; the
  theorems over whole lives allow the checkpoint to be replaced by any other. Paths, addresses and the token are left out.
- BenchWorkers.DeterministicRng.NextZipfLike: computes over the reals and leaves out how doubles round.
- Lives.LifeIsSafe: follows only orderly lives, because outside them it is false; `Lives.LifeIsTrue` holds in all. Of a
  crash of a recorder that starts afresh in a used directory without a checkpoint, only the latter is proved.
* Temporary chunk files, the resume hint and the `sha256` field of chunk entries.
* A directory holds chunk files and one checkpoint; other files, file system errors, fsync and the steps within an atomic
  rename are not modelled. A refused connection is a stream that breaks before its first message.
* The progress reports of a run.
* Locks and threads: workers run one after another, which shows the same results because they share only an engine that
  they read.
* The `event_by_type_version` key, which no engine writes.
* Overflow in a debug build, which panics where the model wraps; `Decimal.NoOverflow` shows when no step overflows. The
  benchmark's strided index does not overflow in the model.
* Configuration, address normalization, the Decibel event parser, manifests beyond their range, reports, command line and
  the administration tools.
