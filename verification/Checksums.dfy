/** Per-column-family checksums: every row's key and JSON value, each behind its length, fed to one
    running hash. The hash and the JSON encoding are parameters. */
module Checksums {
  import opened Prelude
  import opened Rows
  import opened OrderedMaps
  import B = ByteOrder
  import K = Keys
  import Lists
  import A = Agreement
  import LastWins
  import M = Memory
  import R = Rocks

  datatype CfChecksum = CfChecksum(name: string, rowCount: nat, hash: Bytes)

  datatype Json = Json(
    tx: TxRow -> Bytes, event: NormalizedEvent -> Bytes, fill: FillRow -> Bytes, order: OrderRow -> Bytes,
    position: PositionRow -> Bytes, builder: BuilderRow -> Bytes, activity: ActivityRow -> Bytes,
    checkpoint: IngestCheckpoint -> Bytes)

  /** `len as u64` in big-endian bytes. */
  function Length(bytes: Bytes): (prefix: Bytes)
    ensures |prefix| == 8
  {
    K.BeU64(|bytes| % U64_LIMIT)
  }

  function Entry(key: Bytes, value: Bytes): Bytes {
    Length(key) + key + Length(value) + value
  }

  /** The bytes the hash sees. */
  function Stream(rows: seq<(Bytes, Bytes)>): Bytes {
    if rows == [] then [] else Stream(rows[..|rows| - 1]) + Entry(rows[|rows| - 1].0, rows[|rows| - 1].1)
  }

  class RunningHash {
    var fed: Bytes

    constructor ()
      ensures fed == []
    {
      fed := [];
    }

    method Update(bytes: Bytes)
      modifies this
      ensures fed == old(fed) + bytes
    {
      fed := fed + bytes;
    }
  }

  method UpdateChecksum(hash: RunningHash, key: Bytes, value: Bytes)
    modifies hash
    ensures hash.fed == old(hash.fed) + Entry(key, value)
  {
    hash.Update(Length(key));
    hash.Update(key);
    hash.Update(Length(value));
    hash.Update(value);
  }

  function ChecksumOf(name: string, rows: seq<(Bytes, Bytes)>, digest: Bytes -> Bytes): CfChecksum {
    CfChecksum(name, |rows|, digest(Stream(rows)))
  }

  method ChecksumCf(name: string, rows: seq<(Bytes, Bytes)>, digest: Bytes -> Bytes) returns (checksum: CfChecksum)
    ensures checksum == ChecksumOf(name, rows, digest)
    ensures checksum.name == name && checksum.rowCount == |rows| && checksum.hash == digest(Stream(rows))
  {
    var hash := new RunningHash();
    var rowCount := 0;
    for i := 0 to |rows|
      invariant hash.fed == Stream(rows[..i]) && rowCount == i
    {
      assert rows[..i + 1][..i] == rows[..i];
      UpdateChecksum(hash, rows[i].0, rows[i].1);
      rowCount := rowCount + 1;
    }
    assert rows[..|rows|] == rows;
    checksum := CfChecksum(name, rowCount, digest(hash.fed));
  }

  function Encoded<W>(cf: OrderedMap<Bytes, W>, json: W -> Bytes): seq<(Bytes, Bytes)> {
    Lists.Map((pair: (Bytes, W)) => (pair.0, json(pair.1)), cf)
  }

  function Checksums(t: R.Tables, json: Json, digest: Bytes -> Bytes): seq<CfChecksum> {
    [ChecksumOf("cf_tx_by_version", Encoded(t.txs, json.tx), digest),
     ChecksumOf("cf_raw_event_by_version_idx", Encoded(t.events, json.event), digest),
     ChecksumOf("cf_fills_by_market_time", Encoded(t.fillsByMarket, json.fill), digest),
     ChecksumOf("cf_fills_by_account_time", Encoded(t.fillsByAccount, json.fill), digest),
     ChecksumOf("cf_order_by_id", Encoded(t.orders, json.order), digest),
     ChecksumOf("cf_positions_by_account_market", Encoded(t.positions, json.position), digest),
     ChecksumOf("cf_builder_code_fills", Encoded(t.builders, json.builder), digest),
     ChecksumOf("cf_market_recent_activity", Encoded(t.activities, json.activity), digest),
     ChecksumOf("cf_ingest_checkpoint", Encoded(t.checkpoints, json.checkpoint), digest)]
  }

  ghost function DifferentKeys<W(!new)>(rows: seq<W>, key: W -> Bytes): set<Bytes> {
    set r | r in rows :: key(r)
  }

  /** The checksum bears the name and counts the different keys of the rows put. */
  ghost predicate CountsKeys<W(!new)>(checksum: CfChecksum, name: string, rows: seq<W>, key: W -> Bytes) {
    checksum.name == name && checksum.rowCount == |DifferentKeys(rows, key)|
  }

  lemma TableCountsKeys<W(!new)>(name: string, cf: OrderedMap<Bytes, W>, rows: seq<W>, key: W -> Bytes,
                                 json: W -> Bytes, digest: Bytes -> Bytes)
    requires cf == LastWins.Table(rows, key, B.Lt)
    ensures CountsKeys(ChecksumOf(name, Encoded(cf, json), digest), name, rows, key)
  {
    LastWins.ByteOrderIsStrict();
    LastWins.TableCounts(rows, key, B.Lt);
  }

  lemma FamilyCounts<W(!new)>(checksum: CfChecksum, name: string, cf: OrderedMap<Bytes, W>, rows: seq<W>,
                              key: W -> Bytes, json: W -> Bytes, digest: Bytes -> Bytes)
    requires checksum == ChecksumOf(name, Encoded(cf, json), digest) && cf == LastWins.Table(rows, key, B.Lt)
    ensures CountsKeys(checksum, name, rows, key)
  {
    TableCountsKeys(name, cf, rows, key, json, digest);
  }

  /** After any puts every column family's checksum counts the different keys put there. */
  lemma ChecksumsCountKeys(puts: seq<Put>, json: Json, digest: Bytes -> Bytes)
    ensures
      var c := Checksums(R.Run(puts), json, digest);
      && |c| == 9
      && CountsKeys(c[0], "cf_tx_by_version", Txs(puts), R.TxKey)
      && CountsKeys(c[1], "cf_raw_event_by_version_idx", Events(puts), R.EventKey)
      && CountsKeys(c[2], "cf_fills_by_market_time", Fills(puts), R.FillMarketKey)
      && CountsKeys(c[3], "cf_fills_by_account_time", Fills(puts), R.FillAccountKey)
      && CountsKeys(c[4], "cf_order_by_id", Orders(puts), R.OrderKey)
      && CountsKeys(c[5], "cf_positions_by_account_market", Positions(puts), R.PositionKey)
      && CountsKeys(c[6], "cf_builder_code_fills", Builders(puts), R.BuilderKey)
      && CountsKeys(c[7], "cf_market_recent_activity", Activities(puts), R.ActivityKey)
      && CountsKeys(c[8], "cf_ingest_checkpoint", Checkpoints(puts), R.CheckpointKey)
  {
    var t := R.Run(puts);
    var c := Checksums(t, json, digest);
    R.RunIsTables(puts);
    FamilyCounts(c[0], "cf_tx_by_version", t.txs, Txs(puts), R.TxKey, json.tx, digest);
    FamilyCounts(c[1], "cf_raw_event_by_version_idx", t.events, Events(puts), R.EventKey, json.event, digest);
    FamilyCounts(c[2], "cf_fills_by_market_time", t.fillsByMarket, Fills(puts), R.FillMarketKey, json.fill, digest);
    FamilyCounts(c[3], "cf_fills_by_account_time", t.fillsByAccount, Fills(puts), R.FillAccountKey, json.fill, digest);
    FamilyCounts(c[4], "cf_order_by_id", t.orders, Orders(puts), R.OrderKey, json.order, digest);
    FamilyCounts(c[5], "cf_positions_by_account_market", t.positions, Positions(puts), R.PositionKey, json.position,
      digest);
    FamilyCounts(c[6], "cf_builder_code_fills", t.builders, Builders(puts), R.BuilderKey, json.builder, digest);
    FamilyCounts(c[7], "cf_market_recent_activity", t.activities, Activities(puts), R.ActivityKey, json.activity,
      digest);
    FamilyCounts(c[8], "cf_ingest_checkpoint", t.checkpoints, Checkpoints(puts), R.CheckpointKey, json.checkpoint,
      digest);
  }

  // The stream can be taken apart again.

  ghost predicate Fits(rows: seq<(Bytes, Bytes)>) {
    forall row :: row in rows ==> |row.0| < U64_LIMIT && |row.1| < U64_LIMIT
  }

  lemma LengthInjective(a: Bytes, b: Bytes)
    requires |a| < U64_LIMIT && |b| < U64_LIMIT
    ensures Length(a) == Length(b) <==> |a| == |b|
  {
    B.MachineWidths();
    B.BigEndianOrder(|a| % U64_LIMIT, |b| % U64_LIMIT, 8);
  }

  /** A length-prefixed field can be cut off the front. */
  lemma FieldDecodes(a: Bytes, b: Bytes, x: Bytes, y: Bytes)
    requires |a| < U64_LIMIT && |b| < U64_LIMIT
    requires Length(a) + a + x == Length(b) + b + y
    ensures a == b && x == y
  {
    var s, t := Length(a) + a + x, Length(b) + b + y;
    assert s[..8] == Length(a) && t[..8] == Length(b);
    LengthInjective(a, b);
    assert s[8..8 + |a|] == a && t[8..8 + |b|] == b;
    assert s[8 + |a|..] == x && t[8 + |b|..] == y;
  }

  lemma {:induction false} StreamAppend(a: seq<(Bytes, Bytes)>, b: seq<(Bytes, Bytes)>)
    ensures Stream(a + b) == Stream(a) + Stream(b)
  {
    if b == [] {
      assert a + b == a;
    } else {
      var init, last := b[..|b| - 1], b[|b| - 1];
      assert (a + b)[..|a + b| - 1] == a + init;
      StreamAppend(a, init);
      var entry := Entry(last.0, last.1);
      Lists.AppendAssociative(Stream(a), Stream(init), entry);
    }
  }

  lemma StreamOfOne(row: (Bytes, Bytes))
    ensures Stream([row]) == Entry(row.0, row.1)
  {
    assert [row][..0] == [];
  }

  lemma StreamCons(row: (Bytes, Bytes), rest: seq<(Bytes, Bytes)>)
    ensures Stream([row] + rest) == Entry(row.0, row.1) + Stream(rest)
  {
    StreamAppend([row], rest);
    StreamOfOne(row);
  }

  lemma EntryDecodes(a: (Bytes, Bytes), b: (Bytes, Bytes), x: Bytes, y: Bytes)
    requires |a.0| < U64_LIMIT && |a.1| < U64_LIMIT && |b.0| < U64_LIMIT && |b.1| < U64_LIMIT
    requires Entry(a.0, a.1) + x == Entry(b.0, b.1) + y
    ensures a == b && x == y
  {
    assert Length(a.0) + a.0 + (Length(a.1) + a.1 + x) == Entry(a.0, a.1) + x;
    assert Length(b.0) + b.0 + (Length(b.1) + b.1 + y) == Entry(b.0, b.1) + y;
    FieldDecodes(a.0, b.0, Length(a.1) + a.1 + x, Length(b.1) + b.1 + y);
    FieldDecodes(a.1, b.1, x, y);
  }

  /** Two row lists feed the hash the same bytes exactly when they are the same list. */
  lemma {:induction false} StreamDecodes(a: seq<(Bytes, Bytes)>, b: seq<(Bytes, Bytes)>)
    requires Fits(a) && Fits(b)
    ensures Stream(a) == Stream(b) <==> a == b
  {
    if a != [] && b != [] {
      assert a == [a[0]] + a[1..] && b == [b[0]] + b[1..];
      StreamCons(a[0], a[1..]);
      StreamCons(b[0], b[1..]);
      if Stream(a) == Stream(b) {
        EntryDecodes(a[0], b[0], Stream(a[1..]), Stream(b[1..]));
        StreamDecodes(a[1..], b[1..]);
      }
    }
  }

  // Equal checksums and equal rows.

  /** The hash has no collisions. */
  ghost predicate CollisionFree(digest: Bytes -> Bytes) {
    forall x, y :: digest(x) == digest(y) ==> x == y
  }

  ghost predicate Injective<W(!new)>(json: W -> Bytes) {
    forall x, y :: json(x) == json(y) ==> x == y
  }

  ghost predicate Faithful(json: Json) {
    && Injective(json.tx) && Injective(json.event) && Injective(json.fill) && Injective(json.order)
    && Injective(json.position) && Injective(json.builder) && Injective(json.activity) && Injective(json.checkpoint)
  }

  ghost predicate TablesFit(t: R.Tables, json: Json) {
    && Fits(Encoded(t.txs, json.tx)) && Fits(Encoded(t.events, json.event))
    && Fits(Encoded(t.fillsByMarket, json.fill)) && Fits(Encoded(t.fillsByAccount, json.fill))
    && Fits(Encoded(t.orders, json.order)) && Fits(Encoded(t.positions, json.position))
    && Fits(Encoded(t.builders, json.builder)) && Fits(Encoded(t.activities, json.activity))
    && Fits(Encoded(t.checkpoints, json.checkpoint))
  }

  lemma ChecksumSeparates<W(!new)>(name: string, a: OrderedMap<Bytes, W>, b: OrderedMap<Bytes, W>, json: W -> Bytes,
                                   digest: Bytes -> Bytes)
    requires Injective(json) && CollisionFree(digest)
    requires Fits(Encoded(a, json)) && Fits(Encoded(b, json))
    requires ChecksumOf(name, Encoded(a, json), digest) == ChecksumOf(name, Encoded(b, json), digest)
    ensures a == b
  {
    StreamDecodes(Encoded(a, json), Encoded(b, json));
    assert |Encoded(a, json)| == |a| && |Encoded(b, json)| == |b|;
    forall i | 0 <= i < |a|
      ensures a[i] == b[i]
    {
      assert Encoded(a, json)[i] == (a[i].0, json(a[i].1));
      assert Encoded(b, json)[i] == (b[i].0, json(b[i].1));
    }
  }

  lemma ChecksumsSeparate(a: R.Tables, b: R.Tables, json: Json, digest: Bytes -> Bytes)
    requires Faithful(json) && CollisionFree(digest) && TablesFit(a, json) && TablesFit(b, json)
    requires Checksums(a, json, digest) == Checksums(b, json, digest)
    ensures a == b
  {
    var x, y := Checksums(a, json, digest), Checksums(b, json, digest);
    assert x[0] == y[0] && x[1] == y[1] && x[2] == y[2] && x[3] == y[3] && x[4] == y[4]
        && x[5] == y[5] && x[6] == y[6] && x[7] == y[7] && x[8] == y[8];
    ChecksumSeparates(x[0].name, a.txs, b.txs, json.tx, digest);
    ChecksumSeparates(x[1].name, a.events, b.events, json.event, digest);
    ChecksumSeparates(x[2].name, a.fillsByMarket, b.fillsByMarket, json.fill, digest);
    ChecksumSeparates(x[3].name, a.fillsByAccount, b.fillsByAccount, json.fill, digest);
    ChecksumSeparates(x[4].name, a.orders, b.orders, json.order, digest);
    ChecksumSeparates(x[5].name, a.positions, b.positions, json.position, digest);
    ChecksumSeparates(x[6].name, a.builders, b.builders, json.builder, digest);
    ChecksumSeparates(x[7].name, a.activities, b.activities, json.activity, digest);
    ChecksumSeparates(x[8].name, a.checkpoints, b.checkpoints, json.checkpoint, digest);
  }

  /** Consistent puts give equal checksums under any hash; and under a collision-free one the
      checksums of the two engines are equal only for consistent puts. */
  lemma ChecksumsAgreeIff(puts: seq<Put>, json: Json, digest: Bytes -> Bytes)
    requires A.ZeroFreePuts(puts)
    ensures A.Consistent(puts) ==>
              Checksums(A.MemoryTables(M.Run(puts)), json, digest) == Checksums(R.Run(puts), json, digest)
    ensures Faithful(json) && CollisionFree(digest)
            && TablesFit(A.MemoryTables(M.Run(puts)), json) && TablesFit(R.Run(puts), json)
            && Checksums(A.MemoryTables(M.Run(puts)), json, digest) == Checksums(R.Run(puts), json, digest)
            ==> A.Consistent(puts)
  {
    A.SameRowsIffConsistent(puts);
    if Faithful(json) && CollisionFree(digest)
       && TablesFit(A.MemoryTables(M.Run(puts)), json) && TablesFit(R.Run(puts), json)
       && Checksums(A.MemoryTables(M.Run(puts)), json, digest) == Checksums(R.Run(puts), json, digest)
    {
      ChecksumsSeparate(A.MemoryTables(M.Run(puts)), R.Run(puts), json, digest);
    }
  }
}
