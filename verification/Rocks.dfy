/** The RocksDB engine: one column family a row kind, every row stored under its encoded key,
    every scan a forward walk over the keys that start with a prefix. */
module Rocks {
  import opened Prelude
  import opened Rows
  import opened OrderedMaps
  import B = ByteOrder
  import K = Keys
  import LastWins
  import Lists
  import V = Volume

  /** The column families, each ordered by key bytes. */
  datatype Tables = Tables(
    txs: OrderedMap<Bytes, TxRow>,
    events: OrderedMap<Bytes, NormalizedEvent>,
    fillsByMarket: OrderedMap<Bytes, FillRow>,
    fillsByAccount: OrderedMap<Bytes, FillRow>,
    orders: OrderedMap<Bytes, OrderRow>,
    positions: OrderedMap<Bytes, PositionRow>,
    builders: OrderedMap<Bytes, BuilderRow>,
    activities: OrderedMap<Bytes, ActivityRow>,
    checkpoints: OrderedMap<Bytes, IngestCheckpoint>)

  const EMPTY: Tables := Tables([], [], [], [], [], [], [], [], [])

  function TxKey(r: TxRow): Bytes { K.TxByVersion(r.version) }

  function EventKey(r: NormalizedEvent): Bytes { K.RawEventByVersionIdx(r.version, r.eventIdx) }

  function FillMarketKey(r: FillRow): Bytes { K.Key(K.FillMarketSegments(r)) }

  function FillAccountKey(r: FillRow): Bytes { K.Key(K.FillAccountSegments(r)) }

  function OrderKey(r: OrderRow): Bytes { r.orderId }

  function PositionKey(r: PositionRow): Bytes { K.Key(K.PositionSegments(r.account, r.marketId, r.subaccount)) }

  function BuilderKey(r: BuilderRow): Bytes { K.Key(K.BuilderSegments(r)) }

  function ActivityKey(r: ActivityRow): Bytes { K.Key(K.ActivitySegments(r)) }

  function CheckpointKey(r: IngestCheckpoint): Bytes { K.Key(K.CheckpointSegments(r.network, r.packageAddress)) }

  /** The text segments of the row's keys, which must not contain the separator. */
  ghost predicate KeyTextsZeroFree(put: Put) {
    match put
    case PutFill(f) => B.ZeroFree(f.marketId) && B.ZeroFree(f.account) && B.ZeroFree(f.fillId)
    case PutOrder(o) => B.ZeroFree(o.orderId)
    case PutPosition(p) => B.ZeroFree(p.account) && B.ZeroFree(p.marketId)
      && (p.subaccount.Some? ==> B.ZeroFree(p.subaccount.value))
    case PutBuilder(r) => B.ZeroFree(r.builderAddr) && B.ZeroFree(r.marketId) && B.ZeroFree(r.fillId)
    case PutActivity(a) => B.ZeroFree(a.marketId) && B.ZeroFree(a.activityType)
    case PutCheckpoint(c) => B.ZeroFree(c.packageAddress)
    case _ => true
  }

  function Apply(db: Tables, put: Put): Tables {
    match put
    case PutTx(r) => db.(txs := Insert(db.txs, TxKey(r), r, B.Lt))
    case PutEvent(r) => db.(events := Insert(db.events, EventKey(r), r, B.Lt))
    case PutFill(r) => db.(fillsByMarket := Insert(db.fillsByMarket, FillMarketKey(r), r, B.Lt),
                           fillsByAccount := Insert(db.fillsByAccount, FillAccountKey(r), r, B.Lt),
                           activities := Insert(db.activities, ActivityKey(FillActivity(r)), FillActivity(r), B.Lt))
    case PutOrder(r) => db.(orders := Insert(db.orders, OrderKey(r), r, B.Lt))
    case PutPosition(r) => db.(positions := Insert(db.positions, PositionKey(r), r, B.Lt))
    case PutBuilder(r) => db.(builders := Insert(db.builders, BuilderKey(r), r, B.Lt))
    case PutActivity(r) => db.(activities := Insert(db.activities, ActivityKey(r), r, B.Lt))
    case PutCheckpoint(r) => db.(checkpoints := Insert(db.checkpoints, CheckpointKey(r), r, B.Lt))
  }

  function Run(puts: seq<Put>): Tables {
    if puts == [] then EMPTY else Apply(Run(puts[..|puts| - 1]), puts[|puts| - 1])
  }

  function FromRows(puts: seq<Put>): Tables {
    Tables(LastWins.Table(Txs(puts), TxKey, B.Lt),
           LastWins.Table(Events(puts), EventKey, B.Lt),
           LastWins.Table(Fills(puts), FillMarketKey, B.Lt),
           LastWins.Table(Fills(puts), FillAccountKey, B.Lt),
           LastWins.Table(Orders(puts), OrderKey, B.Lt),
           LastWins.Table(Positions(puts), PositionKey, B.Lt),
           LastWins.Table(Builders(puts), BuilderKey, B.Lt),
           LastWins.Table(Activities(puts), ActivityKey, B.Lt),
           LastWins.Table(Checkpoints(puts), CheckpointKey, B.Lt))
  }

  lemma FillIntoTables(puts: seq<Put>, row: FillRow)
    requires puts != [] && puts[|puts| - 1] == Put.PutFill(row)
    ensures FromRows(puts) == Apply(FromRows(puts[..|puts| - 1]), Put.PutFill(row))
  {
    var init := puts[..|puts| - 1];
    LastWins.TableAppend(Fills(init), row, FillMarketKey, B.Lt);
    LastWins.TableAppend(Fills(init), row, FillAccountKey, B.Lt);
    LastWins.TableAppend(Activities(init), FillActivity(row), ActivityKey, B.Lt);
  }

  lemma VersionedIntoTables(puts: seq<Put>)
    requires puts != []
    ensures puts[|puts| - 1].PutTx? || puts[|puts| - 1].PutEvent? ==>
              FromRows(puts) == Apply(FromRows(puts[..|puts| - 1]), puts[|puts| - 1])
  {
    var init := puts[..|puts| - 1];
    match puts[|puts| - 1]
    case PutTx(row) => LastWins.TableAppend(Txs(init), row, TxKey, B.Lt);
    case PutEvent(row) => LastWins.TableAppend(Events(init), row, EventKey, B.Lt);
    case _ =>
  }

  lemma TimedIntoTables(puts: seq<Put>)
    requires puts != []
    ensures puts[|puts| - 1].PutBuilder? || puts[|puts| - 1].PutActivity? ==>
              FromRows(puts) == Apply(FromRows(puts[..|puts| - 1]), puts[|puts| - 1])
  {
    var init := puts[..|puts| - 1];
    match puts[|puts| - 1]
    case PutBuilder(row) => LastWins.TableAppend(Builders(init), row, BuilderKey, B.Lt);
    case PutActivity(row) => LastWins.TableAppend(Activities(init), row, ActivityKey, B.Lt);
    case _ =>
  }

  lemma StateIntoTables(puts: seq<Put>)
    requires puts != []
    ensures puts[|puts| - 1].PutOrder? || puts[|puts| - 1].PutPosition? ==>
              FromRows(puts) == Apply(FromRows(puts[..|puts| - 1]), puts[|puts| - 1])
  {
    var init := puts[..|puts| - 1];
    match puts[|puts| - 1]
    case PutOrder(row) => LastWins.TableAppend(Orders(init), row, OrderKey, B.Lt);
    case PutPosition(row) => LastWins.TableAppend(Positions(init), row, PositionKey, B.Lt);
    case _ =>
  }

  lemma CheckpointIntoTables(puts: seq<Put>, row: IngestCheckpoint)
    requires puts != [] && puts[|puts| - 1] == PutCheckpoint(row)
    ensures FromRows(puts) == Apply(FromRows(puts[..|puts| - 1]), puts[|puts| - 1])
  {
    LastWins.TableAppend(Checkpoints(puts[..|puts| - 1]), row, CheckpointKey, B.Lt);
  }

  /** Each column family holds the last row put under each key. */
  lemma {:induction false} RunIsTables(puts: seq<Put>)
    ensures Run(puts) == FromRows(puts)
  {
    if puts != [] {
      var init, last := puts[..|puts| - 1], puts[|puts| - 1];
      RunIsTables(init);
      match last
      case PutFill(row) => FillIntoTables(puts, row);
      case PutCheckpoint(row) => CheckpointIntoTables(puts, row);
      case _ =>
        VersionedIntoTables(puts);
        TimedIntoTables(puts);
        StateIntoTables(puts);
    }
  }

  // Prefix scans.

  /** The rows whose keys start with `prefix`, in key order. */
  function PrefixRows<R(!new)>(cf: OrderedMap<Bytes, R>, prefix: Bytes): seq<R> {
    Values(Lists.Filter((pair: (Bytes, R)) => B.StartsWith(pair.0, prefix), cf))
  }

  /** The first row is pushed before the limit is looked at, so a limit of zero acts as one. */
  function Scanned<R(!new)>(cf: OrderedMap<Bytes, R>, prefix: Bytes, limit: nat): seq<R> {
    Lists.Take(PrefixRows(cf, prefix), if limit == 0 then 1 else limit)
  }

  lemma PrefixSortsFirst(key: Bytes, prefix: Bytes)
    requires B.StartsWith(key, prefix)
    ensures !B.Lt(key, prefix)
  {
    assert key == prefix + key[|prefix|..] && prefix == prefix + [];
    B.CommonPrefix(prefix, key[|prefix|..], []);
  }

  /** Keys with one prefix are contiguous: past the first key that lacks it, none has it. */
  lemma {:induction false} PrefixBlockEnds(prefix: Bytes, key: Bytes, later: Bytes)
    requires !B.Lt(key, prefix) && !B.StartsWith(key, prefix) && B.Lt(key, later)
    ensures !B.StartsWith(later, prefix)
  {
    if prefix != [] && key != [] {
      B.StartsWithStep(key, prefix);
      B.StartsWithStep(later, prefix);
      if key[0] == prefix[0] && later[0] == prefix[0] {
        PrefixBlockEnds(prefix[1..], key[1..], later[1..]);
      }
    }
  }

  lemma {:induction false} FilterNone<T(!new)>(keep: T -> bool, s: seq<T>)
    requires forall x :: x in s ==> !keep(x)
    ensures Lists.Filter(keep, s) == []
  {
    if s != [] {
      FilterNone(keep, s[1..]);
    }
  }

  lemma {:induction false} FilterAll<T(!new)>(keep: T -> bool, s: seq<T>)
    requires forall x :: x in s ==> keep(x)
    ensures Lists.Filter(keep, s) == s
  {
    if s != [] {
      FilterAll(keep, s[1..]);
      assert s == [s[0]] + s[1..];
    }
  }

  ghost predicate Selects<R(!new)>(keep: ((Bytes, R)) -> bool, prefix: Bytes) {
    forall pair :: keep(pair) <==> B.StartsWith(pair.0, prefix)
  }

  lemma NoneBefore<R(!new)>(keep: ((Bytes, R)) -> bool, before: OrderedMap<Bytes, R>, prefix: Bytes)
    requires Selects(keep, prefix) && forall i :: 0 <= i < |before| ==> B.Lt(before[i].0, prefix)
    ensures Lists.Filter(keep, before) == []
  {
    forall pair | pair in before
      ensures !keep(pair)
    {
      if keep(pair) { PrefixSortsFirst(pair.0, prefix); }
    }
    FilterNone(keep, before);
  }

  lemma NoneAfter<R(!new)>(keep: ((Bytes, R)) -> bool, after: OrderedMap<Bytes, R>, prefix: Bytes)
    requires Selects(keep, prefix) && Increasing(after, B.Lt)
    requires after != [] ==> !B.Lt(after[0].0, prefix) && !B.StartsWith(after[0].0, prefix)
    ensures Lists.Filter(keep, after) == []
  {
    forall i | 0 <= i < |after|
      ensures !keep(after[i])
    {
      if i > 0 { PrefixBlockEnds(prefix, after[0].0, after[i].0); }
    }
    FilterNone(keep, after);
  }

  lemma FilterMiddle<T(!new)>(keep: T -> bool, a: seq<T>, b: seq<T>, c: seq<T>)
    requires Lists.Filter(keep, a) == [] && Lists.Filter(keep, c) == [] && forall x :: x in b ==> keep(x)
    ensures Lists.Filter(keep, a + b + c) == b
  {
    Lists.FilterAppend(keep, a + b, c);
    Lists.FilterAppend(keep, a, b);
    FilterAll(keep, b);
  }

  lemma Parts<T>(s: seq<T>, start: nat, end: nat)
    requires start <= end <= |s|
    ensures s == s[..start] + s[start..end] + s[end..]
  {
  }

  lemma SuffixIncreases<R(!new)>(cf: OrderedMap<Bytes, R>, end: nat)
    requires Increasing(cf, B.Lt) && end <= |cf|
    ensures Increasing(cf[end..], B.Lt)
  {
  }

  /** Cutting an ordered column family where the prefix block starts and ends. */
  lemma BlockIsFiltered<R(!new)>(keep: ((Bytes, R)) -> bool, cf: OrderedMap<Bytes, R>, prefix: Bytes, start: nat,
                                 end: nat)
    requires Selects(keep, prefix) && Increasing(cf, B.Lt) && start <= end <= |cf|
    requires forall i :: 0 <= i < start ==> B.Lt(cf[i].0, prefix)
    requires forall i :: start <= i < end ==> B.StartsWith(cf[i].0, prefix)
    requires end < |cf| ==> !B.Lt(cf[end].0, prefix) && !B.StartsWith(cf[end].0, prefix)
    ensures Lists.Filter(keep, cf) == cf[start..end]
  {
    NoneBefore(keep, cf[..start], prefix);
    SuffixIncreases(cf, end);
    NoneAfter(keep, cf[end..], prefix);
    FilterMiddle(keep, cf[..start], cf[start..end], cf[end..]);
    Parts(cf, start, end);
  }

  lemma BlockIsPrefixRows<R(!new)>(cf: OrderedMap<Bytes, R>, prefix: Bytes, start: nat, end: nat)
    requires Increasing(cf, B.Lt) && start <= end <= |cf|
    requires forall i :: 0 <= i < start ==> B.Lt(cf[i].0, prefix)
    requires forall i :: start <= i < end ==> B.StartsWith(cf[i].0, prefix)
    requires end < |cf| ==> !B.Lt(cf[end].0, prefix) && !B.StartsWith(cf[end].0, prefix)
    ensures PrefixRows(cf, prefix) == Values(cf[start..end])
  {
    BlockIsFiltered((pair: (Bytes, R)) => B.StartsWith(pair.0, prefix), cf, prefix, start, end);
  }

  function OrderUnder(db: Tables, orderId: Bytes): Option<OrderRow> {
    Get(db.orders, orderId)
  }

  function TxsAt(db: Tables, versions: seq<u64>): seq<Option<TxRow>> {
    Lists.Map((v: u64) => Get(db.txs, K.TxByVersion(v)), versions)
  }

  function PositionsByAccount(db: Tables, account: Bytes): seq<PositionRow> {
    Scanned(db.positions, K.Prefix(account), U64_MAX)
  }

  function BuilderVolume(db: Tables, builder: Bytes, window: TimeWindow): Option<V.BuilderVolumeRow> {
    V.VolumeOf(Scanned(db.builders, K.Prefix(builder), U64_MAX), V.LatestCheckpoint(Values(db.checkpoints)), builder,
      window)
  }

  lemma NotBelow<R(!new)>(cf: OrderedMap<Bytes, R>, prefix: Bytes, start: nat, end: nat)
    requires Increasing(cf, B.Lt) && start <= end < |cf| && !B.Lt(cf[start].0, prefix)
    ensures !B.Lt(cf[end].0, prefix)
  {
    LastWins.ByteOrderIsStrict();
    assert start < end ==> B.Lt(cf[start].0, cf[end].0);
  }

  lemma {:induction false} BlockEnd<R(!new)>(cf: OrderedMap<Bytes, R>, prefix: Bytes, start: nat,
                                             stop: nat) returns (end: nat)
    requires start <= stop <= |cf|
    requires forall i :: start <= i < stop ==> B.StartsWith(cf[i].0, prefix)
    ensures stop <= end <= |cf|
    ensures forall i :: start <= i < end ==> B.StartsWith(cf[i].0, prefix)
    ensures end < |cf| ==> !B.StartsWith(cf[end].0, prefix)
    decreases |cf| - stop
  {
    end := stop;
    if stop < |cf| && B.StartsWith(cf[stop].0, prefix) {
      end := BlockEnd(cf, prefix, start, stop + 1);
    }
  }

  lemma TakeOfBlock<R(!new)>(cf: OrderedMap<Bytes, R>, start: nat, stop: nat, end: nat, cap: nat)
    requires start <= stop <= end <= |cf| && stop - start <= cap && (stop == end || stop - start == cap)
    ensures Values(cf[start..stop]) == Lists.Take(Values(cf[start..end]), cap)
  {
    assert Values(cf[start..end])[..stop - start] == Values(cf[start..stop]);
  }

  /** A walk that stopped at `stop` has returned what the scan promises. */
  lemma ScanIsPrefixRows<R(!new)>(cf: OrderedMap<Bytes, R>, prefix: Bytes, limit: nat, start: nat, stop: nat)
    requires Increasing(cf, B.Lt) && start <= stop <= |cf|
    requires forall i :: 0 <= i < start ==> B.Lt(cf[i].0, prefix)
    requires start < |cf| ==> !B.Lt(cf[start].0, prefix)
    requires forall i :: start <= i < stop ==> B.StartsWith(cf[i].0, prefix)
    requires stop - start <= if limit == 0 then 1 else limit
    requires || stop == |cf|
             || !B.StartsWith(cf[stop].0, prefix)
             || stop - start == if limit == 0 then 1 else limit
    ensures Values(cf[start..stop]) == Scanned(cf, prefix, limit)
  {
    var end := BlockEnd(cf, prefix, start, stop);
    if end < |cf| {
      NotBelow(cf, prefix, start, end);
    }
    BlockIsPrefixRows(cf, prefix, start, end);
    TakeOfBlock(cf, start, stop, end, if limit == 0 then 1 else limit);
  }

  class RocksDbEngine {
    var db: Tables

    ghost predicate Valid()
      reads this
    {
      && Increasing(db.txs, B.Lt) && Increasing(db.events, B.Lt)
      && Increasing(db.fillsByMarket, B.Lt) && Increasing(db.fillsByAccount, B.Lt)
      && Increasing(db.orders, B.Lt) && Increasing(db.positions, B.Lt)
      && Increasing(db.builders, B.Lt) && Increasing(db.activities, B.Lt)
      && Increasing(db.checkpoints, B.Lt)
    }

    constructor ()
      ensures Valid() && db == EMPTY
    {
      db := EMPTY;
    }

    method PutTx(row: TxRow)
      requires Valid()
      modifies this
      ensures Valid() && db == Apply(old(db), Put.PutTx(row))
    {
      var cf := PutJson(db.txs, TxKey(row), row);
      db := db.(txs := cf);
    }

    method PutEvent(row: NormalizedEvent)
      requires Valid()
      modifies this
      ensures Valid() && db == Apply(old(db), Put.PutEvent(row))
    {
      var cf := PutJson(db.events, EventKey(row), row);
      db := db.(events := cf);
    }

    method PutFill(row: FillRow)
      requires Valid() && KeyTextsZeroFree(Put.PutFill(row))
      modifies this
      ensures Valid() && db == Apply(old(db), Put.PutFill(row))
    {
      var marketKey := K.BuildKey(K.FillMarketSegments(row));
      var byMarket := PutJson(db.fillsByMarket, marketKey, row);
      db := db.(fillsByMarket := byMarket);
      var accountKey := K.BuildKey(K.FillAccountSegments(row));
      var byAccount := PutJson(db.fillsByAccount, accountKey, row);
      db := db.(fillsByAccount := byAccount);
      PutActivity(FillActivity(row));
    }

    method PutOrder(row: OrderRow)
      requires Valid() && KeyTextsZeroFree(Put.PutOrder(row))
      modifies this
      ensures Valid() && db == Apply(old(db), Put.PutOrder(row))
    {
      var cf := PutJson(db.orders, OrderKey(row), row);
      db := db.(orders := cf);
    }

    method PutPosition(row: PositionRow)
      requires Valid() && KeyTextsZeroFree(Put.PutPosition(row))
      modifies this
      ensures Valid() && db == Apply(old(db), Put.PutPosition(row))
    {
      var key := K.BuildKey(K.PositionSegments(row.account, row.marketId, row.subaccount));
      var cf := PutJson(db.positions, key, row);
      db := db.(positions := cf);
    }

    method PutBuilderAttribution(row: BuilderRow)
      requires Valid() && KeyTextsZeroFree(PutBuilder(row))
      modifies this
      ensures Valid() && db == Apply(old(db), PutBuilder(row))
    {
      var key := K.BuildKey(K.BuilderSegments(row));
      var cf := PutJson(db.builders, key, row);
      db := db.(builders := cf);
    }

    method PutActivity(row: ActivityRow)
      requires Valid() && KeyTextsZeroFree(Put.PutActivity(row))
      modifies this
      ensures Valid() && db == Apply(old(db), Put.PutActivity(row))
    {
      var key := K.BuildKey(K.ActivitySegments(row));
      var cf := PutJson(db.activities, key, row);
      db := db.(activities := cf);
    }

    method PutIngestCheckpoint(row: IngestCheckpoint)
      requires Valid() && KeyTextsZeroFree(PutCheckpoint(row))
      modifies this
      ensures Valid() && db == Apply(old(db), PutCheckpoint(row))
    {
      var key := K.BuildKey(K.CheckpointSegments(row.network, row.packageAddress));
      var cf := PutJson(db.checkpoints, key, row);
      db := db.(checkpoints := cf);
    }

    method GetTx(version: u64) returns (row: Option<TxRow>)
      ensures row == TxsAt(db, [version])[0]
    {
      row := Get(db.txs, K.TxByVersion(version));
    }

    method MultiGetTxs(versions: seq<u64>) returns (rows: seq<Option<TxRow>>)
      ensures rows == TxsAt(db, versions)
    {
      rows := TxsAt(db, versions);
    }

    method GetOrder(orderId: Bytes) returns (row: Option<OrderRow>)
      ensures row == OrderUnder(db, orderId)
    {
      row := Get(db.orders, orderId);
    }

    method ScanMarketFills(marketId: Bytes, limit: nat) returns (rows: seq<FillRow>)
      requires Valid() && B.ZeroFree(marketId)
      ensures rows == Scanned(db.fillsByMarket, K.Prefix(marketId), limit)
    {
      var prefix := K.PrefixSegments([marketId]);
      rows := ScanPrefix(db.fillsByMarket, prefix, limit);
    }

    method ScanAccountFills(account: Bytes, limit: nat) returns (rows: seq<FillRow>)
      requires Valid() && B.ZeroFree(account)
      ensures rows == Scanned(db.fillsByAccount, K.Prefix(account), limit)
    {
      var prefix := K.PrefixSegments([account]);
      rows := ScanPrefix(db.fillsByAccount, prefix, limit);
    }

    method ScanBuilderCodeFills(builder: Bytes, limit: nat) returns (rows: seq<BuilderRow>)
      requires Valid() && B.ZeroFree(builder)
      ensures rows == Scanned(db.builders, K.Prefix(builder), limit)
    {
      var prefix := K.PrefixSegments([builder]);
      rows := ScanPrefix(db.builders, prefix, limit);
    }

    method ScanMarketActivity(marketId: Bytes, limit: nat) returns (rows: seq<ActivityRow>)
      requires Valid() && B.ZeroFree(marketId)
      ensures rows == Scanned(db.activities, K.Prefix(marketId), limit)
    {
      var prefix := K.PrefixSegments([marketId]);
      rows := ScanPrefix(db.activities, prefix, limit);
    }

    method GetPositionsByAccount(account: Bytes) returns (rows: seq<PositionRow>)
      requires Valid() && B.ZeroFree(account)
      ensures rows == PositionsByAccount(db, account)
    {
      var prefix := K.PrefixSegments([account]);
      rows := ScanPrefix(db.positions, prefix, U64_MAX);
    }

    method GetBuilderCodeVolume(builder: Bytes, window: TimeWindow) returns (volume: Option<V.BuilderVolumeRow>)
      requires Valid() && B.ZeroFree(builder)
      ensures volume == BuilderVolume(db, builder, window)
      ensures V.Reports(volume, Scanned(db.builders, K.Prefix(builder), U64_MAX),
                        V.LatestCheckpoint(Values(db.checkpoints)), builder, window)
    {
      var prefix := K.PrefixSegments([builder]);
      var rows := ScanPrefix(db.builders, prefix, U64_MAX);
      var checkpointTs := LatestCheckpointTimestampUs();
      volume := V.ComputeVolume(rows, checkpointTs, builder, window);
    }

    method LatestCheckpointTimestampUs() returns (max: u64)
      ensures max == V.LatestCheckpoint(Values(db.checkpoints))
    {
      max := 0;
      var rows := Values(db.checkpoints);
      for i := 0 to |rows|
        invariant forall j :: 0 <= j < i ==> rows[j].lastProcessedTimestampUs <= max
        invariant max == 0 || exists j :: 0 <= j < i && rows[j].lastProcessedTimestampUs == max
      {
        max := V.MaxU64(max, rows[i].lastProcessedTimestampUs);
      }
    }
  }

  /** Puts a value under a key, keeping the column family in key order. */
  method PutJson<R(!new)>(cf: OrderedMap<Bytes, R>, key: Bytes, value: R) returns (after: OrderedMap<Bytes, R>)
    requires Increasing(cf, B.Lt)
    ensures after == Insert(cf, key, value, B.Lt) && Increasing(after, B.Lt)
  {
    after := Insert(cf, key, value, B.Lt);
    LastWins.ByteOrderIsStrict();
    InsertIncreasing(cf, key, value, B.Lt);
  }

  /** The position of the first key that is not below `from`. */
  method Seek<R(!new)>(cf: OrderedMap<Bytes, R>, from: Bytes) returns (start: nat)
    ensures start <= |cf|
    ensures forall i :: 0 <= i < start ==> B.Lt(cf[i].0, from)
    ensures start < |cf| ==> !B.Lt(cf[start].0, from)
  {
    start := 0;
    while start < |cf| && B.Lt(cf[start].0, from)
      invariant start <= |cf|
      invariant forall i :: 0 <= i < start ==> B.Lt(cf[i].0, from)
    {
      start := start + 1;
    }
  }

  lemma ValuesStep<R>(cf: OrderedMap<Bytes, R>, start: nat, next: nat)
    requires start <= next < |cf|
    ensures Values(cf[start..next + 1]) == Values(cf[start..next]) + [cf[next].1]
  {
    assert cf[start..next + 1] == cf[start..next] + [cf[next]];
  }

  /** The rows of the keys from `start` up to `next`, all of which have the prefix. */
  ghost predicate Walked<R(!new)>(cf: OrderedMap<Bytes, R>, prefix: Bytes, start: nat, next: nat, rows: seq<R>) {
    && start <= next <= |cf| && rows == Values(cf[start..next])
    && forall i :: start <= i < next ==> B.StartsWith(cf[i].0, prefix)
  }

  lemma WalkStep<R(!new)>(cf: OrderedMap<Bytes, R>, prefix: Bytes, start: nat, next: nat, rows: seq<R>)
    requires Walked(cf, prefix, start, next, rows) && next < |cf| && B.StartsWith(cf[next].0, prefix)
    ensures Walked(cf, prefix, start, next + 1, rows + [cf[next].1])
  {
    ValuesStep(cf, start, next);
  }

  lemma WalkEnds<R(!new)>(cf: OrderedMap<Bytes, R>, prefix: Bytes, limit: nat, start: nat, next: nat, rows: seq<R>)
    requires Increasing(cf, B.Lt) && Walked(cf, prefix, start, next, rows)
    requires forall i :: 0 <= i < start ==> B.Lt(cf[i].0, prefix)
    requires start < |cf| ==> !B.Lt(cf[start].0, prefix)
    requires |rows| <= if limit == 0 then 1 else limit
    requires || next == |cf|
             || !B.StartsWith(cf[next].0, prefix)
             || |rows| == if limit == 0 then 1 else limit
    ensures rows == Scanned(cf, prefix, limit)
  {
    assert |rows| == next - start;
    ScanIsPrefixRows(cf, prefix, limit, start, next);
  }

  /** Seeks to the prefix and walks forward until a key lacks it or the limit is reached. */
  method ScanPrefix<R(!new)>(cf: OrderedMap<Bytes, R>, prefix: Bytes, limit: nat) returns (rows: seq<R>)
    requires Increasing(cf, B.Lt)
    ensures rows == Scanned(cf, prefix, limit)
  {
    var start := Seek(cf, prefix);
    rows := [];
    var next := start;
    assert cf[start..start] == [];
    while next < |cf|
      invariant Walked(cf, prefix, start, next, rows) && (rows == [] || |rows| < limit)
    {
      if !B.StartsWith(cf[next].0, prefix) {
        break;
      }
      WalkStep(cf, prefix, start, next, rows);
      rows := rows + [cf[next].1];
      next := next + 1;
      if |rows| >= limit {
        break;
      }
    }
    WalkEnds(cf, prefix, limit, start, next, rows);
  }
}
