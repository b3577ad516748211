/** Replaying a dataset into an engine, and which queries of its corpus then find something. */
module QueryHits {
  import opened Prelude
  import opened Rows
  import opened OrderedMaps
  import opened LastWins
  import opened QueryCorpus
  import A = Agreement
  import B = ByteOrder
  import K = Keys
  import Lists
  import M = Memory
  import R = Rocks
  import V = Volume

  // Replay.

  datatype Dataset = Dataset(txs: seq<TxRow>, events: seq<NormalizedEvent>, fills: seq<FillRow>, orders: seq<OrderRow>,
                             positions: seq<PositionRow>, builders: seq<BuilderRow>, activities: seq<ActivityRow>,
                             checkpoint: IngestCheckpoint)

  function PutsBeforeFills(d: Dataset): seq<Put> {
    Lists.Map((r: TxRow) => PutTx(r), d.txs) + Lists.Map((r: NormalizedEvent) => PutEvent(r), d.events)
  }

  function PutsAfterFills(d: Dataset): seq<Put> {
    Lists.Map((r: OrderRow) => PutOrder(r), d.orders) + Lists.Map((r: PositionRow) => PutPosition(r), d.positions)
    + Lists.Map((r: BuilderRow) => PutBuilder(r), d.builders) +
      Lists.Map((r: ActivityRow) => PutActivity(r), d.activities)
    + [PutCheckpoint(d.checkpoint)]
  }

  /** The order in which a replay stores a dataset's rows. */
  function PutsOf(d: Dataset): seq<Put> {
    PutsBeforeFills(d) + Lists.Map((r: FillRow) => PutFill(r), d.fills) + PutsAfterFills(d)
  }

  method ReplayIntoMemory(puts: seq<Put>) returns (engine: M.MemoryEngine)
    ensures fresh(engine) && engine.Valid() && engine.inner == M.Run(puts)
  {
    engine := new M.MemoryEngine();
    for i := 0 to |puts|
      invariant fresh(engine) && engine.Valid() && engine.inner == M.Run(puts[..i])
    {
      assert puts[..i + 1][..i] == puts[..i];
      match puts[i]
      case PutTx(r) => engine.PutTx(r);
      case PutEvent(r) => engine.PutEvent(r);
      case PutFill(r) => engine.PutFill(r);
      case PutOrder(r) => engine.PutOrder(r);
      case PutPosition(r) => engine.PutPosition(r);
      case PutBuilder(r) => engine.PutBuilderAttribution(r);
      case PutActivity(r) => engine.PutActivity(r);
      case PutCheckpoint(r) => engine.PutIngestCheckpoint(r);
    }
    assert puts[..|puts|] == puts;
  }

  method ReplayIntoRocksDb(puts: seq<Put>) returns (engine: R.RocksDbEngine)
    requires A.ZeroFreePuts(puts)
    ensures fresh(engine) && engine.Valid() && engine.db == R.Run(puts)
  {
    engine := new R.RocksDbEngine();
    for i := 0 to |puts|
      invariant fresh(engine) && engine.Valid() && engine.db == R.Run(puts[..i])
    {
      assert puts[..i + 1][..i] == puts[..i];
      assert puts[i] in puts && R.KeyTextsZeroFree(puts[i]);
      match puts[i]
      case PutTx(r) => engine.PutTx(r);
      case PutEvent(r) => engine.PutEvent(r);
      case PutFill(r) => engine.PutFill(r);
      case PutOrder(r) => engine.PutOrder(r);
      case PutPosition(r) => engine.PutPosition(r);
      case PutBuilder(r) => engine.PutBuilderAttribution(r);
      case PutActivity(r) => engine.PutActivity(r);
      case PutCheckpoint(r) => engine.PutIngestCheckpoint(r);
    }
    assert puts[..|puts|] == puts;
  }

  // Execution.

  datatype QueryError = MissingField | ZeroLimit | NoRow | MissingRows | NotExecutable

  /** A replayed engine, as queries see it. */
  datatype Engine = OnMemory(inner: M.Inner) | OnRocksDb(db: R.Tables) {
    function TxsAt(versions: seq<u64>): seq<Option<TxRow>> {
      match this
      case OnMemory(inner) => M.TxsAt(inner, versions)
      case OnRocksDb(db) => R.TxsAt(db, versions)
    }

    function MarketFills(market: Bytes, limit: nat): seq<FillRow> {
      match this
      case OnMemory(inner) => Lists.Take(M.MarketFills(inner, market), limit)
      case OnRocksDb(db) => R.Scanned(db.fillsByMarket, K.Prefix(market), limit)
    }

    function AccountFills(account: Bytes, limit: nat): seq<FillRow> {
      match this
      case OnMemory(inner) => Lists.Take(M.AccountFills(inner, account), limit)
      case OnRocksDb(db) => R.Scanned(db.fillsByAccount, K.Prefix(account), limit)
    }

    function BuilderFills(builder: Bytes, limit: nat): seq<BuilderRow> {
      match this
      case OnMemory(inner) => Lists.Take(M.BuilderFills(inner, builder), limit)
      case OnRocksDb(db) => R.Scanned(db.builders, K.Prefix(builder), limit)
    }

    function BuilderVolume(builder: Bytes): Option<V.BuilderVolumeRow> {
      match this
      case OnMemory(inner) => M.BuilderVolume(inner, builder, H24)
      case OnRocksDb(db) => R.BuilderVolume(db, builder, H24)
    }
  }

  function Limit(q: QueryRecord): nat {
    if q.limit.Some? then q.limit.value else 100
  }

  /** What a scan lacks before it can run. */
  function ScanError(field: Option<Bytes>, q: QueryRecord): Option<QueryError> {
    if field.None? then Some(MissingField) else if Limit(q) == 0 then Some(ZeroLimit) else None
  }

  function Found<T(==)>(rows: seq<T>): Result<(), QueryError> {
    if rows == [] then Err(NoRow) else Ok(())
  }

  function Execute(engine: Engine, q: QueryRecord): Result<(), QueryError> {
    match q.kind
    case GetTxByVersion =>
      if q.txVersion.None? then Err(MissingField)
      else if engine.TxsAt([q.txVersion.value])[0].None? then Err(NoRow)
      else Ok(())
    case MultiGetTxVersions =>
      if q.txVersions == [] then Err(MissingField)
      else if None in engine.TxsAt(q.txVersions) then Err(MissingRows)
      else Ok(())
    case MarketFillScan =>
      var e := ScanError(q.marketId, q);
      if e.Some? then Err(e.value) else Found(engine.MarketFills(q.marketId.value, Limit(q)))
    case AccountFillScan =>
      var e := ScanError(q.account, q);
      if e.Some? then Err(e.value) else Found(engine.AccountFills(q.account.value, Limit(q)))
    case BuilderCodeFillScan =>
      var e := ScanError(q.builderAddr, q);
      if e.Some? then Err(e.value) else Found(engine.BuilderFills(q.builderAddr.value, Limit(q)))
    case BuilderCodeVolume =>
      if q.builderAddr.None? then Err(MissingField)
      else if engine.BuilderVolume(q.builderAddr.value).None? then Err(NoRow)
      else Ok(())
    case MixedDashboard => Err(NotExecutable)
  }

  // The rows of a replayed dataset.

  lemma {:induction false} FillsAppend(a: seq<Put>, b: seq<Put>)
    ensures Fills(a + b) == Fills(a) + Fills(b)
  {
    if b == [] {
      assert a + b == a;
    } else {
      FillsAppend(a, b[..|b| - 1]);
      assert (a + b)[..|a + b| - 1] == a + b[..|b| - 1];
    }
  }

  lemma {:induction false} NoFills(puts: seq<Put>)
    requires forall p :: p in puts ==> !p.PutFill?
    ensures Fills(puts) == []
  {
    if puts != [] {
      NoFills(puts[..|puts| - 1]);
    }
  }

  lemma {:induction false} FillsOfPuts(fills: seq<FillRow>)
    ensures Fills(Lists.Map((r: FillRow) => PutFill(r), fills)) == fills
  {
    if fills != [] {
      var puts := Lists.Map((r: FillRow) => PutFill(r), fills);
      FillsOfPuts(fills[..|fills| - 1]);
      assert puts[..|puts| - 1] == Lists.Map((r: FillRow) => PutFill(r), fills[..|fills| - 1]);
    }
  }

  lemma NoFillsAround(d: Dataset)
    ensures forall p :: p in PutsBeforeFills(d) + PutsAfterFills(d) ==> !p.PutFill?
  {
  }

  lemma FillsOf(d: Dataset)
    ensures Fills(PutsOf(d)) == d.fills
  {
    var before, mid, after := PutsBeforeFills(d), Lists.Map((r: FillRow) => PutFill(r), d.fills), PutsAfterFills(d);
    NoFillsAround(d);
    NoFills(before);
    NoFills(after);
    FillsOfPuts(d.fills);
    FillsAppend(before, mid);
    FillsAppend(before + mid, after);
  }

  lemma {:induction false} TxsArePuts(puts: seq<Put>, t: TxRow)
    ensures t in Txs(puts) <==> PutTx(t) in puts
  {
    if puts != [] {
      TxsArePuts(puts[..|puts| - 1], t);
      assert PutTx(t) in puts <==> PutTx(t) in puts[..|puts| - 1] || PutTx(t) == puts[|puts| - 1];
    }
  }

  lemma {:induction false} BuildersArePuts(puts: seq<Put>, r: BuilderRow)
    ensures r in Builders(puts) <==> PutBuilder(r) in puts
  {
    if puts != [] {
      BuildersArePuts(puts[..|puts| - 1], r);
      assert PutBuilder(r) in puts <==> PutBuilder(r) in puts[..|puts| - 1] || PutBuilder(r) == puts[|puts| - 1];
    }
  }

  lemma TxsOf(d: Dataset, t: TxRow)
    ensures t in Txs(PutsOf(d)) <==> t in d.txs
  {
    TxsArePuts(PutsOf(d), t);
    Lists.MapMembers((r: TxRow) => PutTx(r), d.txs, PutTx(t));
  }

  lemma BuildersOf(d: Dataset, r: BuilderRow)
    ensures r in Builders(PutsOf(d)) <==> r in d.builders
  {
    BuildersArePuts(PutsOf(d), r);
    Lists.MapMembers((row: BuilderRow) => PutBuilder(row), d.builders, PutBuilder(r));
  }

  // What a stored key or prefix finds.

  lemma KeyFound<K(!new), R(!new)>(rows: seq<R>, key: R -> K, lt: (K, K) -> bool, k: K)
    requires StrictOrder(lt)
    ensures Get(Table(rows, key, lt), k).Some? <==> exists r :: r in rows && key(r) == k
  {
    TableHolds(rows, key, lt);
    GetIsMembership(Table(rows, key, lt), k, lt);
    forall r | r in rows && key(r) == k
      ensures Get(Table(rows, key, lt), k).Some?
    {
      var last := KeyIsHeld(rows, key, r);
      assert (k, last) in Table(rows, key, lt);
    }
    if Get(Table(rows, key, lt), k).Some? {
      var v := Get(Table(rows, key, lt), k).value;
      assert Holds(rows, key, (k, v));
    }
  }

  /** A filter over a table finds something exactly when some row that nothing replaced passes it. */
  lemma FilterFinds<K(!new), R(!new)>(rows: seq<R>, key: R -> K, lt: (K, K) -> bool, keep: R -> bool)
    requires StrictOrder(lt)
    ensures Lists.Filter(keep, Values(Table(rows, key, lt))) != [] <==>
              exists i: nat :: IsLast(rows, key, i) && keep(rows[i])
  {
    var table := Table(rows, key, lt);
    var found := Lists.Filter(keep, Values(table));
    TableHolds(rows, key, lt);
    if found != [] {
      assert found[0] in found;
      Lists.MapMembers((pair: (K, R)) => pair.1, table, found[0]);
      var pair :| pair in table && pair.1 == found[0];
      assert Holds(rows, key, pair);
    }
    forall i: nat | IsLast(rows, key, i) && keep(rows[i])
      ensures found != []
    {
      assert Holds(rows, key, (key(rows[i]), rows[i]));
      Lists.MapMembers((pair: (K, R)) => pair.1, table, rows[i]);
      assert rows[i] in found;
    }
  }

  lemma ScanFinds<R(!new)>(rows: seq<R>, fine: R -> Bytes, prefix: Bytes, r: R)
    requires r in rows && B.StartsWith(fine(r), prefix)
    ensures R.PrefixRows(Table(rows, fine, B.Lt), prefix) != []
  {
    ByteOrderIsStrict();
    var table := Table(rows, fine, B.Lt);
    TableHolds(rows, fine, B.Lt);
    var last := KeyIsHeld(rows, fine, r);
    assert (fine(last), last) in table;
    var block := Lists.Filter((pair: (Bytes, R)) => B.StartsWith(pair.0, prefix), table);
    assert (fine(last), last) in block;
  }

  lemma TxFound(d: Dataset, version: u64)
    ensures Get(Table(Txs(PutsOf(d)), M.Version, M.VersionLt), version).Some? <==>
              exists t :: t in d.txs && t.version == version
    ensures Get(Table(Txs(PutsOf(d)), R.TxKey, B.Lt), K.TxByVersion(version)).Some? <==>
              exists t :: t in d.txs && t.version == version
  {
    var rows := Txs(PutsOf(d));
    M.KeyOrdersAreStrict();
    ByteOrderIsStrict();
    KeyFound(rows, M.Version, M.VersionLt, version);
    KeyFound(rows, R.TxKey, B.Lt, K.TxByVersion(version));
    forall t: TxRow
      ensures t in rows <==> t in d.txs
      ensures R.TxKey(t) == K.TxByVersion(version) <==> t.version == version
    {
      TxsOf(d, t);
      K.TxKeyOrder(t.version, version);
    }
  }

  /** Both engines, after the replay. */
  function Replayed(d: Dataset, onRocksDb: bool): Engine {
    if onRocksDb then OnRocksDb(R.Run(PutsOf(d))) else OnMemory(M.Run(PutsOf(d)))
  }

  lemma TxQueryFinds(d: Dataset, onRocksDb: bool, version: u64)
    ensures Replayed(d, onRocksDb).TxsAt([version])[0].Some? <==> exists t :: t in d.txs && t.version == version
  {
    TxFound(d, version);
    R.RunIsTables(PutsOf(d));
    M.RunIsTables(PutsOf(d));
  }

  lemma TxsAtEach(engine: Engine, versions: seq<u64>, i: nat)
    requires i < |versions|
    ensures |engine.TxsAt(versions)| == |versions| && engine.TxsAt(versions)[i] == engine.TxsAt([versions[i]])[0]
  {
  }

  /** Point queries hit exactly the versions of the transactions. */
  lemma PointQueryHits(d: Dataset, onRocksDb: bool, version: u64)
    ensures Execute(Replayed(d, onRocksDb), PointQuery(version)).Ok? <==> exists t :: t in d.txs && t.version == version
  {
    TxQueryFinds(d, onRocksDb, version);
  }

  /** A multi-get succeeds exactly when there is a transaction at each of its versions. */
  lemma MultiGetHits(d: Dataset, onRocksDb: bool, versions: seq<u64>)
    ensures versions == [] ==> Execute(Replayed(d, onRocksDb), MultiGet(versions)) == Err(MissingField)
    ensures versions != [] ==>
              Execute(Replayed(d, onRocksDb), MultiGet(versions)) ==
              if forall v :: v in versions ==> exists t :: t in d.txs && t.version == v then Ok(())
              else Err(MissingRows)
  {
    var engine := Replayed(d, onRocksDb);
    var rows := engine.TxsAt(versions);
    assert |rows| == |versions| by {
      if versions != [] { TxsAtEach(engine, versions, 0); }
    }
    forall i: nat | i < |rows|
      ensures rows[i] != None <==> exists t :: t in d.txs && t.version == versions[i]
    {
      TxsAtEach(engine, versions, i);
      TxQueryFinds(d, onRocksDb, versions[i]);
    }
    NoneMissing(rows, versions, d.txs);
  }

  lemma NoneMissing(rows: seq<Option<TxRow>>, versions: seq<u64>, txs: seq<TxRow>)
    requires |rows| == |versions|
    requires forall i: nat :: i < |rows| ==> (rows[i] != None <==> exists t :: t in txs && t.version == versions[i])
    ensures None in rows <==> !forall v :: v in versions ==> exists t :: t in txs && t.version == v
  {
    if None in rows {
      var i: nat :| i < |rows| && rows[i] == None;
      assert versions[i] in versions;
    }
  }

  /** What keeps a query from ever being executed. */
  predicate Malformed(q: QueryRecord) {
    match q.kind
    case GetTxByVersion => q.txVersion.None?
    case MultiGetTxVersions => q.txVersions == []
    case MarketFillScan => q.marketId.None? || q.limit == Some(0)
    case AccountFillScan => q.account.None? || q.limit == Some(0)
    case BuilderCodeFillScan => q.builderAddr.None? || q.limit == Some(0)
    case BuilderCodeVolume => q.builderAddr.None?
    case MixedDashboard => true
  }

  /** Malformed queries fail for what they lack, and no others do. */
  lemma MalformedFails(engine: Engine, q: QueryRecord)
    ensures Malformed(q) <==> Execute(engine, q).Err? && Execute(engine, q).error !in {NoRow, MissingRows}
  {
  }

  // Scans.

  lemma FillScanOutcomes(engine: Engine, text: Bytes)
    ensures Execute(engine, MarketScan(text)).Ok? <==> engine.MarketFills(text, 100) != []
    ensures Execute(engine, AccountScan(text)).Ok? <==> engine.AccountFills(text, 100) != []
  {
    var market, account := MarketScan(text), AccountScan(text);
    assert market.kind == MarketFillScan && market.marketId == Some(text) && Limit(market) == 100;
    assert account.kind == AccountFillScan && account.account == Some(text) && Limit(account) == 100;
  }

  lemma BuilderOutcomes(engine: Engine, text: Bytes)
    ensures Execute(engine, BuilderScan(text)).Ok? <==> engine.BuilderFills(text, 100) != []
    ensures Execute(engine, VolumeQuery(text)).Ok? <==> engine.BuilderVolume(text).Some?
  {
    var scan, volume := BuilderScan(text), VolumeQuery(text);
    assert scan.kind == BuilderCodeFillScan && scan.builderAddr == Some(text) && Limit(scan) == 100;
    assert volume.kind == BuilderCodeVolume && volume.builderAddr == Some(text);
  }

  lemma ReplayedTables(d: Dataset)
    ensures R.Run(PutsOf(d)).fillsByMarket == Table(d.fills, R.FillMarketKey, B.Lt)
    ensures R.Run(PutsOf(d)).fillsByAccount == Table(d.fills, R.FillAccountKey, B.Lt)
    ensures R.Run(PutsOf(d)).builders == Table(Builders(PutsOf(d)), R.BuilderKey, B.Lt)
    ensures M.Run(PutsOf(d)).fills == Table(d.fills, M.FillId, B.Lt)
    ensures M.Run(PutsOf(d)).builders == Table(Builders(PutsOf(d)), M.BuilderKey, M.PairLt)
  {
    FillsOf(d);
    R.RunIsTables(PutsOf(d));
    M.RunIsTables(PutsOf(d));
  }

  lemma FillKeysStart(f: FillRow)
    requires R.KeyTextsZeroFree(PutFill(f))
    ensures B.StartsWith(R.FillMarketKey(f), K.Prefix(f.marketId))
    ensures B.StartsWith(R.FillAccountKey(f), K.Prefix(f.account))
  {
    K.PrefixExact(K.FillMarketSegments(f), f.marketId);
    K.PrefixExact(K.FillAccountSegments(f), f.account);
  }

  lemma FillTexts(d: Dataset, f: FillRow)
    requires A.ZeroFreePuts(PutsOf(d)) && f in d.fills
    ensures R.KeyTextsZeroFree(PutFill(f))
  {
    FillsOf(d);
    A.FillsArePut(PutsOf(d));
  }

  lemma ScannedFinds<W(!new)>(rows: seq<W>, fine: W -> Bytes, prefix: Bytes, r: W)
    requires r in rows && B.StartsWith(fine(r), prefix)
    ensures R.Scanned(Table(rows, fine, B.Lt), prefix, 100) != []
  {
    ScanFinds(rows, fine, prefix, r);
  }

  lemma RocksDbFillScansHit(d: Dataset, f: FillRow)
    requires A.ZeroFreePuts(PutsOf(d)) && f in d.fills
    ensures Execute(Replayed(d, true), MarketScan(f.marketId)).Ok?
    ensures Execute(Replayed(d, true), AccountScan(f.account)).Ok?
  {
    FillTexts(d, f);
    FillKeysStart(f);
    ReplayedTables(d);
    ScannedFinds(d.fills, R.FillMarketKey, K.Prefix(f.marketId), f);
    ScannedFinds(d.fills, R.FillAccountKey, K.Prefix(f.account), f);
    FillScanOutcomes(Replayed(d, true), f.marketId);
    FillScanOutcomes(Replayed(d, true), f.account);
  }

  lemma BuilderPrefix(r: BuilderRow)
    requires R.KeyTextsZeroFree(PutBuilder(r))
    ensures B.StartsWith(R.BuilderKey(r), K.Prefix(r.builderAddr))
  {
    K.PrefixExact(K.BuilderSegments(r), r.builderAddr);
  }

  lemma BuilderKeyStarts(d: Dataset, r: BuilderRow)
    requires A.ZeroFreePuts(PutsOf(d)) && r in d.builders
    ensures r in Builders(PutsOf(d)) && B.StartsWith(R.BuilderKey(r), K.Prefix(r.builderAddr))
  {
    BuildersOf(d, r);
    BuildersArePuts(PutsOf(d), r);
    BuilderPrefix(r);
  }

  lemma VolumeNeedsRows(rows: seq<BuilderRow>, checkpointTs: u64, builder: Bytes)
    ensures V.VolumeOf(rows, checkpointTs, builder, H24).Some? <==> rows != []
  {
  }

  lemma RocksDbBuilderQueriesHit(d: Dataset, r: BuilderRow)
    requires A.ZeroFreePuts(PutsOf(d)) && r in d.builders
    ensures Execute(Replayed(d, true), BuilderScan(r.builderAddr)).Ok?
    ensures Execute(Replayed(d, true), VolumeQuery(r.builderAddr)).Ok?
  {
    BuilderKeyStarts(d, r);
    ReplayedTables(d);
    var db, prefix := R.Run(PutsOf(d)), K.Prefix(r.builderAddr);
    ScanFinds(Builders(PutsOf(d)), R.BuilderKey, prefix, r);
    VolumeNeedsRows(R.Scanned(db.builders, prefix, U64_MAX), V.LatestCheckpoint(Values(db.checkpoints)), r.builderAddr);
    BuilderOutcomes(Replayed(d, true), r.builderAddr);
  }

  /** Some fill of the market, or of the account, is the last with its fill id. */
  ghost predicate MarketSurvives(fills: seq<FillRow>, market: Bytes) {
    exists i: nat :: IsLast(fills, M.FillId, i) && fills[i].marketId == market
  }

  ghost predicate AccountSurvives(fills: seq<FillRow>, account: Bytes) {
    exists i: nat :: IsLast(fills, M.FillId, i) && fills[i].account == account
  }

  lemma SortedIsEmpty<T>(leq: (T, T) -> bool, s: seq<T>)
    ensures Lists.Take(Lists.StableSort(leq, s), 100) == [] <==> s == []
  {
  }

  lemma MemoryMarketFinds(inner: M.Inner, fills: seq<FillRow>, market: Bytes)
    requires inner.fills == Table(fills, M.FillId, B.Lt)
    ensures OnMemory(inner).MarketFills(market, 100) != [] <==> MarketSurvives(fills, market)
  {
    ByteOrderIsStrict();
    var inMarket := (f: FillRow) => f.marketId == market;
    FilterFinds(fills, M.FillId, B.Lt, inMarket);
    SortedIsEmpty(M.FillsRecentFirst, Lists.Filter(inMarket, Values(inner.fills)));
  }

  lemma MemoryAccountFinds(inner: M.Inner, fills: seq<FillRow>, account: Bytes)
    requires inner.fills == Table(fills, M.FillId, B.Lt)
    ensures OnMemory(inner).AccountFills(account, 100) != [] <==> AccountSurvives(fills, account)
  {
    ByteOrderIsStrict();
    var ofAccount := (f: FillRow) => f.account == account;
    FilterFinds(fills, M.FillId, B.Lt, ofAccount);
    SortedIsEmpty(M.FillsRecentFirst, Lists.Filter(ofAccount, Values(inner.fills)));
  }

  lemma MemoryFillScansHit(d: Dataset, market: Bytes, account: Bytes)
    ensures Execute(Replayed(d, false), MarketScan(market)).Ok? <==> MarketSurvives(d.fills, market)
    ensures Execute(Replayed(d, false), AccountScan(account)).Ok? <==> AccountSurvives(d.fills, account)
  {
    ReplayedTables(d);
    MemoryMarketFinds(M.Run(PutsOf(d)), d.fills, market);
    MemoryAccountFinds(M.Run(PutsOf(d)), d.fills, account);
    FillScanOutcomes(Replayed(d, false), market);
    FillScanOutcomes(Replayed(d, false), account);
  }

  lemma MemoryBuilderFinds(inner: M.Inner, rows: seq<BuilderRow>, r: BuilderRow)
    requires inner.builders == Table(rows, M.BuilderKey, M.PairLt) && r in rows
    ensures M.BuilderRows(inner, r.builderAddr) != []
  {
    M.KeyOrdersAreStrict();
    var last := KeyIsHeld(rows, M.BuilderKey, r);
    FilterFinds(rows, M.BuilderKey, M.PairLt, (row: BuilderRow) => row.builderAddr == r.builderAddr);
  }

  lemma MemoryBuilderQueriesHit(d: Dataset, r: BuilderRow)
    requires r in d.builders
    ensures Execute(Replayed(d, false), BuilderScan(r.builderAddr)).Ok?
    ensures Execute(Replayed(d, false), VolumeQuery(r.builderAddr)).Ok?
  {
    var inner := M.Run(PutsOf(d));
    BuildersOf(d, r);
    ReplayedTables(d);
    MemoryBuilderFinds(inner, Builders(PutsOf(d)), r);
    SortedIsEmpty(M.BuildersRecentFirst, M.BuilderRows(inner, r.builderAddr));
    VolumeNeedsRows(M.BuilderRows(inner, r.builderAddr), V.LatestCheckpoint(Values(inner.checkpoints)), r.builderAddr);
    BuilderOutcomes(Replayed(d, false), r.builderAddr);
  }

  // The whole corpus.

  ghost predicate AllHit(engine: Engine, corpus: seq<QueryRecord>) {
    forall q :: q in corpus ==> Execute(engine, q).Ok?
  }

  /** Whether the point queries of the corpus have transactions to find: without any transaction they are
      made from the events, and miss. */
  predicate HasTransactions(d: Dataset) {
    d.txs != [] || d.events == []
  }

  lemma VersionsOfTxs(d: Dataset, v: u64)
    requires d.txs != []
    ensures v in QueriedVersions(d.txs, d.events) <==> exists t :: t in d.txs && t.version == v
  {
    Lists.MapMembers(TxVersion, d.txs, v);
  }

  lemma PointQueriesHit(d: Dataset, onRocksDb: bool, first: seq<u64>, q: QueryRecord)
    requires HasTransactions(d) && FirstHundred(QueriedVersions(d.txs, d.events), first)
    requires (exists v :: v in QueriedVersions(d.txs, d.events) && q == PointQuery(v))
             || (first != [] && q == MultiGet(first))
    ensures Execute(Replayed(d, onRocksDb), q).Ok?
  {
    var versions := QueriedVersions(d.txs, d.events);
    assert forall v :: v in first ==> v in versions;
    assert versions != [] by {
      if first != [] { assert first[0] in first; }
    }
    if first != [] && q == MultiGet(first) {
      forall v | v in first
        ensures exists t :: t in d.txs && t.version == v
      {
        VersionsOfTxs(d, v);
      }
      MultiGetHits(d, onRocksDb, first);
    } else {
      var v :| v in versions && q == PointQuery(v);
      VersionsOfTxs(d, v);
      PointQueryHits(d, onRocksDb, v);
    }
  }

  lemma EventQueryMisses(d: Dataset, onRocksDb: bool, corpus: seq<QueryRecord>, first: seq<u64>)
    requires !HasTransactions(d) && Covers(corpus, d.txs, d.events, d.fills, d.builders, first)
    ensures !AllHit(Replayed(d, onRocksDb), corpus)
  {
    var v := d.events[0].version;
    assert QueriedVersions(d.txs, d.events)[0] == v;
    assert v in QueriedVersions(d.txs, d.events);
    assert Wanted(PointQuery(v), QueriedVersions(d.txs, d.events), first, d.fills, d.builders);
    PointQueryHits(d, onRocksDb, v);
  }

  lemma WantedRocksDbHits(d: Dataset, first: seq<u64>, q: QueryRecord)
    requires A.ZeroFreePuts(PutsOf(d)) && HasTransactions(d)
    requires FirstHundred(QueriedVersions(d.txs, d.events), first)
    requires Wanted(q, QueriedVersions(d.txs, d.events), first, d.fills, d.builders)
    ensures Execute(Replayed(d, true), q).Ok?
  {
    if f :| f in d.fills && (q == MarketScan(f.marketId) || q == AccountScan(f.account)) {
      RocksDbFillScansHit(d, f);
    } else if r :| r in d.builders && (q == BuilderScan(r.builderAddr) || q == VolumeQuery(r.builderAddr)) {
      RocksDbBuilderQueriesHit(d, r);
    } else {
      PointQueriesHit(d, true, first, q);
    }
  }

  /** On RocksDB every query of the corpus hits, exactly when the dataset has transactions to query for. */
  lemma RocksDbCorpusHits(d: Dataset, corpus: seq<QueryRecord>, first: seq<u64>)
    requires A.ZeroFreePuts(PutsOf(d)) && Covers(corpus, d.txs, d.events, d.fills, d.builders, first)
    ensures AllHit(Replayed(d, true), corpus) <==> HasTransactions(d)
  {
    if HasTransactions(d) {
      forall q | q in corpus
        ensures Execute(Replayed(d, true), q).Ok?
      {
        WantedRocksDbHits(d, first, q);
      }
    } else {
      EventQueryMisses(d, true, corpus, first);
    }
  }

  /** Every fill's market and account are still those of some fill that no later fill of its id replaces. */
  ghost predicate FillsSurvive(fills: seq<FillRow>) {
    forall f :: f in fills ==> MarketSurvives(fills, f.marketId) && AccountSurvives(fills, f.account)
  }

  lemma WantedMemoryHits(d: Dataset, first: seq<u64>, q: QueryRecord)
    requires FillsSurvive(d.fills) && HasTransactions(d)
    requires FirstHundred(QueriedVersions(d.txs, d.events), first)
    requires Wanted(q, QueriedVersions(d.txs, d.events), first, d.fills, d.builders)
    ensures Execute(Replayed(d, false), q).Ok?
  {
    if f :| f in d.fills && (q == MarketScan(f.marketId) || q == AccountScan(f.account)) {
      MemoryFillScansHit(d, f.marketId, f.account);
    } else if r :| r in d.builders && (q == BuilderScan(r.builderAddr) || q == VolumeQuery(r.builderAddr)) {
      MemoryBuilderQueriesHit(d, r);
    } else {
      PointQueriesHit(d, false, first, q);
    }
  }

  lemma HitsNeedSurvivors(d: Dataset, corpus: seq<QueryRecord>, first: seq<u64>)
    requires Covers(corpus, d.txs, d.events, d.fills, d.builders, first) && AllHit(Replayed(d, false), corpus)
    ensures FillsSurvive(d.fills)
  {
    forall f | f in d.fills
      ensures MarketSurvives(d.fills, f.marketId) && AccountSurvives(d.fills, f.account)
    {
      var versions := QueriedVersions(d.txs, d.events);
      assert Wanted(MarketScan(f.marketId), versions, first, d.fills, d.builders);
      assert Wanted(AccountScan(f.account), versions, first, d.fills, d.builders);
      MemoryFillScansHit(d, f.marketId, f.account);
    }
  }

  /** In memory fills that share an id replace one another, so the scans also need survivors to find. */
  lemma MemoryCorpusHits(d: Dataset, corpus: seq<QueryRecord>, first: seq<u64>)
    requires Covers(corpus, d.txs, d.events, d.fills, d.builders, first)
    ensures AllHit(Replayed(d, false), corpus) <==> HasTransactions(d) && FillsSurvive(d.fills)
  {
    if !HasTransactions(d) {
      EventQueryMisses(d, false, corpus, first);
    } else if FillsSurvive(d.fills) {
      forall q | q in corpus
        ensures Execute(Replayed(d, false), q).Ok?
      {
        WantedMemoryHits(d, first, q);
      }
    } else if AllHit(Replayed(d, false), corpus) {
      HitsNeedSurvivors(d, corpus, first);
    }
  }

  /** A fill id that fixes market and account leaves survivors. */
  lemma FixedFillsSurvive(fills: seq<FillRow>)
    requires A.FillIdFixesAccount(fills)
    ensures FillsSurvive(fills)
  {
    forall f | f in fills
      ensures MarketSurvives(fills, f.marketId) && AccountSurvives(fills, f.account)
    {
      var last := KeyIsHeld(fills, M.FillId, f);
      var i: nat :| IsLast(fills, M.FillId, i) && (M.FillId(last), last) == (M.FillId(fills[i]), fills[i]);
      assert fills[i] in fills;
    }
  }

  /** Without that, a fill can vanish together with its market. */
  lemma ReplacedFillVanishes(a: FillRow, b: FillRow)
    requires a.fillId == b.fillId && a.marketId != b.marketId
    ensures !FillsSurvive([a, b])
  {
    assert a in [a, b];
    forall i: nat | IsLast([a, b], M.FillId, i)
      ensures i == 1
    {
      assert i == 0 ==> M.FillId([a, b][1]) != M.FillId([a, b][0]);
    }
  }
}
