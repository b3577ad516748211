/** The in-memory engine: typed ordered maps and a vector of activities, queried by filtering,
    sorting and truncating. */
module Memory {
  import opened Prelude
  import opened Rows
  import opened OrderedMaps
  import B = ByteOrder
  import K = Keys
  import LastWins
  import Lists
  import V = Volume

  type PositionKey = (Bytes, Bytes, Option<Bytes>)

  datatype Inner = Inner(
    txs: OrderedMap<u64, TxRow>,
    events: OrderedMap<(u64, u32), NormalizedEvent>,
    fills: OrderedMap<Bytes, FillRow>,
    orders: OrderedMap<Bytes, OrderRow>,
    positions: OrderedMap<PositionKey, PositionRow>,
    builders: OrderedMap<(Bytes, Bytes), BuilderRow>,
    checkpoints: OrderedMap<Bytes, IngestCheckpoint>,
    activities: seq<ActivityRow>)

  const EMPTY: Inner := Inner([], [], [], [], [], [], [], [])

  // The orders of the map keys: tuples compare field by field and an absent text comes first.

  predicate VersionLt(a: u64, b: u64) {
    a < b
  }

  predicate EventLt(a: (u64, u32), b: (u64, u32)) {
    a.0 < b.0 || (a.0 == b.0 && a.1 < b.1)
  }

  predicate PairLt(a: (Bytes, Bytes), b: (Bytes, Bytes)) {
    B.Lt(a.0, b.0) || (a.0 == b.0 && B.Lt(a.1, b.1))
  }

  predicate PositionLt(a: PositionKey, b: PositionKey) {
    B.Lt(a.0, b.0) || (a.0 == b.0 && (B.Lt(a.1, b.1) || (a.1 == b.1 && K.OptionBefore(a.2, b.2))))
  }

  function PositionKeyOf(row: PositionRow): PositionKey {
    (row.account, row.marketId, row.subaccount)
  }

  function CheckpointKey(row: IngestCheckpoint): Bytes {
    row.network.Name() + Ascii(":") + row.packageAddress
  }

  function Apply(inner: Inner, put: Put): Inner {
    match put
    case PutTx(tx) => inner.(txs := Insert(inner.txs, tx.version, tx, VersionLt))
    case PutEvent(event) => inner.(events := Insert(inner.events, (event.version, event.eventIdx), event, EventLt))
    case PutFill(fill) => inner.(fills := Insert(inner.fills, fill.fillId, fill, B.Lt),
                                 activities := inner.activities + [FillActivity(fill)])
    case PutOrder(order) => inner.(orders := Insert(inner.orders, order.orderId, order, B.Lt))
    case PutPosition(row) => inner.(positions := Insert(inner.positions, PositionKeyOf(row), row, PositionLt))
    case PutBuilder(row) => inner.(builders := Insert(inner.builders, (row.builderAddr, row.fillId), row, PairLt))
    case PutActivity(row) => inner.(activities := inner.activities + [row])
    case PutCheckpoint(row) => inner.(checkpoints := Insert(inner.checkpoints, CheckpointKey(row), row, B.Lt))
  }

  /** The state after a sequence of puts into an empty engine. */
  function Run(puts: seq<Put>): Inner {
    if puts == [] then EMPTY else Apply(Run(puts[..|puts| - 1]), puts[|puts| - 1])
  }

  // Queries.

  /** Newest first, then by version, event index and fill id. */
  predicate FillsRecentFirst(a: FillRow, b: FillRow) {
    a.timestampUs > b.timestampUs || (a.timestampUs == b.timestampUs &&
    (a.version < b.version || (a.version == b.version &&
    (a.eventIdx < b.eventIdx || (a.eventIdx == b.eventIdx && B.Leq(a.fillId, b.fillId))))))
  }

  predicate BuildersRecentFirst(a: BuilderRow, b: BuilderRow) {
    a.timestampUs > b.timestampUs || (a.timestampUs == b.timestampUs && B.Leq(a.fillId, b.fillId))
  }

  predicate ActivitiesRecentFirst(a: ActivityRow, b: ActivityRow) {
    a.timestampUs > b.timestampUs || (a.timestampUs == b.timestampUs &&
    (a.version < b.version || (a.version == b.version && a.eventIdx <= b.eventIdx)))
  }

  predicate ByMarket(a: PositionRow, b: PositionRow) {
    B.Leq(a.marketId, b.marketId)
  }

  function TxsAt(inner: Inner, versions: seq<u64>): seq<Option<TxRow>> {
    Lists.Map((v: u64) => Get(inner.txs, v), versions)
  }

  function OrderUnder(inner: Inner, orderId: Bytes): Option<OrderRow> {
    Get(inner.orders, orderId)
  }

  function PositionsByAccount(inner: Inner, account: Bytes): seq<PositionRow> {
    Lists.StableSort(ByMarket, Lists.Filter((r: PositionRow) => r.account == account, Values(inner.positions)))
  }

  function MarketFills(inner: Inner, marketId: Bytes): seq<FillRow> {
    Lists.StableSort(FillsRecentFirst, Lists.Filter((f: FillRow) => f.marketId == marketId, Values(inner.fills)))
  }

  function AccountFills(inner: Inner, account: Bytes): seq<FillRow> {
    Lists.StableSort(FillsRecentFirst, Lists.Filter((f: FillRow) => f.account == account, Values(inner.fills)))
  }

  function BuilderRows(inner: Inner, builder: Bytes): seq<BuilderRow> {
    V.OfBuilder(Values(inner.builders), builder)
  }

  function BuilderFills(inner: Inner, builder: Bytes): seq<BuilderRow> {
    Lists.StableSort(BuildersRecentFirst, BuilderRows(inner, builder))
  }

  function MarketActivity(inner: Inner, marketId: Bytes): seq<ActivityRow> {
    Lists.StableSort(ActivitiesRecentFirst, Lists.Filter((a: ActivityRow) => a.marketId == marketId, inner.activities))
  }

  function BuilderVolume(inner: Inner, builder: Bytes, window: TimeWindow): Option<V.BuilderVolumeRow> {
    V.VolumeOf(BuilderRows(inner, builder), V.LatestCheckpoint(Values(inner.checkpoints)), builder, window)
  }

  // What the rows are kept and sorted by.

  function Version(r: TxRow): u64 { r.version }

  function EventKey(r: NormalizedEvent): (u64, u32) { (r.version, r.eventIdx) }

  function FillId(r: FillRow): Bytes { r.fillId }

  function OrderId(r: OrderRow): Bytes { r.orderId }

  function BuilderKey(r: BuilderRow): (Bytes, Bytes) { (r.builderAddr, r.fillId) }

  lemma FillOrderIsTotal()
    ensures Lists.TotalPreorder(FillsRecentFirst)
    ensures forall a, b :: FillsRecentFirst(a, b) && FillsRecentFirst(b, a) ==> a.fillId == b.fillId
  {
    forall a: FillRow, b: FillRow, c: FillRow
      ensures FillsRecentFirst(a, b) || FillsRecentFirst(b, a)
      ensures FillsRecentFirst(a, b) && FillsRecentFirst(b, c) ==> FillsRecentFirst(a, c)
      ensures FillsRecentFirst(a, b) && FillsRecentFirst(b, a) ==> a.fillId == b.fillId
    {
      B.LeqIsTotal(a.fillId, b.fillId, c.fillId);
    }
  }

  lemma BuilderOrderIsTotal()
    ensures Lists.TotalPreorder(BuildersRecentFirst)
    ensures forall a, b :: BuildersRecentFirst(a, b) && BuildersRecentFirst(b, a) ==> a.fillId == b.fillId
  {
    forall a: BuilderRow, b: BuilderRow, c: BuilderRow
      ensures BuildersRecentFirst(a, b) || BuildersRecentFirst(b, a)
      ensures BuildersRecentFirst(a, b) && BuildersRecentFirst(b, c) ==> BuildersRecentFirst(a, c)
      ensures BuildersRecentFirst(a, b) && BuildersRecentFirst(b, a) ==> a.fillId == b.fillId
    {
      B.LeqIsTotal(a.fillId, b.fillId, c.fillId);
    }
  }

  lemma ActivityOrderIsTotal()
    ensures Lists.TotalPreorder(ActivitiesRecentFirst)
  {
  }

  // The engine.

  /** Every map holds its rows under their keys, in key order. */
  ghost predicate Ordered(inner: Inner) {
    && Keyed(inner.txs, Version, VersionLt) && Keyed(inner.events, EventKey, EventLt)
    && Keyed(inner.fills, FillId, B.Lt) && Keyed(inner.orders, OrderId, B.Lt)
    && Keyed(inner.positions, PositionKeyOf, PositionLt) && Keyed(inner.builders, BuilderKey, PairLt)
    && Keyed(inner.checkpoints, CheckpointKey, B.Lt)
  }

  lemma PutKeepsOrder(inner: Inner, put: Put)
    requires Ordered(inner)
    ensures Ordered(Apply(inner, put))
  {
    KeyOrdersAreStrict();
    LastWins.ByteOrderIsStrict();
    if put.PutTx? || put.PutEvent? || put.PutFill? || put.PutOrder? {
      LedgerPutKeepsOrder(inner, put);
    } else {
      StatePutKeepsOrder(inner, put);
    }
  }

  lemma LedgerPutKeepsOrder(inner: Inner, put: Put)
    requires put.PutTx? || put.PutEvent? || put.PutFill? || put.PutOrder?
    requires Ordered(inner) && StrictOrder(VersionLt) && StrictOrder(EventLt) && StrictOrder(B.Lt)
    ensures Ordered(Apply(inner, put))
  {
    match put
    case PutTx(tx) => InsertKeyed(inner.txs, tx, Version, VersionLt);
    case PutEvent(event) => InsertKeyed(inner.events, event, EventKey, EventLt);
    case PutFill(fill) => InsertKeyed(inner.fills, fill, FillId, B.Lt);
    case PutOrder(order) => InsertKeyed(inner.orders, order, OrderId, B.Lt);
  }

  lemma StatePutKeepsOrder(inner: Inner, put: Put)
    requires put.PutPosition? || put.PutBuilder? || put.PutActivity? || put.PutCheckpoint?
    requires Ordered(inner) && StrictOrder(PositionLt) && StrictOrder(PairLt) && StrictOrder(B.Lt)
    ensures Ordered(Apply(inner, put))
  {
    match put
    case PutPosition(row) => InsertKeyed(inner.positions, row, PositionKeyOf, PositionLt);
    case PutBuilder(row) => InsertKeyed(inner.builders, row, BuilderKey, PairLt);
    case PutActivity(row) =>
    case PutCheckpoint(row) => InsertKeyed(inner.checkpoints, row, CheckpointKey, B.Lt);
  }

  predicate PositionBefore(a: PositionRow, b: PositionRow) {
    PositionLt(PositionKeyOf(a), PositionKeyOf(b))
  }

  lemma PositionsInKeyOrder(positions: OrderedMap<PositionKey, PositionRow>)
    requires Keyed(positions, PositionKeyOf, PositionLt)
    ensures Lists.SortedBy(PositionBefore, Values(positions))
  {
    forall i, j | 0 <= i < j < |positions|
      ensures PositionBefore(Values(positions)[i], Values(positions)[j])
    {
      assert positions[i] in positions && positions[j] in positions && PositionLt(positions[i].0, positions[j].0);
    }
  }

  lemma PositionsOfAccountByMarket(mine: seq<PositionRow>, account: Bytes)
    requires Lists.SortedBy(PositionBefore, mine) && forall r :: r in mine ==> r.account == account
    ensures Lists.StableSort(ByMarket, mine) == mine
  {
    forall i, j | 0 <= i < j < |mine|
      ensures ByMarket(mine[i], mine[j])
    {
      assert mine[i] in mine && mine[j] in mine && PositionBefore(mine[i], mine[j]);
      B.Irreflexive(account);
    }
    Lists.SortingSortedIsIdentity(ByMarket, mine);
  }

  /** An account's positions already come in market order, so the stable sort leaves them alone. */
  lemma PositionsStayInKeyOrder(positions: OrderedMap<PositionKey, PositionRow>, account: Bytes)
    requires Keyed(positions, PositionKeyOf, PositionLt)
    ensures
      var mine := Lists.Filter((r: PositionRow) => r.account == account, Values(positions));
      Lists.StableSort(ByMarket, mine) == mine && Lists.SortedBy(PositionBefore, mine)
  {
    var keep := (r: PositionRow) => r.account == account;
    PositionsInKeyOrder(positions);
    Lists.FilterSorted(PositionBefore, keep, Values(positions));
    PositionsOfAccountByMarket(Lists.Filter(keep, Values(positions)), account);
  }

  class MemoryEngine {
    var inner: Inner

    ghost predicate Valid()
      reads this
    {
      Ordered(inner)
    }

    constructor ()
      ensures Valid() && inner == EMPTY
    {
      inner := EMPTY;
    }

    method PutTx(tx: TxRow)
      requires Valid()
      modifies this
      ensures Valid() && inner == Apply(old(inner), Put.PutTx(tx))
    {
      PutKeepsOrder(inner, Put.PutTx(tx));
      inner := inner.(txs := Insert(inner.txs, tx.version, tx, VersionLt));
    }

    method PutEvent(event: NormalizedEvent)
      requires Valid()
      modifies this
      ensures Valid() && inner == Apply(old(inner), Put.PutEvent(event))
    {
      PutKeepsOrder(inner, Put.PutEvent(event));
      inner := inner.(events := Insert(inner.events, (event.version, event.eventIdx), event, EventLt));
    }

    method PutFill(fill: FillRow)
      requires Valid()
      modifies this
      ensures Valid() && inner == Apply(old(inner), Put.PutFill(fill))
    {
      PutKeepsOrder(inner, Put.PutFill(fill));
      var activity := FillActivity(fill);
      inner := inner.(fills := Insert(inner.fills, fill.fillId, fill, B.Lt));
      inner := inner.(activities := inner.activities + [activity]);
    }

    method PutOrder(order: OrderRow)
      requires Valid()
      modifies this
      ensures Valid() && inner == Apply(old(inner), Put.PutOrder(order))
    {
      PutKeepsOrder(inner, Put.PutOrder(order));
      inner := inner.(orders := Insert(inner.orders, order.orderId, order, B.Lt));
    }

    method PutPosition(row: PositionRow)
      requires Valid()
      modifies this
      ensures Valid() && inner == Apply(old(inner), Put.PutPosition(row))
    {
      PutKeepsOrder(inner, Put.PutPosition(row));
      inner := inner.(positions := Insert(inner.positions, PositionKeyOf(row), row, PositionLt));
    }

    method PutBuilderAttribution(row: BuilderRow)
      requires Valid()
      modifies this
      ensures Valid() && inner == Apply(old(inner), PutBuilder(row))
    {
      PutKeepsOrder(inner, PutBuilder(row));
      var builders := Insert(inner.builders, (row.builderAddr, row.fillId), row, PairLt);
      assert builders == Apply(inner, PutBuilder(row)).builders;
      inner := inner.(builders := builders);
    }

    method PutActivity(row: ActivityRow)
      requires Valid()
      modifies this
      ensures Valid() && inner == Apply(old(inner), Put.PutActivity(row))
    {
      PutKeepsOrder(inner, Put.PutActivity(row));
      inner := inner.(activities := inner.activities + [row]);
    }

    method PutIngestCheckpoint(row: IngestCheckpoint)
      requires Valid()
      modifies this
      ensures Valid() && inner == Apply(old(inner), PutCheckpoint(row))
    {
      PutKeepsOrder(inner, PutCheckpoint(row));
      var checkpoints := Insert(inner.checkpoints, CheckpointKey(row), row, B.Lt);
      assert checkpoints == Apply(inner, PutCheckpoint(row)).checkpoints;
      inner := inner.(checkpoints := checkpoints);
    }

    method GetTx(version: u64) returns (row: Option<TxRow>)
      ensures row == TxsAt(inner, [version])[0]
    {
      row := Get(inner.txs, version);
    }

    method MultiGetTxs(versions: seq<u64>) returns (rows: seq<Option<TxRow>>)
      ensures rows == TxsAt(inner, versions)
    {
      rows := TxsAt(inner, versions);
    }

    method GetOrder(orderId: Bytes) returns (row: Option<OrderRow>)
      ensures row == OrderUnder(inner, orderId)
    {
      row := Get(inner.orders, orderId);
    }

    method ScanMarketFills(marketId: Bytes, limit: nat) returns (rows: seq<FillRow>)
      ensures rows == Lists.Take(MarketFills(inner, marketId), limit)
      ensures Lists.Top(rows, FillsRecentFirst,
              Lists.Filter((f: FillRow) => f.marketId == marketId, Values(inner.fills)), limit)
      ensures forall r :: r in rows ==> r in Values(inner.fills) && r.marketId == marketId
    {
      rows := Lists.Filter((f: FillRow) => f.marketId == marketId, Values(inner.fills));
      ghost var matches := rows;
      rows := Lists.StableSort(FillsRecentFirst, rows);
      rows := Lists.Take(rows, limit);
      FillOrderIsTotal();
      Lists.TakenIsTop(FillsRecentFirst, matches, limit);
      Lists.TopMatches(rows, FillsRecentFirst, matches, limit);
    }

    method ScanAccountFills(account: Bytes, limit: nat) returns (rows: seq<FillRow>)
      ensures rows == Lists.Take(AccountFills(inner, account), limit)
      ensures Lists.Top(rows, FillsRecentFirst, Lists.Filter((f: FillRow) => f.account == account, Values(inner.fills)),
              limit)
      ensures forall r :: r in rows ==> r in Values(inner.fills) && r.account == account
    {
      rows := Lists.Filter((f: FillRow) => f.account == account, Values(inner.fills));
      ghost var matches := rows;
      rows := Lists.StableSort(FillsRecentFirst, rows);
      rows := Lists.Take(rows, limit);
      FillOrderIsTotal();
      Lists.TakenIsTop(FillsRecentFirst, matches, limit);
      Lists.TopMatches(rows, FillsRecentFirst, matches, limit);
    }

    method ScanBuilderCodeFills(builder: Bytes, limit: nat) returns (rows: seq<BuilderRow>)
      ensures rows == Lists.Take(BuilderFills(inner, builder), limit)
      ensures Lists.Top(rows, BuildersRecentFirst,
              Lists.Filter((r: BuilderRow) => r.builderAddr == builder, Values(inner.builders)), limit)
      ensures forall r :: r in rows ==> r in Values(inner.builders) && r.builderAddr == builder
    {
      rows := Lists.Filter((r: BuilderRow) => r.builderAddr == builder, Values(inner.builders));
      ghost var matches := rows;
      rows := Lists.StableSort(BuildersRecentFirst, rows);
      rows := Lists.Take(rows, limit);
      BuilderOrderIsTotal();
      Lists.TakenIsTop(BuildersRecentFirst, matches, limit);
      Lists.TopMatches(rows, BuildersRecentFirst, matches, limit);
    }

    method ScanMarketActivity(marketId: Bytes, limit: nat) returns (rows: seq<ActivityRow>)
      ensures rows == Lists.Take(MarketActivity(inner, marketId), limit)
      ensures Lists.Top(rows, ActivitiesRecentFirst,
              Lists.Filter((a: ActivityRow) => a.marketId == marketId, inner.activities), limit)
      ensures forall r :: r in rows ==> r in inner.activities && r.marketId == marketId
    {
      rows := Lists.Filter((a: ActivityRow) => a.marketId == marketId, inner.activities);
      ghost var matches := rows;
      rows := Lists.StableSort(ActivitiesRecentFirst, rows);
      rows := Lists.Take(rows, limit);
      ActivityOrderIsTotal();
      Lists.TakenIsTop(ActivitiesRecentFirst, matches, limit);
      Lists.TopMatches(rows, ActivitiesRecentFirst, matches, limit);
    }

    method GetPositionsByAccount(account: Bytes) returns (rows: seq<PositionRow>)
      requires Valid()
      ensures rows == PositionsByAccount(inner, account)
      ensures forall r :: r in rows <==> r in Values(inner.positions) && r.account == account
      ensures Lists.SortedBy(PositionBefore, rows)
    {
      rows := Lists.Filter((r: PositionRow) => r.account == account, Values(inner.positions));
      rows := Lists.StableSort(ByMarket, rows);
      PositionsStayInKeyOrder(inner.positions, account);
    }

    method GetBuilderCodeVolume(builder: Bytes, window: TimeWindow) returns (volume: Option<V.BuilderVolumeRow>)
      ensures volume == BuilderVolume(inner, builder, window)
      ensures V.Reports(volume, V.OfBuilder(Values(inner.builders), builder),
                        V.LatestCheckpoint(Values(inner.checkpoints)), builder, window)
    {
      var rows := Lists.Filter((r: BuilderRow) => r.builderAddr == builder, Values(inner.builders));
      var checkpointTs := V.LatestCheckpoint(Values(inner.checkpoints));
      volume := V.ComputeVolume(rows, checkpointTs, builder, window);
    }
  }

  // The state holds, kind by kind, the last row put under each key.

  function FromRows(puts: seq<Put>): Inner {
    Inner(LastWins.Table(Txs(puts), Version, VersionLt),
          LastWins.Table(Events(puts), EventKey, EventLt),
          LastWins.Table(Fills(puts), FillId, B.Lt),
          LastWins.Table(Orders(puts), OrderId, B.Lt),
          LastWins.Table(Positions(puts), PositionKeyOf, PositionLt),
          LastWins.Table(Builders(puts), BuilderKey, PairLt),
          LastWins.Table(Checkpoints(puts), CheckpointKey, B.Lt),
          Activities(puts))
  }

  lemma VersionedIntoTables(puts: seq<Put>)
    requires puts != []
    ensures puts[|puts| - 1].PutTx? || puts[|puts| - 1].PutEvent? || puts[|puts| - 1].PutActivity? ==>
              FromRows(puts) == Apply(FromRows(puts[..|puts| - 1]), puts[|puts| - 1])
  {
    var init := puts[..|puts| - 1];
    match puts[|puts| - 1]
    case PutTx(row) => LastWins.TableAppend(Txs(init), row, Version, VersionLt);
    case PutEvent(row) => LastWins.TableAppend(Events(init), row, EventKey, EventLt);
    case _ =>
  }

  lemma NamedIntoTables(puts: seq<Put>)
    requires puts != []
    ensures puts[|puts| - 1].PutFill? || puts[|puts| - 1].PutOrder? || puts[|puts| - 1].PutPosition? ==>
              FromRows(puts) == Apply(FromRows(puts[..|puts| - 1]), puts[|puts| - 1])
    ensures puts[|puts| - 1].PutBuilder? || puts[|puts| - 1].PutCheckpoint? ==>
              FromRows(puts) == Apply(FromRows(puts[..|puts| - 1]), puts[|puts| - 1])
  {
    var init := puts[..|puts| - 1];
    match puts[|puts| - 1]
    case PutFill(row) => LastWins.TableAppend(Fills(init), row, FillId, B.Lt);
    case PutOrder(row) => LastWins.TableAppend(Orders(init), row, OrderId, B.Lt);
    case PutPosition(row) => LastWins.TableAppend(Positions(init), row, PositionKeyOf, PositionLt);
    case PutBuilder(row) => LastWins.TableAppend(Builders(init), row, BuilderKey, PairLt);
    case PutCheckpoint(row) => LastWins.TableAppend(Checkpoints(init), row, CheckpointKey, B.Lt);
    case _ =>
  }

  lemma {:induction false} RunIsTables(puts: seq<Put>)
    ensures Run(puts) == FromRows(puts)
  {
    if puts != [] {
      RunIsTables(puts[..|puts| - 1]);
      VersionedIntoTables(puts);
      NamedIntoTables(puts);
    }
  }

  // The key orders are strict total orders.

  lemma OptionOrderIsStrict()
    ensures StrictOrder(K.OptionBefore)
  {
    forall a: Option<Bytes>, b: Option<Bytes>
      ensures !K.OptionBefore(a, a)
      ensures K.OptionBefore(a, b) || a == b || K.OptionBefore(b, a)
    {
      if a.Some? { B.Irreflexive(a.value); }
      if a.Some? && b.Some? { B.Trichotomous(a.value, b.value); }
    }
    forall a: Option<Bytes>, b: Option<Bytes>, c: Option<Bytes> | K.OptionBefore(a, b) && K.OptionBefore(b, c)
      ensures K.OptionBefore(a, c)
    {
      if a.Some? { B.Transitive(a.value, b.value, c.value); }
    }
  }

  lemma PairOrderIsStrict()
    ensures StrictOrder(PairLt)
  {
    LastWins.ByteOrderIsStrict();
  }

  lemma PositionOrderIsTransitive(a: PositionKey, b: PositionKey, c: PositionKey)
    requires PositionLt(a, b) && PositionLt(b, c)
    ensures PositionLt(a, c)
  {
    LastWins.ByteOrderIsStrict();
    OptionOrderIsStrict();
    if a.0 == b.0 == c.0 && a.1 == b.1 == c.1 {
      assert K.OptionBefore(a.2, b.2) && K.OptionBefore(b.2, c.2);
    }
  }

  lemma KeyOrdersAreStrict()
    ensures StrictOrder(VersionLt) && StrictOrder(EventLt) && StrictOrder(PairLt) && StrictOrder(PositionLt)
  {
    PairOrderIsStrict();
    forall a: PositionKey, b: PositionKey
      ensures !PositionLt(a, a)
      ensures PositionLt(a, b) || a == b || PositionLt(b, a)
    {
      LastWins.ByteOrderIsStrict();
      OptionOrderIsStrict();
    }
    forall a: PositionKey, b: PositionKey, c: PositionKey | PositionLt(a, b) && PositionLt(b, c)
      ensures PositionLt(a, c)
    {
      PositionOrderIsTransitive(a, b, c);
    }
  }
}
