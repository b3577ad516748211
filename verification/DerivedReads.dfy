/** The reads that sort less than a fill scan or compute more: positions, market activity and volume. */
module DerivedReads {
  import opened Prelude
  import opened Rows
  import opened OrderedMaps
  import opened LastWins
  import opened Agreement
  import opened Scans
  import B = ByteOrder
  import K = Keys
  import Lists
  import M = Memory
  import R = Rocks
  import V = Volume

  // Scans without a limit ask for as many rows as a machine word can count.

  lemma {:induction false} InsertSize<C, W>(m: OrderedMap<C, W>, k: C, v: W, lt: (C, C) -> bool)
    ensures |Insert(m, k, v, lt)| <= |m| + 1
  {
    if m != [] {
      InsertSize(m[1..], k, v, lt);
    }
  }

  lemma {:induction false} TableSize<C, W>(rows: seq<W>, key: W -> C, lt: (C, C) -> bool)
    ensures |Table(rows, key, lt)| <= |rows|
  {
    if rows != [] {
      var init, last := rows[..|rows| - 1], rows[|rows| - 1];
      TableSize(init, key, lt);
      InsertSize(Table(init, key, lt), key(last), last, lt);
    }
  }

  lemma {:induction false} FilterSize<T(!new)>(keep: T -> bool, s: seq<T>)
    ensures |Lists.Filter(keep, s)| <= |s|
  {
    if s != [] {
      FilterSize(keep, s[1..]);
    }
  }

  lemma UnlimitedScan<W(!new)>(rows: seq<W>, fine: W -> Bytes, prefix: Bytes)
    requires |rows| <= U64_MAX
    ensures R.Scanned(Table(rows, fine, B.Lt), prefix, U64_MAX) == R.PrefixRows(Table(rows, fine, B.Lt), prefix)
  {
    TableSize(rows, fine, B.Lt);
    FilterSize((pair: (Bytes, W)) => B.StartsWith(pair.0, prefix), Table(rows, fine, B.Lt));
  }

  lemma {:induction false} RowsFewerThanPuts(puts: seq<Put>)
    ensures |Positions(puts)| <= |puts| && |Builders(puts)| <= |puts|
  {
    if puts != [] {
      RowsFewerThanPuts(puts[..|puts| - 1]);
    }
  }

  // Positions.

  lemma PositionTupleOrder(a: PositionRow, b: PositionRow)
    ensures
      var s := K.PositionSegments(a.account, a.marketId, a.subaccount);
      var t := K.PositionSegments(b.account, b.marketId, b.subaccount);
      K.TupleBefore(s, t) <==> M.PositionLt(M.PositionKeyOf(a), M.PositionKeyOf(b))
  {
    K.OptionalTextOrder(a.subaccount, b.subaccount);
    TupleOfThree(K.PositionSegments(a.account, a.marketId, a.subaccount),
                 K.PositionSegments(b.account, b.marketId, b.subaccount));
  }

  lemma PositionShapes(a: PositionRow, b: PositionRow)
    requires R.KeyTextsZeroFree(PutPosition(a))
    ensures
      var s := K.PositionSegments(a.account, a.marketId, a.subaccount);
      var t := K.PositionSegments(b.account, b.marketId, b.subaccount);
      K.ValidKey(s) && K.SameShape(s, t)
  {
    K.OptionalTextOrder(a.subaccount, b.subaccount);
  }

  lemma PositionKeyOrder(a: PositionRow, b: PositionRow)
    requires R.KeyTextsZeroFree(PutPosition(a)) && R.KeyTextsZeroFree(PutPosition(b))
    ensures B.Lt(R.PositionKey(a), R.PositionKey(b)) <==> M.PositionLt(M.PositionKeyOf(a), M.PositionKeyOf(b))
  {
    PositionShapes(a, b);
    PositionShapes(b, a);
    K.KeyOrder(K.PositionSegments(a.account, a.marketId, a.subaccount),
               K.PositionSegments(b.account, b.marketId, b.subaccount));
    PositionTupleOrder(a, b);
  }

  lemma TupleOfThree(s: seq<K.Segment>, t: seq<K.Segment>)
    requires |s| == |t| == 3
    ensures K.TupleBefore(s, t) <==>
            s[0].Before(t[0]) || (s[0] == t[0] && (s[1].Before(t[1]) || (s[1] == t[1] && s[2].Before(t[2]))))
  {
    assert K.TupleBefore(s[2..], t[2..]) <==> s[2].Before(t[2]) by {
      assert s[2..] == [s[2]] && t[2..] == [t[2]];
    }
    assert K.TupleBefore(s[1..], t[1..]) <==> s[1].Before(t[1]) || (s[1] == t[1] && K.TupleBefore(s[2..], t[2..])) by {
      assert s[1..][1..] == s[2..] && t[1..][1..] == t[2..];
    }
  }

  lemma PositionsAntisymmetric(mine: seq<PositionRow>)
    ensures Lists.Antisymmetric(M.PositionBefore, mine)
  {
    M.KeyOrdersAreStrict();
  }

  lemma MemoryPositionsInKeyOrder(rows: seq<PositionRow>, account: Bytes)
    ensures
      var values := Values(Table(rows, M.PositionKeyOf, M.PositionLt));
      var mine := Lists.Filter((r: PositionRow) => r.account == account, values);
      && Lists.StableSort(M.ByMarket, mine) == mine
      && Lists.SortedBy(M.PositionBefore, mine) && Lists.Antisymmetric(M.PositionBefore, mine)
  {
    M.KeyOrdersAreStrict();
    TableHolds(rows, M.PositionKeyOf, M.PositionLt);
    TableKeys(rows, M.PositionKeyOf, M.PositionLt);
    var table := Table(rows, M.PositionKeyOf, M.PositionLt);
    M.PositionsStayInKeyOrder(table, account);
    PositionsAntisymmetric(Lists.Filter((r: PositionRow) => r.account == account, Values(table)));
  }

  lemma RocksPositionsInKeyOrder(rows: seq<PositionRow>, account: Bytes)
    requires forall r :: r in rows ==> R.KeyTextsZeroFree(PutPosition(r))
    ensures Lists.SortedBy(M.PositionBefore, R.PrefixRows(Table(rows, R.PositionKey, B.Lt), K.Prefix(account)))
  {
    ScanOrder(rows, R.PositionKey, K.Prefix(account));
    var scan := R.PrefixRows(Table(rows, R.PositionKey, B.Lt), K.Prefix(account));
    forall i, j | 0 <= i < j < |scan|
      ensures M.PositionBefore(scan[i], scan[j])
    {
      assert scan[i] in scan && scan[j] in scan;
      PositionKeyOrder(scan[i], scan[j]);
    }
  }

  lemma PositionPrefix(rows: seq<PositionRow>, account: Bytes)
    requires (forall r :: r in rows ==> R.KeyTextsZeroFree(PutPosition(r))) && B.ZeroFree(account)
    ensures forall r :: r in rows ==> (B.StartsWith(R.PositionKey(r), K.Prefix(account)) <==> r.account == account)
  {
    forall r | r in rows
      ensures B.StartsWith(R.PositionKey(r), K.Prefix(account)) <==> r.account == account
    {
      K.OptionalTextOrder(r.subaccount, None);
      K.PrefixExact(K.PositionSegments(r.account, r.marketId, r.subaccount), account);
    }
  }

  lemma PositionRowsPermute(rows: seq<PositionRow>, account: Bytes)
    requires (forall r :: r in rows ==> R.KeyTextsZeroFree(PutPosition(r))) && B.ZeroFree(account)
    ensures
      var values := Values(Table(rows, M.PositionKeyOf, M.PositionLt));
      multiset(Lists.Filter((r: PositionRow) => r.account == account, values)) ==
      multiset(R.PrefixRows(Table(rows, R.PositionKey, B.Lt), K.Prefix(account)))
  {
    PositionsAgree(rows);
    PositionPrefix(rows, account);
    SameScanRows(rows, M.PositionKeyOf, M.PositionLt, R.PositionKey, (r: PositionRow) => r.account == account,
      K.Prefix(account));
  }

  /** Positions of an account are the same rows in the same order, subaccounts included, whatever else was put. */
  lemma PositionsIdentical(puts: seq<Put>, account: Bytes)
    requires ZeroFreePuts(puts) && B.ZeroFree(account) && |puts| <= U64_MAX
    ensures M.PositionsByAccount(M.Run(puts), account) == R.PositionsByAccount(R.Run(puts), account)
  {
    var rows := Positions(puts);
    PutTexts(puts);
    M.RunIsTables(puts);
    R.RunIsTables(puts);
    RowsFewerThanPuts(puts);
    UnlimitedScan(rows, R.PositionKey, K.Prefix(account));
    PositionRowsPermute(rows, account);
    MemoryPositionsInKeyOrder(rows, account);
    RocksPositionsInKeyOrder(rows, account);
    Lists.SortedPermutationsEqual(
      M.PositionBefore,
      Lists.Filter((r: PositionRow) => r.account == account, Values(Table(rows, M.PositionKeyOf, M.PositionLt))),
      R.PrefixRows(Table(rows, R.PositionKey, B.Lt), K.Prefix(account)));
  }

  // Volume.

  lemma LatestCheckpointPermutes(a: seq<IngestCheckpoint>, b: seq<IngestCheckpoint>)
    requires multiset(a) == multiset(b)
    ensures V.LatestCheckpoint(a) == V.LatestCheckpoint(b)
  {
    Lists.PermutationMembers(a, b);
  }

  lemma SameCheckpoint(puts: seq<Put>)
    requires ZeroFreePuts(puts)
    ensures V.LatestCheckpoint(Values(M.Run(puts).checkpoints)) == V.LatestCheckpoint(Values(R.Run(puts).checkpoints))
  {
    PutTexts(puts);
    M.RunIsTables(puts);
    R.RunIsTables(puts);
    CheckpointsAgree(Checkpoints(puts));
    SameValues(Checkpoints(puts), M.CheckpointKey, B.Lt, R.CheckpointKey);
    LatestCheckpointPermutes(Values(M.Run(puts).checkpoints), Values(R.Run(puts).checkpoints));
  }

  /** Both engines report the same volume, field by field, although they visit the rows in different orders. */
  lemma VolumeAgrees(puts: seq<Put>, builder: Bytes, window: TimeWindow)
    requires ZeroFreePuts(puts) && BuilderFillFixesTime(Builders(puts)) && B.ZeroFree(builder) && |puts| <= U64_MAX
    ensures M.BuilderVolume(M.Run(puts), builder, window) == R.BuilderVolume(R.Run(puts), builder, window)
  {
    SameCheckpoint(puts);
    BuilderRowsAgree(puts, builder);
    R.RunIsTables(puts);
    RowsFewerThanPuts(puts);
    UnlimitedScan(Builders(puts), R.BuilderKey, K.Prefix(builder));
    V.VolumeOrderFree(M.BuilderRows(M.Run(puts), builder), BuilderScan(R.Run(puts), builder),
                      V.LatestCheckpoint(Values(M.Run(puts).checkpoints)), builder, window);
  }

  lemma ScannedBuilders(puts: seq<Put>, builder: Bytes)
    requires ZeroFreePuts(puts) && B.ZeroFree(builder) && |puts| <= U64_MAX
    ensures R.Scanned(R.Run(puts).builders, K.Prefix(builder), U64_MAX) ==
            V.OfBuilder(Values(R.Run(puts).builders), builder)
  {
    PutTexts(puts);
    R.RunIsTables(puts);
    RowsFewerThanPuts(puts);
    UnlimitedScan(Builders(puts), R.BuilderKey, K.Prefix(builder));
    BuilderPrefix(Builders(puts), builder);
    PrefixRowsAreFiltered(Builders(puts), R.BuilderKey, (r: BuilderRow) => r.builderAddr == builder, K.Prefix(builder));
  }

  /** On either engine the volume reports the window, the counts and the sums of the builder's stored rows. */
  lemma VolumeIsReported(puts: seq<Put>, builder: Bytes, window: TimeWindow)
    requires ZeroFreePuts(puts) && B.ZeroFree(builder) && |puts| <= U64_MAX
    ensures V.Reports(M.BuilderVolume(M.Run(puts), builder, window),
                      V.OfBuilder(Values(M.Run(puts).builders), builder),
                      V.LatestCheckpoint(Values(M.Run(puts).checkpoints)), builder, window)
    ensures V.Reports(R.BuilderVolume(R.Run(puts), builder, window),
                      V.OfBuilder(Values(R.Run(puts).builders), builder),
                      V.LatestCheckpoint(Values(R.Run(puts).checkpoints)), builder, window)
  {
    var latest := V.LatestCheckpoint(Values(M.Run(puts).checkpoints));
    V.VolumeReports(M.BuilderRows(M.Run(puts), builder), latest, builder, window);
    ScannedBuilders(puts, builder);
    V.VolumeReports(R.Scanned(R.Run(puts).builders, K.Prefix(builder), U64_MAX),
                    V.LatestCheckpoint(Values(R.Run(puts).checkpoints)), builder, window);
  }

  // Market activity.

  function ActivityScan(db: R.Tables, marketId: Bytes): seq<ActivityRow> {
    R.PrefixRows(db.activities, K.Prefix(marketId))
  }

  ghost predicate ActivityTextsZeroFree(rows: seq<ActivityRow>) {
    forall r :: r in rows ==> R.KeyTextsZeroFree(PutActivity(r))
  }

  lemma ActivityPrefix(rows: seq<ActivityRow>, marketId: Bytes)
    requires ActivityTextsZeroFree(rows) && B.ZeroFree(marketId)
    ensures forall a :: a in rows ==> (B.StartsWith(R.ActivityKey(a), K.Prefix(marketId)) <==> a.marketId == marketId)
  {
    forall a | a in rows
      ensures B.StartsWith(R.ActivityKey(a), K.Prefix(marketId)) <==> a.marketId == marketId
    {
      K.PrefixExact(K.ActivitySegments(a), marketId);
    }
  }

  lemma ActivityValuesPermute(rows: seq<ActivityRow>)
    requires ActivityTextsZeroFree(rows) && ActivitiesPutOnce(rows)
    ensures multiset(rows) == multiset(Values(Table(rows, R.ActivityKey, B.Lt)))
  {
    ActivitiesAgree(rows);
    ListingValuesPermute(rows, R.ActivityKey);
  }

  lemma ActivityRowsPermute(rows: seq<ActivityRow>, marketId: Bytes)
    requires ActivityTextsZeroFree(rows) && ActivitiesPutOnce(rows) && B.ZeroFree(marketId)
    ensures multiset(Lists.Filter((a: ActivityRow) => a.marketId == marketId, rows)) ==
            multiset(R.PrefixRows(Table(rows, R.ActivityKey, B.Lt), K.Prefix(marketId)))
  {
    var keep := (a: ActivityRow) => a.marketId == marketId;
    ActivityPrefix(rows, marketId);
    PrefixRowsAreFiltered(rows, R.ActivityKey, keep, K.Prefix(marketId));
    ActivityValuesPermute(rows);
    Lists.FilterPermutes(keep, rows, Values(Table(rows, R.ActivityKey, B.Lt)));
  }

  lemma ActivityTimesSorted(rows: seq<ActivityRow>, marketId: Bytes)
    requires ActivityTextsZeroFree(rows) && B.ZeroFree(marketId)
    ensures
      var scan := R.PrefixRows(Table(rows, R.ActivityKey, B.Lt), K.Prefix(marketId));
      Lists.SortedBy(NewestFirst, Lists.Map(ActivityTime, scan))
  {
    var scan := R.PrefixRows(Table(rows, R.ActivityKey, B.Lt), K.Prefix(marketId));
    ActivityPrefix(rows, marketId);
    ScanOrder(rows, R.ActivityKey, K.Prefix(marketId));
    forall i, j | 0 <= i < j < |scan|
      ensures NewestFirst(ActivityTime(scan[i]), ActivityTime(scan[j]))
    {
      assert scan[i] in scan && scan[j] in scan;
      ActivityKeyIsTypeFirst(scan[i], scan[j]);
    }
  }

  lemma StoredActivities(puts: seq<Put>, marketId: Bytes)
    requires ZeroFreePuts(puts) && ActivitiesPutOnce(Activities(puts))
    ensures
      var mine := Lists.Filter((a: ActivityRow) => a.marketId == marketId, Activities(puts));
      && Lists.Distinct(mine) && ActivityTextsZeroFree(mine)
      && M.MarketActivity(M.Run(puts), marketId) == Lists.StableSort(M.ActivitiesRecentFirst, mine)
  {
    PutTexts(puts);
    M.RunIsTables(puts);
    assert Lists.Distinct(Activities(puts));
    Lists.FilterDistinct((a: ActivityRow) => a.marketId == marketId, Activities(puts));
  }

  lemma ActivityScanPermutes(puts: seq<Put>, marketId: Bytes)
    requires ZeroFreePuts(puts) && ActivitiesPutOnce(Activities(puts)) && B.ZeroFree(marketId)
    ensures
      var mine := Lists.Filter((a: ActivityRow) => a.marketId == marketId, Activities(puts));
      var scan := ActivityScan(R.Run(puts), marketId);
      && multiset(mine) == multiset(scan)
      && (forall i, j :: 0 <= i < j < |scan| ==> B.Lt(R.ActivityKey(scan[i]), R.ActivityKey(scan[j])))
      && Lists.SortedBy(NewestFirst, Lists.Map(ActivityTime, scan))
  {
    PutTexts(puts);
    R.RunIsTables(puts);
    ActivityRowsPermute(Activities(puts), marketId);
    ScanOrder(Activities(puts), R.ActivityKey, K.Prefix(marketId));
    ActivityTimesSorted(Activities(puts), marketId);
  }

  lemma ActivityTimesAgree(mine: seq<ActivityRow>, scan: seq<ActivityRow>)
    requires multiset(mine) == multiset(scan) && Lists.SortedBy(NewestFirst, Lists.Map(ActivityTime, scan))
    ensures Lists.Map(ActivityTime, Lists.StableSort(M.ActivitiesRecentFirst, mine)) == Lists.Map(ActivityTime, scan)
  {
    M.ActivityOrderIsTotal();
    Lists.StableSortPermutes(M.ActivitiesRecentFirst, mine);
    Lists.StableSortSorts(M.ActivitiesRecentFirst, mine);
    Lists.SortedPermutationsAgreeOn(ActivityTime, NewestFirst, Lists.StableSort(M.ActivitiesRecentFirst, mine), scan);
  }

  lemma ActivityScanAgrees(puts: seq<Put>, marketId: Bytes, limit: nat)
    requires ZeroFreePuts(puts) && ActivitiesPutOnce(Activities(puts)) && B.ZeroFree(marketId)
    ensures
      var memory := M.MarketActivity(M.Run(puts), marketId);
      Lists.Map(ActivityTime, Lists.Take(memory, limit)) ==
      Lists.Map(ActivityTime, R.Scanned(R.Run(puts).activities, K.Prefix(marketId), limit))
      <==> limit >= 1 || memory == []
  {
    var mine := Lists.Filter((a: ActivityRow) => a.marketId == marketId, Activities(puts));
    var memory, scan := M.MarketActivity(M.Run(puts), marketId), ActivityScan(R.Run(puts), marketId);
    StoredActivities(puts, marketId);
    ActivityScanPermutes(puts, marketId);
    ActivityTimesAgree(mine, scan);
    TruncatedAgreement(ActivityTime, memory, scan, limit);
  }

  // When the activity scans are identical.

  /** The tie-break of the keys: by type, then version, then index. */
  predicate TypeFirst(a: ActivityRow, b: ActivityRow) {
    B.Lt(a.activityType, b.activityType) || (a.activityType == b.activityType && VersionFirst(a, b))
  }

  /** The tie-break of the naive scan: by version, then index. */
  predicate VersionFirst(a: ActivityRow, b: ActivityRow) {
    a.version < b.version || (a.version == b.version && a.eventIdx < b.eventIdx)
  }

  /** Among activities of one time, type-first order never contradicts version-first order, nor, where that
      leaves a tie, the order in which the activities were put. */
  ghost predicate TypeFollowsVersion(mine: seq<ActivityRow>) {
    forall i, j ::
      && 0 <= i < |mine| && 0 <= j < |mine| && mine[i].timestampUs == mine[j].timestampUs && TypeFirst(mine[i], mine[j])
      ==> VersionFirst(mine[i], mine[j]) || (!VersionFirst(mine[j], mine[i]) && i < j)
  }

  lemma ActivityTupleOrder(a: ActivityRow, b: ActivityRow)
    requires a.marketId == b.marketId
    ensures K.TupleBefore(K.ActivitySegments(a), K.ActivitySegments(b)) <==>
            a.timestampUs > b.timestampUs || (a.timestampUs == b.timestampUs && TypeFirst(a, b))
  {
    var s, t := K.ActivitySegments(a), K.ActivitySegments(b);
    TupleTail(s, t);
    B.Irreflexive(a.marketId);
    TupleOfFour(s[1..], t[1..]);
  }

  lemma ActivityKeyIsTypeFirst(a: ActivityRow, b: ActivityRow)
    requires R.KeyTextsZeroFree(PutActivity(a)) && R.KeyTextsZeroFree(PutActivity(b)) && a.marketId == b.marketId
    ensures B.Lt(R.ActivityKey(a), R.ActivityKey(b)) <==>
            a.timestampUs > b.timestampUs || (a.timestampUs == b.timestampUs && TypeFirst(a, b))
  {
    K.KeyOrder(K.ActivitySegments(a), K.ActivitySegments(b));
    ActivityTupleOrder(a, b);
  }

  lemma TupleTail(s: seq<K.Segment>, t: seq<K.Segment>)
    requires |s| == |t| > 0
    ensures K.TupleBefore(s, t) <==> s[0].Before(t[0]) || (s[0] == t[0] && K.TupleBefore(s[1..], t[1..]))
  {
  }

  lemma TieBreaksAgree(mine: seq<ActivityRow>, i: nat, j: nat)
    requires Lists.Distinct(mine) && i < |mine| && j < |mine|
    requires R.KeyTextsZeroFree(PutActivity(mine[i])) && R.KeyTextsZeroFree(PutActivity(mine[j]))
    requires mine[i].marketId == mine[j].marketId
    ensures
      (B.Lt(R.ActivityKey(mine[i]), R.ActivityKey(mine[j])) ==>
        Lists.Stably(M.ActivitiesRecentFirst, mine)(mine[i], mine[j])) <==>
      (mine[i].timestampUs == mine[j].timestampUs && TypeFirst(mine[i], mine[j]) ==>
         VersionFirst(mine[i], mine[j]) || (!VersionFirst(mine[j], mine[i]) && i <= j))
  {
    var a, b := mine[i], mine[j];
    ActivityKeyIsTypeFirst(a, b);
    Lists.PositionOf(mine, i);
    Lists.PositionOf(mine, j);
    assert Lists.Stably(M.ActivitiesRecentFirst, mine)(a, b) <==>
           M.ActivitiesRecentFirst(a, b) && (!M.ActivitiesRecentFirst(b, a) || i <= j);
  }

  lemma ActivityTies(mine: seq<ActivityRow>, marketId: Bytes)
    requires Lists.Distinct(mine) && ActivityTextsZeroFree(mine) && forall a :: a in mine ==> a.marketId == marketId
    ensures KeyOrderRespects(Lists.Stably(M.ActivitiesRecentFirst, mine), R.ActivityKey, mine) <==>
              TypeFollowsVersion(mine)
  {
    var finer := Lists.Stably(M.ActivitiesRecentFirst, mine);
    if KeyOrderRespects(finer, R.ActivityKey, mine) {
      forall i, j |
        && 0 <= i < |mine| && 0 <= j < |mine| && mine[i].timestampUs == mine[j].timestampUs
          && TypeFirst(mine[i], mine[j])
        ensures VersionFirst(mine[i], mine[j]) || (!VersionFirst(mine[j], mine[i]) && i < j)
      {
        assert mine[i] in mine && mine[j] in mine;
        TieBreaksAgree(mine, i, j);
        B.Irreflexive(mine[i].activityType);
      }
    }
    if TypeFollowsVersion(mine) {
      forall x, y | x in mine && y in mine && B.Lt(R.ActivityKey(x), R.ActivityKey(y))
        ensures finer(x, y)
      {
        var i :| 0 <= i < |mine| && mine[i] == x;
        var j :| 0 <= j < |mine| && mine[j] == y;
        TieBreaksAgree(mine, i, j);
      }
    }
  }

  lemma ActivitiesIdentical(mine: seq<ActivityRow>, scan: seq<ActivityRow>, marketId: Bytes)
    requires Lists.Distinct(mine) && ActivityTextsZeroFree(mine) && forall a :: a in mine ==> a.marketId == marketId
    requires multiset(mine) == multiset(scan)
    requires forall i, j :: 0 <= i < j < |scan| ==> B.Lt(R.ActivityKey(scan[i]), R.ActivityKey(scan[j]))
    ensures Lists.StableSort(M.ActivitiesRecentFirst, mine) == scan <==> TypeFollowsVersion(mine)
  {
    var finer, memory := Lists.Stably(M.ActivitiesRecentFirst, mine), Lists.StableSort(M.ActivitiesRecentFirst, mine);
    M.ActivityOrderIsTotal();
    Lists.StableSortPermutes(M.ActivitiesRecentFirst, mine);
    Lists.StableSortIsStable(M.ActivitiesRecentFirst, mine);
    Lists.PermutationMembers(memory, mine);
    ActivityTies(mine, marketId);
    SameListIff(finer, R.ActivityKey, memory, scan);
  }

  /** The activity scans return identical rows for every limit exactly when ties break alike among the rows put. */
  lemma ActivityScanIdenticalIff(puts: seq<Put>, marketId: Bytes)
    requires ZeroFreePuts(puts) && ActivitiesPutOnce(Activities(puts)) && B.ZeroFree(marketId)
    ensures
      var memory, scan := M.MarketActivity(M.Run(puts), marketId), ActivityScan(R.Run(puts), marketId);
      (forall limit: nat :: limit >= 1 ==> Lists.Take(memory, limit) == Lists.Take(scan, limit)) <==>
      TypeFollowsVersion(Lists.Filter((a: ActivityRow) => a.marketId == marketId, Activities(puts)))
  {
    var mine := Lists.Filter((a: ActivityRow) => a.marketId == marketId, Activities(puts));
    var memory, scan := M.MarketActivity(M.Run(puts), marketId), ActivityScan(R.Run(puts), marketId);
    StoredActivities(puts, marketId);
    ActivityScanPermutes(puts, marketId);
    ActivitiesIdentical(mine, scan, marketId);
    SameForEveryLimit(memory, scan);
  }
}
