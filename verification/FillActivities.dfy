/** The activity that storing a fill leaves behind, as the activity scans of both engines return it. */
module FillActivities {
  import opened Prelude
  import opened Rows
  import opened LastWins
  import opened Agreement
  import opened Scans
  import opened DerivedReads
  import B = ByteOrder
  import K = Keys
  import Lists
  import M = Memory
  import R = Rocks

  /** The activity says when and where the fill happened. */
  ghost predicate PlacesFill(a: ActivityRow, f: FillRow) {
    && a.marketId == f.marketId && a.activityType == Ascii("fill")
    && a.version == f.version && a.eventIdx == f.eventIdx && a.timestampUs == f.timestampUs
  }

  /** And which fill it was. */
  ghost predicate RecordsFill(a: ActivityRow, f: FillRow) {
    PlacesFill(a, f) && a.summary == f.fillId
  }

  /** Put as such, or with a fill. */
  ghost predicate IsPut(puts: seq<Put>, a: ActivityRow) {
    PutActivity(a) in puts || exists f :: PutFill(f) in puts && RecordsFill(a, f)
  }

  lemma RecordIsUnique(a: ActivityRow, f: FillRow)
    ensures RecordsFill(a, f) <==> a == FillActivity(f)
  {
  }

  lemma IsPutStep(puts: seq<Put>, last: Put, a: ActivityRow)
    ensures IsPut(puts + [last], a) <==>
            IsPut(puts, a) || last == PutActivity(a) || (last.PutFill? && RecordsFill(a, last.fill))
  {
    var more := puts + [last];
    assert forall p :: p in more <==> p in puts || p == last;
    if last.PutFill? && RecordsFill(a, last.fill) {
      assert PutFill(last.fill) in more;
    }
    forall f | PutFill(f) in puts && RecordsFill(a, f)
      ensures IsPut(more, a)
    {
      assert PutFill(f) in more;
    }
  }

  lemma {:induction false} ActivitiesOfPuts(puts: seq<Put>, a: ActivityRow)
    ensures a in Activities(puts) <==> IsPut(puts, a)
  {
    if puts != [] {
      var init, last := puts[..|puts| - 1], puts[|puts| - 1];
      assert puts == init + [last];
      ActivitiesOfPuts(init, a);
      IsPutStep(init, last, a);
      if last.PutFill? {
        RecordIsUnique(a, last.fill);
      }
    }
  }

  /** The full scan of a market's activity in memory returns exactly what was put there, activities and fills. */
  lemma MemoryScanIsPut(puts: seq<Put>, marketId: Bytes, a: ActivityRow)
    ensures a in M.MarketActivity(M.Run(puts), marketId) <==> a.marketId == marketId && IsPut(puts, a)
  {
    var mine := Lists.Filter((row: ActivityRow) => row.marketId == marketId, Activities(puts));
    M.RunIsTables(puts);
    Lists.StableSortPermutes(M.ActivitiesRecentFirst, mine);
    Lists.PermutationMembers(M.MarketActivity(M.Run(puts), marketId), mine);
    ActivitiesOfPuts(puts, a);
  }

  /** So does the RocksDB scan, when no activity key is put twice. */
  lemma RocksDbScanIsPut(puts: seq<Put>, marketId: Bytes, a: ActivityRow)
    requires ZeroFreePuts(puts) && ActivitiesPutOnce(Activities(puts)) && B.ZeroFree(marketId)
    ensures a in ActivityScan(R.Run(puts), marketId) <==> a.marketId == marketId && IsPut(puts, a)
  {
    ActivityScanPermutes(puts, marketId);
    Lists.PermutationMembers(Lists.Filter((row: ActivityRow) => row.marketId == marketId, Activities(puts)),
                             ActivityScan(R.Run(puts), marketId));
    ActivitiesOfPuts(puts, a);
  }

  /** A fill's record is found in memory whatever else is put, and on RocksDB when no activity key is put twice. */
  lemma FillIsScanned(puts: seq<Put>, f: FillRow)
    requires PutFill(f) in puts
    ensures exists a :: a in M.MarketActivity(M.Run(puts), f.marketId) && RecordsFill(a, f)
    ensures ZeroFreePuts(puts) && ActivitiesPutOnce(Activities(puts)) ==>
              exists a :: a in ActivityScan(R.Run(puts), f.marketId) && RecordsFill(a, f)
  {
    var a := FillActivity(f);
    RecordIsUnique(a, f);
    MemoryScanIsPut(puts, f.marketId, a);
    if ZeroFreePuts(puts) && ActivitiesPutOnce(Activities(puts)) {
      assert R.KeyTextsZeroFree(PutFill(f));
      RocksDbScanIsPut(puts, f.marketId, a);
    }
  }

  lemma SameActivityKey(a: ActivityRow, f: FillRow)
    requires R.KeyTextsZeroFree(PutActivity(a)) && R.KeyTextsZeroFree(PutActivity(FillActivity(f)))
    requires R.ActivityKey(a) == R.ActivityKey(FillActivity(f))
    ensures PlacesFill(a, f)
  {
    var s, t := K.ActivitySegments(a), K.ActivitySegments(FillActivity(f));
    ActivityKeyInjective(a, FillActivity(f));
    assert s[0] == t[0] && s[1] == t[1] && s[2] == t[2] && s[3] == t[3] && s[4] == t[4];
  }

  lemma StoredIsScanned(rows: seq<ActivityRow>, a: ActivityRow)
    requires ActivityTextsZeroFree(rows) && a in rows && B.ZeroFree(a.marketId)
    requires Holds(rows, R.ActivityKey, (R.ActivityKey(a), a))
    ensures a in R.PrefixRows(Table(rows, R.ActivityKey, B.Lt), K.Prefix(a.marketId))
  {
    var keep := (row: ActivityRow) => row.marketId == a.marketId;
    ByteOrderIsStrict();
    TableHolds(rows, R.ActivityKey, B.Lt);
    TableKeys(rows, R.ActivityKey, B.Lt);
    ActivityPrefix(rows, a.marketId);
    PrefixRowsAreFiltered(rows, R.ActivityKey, keep, K.Prefix(a.marketId));
  }

  /** Even when activity keys repeat, the RocksDB scan returns an activity at the place of every fill. */
  lemma FillIsPlaced(puts: seq<Put>, f: FillRow) returns (a: ActivityRow)
    requires ZeroFreePuts(puts) && PutFill(f) in puts
    ensures a in ActivityScan(R.Run(puts), f.marketId) && PlacesFill(a, f)
  {
    var rows, mine := Activities(puts), FillActivity(f);
    PutTexts(puts);
    RecordIsUnique(mine, f);
    ActivitiesOfPuts(puts, mine);
    a := KeyIsHeld(rows, R.ActivityKey, mine);
    SameActivityKey(a, f);
    R.RunIsTables(puts);
    assert R.KeyTextsZeroFree(PutFill(f));
    StoredIsScanned(rows, a);
  }
}
