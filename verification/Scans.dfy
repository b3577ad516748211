/** The indexed scans refine the filter-sort-truncate scans: which rows, in which order, and what is
    left of the order where the two engines break ties differently. */
module Scans {
  import opened Prelude
  import opened Rows
  import opened OrderedMaps
  import opened LastWins
  import opened Agreement
  import B = ByteOrder
  import K = Keys
  import Lists
  import M = Memory
  import R = Rocks

  // Both engines visit the same rows.

  lemma {:induction false} FilterOfMap<T(!new), U(!new)>(f: T -> U, keepT: T -> bool, keepU: U -> bool, s: seq<T>)
    requires forall x :: x in s ==> (keepT(x) <==> keepU(f(x)))
    ensures Lists.Map(f, Lists.Filter(keepT, s)) == Lists.Filter(keepU, Lists.Map(f, s))
  {
    if s != [] {
      FilterOfMap(f, keepT, keepU, s[1..]);
      var head := if keepT(s[0]) then [s[0]] else [];
      Lists.MapAppend(f, head, Lists.Filter(keepT, s[1..]));
      assert Lists.Map(f, s)[1..] == Lists.Map(f, s[1..]);
      assert Lists.Map(f, head) == if keepT(s[0]) then [f(s[0])] else [];
    }
  }

  /** A prefix that selects exactly the rows a filter keeps yields those rows. */
  lemma PrefixRowsAreFiltered<W(!new)>(rows: seq<W>, fine: W -> Bytes, keep: W -> bool, prefix: Bytes)
    requires forall r :: r in rows ==> (B.StartsWith(fine(r), prefix) <==> keep(r))
    ensures R.PrefixRows(Table(rows, fine, B.Lt), prefix) == Lists.Filter(keep, Values(Table(rows, fine, B.Lt)))
  {
    ByteOrderIsStrict();
    TableKeys(rows, fine, B.Lt);
    FilterOfMap((pair: (Bytes, W)) => pair.1, (pair: (Bytes, W)) => B.StartsWith(pair.0, prefix), keep,
      Table(rows, fine, B.Lt));
  }

  lemma ProjectPairs<W>(encode: W -> Bytes, rows: seq<W>)
    ensures Lists.Map((pair: (Bytes, W)) => pair.1, Lists.Map((r: W) => (encode(r), r), rows)) == rows
  {
  }

  lemma ListingValuesPermute<W(!new)>(rows: seq<W>, fine: W -> Bytes)
    ensures multiset(Values(Listing(rows, fine))) == multiset(rows)
  {
    ListingPermutes(rows, fine);
    Lists.MapPermutes((pair: (Bytes, W)) => pair.1, Listing(rows, fine), Lists.Map((r: W) => (fine(r), r), rows));
    ProjectPairs(fine, rows);
  }

  lemma SameValues<C(!new), W(!new)>(rows: seq<W>, coarse: W -> C, lt: (C, C) -> bool, fine: W -> Bytes)
    requires Listing(Values(Table(rows, coarse, lt)), fine) == Table(rows, fine, B.Lt)
    ensures multiset(Values(Table(rows, coarse, lt))) == multiset(Values(Table(rows, fine, B.Lt)))
  {
    ListingValuesPermute(Values(Table(rows, coarse, lt)), fine);
  }

  lemma SameScanRows<C(!new), W(!new)>(rows: seq<W>, coarse: W -> C, lt: (C, C) -> bool, fine: W -> Bytes,
                                       keep: W -> bool, prefix: Bytes)
    requires Listing(Values(Table(rows, coarse, lt)), fine) == Table(rows, fine, B.Lt)
    requires forall r :: r in rows ==> (B.StartsWith(fine(r), prefix) <==> keep(r))
    ensures multiset(Lists.Filter(keep, Values(Table(rows, coarse, lt)))) ==
            multiset(R.PrefixRows(Table(rows, fine, B.Lt), prefix))
  {
    PrefixRowsAreFiltered(rows, fine, keep, prefix);
    SameValues(rows, coarse, lt, fine);
    Lists.FilterPermutes(keep, Values(Table(rows, coarse, lt)), Values(Table(rows, fine, B.Lt)));
  }

  /** A scan returns rows put under the scanned prefix, in increasing key order. */
  lemma ScanOrder<W(!new)>(rows: seq<W>, fine: W -> Bytes, prefix: Bytes)
    ensures
      var scan := R.PrefixRows(Table(rows, fine, B.Lt), prefix);
      && (forall r :: r in scan ==> r in rows && B.StartsWith(fine(r), prefix))
      && (forall i, j :: 0 <= i < j < |scan| ==> B.Lt(fine(scan[i]), fine(scan[j])))
  {
    ByteOrderIsStrict();
    TableHolds(rows, fine, B.Lt);
    TableKeys(rows, fine, B.Lt);
    var table := Table(rows, fine, B.Lt);
    var block := Lists.Filter((pair: (Bytes, W)) => B.StartsWith(pair.0, prefix), table);
    Lists.FilterSorted((p: (Bytes, W), q: (Bytes, W)) => B.Lt(p.0, q.0),
      (pair: (Bytes, W)) => B.StartsWith(pair.0, prefix), table);
    var scan := R.PrefixRows(table, prefix);
    forall i | 0 <= i < |scan|
      ensures scan[i] == block[i].1 && fine(scan[i]) == block[i].0 && scan[i] in rows
              && B.StartsWith(fine(scan[i]), prefix)
    {
      assert block[i] in block;
    }
  }

  // Truncated agreement on a projection, and full agreement when ties are broken alike.

  /** Equal projections before truncation are equal projections after it, and the one limit the
      engines treat differently is zero. */
  lemma TruncatedAgreement<W(!new), P>(project: W -> P, memory: seq<W>, scan: seq<W>, limit: nat)
    requires Lists.Map(project, memory) == Lists.Map(project, scan)
    ensures Lists.Map(project, Lists.Take(memory, limit)) ==
            Lists.Map(project, Lists.Take(scan, if limit == 0 then 1 else limit))
            <==> limit >= 1 || memory == []
  {
    Lists.TakeMap(project, memory, limit);
    Lists.TakeMap(project, scan, if limit == 0 then 1 else limit);
    assert |memory| == |Lists.Map(project, memory)| == |scan|;
    if limit == 0 && memory != [] {
      assert |Lists.Map(project, Lists.Take(memory, limit))| == 0;
      assert |Lists.Map(project, Lists.Take(scan, 1))| == 1;
    }
  }

  /** Permutations of each other that are sorted on a projection agree on it, truncated. */
  lemma SortedScansAgree<W(!new), P(!new)>(project: W -> P, leq: (P, P) -> bool, memory: seq<W>, scan: seq<W>,
                                           limit: nat)
    requires multiset(memory) == multiset(scan)
    requires Lists.SortedBy(leq, Lists.Map(project, memory)) && Lists.SortedBy(leq, Lists.Map(project, scan))
    requires Lists.Antisymmetric(leq, Lists.Map(project, memory))
    ensures Lists.Map(project, Lists.Take(memory, limit)) ==
            Lists.Map(project, Lists.Take(scan, if limit == 0 then 1 else limit))
            <==> limit >= 1 || memory == []
  {
    Lists.SortedPermutationsAgreeOn(project, leq, memory, scan);
    TruncatedAgreement(project, memory, scan, limit);
  }

  /** Key order never contradicts the naive scan's order on these rows. */
  ghost predicate KeyOrderRespects<W(!new)>(leq: (W, W) -> bool, fine: W -> Bytes, rows: seq<W>) {
    forall x, y :: x in rows && y in rows && B.Lt(fine(x), fine(y)) ==> leq(x, y)
  }

  /** One sorted list is the other exactly when the two orders never disagree on its elements. */
  lemma SameListIff<W(!new)>(leq: (W, W) -> bool, fine: W -> Bytes, memory: seq<W>, scan: seq<W>)
    requires multiset(memory) == multiset(scan)
    requires Lists.SortedBy(leq, memory) && Lists.Antisymmetric(leq, memory)
    requires forall i, j :: 0 <= i < j < |scan| ==> B.Lt(fine(scan[i]), fine(scan[j]))
    ensures memory == scan <==> KeyOrderRespects(leq, fine, memory)
  {
    Lists.PermutationMembers(memory, scan);
    if memory == scan {
      forall x, y | x in memory && y in memory && B.Lt(fine(x), fine(y))
        ensures leq(x, y)
      {
        var i :| 0 <= i < |scan| && scan[i] == x;
        var j :| 0 <= j < |scan| && scan[j] == y;
        B.Asymmetric(fine(x), fine(y));
        assert i < j;
      }
    }
    if KeyOrderRespects(leq, fine, memory) {
      assert Lists.SortedBy(leq, scan);
      Lists.SortedPermutationsEqual(leq, memory, scan);
    }
  }

  lemma SameForEveryLimit<W>(memory: seq<W>, scan: seq<W>)
    ensures (forall limit: nat :: limit >= 1 ==> Lists.Take(memory, limit) == Lists.Take(scan, limit)) <==>
              memory == scan
  {
    var n := |memory| + |scan| + 1;
    assert Lists.Take(memory, n) == memory && Lists.Take(scan, n) == scan;
  }

  /** Newer timestamps first. */
  predicate NewestFirst(a: u64, b: u64) {
    a >= b
  }

  predicate NewestThenVersion(a: (u64, u64), b: (u64, u64)) {
    a.0 > b.0 || (a.0 == b.0 && a.1 <= b.1)
  }

  function TimeAndVersion(f: FillRow): (u64, u64) {
    (f.timestampUs, f.version)
  }

  function FillTime(f: FillRow): u64 {
    f.timestampUs
  }

  function BuilderTime(r: BuilderRow): u64 {
    r.timestampUs
  }

  function ActivityTime(a: ActivityRow): u64 {
    a.timestampUs
  }

  lemma MarketKeyOrder(a: FillRow, b: FillRow)
    requires R.KeyTextsZeroFree(PutFill(a)) && R.KeyTextsZeroFree(PutFill(b)) && a.marketId == b.marketId
    ensures B.Lt(R.FillMarketKey(a), R.FillMarketKey(b)) <==>
            a.timestampUs > b.timestampUs || (a.timestampUs == b.timestampUs &&
            (a.version < b.version || (a.version == b.version && B.Lt(a.fillId, b.fillId))))
  {
    var s, t := K.FillMarketSegments(a), K.FillMarketSegments(b);
    K.KeyOrder(s, t);
    TupleOfFour(s, t);
    B.Irreflexive(a.marketId);
  }

  lemma AccountKeyOrder(a: FillRow, b: FillRow)
    requires R.KeyTextsZeroFree(PutFill(a)) && R.KeyTextsZeroFree(PutFill(b)) && a.account == b.account
    ensures B.Lt(R.FillAccountKey(a), R.FillAccountKey(b)) <==>
            a.timestampUs > b.timestampUs || (a.timestampUs == b.timestampUs &&
            (B.Lt(a.marketId, b.marketId) || (a.marketId == b.marketId && B.Lt(a.fillId, b.fillId))))
  {
    var s, t := K.FillAccountSegments(a), K.FillAccountSegments(b);
    K.KeyOrder(s, t);
    TupleOfFour(s, t);
    B.Irreflexive(a.account);
  }

  lemma BuilderKeyOrder(a: BuilderRow, b: BuilderRow)
    requires R.KeyTextsZeroFree(PutBuilder(a)) && R.KeyTextsZeroFree(PutBuilder(b)) && a.builderAddr == b.builderAddr
    ensures B.Lt(R.BuilderKey(a), R.BuilderKey(b)) <==>
            a.timestampUs > b.timestampUs || (a.timestampUs == b.timestampUs &&
            (B.Lt(a.marketId, b.marketId) || (a.marketId == b.marketId && B.Lt(a.fillId, b.fillId))))
  {
    var s, t := K.BuilderSegments(a), K.BuilderSegments(b);
    K.KeyOrder(s, t);
    TupleOfFour(s, t);
    B.Irreflexive(a.builderAddr);
  }

  lemma TupleOfFour(s: seq<K.Segment>, t: seq<K.Segment>)
    requires |s| == |t| == 4
    ensures K.TupleBefore(s, t) <==>
            s[0].Before(t[0]) || (s[0] == t[0] &&
            (s[1].Before(t[1]) || (s[1] == t[1] &&
            (s[2].Before(t[2]) || (s[2] == t[2] && s[3].Before(t[3]))))))
  {
    assert K.TupleBefore(s[3..], t[3..]) <==> s[3].Before(t[3]) by {
      assert s[3..] == [s[3]] && t[3..] == [t[3]];
    }
    assert K.TupleBefore(s[2..], t[2..]) <==> s[2].Before(t[2]) || (s[2] == t[2] && s[3].Before(t[3])) by {
      assert s[2..][1..] == s[3..] && t[2..][1..] == t[3..];
    }
    assert K.TupleBefore(s[1..], t[1..]) <==> s[1].Before(t[1]) || (s[1] == t[1] && K.TupleBefore(s[2..], t[2..])) by {
      assert s[1..][1..] == s[2..] && t[1..][1..] == t[2..];
    }
  }

  // Market fills.

  function MarketScan(db: R.Tables, marketId: Bytes): seq<FillRow> {
    R.PrefixRows(db.fillsByMarket, K.Prefix(marketId))
  }

  ghost predicate FillTextsZeroFree(fills: seq<FillRow>) {
    forall f :: f in fills ==> R.KeyTextsZeroFree(PutFill(f))
  }

  lemma MarketPrefix(fills: seq<FillRow>, marketId: Bytes)
    requires FillTextsZeroFree(fills) && B.ZeroFree(marketId)
    ensures forall f :: f in fills ==>
              (B.StartsWith(R.FillMarketKey(f), K.Prefix(marketId)) <==> f.marketId == marketId)
  {
    forall f | f in fills
      ensures B.StartsWith(R.FillMarketKey(f), K.Prefix(marketId)) <==> f.marketId == marketId
    {
      K.PrefixExact(K.FillMarketSegments(f), marketId);
    }
  }

  lemma MarketRowsPermute(fills: seq<FillRow>, marketId: Bytes)
    requires FillTextsZeroFree(fills) && FillIdFixesMarket(fills) && B.ZeroFree(marketId)
    ensures multiset(Lists.Filter((f: FillRow) => f.marketId == marketId, Values(Table(fills, M.FillId, B.Lt)))) ==
            multiset(R.PrefixRows(Table(fills, R.FillMarketKey, B.Lt), K.Prefix(marketId)))
  {
    MarketFillsAgree(fills);
    MarketPrefix(fills, marketId);
    SameScanRows(fills, M.FillId, B.Lt, R.FillMarketKey, (f: FillRow) => f.marketId == marketId, K.Prefix(marketId));
  }

  /** The memory engine's fills are sorted, and no two share a fill id. */
  lemma MemoryFillsSorted(fills: seq<FillRow>, keep: FillRow -> bool)
    ensures
      var rows := Lists.Filter(keep, Values(Table(fills, M.FillId, B.Lt)));
      var memory := Lists.StableSort(M.FillsRecentFirst, rows);
      && multiset(memory) == multiset(rows)
      && Lists.SortedBy(M.FillsRecentFirst, memory) && Lists.Antisymmetric(M.FillsRecentFirst, memory)
      && (forall f :: f in memory ==> f in fills && keep(f))
  {
    var rows := Lists.Filter(keep, Values(Table(fills, M.FillId, B.Lt)));
    var memory := Lists.StableSort(M.FillsRecentFirst, rows);
    ByteOrderIsStrict();
    M.FillOrderIsTotal();
    Lists.StableSortPermutes(M.FillsRecentFirst, rows);
    Lists.StableSortSorts(M.FillsRecentFirst, rows);
    Lists.PermutationMembers(memory, rows);
    TableHolds(fills, M.FillId, B.Lt);
    TableKeys(fills, M.FillId, B.Lt);
    forall a, b | a in memory && b in memory && a.fillId == b.fillId
      ensures a == b
    {
      GetIsMembership(Table(fills, M.FillId, B.Lt), a.fillId, B.Lt);
    }
  }

  lemma MarketRowsAgree(puts: seq<Put>, marketId: Bytes)
    requires ZeroFreePuts(puts) && FillIdFixesMarket(Fills(puts)) && B.ZeroFree(marketId)
    ensures
      var memory, scan := M.MarketFills(M.Run(puts), marketId), MarketScan(R.Run(puts), marketId);
      && multiset(memory) == multiset(scan)
      && Lists.SortedBy(M.FillsRecentFirst, memory) && Lists.Antisymmetric(M.FillsRecentFirst, memory)
      && FillTextsZeroFree(memory) && (forall f :: f in memory ==> f.marketId == marketId)
      && (forall i, j :: 0 <= i < j < |scan| ==> B.Lt(R.FillMarketKey(scan[i]), R.FillMarketKey(scan[j])))
  {
    PutTexts(puts);
    M.RunIsTables(puts);
    R.RunIsTables(puts);
    MarketRowsPermute(Fills(puts), marketId);
    MemoryFillsSorted(Fills(puts), (f: FillRow) => f.marketId == marketId);
    ScanOrder(Fills(puts), R.FillMarketKey, K.Prefix(marketId));
  }

  lemma MarketMemorySorted(memory: seq<FillRow>)
    requires Lists.SortedBy(M.FillsRecentFirst, memory)
    ensures Lists.SortedBy(NewestThenVersion, Lists.Map(TimeAndVersion, memory))
    ensures Lists.Antisymmetric(NewestThenVersion, Lists.Map(TimeAndVersion, memory))
  {
  }

  lemma MarketProjectionSorted(scan: seq<FillRow>, marketId: Bytes)
    requires FillTextsZeroFree(scan) && forall f :: f in scan ==> f.marketId == marketId
    requires forall i, j :: 0 <= i < j < |scan| ==> B.Lt(R.FillMarketKey(scan[i]), R.FillMarketKey(scan[j]))
    ensures Lists.SortedBy(NewestThenVersion, Lists.Map(TimeAndVersion, scan))
  {
    forall i, j | 0 <= i < j < |scan|
      ensures NewestThenVersion(TimeAndVersion(scan[i]), TimeAndVersion(scan[j]))
    {
      assert scan[i] in scan && scan[j] in scan;
      MarketKeyOrder(scan[i], scan[j]);
    }
  }

  /** The market scan returns the same times and versions as the naive scan, row by row, for every
      limit the benchmark allows; a limit of zero differs as soon as there is a row to return. */
  lemma MarketScanAgrees(puts: seq<Put>, marketId: Bytes, limit: nat)
    requires ZeroFreePuts(puts) && FillIdFixesMarket(Fills(puts)) && B.ZeroFree(marketId)
    ensures
      var memory := M.MarketFills(M.Run(puts), marketId);
      Lists.Map(TimeAndVersion, Lists.Take(memory, limit)) ==
      Lists.Map(TimeAndVersion, R.Scanned(R.Run(puts).fillsByMarket, K.Prefix(marketId), limit))
      <==> limit >= 1 || memory == []
  {
    var memory, scan := M.MarketFills(M.Run(puts), marketId), MarketScan(R.Run(puts), marketId);
    MarketRowsAgree(puts, marketId);
    Lists.PermutationMembers(memory, scan);
    MarketProjectionSorted(scan, marketId);
    MarketMemorySorted(memory);
    SortedScansAgree(TimeAndVersion, NewestThenVersion, memory, scan, limit);
  }

  /** Among fills of one time and version the event index never falls as the fill id rises. */
  ghost predicate IndexFollowsId(fills: seq<FillRow>) {
    forall a, b :: a in fills && b in fills && TimeAndVersion(a) == TimeAndVersion(b) && B.Lt(a.fillId, b.fillId) ==>
      a.eventIdx <= b.eventIdx
  }

  lemma MarketTies(fills: seq<FillRow>, marketId: Bytes)
    requires FillTextsZeroFree(fills) && forall f :: f in fills ==> f.marketId == marketId
    ensures KeyOrderRespects(M.FillsRecentFirst, R.FillMarketKey, fills) <==> IndexFollowsId(fills)
  {
    forall a, b | a in fills && b in fills
      ensures (B.Lt(R.FillMarketKey(a), R.FillMarketKey(b)) ==> M.FillsRecentFirst(a, b)) <==>
              (TimeAndVersion(a) == TimeAndVersion(b) && B.Lt(a.fillId, b.fillId) ==> a.eventIdx <= b.eventIdx)
    {
      MarketKeyOrder(a, b);
    }
  }

  /** The rows the engines hold of a market, as the memory engine's map lists them. */
  function StoredInMarket(puts: seq<Put>, marketId: Bytes): seq<FillRow> {
    Lists.Filter((r: FillRow) => r.marketId == marketId, Values(M.Run(puts).fills))
  }

  lemma IndexFollowsIdPermutes(a: seq<FillRow>, b: seq<FillRow>)
    requires multiset(a) == multiset(b)
    ensures IndexFollowsId(a) <==> IndexFollowsId(b)
  {
    Lists.PermutationMembers(a, b);
  }

  /** The market scans return identical rows for every limit exactly when ties break alike among
      the rows the engines hold. */
  lemma MarketScanIdenticalIff(puts: seq<Put>, marketId: Bytes)
    requires ZeroFreePuts(puts) && FillIdFixesMarket(Fills(puts)) && B.ZeroFree(marketId)
    ensures
      var memory, scan := M.MarketFills(M.Run(puts), marketId), MarketScan(R.Run(puts), marketId);
      (forall limit: nat :: limit >= 1 ==> Lists.Take(memory, limit) == Lists.Take(scan, limit)) <==>
      IndexFollowsId(StoredInMarket(puts, marketId))
  {
    var memory, scan := M.MarketFills(M.Run(puts), marketId), MarketScan(R.Run(puts), marketId);
    MarketRowsAgree(puts, marketId);
    SameListIff(M.FillsRecentFirst, R.FillMarketKey, memory, scan);
    SameForEveryLimit(memory, scan);
    Lists.StableSortPermutes(M.FillsRecentFirst, StoredInMarket(puts, marketId));
    IndexFollowsIdPermutes(memory, StoredInMarket(puts, marketId));
    MarketTies(memory, marketId);
  }

  // Account fills.

  function AccountScan(db: R.Tables, account: Bytes): seq<FillRow> {
    R.PrefixRows(db.fillsByAccount, K.Prefix(account))
  }

  lemma AccountPrefix(fills: seq<FillRow>, account: Bytes)
    requires FillTextsZeroFree(fills) && B.ZeroFree(account)
    ensures forall f :: f in fills ==> (B.StartsWith(R.FillAccountKey(f), K.Prefix(account)) <==> f.account == account)
  {
    forall f | f in fills
      ensures B.StartsWith(R.FillAccountKey(f), K.Prefix(account)) <==> f.account == account
    {
      K.PrefixExact(K.FillAccountSegments(f), account);
    }
  }

  lemma AccountRowsPermute(fills: seq<FillRow>, account: Bytes)
    requires FillTextsZeroFree(fills) && FillIdFixesAccount(fills) && B.ZeroFree(account)
    ensures multiset(Lists.Filter((f: FillRow) => f.account == account, Values(Table(fills, M.FillId, B.Lt)))) ==
            multiset(R.PrefixRows(Table(fills, R.FillAccountKey, B.Lt), K.Prefix(account)))
  {
    AccountFillsAgree(fills);
    AccountPrefix(fills, account);
    SameScanRows(fills, M.FillId, B.Lt, R.FillAccountKey, (f: FillRow) => f.account == account, K.Prefix(account));
  }

  lemma AccountRowsAgree(puts: seq<Put>, account: Bytes)
    requires ZeroFreePuts(puts) && FillIdFixesAccount(Fills(puts)) && B.ZeroFree(account)
    ensures
      var memory, scan := M.AccountFills(M.Run(puts), account), AccountScan(R.Run(puts), account);
      && multiset(memory) == multiset(scan)
      && Lists.SortedBy(M.FillsRecentFirst, memory) && Lists.Antisymmetric(M.FillsRecentFirst, memory)
      && FillTextsZeroFree(memory) && (forall f :: f in memory ==> f.account == account)
      && (forall i, j :: 0 <= i < j < |scan| ==> B.Lt(R.FillAccountKey(scan[i]), R.FillAccountKey(scan[j])))
  {
    PutTexts(puts);
    M.RunIsTables(puts);
    R.RunIsTables(puts);
    AccountRowsPermute(Fills(puts), account);
    MemoryFillsSorted(Fills(puts), (f: FillRow) => f.account == account);
    ScanOrder(Fills(puts), R.FillAccountKey, K.Prefix(account));
  }

  lemma AccountMemorySorted(memory: seq<FillRow>)
    requires Lists.SortedBy(M.FillsRecentFirst, memory)
    ensures Lists.SortedBy(NewestFirst, Lists.Map(FillTime, memory))
    ensures Lists.Antisymmetric(NewestFirst, Lists.Map(FillTime, memory))
  {
  }

  lemma AccountProjectionSorted(scan: seq<FillRow>, account: Bytes)
    requires FillTextsZeroFree(scan) && forall f :: f in scan ==> f.account == account
    requires forall i, j :: 0 <= i < j < |scan| ==> B.Lt(R.FillAccountKey(scan[i]), R.FillAccountKey(scan[j]))
    ensures Lists.SortedBy(NewestFirst, Lists.Map(FillTime, scan))
  {
    forall i, j | 0 <= i < j < |scan|
      ensures NewestFirst(FillTime(scan[i]), FillTime(scan[j]))
    {
      assert scan[i] in scan && scan[j] in scan;
      AccountKeyOrder(scan[i], scan[j]);
    }
  }

  lemma AccountScanAgrees(puts: seq<Put>, account: Bytes, limit: nat)
    requires ZeroFreePuts(puts) && FillIdFixesAccount(Fills(puts)) && B.ZeroFree(account)
    ensures
      var memory := M.AccountFills(M.Run(puts), account);
      Lists.Map(FillTime, Lists.Take(memory, limit)) ==
      Lists.Map(FillTime, R.Scanned(R.Run(puts).fillsByAccount, K.Prefix(account), limit))
      <==> limit >= 1 || memory == []
  {
    var memory, scan := M.AccountFills(M.Run(puts), account), AccountScan(R.Run(puts), account);
    AccountRowsAgree(puts, account);
    Lists.PermutationMembers(memory, scan);
    AccountProjectionSorted(scan, account);
    AccountMemorySorted(memory);
    SortedScansAgree(FillTime, NewestFirst, memory, scan, limit);
  }

  /** Among fills of one time, market-then-id order never contradicts version-then-index order. */
  ghost predicate VersionFollowsMarket(fills: seq<FillRow>) {
    forall a, b ::
      && a in fills && b in fills && a.timestampUs == b.timestampUs
      && (B.Lt(a.marketId, b.marketId) || (a.marketId == b.marketId && B.Lt(a.fillId, b.fillId)))
      ==> M.FillsRecentFirst(a, b)
  }

  lemma AccountTies(fills: seq<FillRow>, account: Bytes)
    requires FillTextsZeroFree(fills) && forall f :: f in fills ==> f.account == account
    ensures KeyOrderRespects(M.FillsRecentFirst, R.FillAccountKey, fills) <==> VersionFollowsMarket(fills)
  {
    forall a, b | a in fills && b in fills
      ensures B.Lt(R.FillAccountKey(a), R.FillAccountKey(b)) <==>
              a.timestampUs > b.timestampUs || (a.timestampUs == b.timestampUs &&
              (B.Lt(a.marketId, b.marketId) || (a.marketId == b.marketId && B.Lt(a.fillId, b.fillId))))
    {
      AccountKeyOrder(a, b);
    }
  }

  /** The rows the engines hold of an account, as the memory engine's map lists them. */
  function StoredOfAccount(puts: seq<Put>, account: Bytes): seq<FillRow> {
    Lists.Filter((r: FillRow) => r.account == account, Values(M.Run(puts).fills))
  }

  lemma VersionFollowsMarketPermutes(a: seq<FillRow>, b: seq<FillRow>)
    requires multiset(a) == multiset(b)
    ensures VersionFollowsMarket(a) <==> VersionFollowsMarket(b)
  {
    Lists.PermutationMembers(a, b);
  }

  /** The account scans return identical rows for every limit exactly when ties break alike among
      the rows the engines hold. */
  lemma AccountScanIdenticalIff(puts: seq<Put>, account: Bytes)
    requires ZeroFreePuts(puts) && FillIdFixesAccount(Fills(puts)) && B.ZeroFree(account)
    ensures
      var memory, scan := M.AccountFills(M.Run(puts), account), AccountScan(R.Run(puts), account);
      (forall limit: nat :: limit >= 1 ==> Lists.Take(memory, limit) == Lists.Take(scan, limit)) <==>
      VersionFollowsMarket(StoredOfAccount(puts, account))
  {
    var memory, scan := M.AccountFills(M.Run(puts), account), AccountScan(R.Run(puts), account);
    AccountRowsAgree(puts, account);
    SameListIff(M.FillsRecentFirst, R.FillAccountKey, memory, scan);
    SameForEveryLimit(memory, scan);
    Lists.StableSortPermutes(M.FillsRecentFirst, StoredOfAccount(puts, account));
    VersionFollowsMarketPermutes(memory, StoredOfAccount(puts, account));
    AccountTies(memory, account);
  }

  // Builder fills.

  function BuilderScan(db: R.Tables, builder: Bytes): seq<BuilderRow> {
    R.PrefixRows(db.builders, K.Prefix(builder))
  }

  ghost predicate BuilderTextsZeroFree(rows: seq<BuilderRow>) {
    forall r :: r in rows ==> R.KeyTextsZeroFree(PutBuilder(r))
  }

  lemma BuilderPrefix(rows: seq<BuilderRow>, builder: Bytes)
    requires BuilderTextsZeroFree(rows) && B.ZeroFree(builder)
    ensures forall r :: r in rows ==> (B.StartsWith(R.BuilderKey(r), K.Prefix(builder)) <==> r.builderAddr == builder)
  {
    forall r | r in rows
      ensures B.StartsWith(R.BuilderKey(r), K.Prefix(builder)) <==> r.builderAddr == builder
    {
      K.PrefixExact(K.BuilderSegments(r), builder);
    }
  }

  lemma BuilderRowsPermute(rows: seq<BuilderRow>, builder: Bytes)
    requires BuilderTextsZeroFree(rows) && BuilderFillFixesTime(rows) && B.ZeroFree(builder)
    ensures
      var values := Values(Table(rows, M.BuilderKey, M.PairLt));
      multiset(Lists.Filter((r: BuilderRow) => r.builderAddr == builder, values)) ==
      multiset(R.PrefixRows(Table(rows, R.BuilderKey, B.Lt), K.Prefix(builder)))
  {
    var keep := (r: BuilderRow) => r.builderAddr == builder;
    BuildersAgree(rows);
    BuilderPrefix(rows, builder);
    SameScanRows(rows, M.BuilderKey, M.PairLt, R.BuilderKey, keep, K.Prefix(builder));
  }

  lemma OneRowAFill(rows: seq<BuilderRow>, a: BuilderRow, b: BuilderRow)
    requires a in Values(Table(rows, M.BuilderKey, M.PairLt)) && b in Values(Table(rows, M.BuilderKey, M.PairLt))
    requires M.BuilderKey(a) == M.BuilderKey(b)
    ensures a == b
  {
    M.KeyOrdersAreStrict();
    TableHolds(rows, M.BuilderKey, M.PairLt);
    TableKeys(rows, M.BuilderKey, M.PairLt);
    GetIsMembership(Table(rows, M.BuilderKey, M.PairLt), M.BuilderKey(a), M.PairLt);
  }

  lemma BuildersStored(rows: seq<BuilderRow>)
    ensures forall r :: r in Values(Table(rows, M.BuilderKey, M.PairLt)) ==> r in rows
  {
    M.KeyOrdersAreStrict();
    TableKeys(rows, M.BuilderKey, M.PairLt);
  }

  lemma MemoryBuildersSorted(rows: seq<BuilderRow>, builder: Bytes)
    ensures
      var values := Values(Table(rows, M.BuilderKey, M.PairLt));
      var mine := Lists.Filter((r: BuilderRow) => r.builderAddr == builder, values);
      var memory := Lists.StableSort(M.BuildersRecentFirst, mine);
      && multiset(memory) == multiset(mine)
      && Lists.SortedBy(M.BuildersRecentFirst, memory) && Lists.Antisymmetric(M.BuildersRecentFirst, memory)
      && (forall r :: r in memory ==> r in rows && r.builderAddr == builder)
  {
    var mine := Lists.Filter((r: BuilderRow) => r.builderAddr == builder, Values(Table(rows, M.BuilderKey, M.PairLt)));
    var memory := Lists.StableSort(M.BuildersRecentFirst, mine);
    M.BuilderOrderIsTotal();
    Lists.StableSortPermutes(M.BuildersRecentFirst, mine);
    Lists.StableSortSorts(M.BuildersRecentFirst, mine);
    Lists.PermutationMembers(memory, mine);
    BuildersStored(rows);
    forall a, b | a in memory && b in memory && a.fillId == b.fillId
      ensures a == b
    {
      OneRowAFill(rows, a, b);
    }
  }

  lemma BuilderRowsAgree(puts: seq<Put>, builder: Bytes)
    requires ZeroFreePuts(puts) && BuilderFillFixesTime(Builders(puts)) && B.ZeroFree(builder)
    ensures
      var memory, scan := M.BuilderFills(M.Run(puts), builder), BuilderScan(R.Run(puts), builder);
      && multiset(M.BuilderRows(M.Run(puts), builder)) == multiset(memory) == multiset(scan)
      && Lists.SortedBy(M.BuildersRecentFirst, memory) && Lists.Antisymmetric(M.BuildersRecentFirst, memory)
      && BuilderTextsZeroFree(memory) && (forall r :: r in memory ==> r.builderAddr == builder)
      && (forall i, j :: 0 <= i < j < |scan| ==> B.Lt(R.BuilderKey(scan[i]), R.BuilderKey(scan[j])))
  {
    PutTexts(puts);
    M.RunIsTables(puts);
    R.RunIsTables(puts);
    BuilderRowsPermute(Builders(puts), builder);
    MemoryBuildersSorted(Builders(puts), builder);
    ScanOrder(Builders(puts), R.BuilderKey, K.Prefix(builder));
  }

  lemma BuilderMemorySorted(memory: seq<BuilderRow>)
    requires Lists.SortedBy(M.BuildersRecentFirst, memory)
    ensures Lists.SortedBy(NewestFirst, Lists.Map(BuilderTime, memory))
    ensures Lists.Antisymmetric(NewestFirst, Lists.Map(BuilderTime, memory))
  {
  }

  lemma BuilderProjectionSorted(scan: seq<BuilderRow>, builder: Bytes)
    requires BuilderTextsZeroFree(scan) && forall r :: r in scan ==> r.builderAddr == builder
    requires forall i, j :: 0 <= i < j < |scan| ==> B.Lt(R.BuilderKey(scan[i]), R.BuilderKey(scan[j]))
    ensures Lists.SortedBy(NewestFirst, Lists.Map(BuilderTime, scan))
  {
    forall i, j | 0 <= i < j < |scan|
      ensures NewestFirst(BuilderTime(scan[i]), BuilderTime(scan[j]))
    {
      assert scan[i] in scan && scan[j] in scan;
      BuilderKeyOrder(scan[i], scan[j]);
    }
  }

  lemma BuilderScanAgrees(puts: seq<Put>, builder: Bytes, limit: nat)
    requires ZeroFreePuts(puts) && BuilderFillFixesTime(Builders(puts)) && B.ZeroFree(builder)
    ensures
      var memory := M.BuilderFills(M.Run(puts), builder);
      Lists.Map(BuilderTime, Lists.Take(memory, limit)) ==
      Lists.Map(BuilderTime, R.Scanned(R.Run(puts).builders, K.Prefix(builder), limit))
      <==> limit >= 1 || memory == []
  {
    var memory, scan := M.BuilderFills(M.Run(puts), builder), BuilderScan(R.Run(puts), builder);
    BuilderRowsAgree(puts, builder);
    Lists.PermutationMembers(memory, scan);
    BuilderProjectionSorted(scan, builder);
    BuilderMemorySorted(memory);
    SortedScansAgree(BuilderTime, NewestFirst, memory, scan, limit);
  }

  /** Among rows of one time a smaller market never comes with a larger fill id. */
  ghost predicate IdFollowsMarket(rows: seq<BuilderRow>) {
    forall a, b :: a in rows && b in rows && a.timestampUs == b.timestampUs && B.Lt(a.marketId, b.marketId) ==>
      B.Leq(a.fillId, b.fillId)
  }

  lemma BuilderTies(rows: seq<BuilderRow>, builder: Bytes)
    requires BuilderTextsZeroFree(rows) && forall r :: r in rows ==> r.builderAddr == builder
    ensures KeyOrderRespects(M.BuildersRecentFirst, R.BuilderKey, rows) <==> IdFollowsMarket(rows)
  {
    forall a, b | a in rows && b in rows
      ensures (B.Lt(R.BuilderKey(a), R.BuilderKey(b)) ==> M.BuildersRecentFirst(a, b)) <==>
              (a.timestampUs == b.timestampUs && B.Lt(a.marketId, b.marketId) ==> B.Leq(a.fillId, b.fillId))
    {
      BuilderKeyOrder(a, b);
    }
  }

  /** The rows the engines hold of a builder, as the memory engine's map lists them. */
  function StoredOfBuilder(puts: seq<Put>, builder: Bytes): seq<BuilderRow> {
    Lists.Filter((r: BuilderRow) => r.builderAddr == builder, Values(M.Run(puts).builders))
  }

  lemma IdFollowsMarketPermutes(a: seq<BuilderRow>, b: seq<BuilderRow>)
    requires multiset(a) == multiset(b)
    ensures IdFollowsMarket(a) <==> IdFollowsMarket(b)
  {
    Lists.PermutationMembers(a, b);
  }

  /** The builder scans return identical rows for every limit exactly when ties break alike among
      the rows the engines hold. */
  lemma BuilderScanIdenticalIff(puts: seq<Put>, builder: Bytes)
    requires ZeroFreePuts(puts) && BuilderFillFixesTime(Builders(puts)) && B.ZeroFree(builder)
    ensures
      var memory, scan := M.BuilderFills(M.Run(puts), builder), BuilderScan(R.Run(puts), builder);
      (forall limit: nat :: limit >= 1 ==> Lists.Take(memory, limit) == Lists.Take(scan, limit)) <==>
      IdFollowsMarket(StoredOfBuilder(puts, builder))
  {
    var memory, scan := M.BuilderFills(M.Run(puts), builder), BuilderScan(R.Run(puts), builder);
    BuilderRowsAgree(puts, builder);
    SameListIff(M.BuildersRecentFirst, R.BuilderKey, memory, scan);
    SameForEveryLimit(memory, scan);
    Lists.StableSortPermutes(M.BuildersRecentFirst, StoredOfBuilder(puts, builder));
    IdFollowsMarketPermutes(memory, StoredOfBuilder(puts, builder));
    BuilderTies(memory, builder);
  }
}
