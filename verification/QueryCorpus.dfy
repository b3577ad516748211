/** The corpus of benchmark queries that a dataset's rows give rise to. */
module QueryCorpus {
  import opened Prelude
  import opened Rows
  import Lists
  import OM = OrderedMaps
  import M = Memory

  datatype QueryKind =
    | GetTxByVersion | MultiGetTxVersions | MarketFillScan | AccountFillScan | BuilderCodeFillScan | BuilderCodeVolume
    | MixedDashboard

  datatype QueryRecord = QueryRecord(kind: QueryKind, txVersion: Option<u64>, txVersions: seq<u64>,
                                     marketId: Option<Bytes>, account: Option<Bytes>, builderAddr: Option<Bytes>,
                                     limit: Option<nat>)

  function Blank(kind: QueryKind): QueryRecord {
    QueryRecord(kind, None, [], None, None, None, None)
  }

  function PointQuery(version: u64): QueryRecord { Blank(GetTxByVersion).(txVersion := Some(version)) }

  function MultiGet(versions: seq<u64>): QueryRecord { Blank(MultiGetTxVersions).(txVersions := versions) }

  function MarketScan(market: Bytes): QueryRecord {
    Blank(MarketFillScan).(marketId := Some(market), limit := Some(100))
  }

  function AccountScan(account: Bytes): QueryRecord {
    Blank(AccountFillScan).(account := Some(account), limit := Some(100))
  }

  function BuilderScan(builder: Bytes): QueryRecord {
    Blank(BuilderCodeFillScan).(builderAddr := Some(builder), limit := Some(100))
  }

  function VolumeQuery(builder: Bytes): QueryRecord { Blank(BuilderCodeVolume).(builderAddr := Some(builder)) }

  // Each part of the corpus holds every query it is for, once.

  /** A set of versions, kept in ascending order as `BTreeSet` keeps it. */
  datatype Member = Member

  type VersionSet = OM.OrderedMap<u64, Member>

  function Members(seen: VersionSet): seq<u64> {
    Lists.Map((pair: (u64, Member)) => pair.0, seen)
  }

  ghost predicate Ascending(versions: seq<u64>) {
    forall i, j :: 0 <= i < j < |versions| ==> versions[i] < versions[j]
  }

  lemma VersionOrderIsStrict()
    ensures OM.StrictOrder(M.VersionLt)
  {
  }

  lemma MembersAreKeys(seen: VersionSet, v: u64)
    requires OM.Increasing(seen, M.VersionLt)
    ensures v in Members(seen) <==> (v, Member) in seen
    ensures v in Members(seen) <==> OM.Get(seen, v).Some?
    ensures Ascending(Members(seen))
  {
    VersionOrderIsStrict();
    OM.GetIsMembership(seen, v, M.VersionLt);
    if v in Members(seen) {
      var i :| 0 <= i < |seen| && Members(seen)[i] == v;
      assert seen[i].1.Member? && seen[i] == (v, Member);
    }
    if (v, Member) in seen {
      var i :| 0 <= i < |seen| && seen[i] == (v, Member);
      assert Members(seen)[i] == v;
    }
    forall i, j | 0 <= i < j < |seen|
      ensures Members(seen)[i] < Members(seen)[j]
    {
      assert M.VersionLt(seen[i].0, seen[j].0);
    }
  }

  /** One query for each version, in the order of first occurrence. */
  method PointQueries(versions: seq<u64>) returns (queries: seq<QueryRecord>, seen: VersionSet)
    ensures Lists.Distinct(queries)
    ensures forall q :: q in queries <==> exists v :: v in versions && q == PointQuery(v)
    ensures OM.Increasing(seen, M.VersionLt)
    ensures forall v :: v in Members(seen) <==> v in versions
  {
    queries, seen := [], [];
    for i := 0 to |versions|
      invariant Lists.Distinct(queries) && OM.Increasing(seen, M.VersionLt)
      invariant forall v :: v in Members(seen) <==> v in versions[..i]
      invariant forall q :: q in queries <==> exists v :: v in versions[..i] && q == PointQuery(v)
    {
      var v := versions[i];
      assert versions[..i + 1] == versions[..i] + [v];
      MembersAreKeys(seen, v);
      if OM.Get(seen, v).None? {
        VersionAdded(seen, v);
        assert PointQuery(v) !in queries;
        seen := OM.Insert(seen, v, Member, M.VersionLt);
        queries := queries + [PointQuery(v)];
      }
    }
    assert versions[..|versions|] == versions;
  }

  lemma VersionAdded(seen: VersionSet, v: u64)
    requires OM.Increasing(seen, M.VersionLt)
    ensures
      var more := OM.Insert(seen, v, Member, M.VersionLt);
      OM.Increasing(more, M.VersionLt) && forall w :: w in Members(more) <==> w in Members(seen) || w == v
  {
    VersionOrderIsStrict();
    var more := OM.Insert(seen, v, Member, M.VersionLt);
    OM.InsertIncreasing(seen, v, Member, M.VersionLt);
    forall w
      ensures w in Members(more) <==> w in Members(seen) || w == v
    {
      OM.InsertMembers(seen, v, Member, M.VersionLt, (w, Member));
      MembersAreKeys(seen, w);
      MembersAreKeys(more, w);
    }
  }

  /** Market and account scans for the fills, as their markets and accounts first occur. */
  method FillQueries(fills: seq<FillRow>) returns (queries: seq<QueryRecord>)
    ensures Lists.Distinct(queries)
    ensures forall q :: q in queries <==>
              exists f :: f in fills && (q == MarketScan(f.marketId) || q == AccountScan(f.account))
  {
    queries := [];
    var seenMarkets, seenAccounts := {}, {};
    for i := 0 to |fills|
      invariant Lists.Distinct(queries)
      invariant forall q :: q in queries <==>
                  exists f :: f in fills[..i] && (q == MarketScan(f.marketId) || q == AccountScan(f.account))
      invariant forall m :: m in seenMarkets <==> MarketScan(m) in queries
      invariant forall a :: a in seenAccounts <==> AccountScan(a) in queries
    {
      var f := fills[i];
      assert fills[..i + 1] == fills[..i] + [f];
      if f.marketId !in seenMarkets {
        seenMarkets := seenMarkets + {f.marketId};
        queries := queries + [MarketScan(f.marketId)];
      }
      if f.account !in seenAccounts {
        seenAccounts := seenAccounts + {f.account};
        queries := queries + [AccountScan(f.account)];
      }
    }
    assert fills[..|fills|] == fills;
  }

  method BuilderQueries(rows: seq<BuilderRow>) returns (queries: seq<QueryRecord>)
    ensures Lists.Distinct(queries)
    ensures forall q :: q in queries <==>
              exists r :: r in rows && (q == BuilderScan(r.builderAddr) || q == VolumeQuery(r.builderAddr))
  {
    queries := [];
    var seenBuilders := {};
    for i := 0 to |rows|
      invariant Lists.Distinct(queries)
      invariant forall q :: q in queries <==>
                  exists r :: r in rows[..i] && (q == BuilderScan(r.builderAddr) || q == VolumeQuery(r.builderAddr))
      invariant forall b :: b in seenBuilders <==> BuilderScan(b) in queries
      invariant forall b :: b in seenBuilders <==> VolumeQuery(b) in queries
    {
      var r := rows[i];
      assert rows[..i + 1] == rows[..i] + [r];
      if r.builderAddr !in seenBuilders {
        seenBuilders := seenBuilders + {r.builderAddr};
        queries := queries + [BuilderScan(r.builderAddr)];
        queries := queries + [VolumeQuery(r.builderAddr)];
      }
    }
    assert rows[..|rows|] == rows;
  }

  // The whole corpus.

  function TxVersion(tx: TxRow): u64 { tx.version }

  function EventVersion(event: NormalizedEvent): u64 { event.version }

  /** The versions that point queries ask for: those of the transactions or, without any, of the events. */
  function QueriedVersions(txs: seq<TxRow>, events: seq<NormalizedEvent>): seq<u64> {
    if txs != [] then Lists.Map(TxVersion, txs) else Lists.Map(EventVersion, events)
  }

  /** The first hundred of the versions, each once, in ascending order. */
  ghost predicate FirstHundred(versions: seq<u64>, first: seq<u64>) {
    exists all: seq<u64> :: Ascending(all) && (forall v :: v in all <==> v in versions) && first == Lists.Take(all, 100)
  }

  ghost predicate Wanted(q: QueryRecord, versions: seq<u64>, first: seq<u64>, fills: seq<FillRow>,
                         rows: seq<BuilderRow>) {
    || (exists v :: v in versions && q == PointQuery(v))
    || (exists f :: f in fills && (q == MarketScan(f.marketId) || q == AccountScan(f.account)))
    || (exists r :: r in rows && (q == BuilderScan(r.builderAddr) || q == VolumeQuery(r.builderAddr)))
    || (first != [] && q == MultiGet(first))
  }

  /** Every wanted query occurs exactly once and nothing else occurs. */
  ghost predicate Covers(corpus: seq<QueryRecord>, txs: seq<TxRow>, events: seq<NormalizedEvent>, fills: seq<FillRow>,
                         rows: seq<BuilderRow>, first: seq<u64>)
  {
    && Lists.Distinct(corpus)
    && FirstHundred(QueriedVersions(txs, events), first)
    && forall q :: q in corpus <==> Wanted(q, QueriedVersions(txs, events), first, fills, rows)
  }

  /** Parts that hold different kinds of queries make up a corpus that holds each query once. */
  lemma PartsAppend(points: seq<QueryRecord>, scans: seq<QueryRecord>, builders: seq<QueryRecord>,
                    last: seq<QueryRecord>)
    requires Lists.Distinct(points) && Lists.Distinct(scans) && Lists.Distinct(builders) && Lists.Distinct(last)
    requires forall q :: q in points ==> q.kind == GetTxByVersion
    requires forall q :: q in scans ==> q.kind == MarketFillScan || q.kind == AccountFillScan
    requires forall q :: q in builders ==> q.kind == BuilderCodeFillScan || q.kind == BuilderCodeVolume
    requires forall q :: q in last ==> q.kind == MultiGetTxVersions
    ensures
      var corpus := points + scans + builders + last;
      && Lists.Distinct(corpus)
      && forall q :: q in corpus <==> q in points || q in scans || q in builders || q in last
  {
    Lists.DistinctAppend(points, scans);
    Lists.DistinctAppend(points + scans, builders);
    Lists.DistinctAppend(points + scans + builders, last);
  }

  method BuildQueryCorpus(txs: seq<TxRow>, events: seq<NormalizedEvent>, fills: seq<FillRow>, rows: seq<BuilderRow>)
    returns (corpus: seq<QueryRecord>)
    ensures exists first :: Covers(corpus, txs, events, fills, rows, first)
  {
    var points, seen := PointQueries(QueriedVersions(txs, events));
    var scans := FillQueries(fills);
    var builders := BuilderQueries(rows);
    var versions := Lists.Take(Members(seen), 100);
    var last := if versions == [] then [] else [MultiGet(versions)];
    corpus := points + scans + builders + last;
    FirstOfMembers(seen, QueriedVersions(txs, events));
    PartsAppend(points, scans, builders, last);
    assert Covers(corpus, txs, events, fills, rows, versions);
  }

  lemma FirstOfMembers(seen: VersionSet, versions: seq<u64>)
    requires OM.Increasing(seen, M.VersionLt) && forall v :: v in Members(seen) <==> v in versions
    ensures FirstHundred(versions, Lists.Take(Members(seen), 100))
  {
    MembersAreKeys(seen, 0);
  }
}
