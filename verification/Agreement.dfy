/** When the two engines hold the same rows. */
module Agreement {
  import opened Rows
  import opened OrderedMaps
  import opened LastWins
  import B = ByteOrder
  import K = Keys
  import M = Memory
  import R = Rocks

  /** The memory engine's rows as its checksum lists them: under their storage keys, in key order. */
  function MemoryTables(s: M.Inner): R.Tables {
    R.Tables(
      Listing(Values(s.txs), R.TxKey),
      Listing(Values(s.events), R.EventKey),
      Listing(Values(s.fills), R.FillMarketKey),
      Listing(Values(s.fills), R.FillAccountKey),
      Listing(Values(s.orders), R.OrderKey),
      Listing(Values(s.positions), R.PositionKey),
      Listing(Values(s.builders), R.BuilderKey),
      Listing(s.activities, R.ActivityKey),
      Listing(Values(s.checkpoints), R.CheckpointKey))
  }

  ghost predicate ZeroFreePuts(puts: seq<Put>) {
    forall p :: p in puts ==> R.KeyTextsZeroFree(p)
  }

  // The hypotheses, as a caller can check them on the rows it puts.

  ghost predicate FillIdFixesMarket(fills: seq<FillRow>) {
    forall a, b :: a in fills && b in fills && a.fillId == b.fillId ==>
      a.marketId == b.marketId && a.timestampUs == b.timestampUs && a.version == b.version
  }

  ghost predicate FillIdFixesAccount(fills: seq<FillRow>) {
    forall a, b :: a in fills && b in fills && a.fillId == b.fillId ==>
      a.account == b.account && a.timestampUs == b.timestampUs && a.marketId == b.marketId
  }

  ghost predicate BuilderFillFixesTime(rows: seq<BuilderRow>) {
    forall a, b :: a in rows && b in rows && a.builderAddr == b.builderAddr && a.fillId == b.fillId ==>
      a.timestampUs == b.timestampUs && a.marketId == b.marketId
  }

  ghost predicate ActivitiesPutOnce(rows: seq<ActivityRow>) {
    forall i, j :: 0 <= i < j < |rows| ==> K.ActivitySegments(rows[i]) != K.ActivitySegments(rows[j])
  }

  ghost predicate Consistent(puts: seq<Put>) {
    && FillIdFixesMarket(Fills(puts)) && FillIdFixesAccount(Fills(puts))
    && BuilderFillFixesTime(Builders(puts)) && ActivitiesPutOnce(Activities(puts))
  }

  // The texts of every stored row are zero-free when those of every put are.

  lemma {:induction false} FillsArePut(puts: seq<Put>)
    ensures forall f :: f in Fills(puts) ==> PutFill(f) in puts
  {
    if puts != [] {
      FillsArePut(puts[..|puts| - 1]);
    }
  }

  lemma {:induction false} OthersArePut(puts: seq<Put>)
    ensures forall r :: r in Positions(puts) ==> PutPosition(r) in puts
    ensures forall r :: r in Builders(puts) ==> PutBuilder(r) in puts
    ensures forall r :: r in Checkpoints(puts) ==> PutCheckpoint(r) in puts
  {
    if puts != [] {
      OthersArePut(puts[..|puts| - 1]);
    }
  }

  lemma {:induction false} ActivitiesArePut(puts: seq<Put>)
    ensures forall a :: a in Activities(puts) ==>
              PutActivity(a) in puts || exists f :: PutFill(f) in puts && a == FillActivity(f)
  {
    if puts != [] {
      var init, last := puts[..|puts| - 1], puts[|puts| - 1];
      ActivitiesArePut(init);
      forall a | a in Activities(puts)
        ensures PutActivity(a) in puts || exists f :: PutFill(f) in puts && a == FillActivity(f)
      {
        if a !in Activities(init) && last.PutFill? {
          assert PutFill(last.fill) in puts;
        }
      }
    }
  }

  // Storage keys determine the typed keys, and how far the typed keys determine them.

  lemma MarketKeyInjective(a: FillRow, b: FillRow)
    requires R.KeyTextsZeroFree(PutFill(a)) && R.KeyTextsZeroFree(PutFill(b))
    ensures R.FillMarketKey(a) == R.FillMarketKey(b) <==> K.FillMarketSegments(a) == K.FillMarketSegments(b)
  {
    if R.FillMarketKey(a) == R.FillMarketKey(b) {
      K.KeyInjective(K.FillMarketSegments(a), K.FillMarketSegments(b));
    }
  }

  lemma AccountKeyInjective(a: FillRow, b: FillRow)
    requires R.KeyTextsZeroFree(PutFill(a)) && R.KeyTextsZeroFree(PutFill(b))
    ensures R.FillAccountKey(a) == R.FillAccountKey(b) <==> K.FillAccountSegments(a) == K.FillAccountSegments(b)
  {
    if R.FillAccountKey(a) == R.FillAccountKey(b) {
      K.KeyInjective(K.FillAccountSegments(a), K.FillAccountSegments(b));
    }
  }

  lemma BuilderKeyInjective(a: BuilderRow, b: BuilderRow)
    requires R.KeyTextsZeroFree(PutBuilder(a)) && R.KeyTextsZeroFree(PutBuilder(b))
    ensures R.BuilderKey(a) == R.BuilderKey(b) <==> K.BuilderSegments(a) == K.BuilderSegments(b)
  {
    if R.BuilderKey(a) == R.BuilderKey(b) {
      K.KeyInjective(K.BuilderSegments(a), K.BuilderSegments(b));
    }
  }

  lemma ActivityShapes(a: ActivityRow, b: ActivityRow)
    requires R.KeyTextsZeroFree(PutActivity(a))
    ensures K.ValidKey(K.ActivitySegments(a)) && K.SameShape(K.ActivitySegments(a), K.ActivitySegments(b))
  {
  }

  lemma ActivityKeyInjective(a: ActivityRow, b: ActivityRow)
    requires R.KeyTextsZeroFree(PutActivity(a)) && R.KeyTextsZeroFree(PutActivity(b))
    ensures R.ActivityKey(a) == R.ActivityKey(b) <==> K.ActivitySegments(a) == K.ActivitySegments(b)
  {
    ActivityShapes(a, b);
    ActivityShapes(b, a);
    if R.ActivityKey(a) == R.ActivityKey(b) {
      K.KeyInjective(K.ActivitySegments(a), K.ActivitySegments(b));
    }
  }

  lemma PositionKeyInjective(a: PositionRow, b: PositionRow)
    requires R.KeyTextsZeroFree(PutPosition(a)) && R.KeyTextsZeroFree(PutPosition(b))
    ensures R.PositionKey(a) == R.PositionKey(b) <==> M.PositionKeyOf(a) == M.PositionKeyOf(b)
  {
    K.OptionalTextOrder(a.subaccount, b.subaccount);
    K.OptionalTextOrder(b.subaccount, a.subaccount);
    if R.PositionKey(a) == R.PositionKey(b) {
      var s, t := K.PositionSegments(a.account, a.marketId, a.subaccount),
        K.PositionSegments(b.account, b.marketId, b.subaccount);
      K.KeyInjective(s, t);
      assert s[0] == t[0] && s[1] == t[1] && s[2] == t[2];
    }
  }

  lemma CheckpointKeyInjective(a: IngestCheckpoint, b: IngestCheckpoint)
    requires R.KeyTextsZeroFree(PutCheckpoint(a)) && R.KeyTextsZeroFree(PutCheckpoint(b))
    ensures R.CheckpointKey(a) == R.CheckpointKey(b) <==> M.CheckpointKey(a) == M.CheckpointKey(b)
  {
    NetworkNames(a.network, b.network);
    var n := |a.network.Name()| + 1;
    if R.CheckpointKey(a) == R.CheckpointKey(b) {
      var s, t := K.CheckpointSegments(a.network, a.packageAddress), K.CheckpointSegments(b.network, b.packageAddress);
      K.KeyInjective(s, t);
      assert s[0] == t[0] && s[1] == t[1];
    }
    if M.CheckpointKey(a) == M.CheckpointKey(b) {
      assert M.CheckpointKey(a)[0] == a.network.Name()[0] && M.CheckpointKey(b)[0] == b.network.Name()[0];
      assert M.CheckpointKey(a)[n..] == a.packageAddress && M.CheckpointKey(b)[n..] == b.packageAddress;
    }
  }

  lemma NetworkNames(a: Network, b: Network)
    ensures B.ZeroFree(a.Name()) && B.ZeroFree(b.Name())
    ensures a.Name() != [] && b.Name() != []
    ensures a.Name()[0] == b.Name()[0] ==> a == b
  {
  }

  // One column family at a time.

  lemma TxsAgree(rows: seq<TxRow>)
    ensures Listing(Values(Table(rows, M.Version, M.VersionLt)), R.TxKey) == Table(rows, R.TxKey, B.Lt)
  {
    M.KeyOrdersAreStrict();
    forall a, b | a in rows && b in rows
      ensures R.TxKey(a) == R.TxKey(b) <==> M.Version(a) == M.Version(b)
    {
      K.TxKeyOrder(a.version, b.version);
    }
    FixedKeysAgree(rows, M.Version, M.VersionLt, R.TxKey);
  }

  lemma EventsAgree(rows: seq<NormalizedEvent>)
    ensures Listing(Values(Table(rows, M.EventKey, M.EventLt)), R.EventKey) == Table(rows, R.EventKey, B.Lt)
  {
    M.KeyOrdersAreStrict();
    forall a, b | a in rows && b in rows
      ensures R.EventKey(a) == R.EventKey(b) <==> M.EventKey(a) == M.EventKey(b)
    {
      K.EventKeyOrder(a.version, a.eventIdx, b.version, b.eventIdx);
    }
    FixedKeysAgree(rows, M.EventKey, M.EventLt, R.EventKey);
  }

  lemma OrdersAgree(rows: seq<OrderRow>)
    ensures Listing(Values(Table(rows, M.OrderId, B.Lt)), R.OrderKey) == Table(rows, R.OrderKey, B.Lt)
  {
    ByteOrderIsStrict();
    FixedKeysAgree(rows, M.OrderId, B.Lt, R.OrderKey);
  }

  lemma PositionsAgree(rows: seq<PositionRow>)
    requires forall r :: r in rows ==> R.KeyTextsZeroFree(PutPosition(r))
    ensures Listing(Values(Table(rows, M.PositionKeyOf, M.PositionLt)), R.PositionKey) ==
            Table(rows, R.PositionKey, B.Lt)
  {
    M.KeyOrdersAreStrict();
    forall a, b | a in rows && b in rows
      ensures R.PositionKey(a) == R.PositionKey(b) <==> M.PositionKeyOf(a) == M.PositionKeyOf(b)
    {
      PositionKeyInjective(a, b);
    }
    FixedKeysAgree(rows, M.PositionKeyOf, M.PositionLt, R.PositionKey);
  }

  lemma CheckpointsAgree(rows: seq<IngestCheckpoint>)
    requires forall r :: r in rows ==> R.KeyTextsZeroFree(PutCheckpoint(r))
    ensures Listing(Values(Table(rows, M.CheckpointKey, B.Lt)), R.CheckpointKey) == Table(rows, R.CheckpointKey, B.Lt)
  {
    ByteOrderIsStrict();
    forall a, b | a in rows && b in rows
      ensures R.CheckpointKey(a) == R.CheckpointKey(b) <==> M.CheckpointKey(a) == M.CheckpointKey(b)
    {
      CheckpointKeyInjective(a, b);
    }
    FixedKeysAgree(rows, M.CheckpointKey, B.Lt, R.CheckpointKey);
  }

  lemma MarketFillsAgree(rows: seq<FillRow>)
    requires forall r :: r in rows ==> R.KeyTextsZeroFree(PutFill(r))
    ensures Listing(Values(Table(rows, M.FillId, B.Lt)), R.FillMarketKey) == Table(rows, R.FillMarketKey, B.Lt) <==>
            FillIdFixesMarket(rows)
  {
    ByteOrderIsStrict();
    forall a, b | a in rows && b in rows
      ensures R.FillMarketKey(a) == R.FillMarketKey(b) <==>
              a.marketId == b.marketId && a.timestampUs == b.timestampUs && a.version == b.version
                && a.fillId == b.fillId
    {
      MarketKeyInjective(a, b);
      var s, t := K.FillMarketSegments(a), K.FillMarketSegments(b);
      assert s == t ==> s[0] == t[0] && s[1] == t[1] && s[2] == t[2] && s[3] == t[3];
    }
    StoresAgree(rows, M.FillId, B.Lt, R.FillMarketKey);
    assert Fixes(rows, M.FillId, R.FillMarketKey) <==> FillIdFixesMarket(rows);
  }

  lemma AccountFillsAgree(rows: seq<FillRow>)
    requires forall r :: r in rows ==> R.KeyTextsZeroFree(PutFill(r))
    ensures Listing(Values(Table(rows, M.FillId, B.Lt)), R.FillAccountKey) == Table(rows, R.FillAccountKey, B.Lt) <==>
            FillIdFixesAccount(rows)
  {
    ByteOrderIsStrict();
    forall a, b | a in rows && b in rows
      ensures R.FillAccountKey(a) == R.FillAccountKey(b) <==>
              a.account == b.account && a.timestampUs == b.timestampUs && a.marketId == b.marketId
                && a.fillId == b.fillId
    {
      AccountKeyInjective(a, b);
      var s, t := K.FillAccountSegments(a), K.FillAccountSegments(b);
      assert s == t ==> s[0] == t[0] && s[1] == t[1] && s[2] == t[2] && s[3] == t[3];
    }
    StoresAgree(rows, M.FillId, B.Lt, R.FillAccountKey);
    assert Fixes(rows, M.FillId, R.FillAccountKey) <==> FillIdFixesAccount(rows);
  }

  lemma BuildersAgree(rows: seq<BuilderRow>)
    requires forall r :: r in rows ==> R.KeyTextsZeroFree(PutBuilder(r))
    ensures Listing(Values(Table(rows, M.BuilderKey, M.PairLt)), R.BuilderKey) == Table(rows, R.BuilderKey, B.Lt) <==>
            BuilderFillFixesTime(rows)
  {
    M.KeyOrdersAreStrict();
    forall a, b | a in rows && b in rows
      ensures R.BuilderKey(a) == R.BuilderKey(b) <==>
              a.builderAddr == b.builderAddr && a.timestampUs == b.timestampUs && a.marketId == b.marketId
                && a.fillId == b.fillId
    {
      BuilderKeyInjective(a, b);
      var s, t := K.BuilderSegments(a), K.BuilderSegments(b);
      assert s == t ==> s[0] == t[0] && s[1] == t[1] && s[2] == t[2] && s[3] == t[3];
    }
    StoresAgree(rows, M.BuilderKey, M.PairLt, R.BuilderKey);
    assert Fixes(rows, M.BuilderKey, R.BuilderKey) <==> BuilderFillFixesTime(rows);
  }

  lemma ActivitiesAgree(rows: seq<ActivityRow>)
    requires forall r :: r in rows ==> R.KeyTextsZeroFree(PutActivity(r))
    ensures Listing(rows, R.ActivityKey) == Table(rows, R.ActivityKey, B.Lt) <==> ActivitiesPutOnce(rows)
  {
    VectorAgrees(rows, R.ActivityKey);
    forall i, j | 0 <= i < j < |rows|
      ensures R.ActivityKey(rows[i]) == R.ActivityKey(rows[j]) <==>
                K.ActivitySegments(rows[i]) == K.ActivitySegments(rows[j])
    {
      ActivityKeyInjective(rows[i], rows[j]);
    }
  }

  lemma PutTexts(puts: seq<Put>)
    requires ZeroFreePuts(puts)
    ensures forall r :: r in Fills(puts) ==> R.KeyTextsZeroFree(PutFill(r))
    ensures forall r :: r in Positions(puts) ==> R.KeyTextsZeroFree(PutPosition(r))
    ensures forall r :: r in Builders(puts) ==> R.KeyTextsZeroFree(PutBuilder(r))
    ensures forall r :: r in Checkpoints(puts) ==> R.KeyTextsZeroFree(PutCheckpoint(r))
    ensures forall r :: r in Activities(puts) ==> R.KeyTextsZeroFree(PutActivity(r))
  {
    FillsArePut(puts);
    OthersArePut(puts);
    ActivitiesArePut(puts);
  }

  /** After any puts with zero-free texts, the engines hold the same key-sorted rows in every column
      family exactly when fill ids and builder fills fix their keys and no activity is put twice. */
  lemma SameRowsIffConsistent(puts: seq<Put>)
    requires ZeroFreePuts(puts)
    ensures MemoryTables(M.Run(puts)) == R.Run(puts) <==> Consistent(puts)
  {
    PutTexts(puts);
    M.RunIsTables(puts);
    R.RunIsTables(puts);
    TxsAgree(Txs(puts));
    EventsAgree(Events(puts));
    MarketFillsAgree(Fills(puts));
    AccountFillsAgree(Fills(puts));
    OrdersAgree(Orders(puts));
    PositionsAgree(Positions(puts));
    BuildersAgree(Builders(puts));
    ActivitiesAgree(Activities(puts));
    CheckpointsAgree(Checkpoints(puts));
  }
}
