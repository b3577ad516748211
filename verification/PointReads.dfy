/** Point reads of transactions and orders: both engines answer with the last row put under the key. */
module PointReads {
  import opened Prelude
  import opened Rows
  import opened OrderedMaps
  import opened LastWins
  import B = ByteOrder
  import K = Keys
  import M = Memory
  import R = Rocks

  /** The transaction that a put stores at the version, if it does. */
  function TxAt(put: Put, version: u64): Option<TxRow> {
    if put.PutTx? && put.tx.version == version then Some(put.tx) else None
  }

  /** The order that a put stores under the id, if it does. */
  function OrderUnder(put: Put, orderId: Bytes): Option<OrderRow> {
    if put.PutOrder? && put.order.orderId == orderId then Some(put.order) else None
  }

  /** The k-th put stores something of the kind, and none behind it does. */
  ghost predicate LastStored<W(!new)>(stored: Put -> Option<W>, puts: seq<Put>, k: nat) {
    k < |puts| && stored(puts[k]).Some? && forall j :: k < j < |puts| ==> stored(puts[j]).None?
  }

  /** What a point read should answer: the last row that was put, and nothing exactly if none was. */
  ghost predicate Answers<W(!new)>(answer: Option<W>, stored: Put -> Option<W>, puts: seq<Put>) {
    if answer.Some? then exists k: nat :: LastStored(stored, puts, k) && stored(puts[k]) == answer
    else forall put :: put in puts ==> stored(put).None?
  }

  lemma LastStoredStep<W(!new)>(stored: Put -> Option<W>, puts: seq<Put>, last: Put, k: nat)
    requires k < |puts|
    ensures LastStored(stored, puts + [last], k) <==> LastStored(stored, puts, k) && stored(last).None?
  {
    var more := puts + [last];
    if LastStored(stored, more, k) {
      assert stored(more[|puts|]).None?;
      assert forall j :: k < j < |puts| ==> puts[j] == more[j];
    }
  }

  lemma AnswersStep<W(!new)>(answer: Option<W>, stored: Put -> Option<W>, puts: seq<Put>, last: Put)
    ensures stored(last).Some? ==> (Answers(answer, stored, puts + [last]) <==> answer == stored(last))
    ensures stored(last).None? ==> (Answers(answer, stored, puts + [last]) <==> Answers(answer, stored, puts))
  {
    var more, n := puts + [last], |puts|;
    assert forall put :: put in more <==> put in puts || put == last;
    forall k: nat | k < n
      ensures LastStored(stored, more, k) <==> LastStored(stored, puts, k) && stored(last).None?
      ensures more[k] == puts[k]
    {
      LastStoredStep(stored, puts, last, k);
    }
    assert more[n] == last;
    assert LastStored(stored, more, n) <==> stored(last).Some?;
  }

  lemma AnswerIsUnique<W(!new)>(a: Option<W>, b: Option<W>, stored: Put -> Option<W>, puts: seq<Put>)
    requires Answers(a, stored, puts) && Answers(b, stored, puts)
    ensures a == b
  {
    if a.Some? && b.Some? {
      var i: nat :| LastStored(stored, puts, i) && stored(puts[i]) == a;
      var j: nat :| LastStored(stored, puts, j) && stored(puts[j]) == b;
      assert !(i < j) && !(j < i);
    }
  }

  lemma GetAfterInsert<C(!new), W(!new)>(m: OrderedMap<C, W>, k: C, v: W, lt: (C, C) -> bool, other: C)
    requires StrictOrder(lt) && Increasing(m, lt)
    ensures Get(Insert(m, k, v, lt), other) == if other == k then Some(v) else Get(m, other)
  {
    var more := Insert(m, k, v, lt);
    InsertIncreasing(m, k, v, lt);
    GetIsMembership(m, other, lt);
    GetIsMembership(more, other, lt);
    forall w
      ensures (other, w) in more <==> (other, w) == (k, v) || ((other, w) in m && other != k)
    {
      InsertMembers(m, k, v, lt, (other, w));
    }
    if Get(more, other).Some? {
      assert (other, Get(more, other).value) in more;
    }
    if Get(m, other).Some? {
      assert (other, Get(m, other).value) in m;
    }
  }

  // Every engine's maps.

  lemma MapsIncrease(puts: seq<Put>)
    ensures Increasing(M.Run(puts).txs, M.VersionLt) && Increasing(M.Run(puts).orders, B.Lt)
    ensures Increasing(R.Run(puts).txs, B.Lt) && Increasing(R.Run(puts).orders, B.Lt)
  {
    M.KeyOrdersAreStrict();
    ByteOrderIsStrict();
    M.RunIsTables(puts);
    R.RunIsTables(puts);
    TableHolds(Txs(puts), M.Version, M.VersionLt);
    TableHolds(Orders(puts), M.OrderId, B.Lt);
    TableHolds(Txs(puts), R.TxKey, B.Lt);
    TableHolds(Orders(puts), R.OrderKey, B.Lt);
  }

  lemma {:induction false} MemoryTxAnswers(puts: seq<Put>, version: u64)
    ensures Answers(Get(M.Run(puts).txs, version), put => TxAt(put, version), puts)
  {
    if puts != [] {
      var init, last := puts[..|puts| - 1], puts[|puts| - 1];
      assert puts == init + [last];
      MemoryTxAnswers(init, version);
      AnswersStep(Get(M.Run(puts).txs, version), put => TxAt(put, version), init, last);
      if last.PutTx? {
        M.KeyOrdersAreStrict();
        MapsIncrease(init);
        GetAfterInsert(M.Run(init).txs, last.tx.version, last.tx, M.VersionLt, version);
      }
    }
  }

  lemma {:induction false} RocksDbTxAnswers(puts: seq<Put>, version: u64)
    ensures Answers(Get(R.Run(puts).txs, K.TxByVersion(version)), put => TxAt(put, version), puts)
  {
    if puts != [] {
      var init, last := puts[..|puts| - 1], puts[|puts| - 1];
      assert puts == init + [last];
      RocksDbTxAnswers(init, version);
      AnswersStep(Get(R.Run(puts).txs, K.TxByVersion(version)), put => TxAt(put, version), init, last);
      if last.PutTx? {
        ByteOrderIsStrict();
        MapsIncrease(init);
        K.TxKeyOrder(last.tx.version, version);
        GetAfterInsert(R.Run(init).txs, R.TxKey(last.tx), last.tx, B.Lt, K.TxByVersion(version));
      }
    }
  }

  lemma {:induction false} MemoryOrderAnswers(puts: seq<Put>, orderId: Bytes)
    ensures Answers(M.OrderUnder(M.Run(puts), orderId), put => OrderUnder(put, orderId), puts)
  {
    if puts != [] {
      var init, last := puts[..|puts| - 1], puts[|puts| - 1];
      assert puts == init + [last];
      MemoryOrderAnswers(init, orderId);
      AnswersStep(M.OrderUnder(M.Run(puts), orderId), put => OrderUnder(put, orderId), init, last);
      if last.PutOrder? {
        ByteOrderIsStrict();
        MapsIncrease(init);
        GetAfterInsert(M.Run(init).orders, last.order.orderId, last.order, B.Lt, orderId);
      }
    }
  }

  lemma {:induction false} RocksDbOrderAnswers(puts: seq<Put>, orderId: Bytes)
    ensures Answers(R.OrderUnder(R.Run(puts), orderId), put => OrderUnder(put, orderId), puts)
  {
    if puts != [] {
      var init, last := puts[..|puts| - 1], puts[|puts| - 1];
      assert puts == init + [last];
      RocksDbOrderAnswers(init, orderId);
      AnswersStep(R.OrderUnder(R.Run(puts), orderId), put => OrderUnder(put, orderId), init, last);
      if last.PutOrder? {
        ByteOrderIsStrict();
        MapsIncrease(init);
        GetAfterInsert(R.Run(init).orders, R.OrderKey(last.order), last.order, B.Lt, orderId);
      }
    }
  }

  // The reads.

  /** Each element of a point read is the last transaction put at its version, on either engine, and nothing exactly
      where none was put. */
  lemma PointReadAnswers(puts: seq<Put>, versions: seq<u64>, i: nat, answer: Option<TxRow>)
    requires i < |versions|
    ensures |M.TxsAt(M.Run(puts), versions)| == |R.TxsAt(R.Run(puts), versions)| == |versions|
    ensures M.TxsAt(M.Run(puts), versions)[i] == answer <==> Answers(answer, put => TxAt(put, versions[i]), puts)
    ensures R.TxsAt(R.Run(puts), versions)[i] == answer <==> Answers(answer, put => TxAt(put, versions[i]), puts)
  {
    var stored := put => TxAt(put, versions[i]);
    MemoryTxAnswers(puts, versions[i]);
    RocksDbTxAnswers(puts, versions[i]);
    if Answers(answer, stored, puts) {
      AnswerIsUnique(M.TxsAt(M.Run(puts), versions)[i], answer, stored, puts);
      AnswerIsUnique(R.TxsAt(R.Run(puts), versions)[i], answer, stored, puts);
    }
  }

  /** So the engines answer alike, whatever was put. */
  lemma PointReadsAgree(puts: seq<Put>, versions: seq<u64>)
    ensures M.TxsAt(M.Run(puts), versions) == R.TxsAt(R.Run(puts), versions)
  {
    var x, y := M.TxsAt(M.Run(puts), versions), R.TxsAt(R.Run(puts), versions);
    forall i: nat | i < |versions|
      ensures x[i] == y[i]
    {
      PointReadAnswers(puts, versions, i, x[i]);
    }
  }

  /** The read of an order is the last one put under its id, on either engine. */
  lemma OrderReadAnswers(puts: seq<Put>, orderId: Bytes, answer: Option<OrderRow>)
    ensures M.OrderUnder(M.Run(puts), orderId) == answer <==> Answers(answer, put => OrderUnder(put, orderId), puts)
    ensures R.OrderUnder(R.Run(puts), orderId) == answer <==> Answers(answer, put => OrderUnder(put, orderId), puts)
  {
    var stored := put => OrderUnder(put, orderId);
    MemoryOrderAnswers(puts, orderId);
    RocksDbOrderAnswers(puts, orderId);
    if Answers(answer, stored, puts) {
      AnswerIsUnique(M.OrderUnder(M.Run(puts), orderId), answer, stored, puts);
      AnswerIsUnique(R.OrderUnder(R.Run(puts), orderId), answer, stored, puts);
    }
  }
}
