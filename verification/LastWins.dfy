/** What a store holds after a list of puts when a later row replaces an earlier one of the same key,
    and when two stores that key the same rows differently end up holding the same rows. */
module LastWins {
  import opened Prelude
  import opened OrderedMaps
  import Lists
  import B = ByteOrder

  /** The map left by inserting `rows` in order, each under `key(row)`. */
  function Table<K(==), R>(rows: seq<R>, key: R -> K, lt: (K, K) -> bool): (m: OrderedMap<K, R>) {
    if rows == [] then []
    else
      var last := rows[|rows| - 1];
      Insert(Table(rows[..|rows| - 1], key, lt), key(last), last, lt)
  }

  lemma TableAppend<K, R>(rows: seq<R>, row: R, key: R -> K, lt: (K, K) -> bool)
    ensures Table(rows + [row], key, lt) == Insert(Table(rows, key, lt), key(row), row, lt)
  {
    assert (rows + [row])[..|rows|] == rows;
  }

  /** No row after the one at `i` has its key. */
  ghost predicate IsLast<K, R>(rows: seq<R>, key: R -> K, i: nat) {
    i < |rows| && forall j :: i < j < |rows| ==> key(rows[j]) != key(rows[i])
  }

  ghost predicate Holds<K, R>(rows: seq<R>, key: R -> K, pair: (K, R)) {
    exists i: nat :: IsLast(rows, key, i) && pair == (key(rows[i]), rows[i])
  }

  lemma LastStep<K, R>(rows: seq<R>, key: R -> K, i: nat)
    requires i < |rows| - 1
    ensures
      var init, last := rows[..|rows| - 1], rows[|rows| - 1];
      IsLast(rows, key, i) <==> IsLast(init, key, i) && key(rows[i]) != key(last)
  {
    var init := rows[..|rows| - 1];
    if IsLast(rows, key, i) {
      assert forall j :: i < j < |init| ==> init[j] == rows[j];
    }
    if IsLast(init, key, i) && key(rows[i]) != key(rows[|rows| - 1]) {
      forall j | i < j < |rows|
        ensures key(rows[j]) != key(rows[i])
      {
        assert j < |init| ==> init[j] == rows[j];
      }
    }
  }

  lemma HoldsStep<K, R>(rows: seq<R>, key: R -> K, pair: (K, R))
    requires rows != []
    ensures
      var last := rows[|rows| - 1];
      Holds(rows, key, pair) <==>
      pair == (key(last), last) || (Holds(rows[..|rows| - 1], key, pair) && pair.0 != key(last))
  {
    var n := |rows| - 1;
    var init, last := rows[..n], rows[n];
    assert IsLast(rows, key, n);
    if Holds(init, key, pair) && pair.0 != key(last) {
      var i: nat :| IsLast(init, key, i) && pair == (key(init[i]), init[i]);
      LastStep(rows, key, i);
    }
    if Holds(rows, key, pair) {
      var i: nat :| IsLast(rows, key, i) && pair == (key(rows[i]), rows[i]);
      if i < n {
        LastStep(rows, key, i);
        assert init[i] == rows[i];
      }
    }
  }

  /** The table is the map from every key that occurs to the last row with that key. */
  lemma {:induction false} TableHolds<K(!new), R(!new)>(rows: seq<R>, key: R -> K, lt: (K, K) -> bool)
    requires StrictOrder(lt)
    ensures Increasing(Table(rows, key, lt), lt)
    ensures forall pair :: pair in Table(rows, key, lt) <==> Holds(rows, key, pair)
  {
    if rows != [] {
      var n := |rows| - 1;
      TableHolds(rows[..n], key, lt);
      var before := Table(rows[..n], key, lt);
      InsertIncreasing(before, key(rows[n]), rows[n], lt);
      forall pair
        ensures pair in Table(rows, key, lt) <==> Holds(rows, key, pair)
      {
        InsertMembers(before, key(rows[n]), rows[n], lt, pair);
        HoldsStep(rows, key, pair);
      }
    }
  }

  lemma {:induction false} KeyIsHeld<K, R>(rows: seq<R>, key: R -> K, row: R) returns (last: R)
    requires row in rows
    ensures key(last) == key(row) && last in rows && Holds(rows, key, (key(last), last))
  {
    var n := |rows| - 1;
    if key(rows[n]) == key(row) {
      last := rows[n];
      assert IsLast(rows, key, n);
    } else {
      assert rows == rows[..n] + [rows[n]];
      last := KeyIsHeld(rows[..n], key, row);
      HoldsStep(rows, key, (key(last), last));
    }
  }

  // The listing a checksum hashes: every row under its encoded key, in key order.

  predicate PairLeq<R>(a: (Bytes, R), b: (Bytes, R)) {
    B.Leq(a.0, b.0)
  }

  function Listing<R>(rows: seq<R>, encode: R -> Bytes): (pairs: seq<(Bytes, R)>) {
    Lists.StableSort((a: (Bytes, R), b: (Bytes, R)) => PairLeq(a, b), Lists.Map((r: R) => (encode(r), r), rows))
  }

  lemma ByteOrderIsStrict()
    ensures StrictOrder(B.Lt)
  {
    forall a, b
      ensures !B.Lt(a, a)
      ensures B.Lt(a, b) || a == b || B.Lt(b, a)
    {
      B.Irreflexive(a);
      B.Trichotomous(a, b);
    }
    forall a, b, c | B.Lt(a, b) && B.Lt(b, c)
      ensures B.Lt(a, c)
    {
      B.Transitive(a, b, c);
    }
  }

  lemma PairOrderIsTotal<R(!new)>()
    ensures Lists.TotalPreorder((a: (Bytes, R), b: (Bytes, R)) => PairLeq(a, b))
  {
    ByteOrderIsStrict();
  }

  lemma ListingPermutes<R(!new)>(rows: seq<R>, encode: R -> Bytes)
    ensures multiset(Listing(rows, encode)) == multiset(Lists.Map((r: R) => (encode(r), r), rows))
    ensures Lists.SortedBy((a: (Bytes, R), b: (Bytes, R)) => PairLeq(a, b), Listing(rows, encode))
    ensures forall pair :: pair in Listing(rows, encode) <==> exists r :: r in rows && pair == (encode(r), r)
  {
    var leq := (a: (Bytes, R), b: (Bytes, R)) => PairLeq(a, b);
    var pairs := Lists.Map((r: R) => (encode(r), r), rows);
    PairOrderIsTotal<R>();
    Lists.StableSortPermutes(leq, pairs);
    Lists.StableSortSorts(leq, pairs);
    Lists.PermutationMembers(Listing(rows, encode), pairs);
    forall r | r in rows
      ensures (encode(r), r) in pairs
    {
      var i :| 0 <= i < |rows| && rows[i] == r;
      assert pairs[i] == (encode(r), r);
    }
  }

  /** Rows with pairwise different keys list in increasing key order. */
  lemma DistinctKeysIncrease<R(!new)>(rows: seq<R>, encode: R -> Bytes)
    requires forall i, j :: 0 <= i < j < |rows| ==> encode(rows[i]) != encode(rows[j])
    ensures Increasing(Listing(rows, encode), B.Lt)
  {
    var listing := Listing(rows, encode);
    var pairs := Lists.Map((r: R) => (encode(r), r), rows);
    ListingPermutes(rows, encode);
    assert Lists.Distinct(pairs);
    forall i, j | 0 <= i < j < |listing|
      ensures B.Lt(listing[i].0, listing[j].0)
    {
      assert listing[i] in listing && listing[j] in listing;
      if listing[i].0 == listing[j].0 {
        assert listing[i] == listing[j];
        Lists.DistinctMultiplicity(pairs, listing[i]);
        RepeatedMultiplicity(listing, i, j);
        assert false;
      }
      assert PairLeq(listing[i], listing[j]);
    }
  }

  lemma RepeatedMultiplicity<T>(s: seq<T>, i: nat, j: nat)
    requires i < j < |s| && s[i] == s[j]
    ensures multiset(s)[s[i]] >= 2
  {
    assert s == s[..j] + [s[j]] + s[j + 1..];
    assert s[i] in s[..j];
  }

  /** Rows with one coarse key always have one fine key. */
  ghost predicate Fixes<K, R>(rows: seq<R>, coarse: R -> K, fine: R -> Bytes) {
    forall a, b :: a in rows && b in rows && coarse(a) == coarse(b) ==> fine(a) == fine(b)
  }

  lemma TableKeys<K(!new), R(!new)>(rows: seq<R>, key: R -> K, lt: (K, K) -> bool)
    requires StrictOrder(lt)
    ensures forall pair :: pair in Table(rows, key, lt) ==> pair.0 == key(pair.1) && pair.1 in rows
    ensures forall row :: row in Values(Table(rows, key, lt)) <==> (key(row), row) in Table(rows, key, lt)
  {
    TableHolds(rows, key, lt);
    var m := Table(rows, key, lt);
    forall row
      ensures row in Values(m) <==> (key(row), row) in m
    {
      if row in Values(m) {
        var i :| 0 <= i < |m| && Values(m)[i] == row;
        assert m[i] in m && Holds(rows, key, m[i]);
      }
      if (key(row), row) in m {
        var i :| 0 <= i < |m| && m[i] == (key(row), row);
        assert Values(m)[i] == row;
      }
    }
  }

  /** A coarse key that fixes the fine key, and is fixed by it, keeps the same last rows. */
  lemma SameLastRows<K, R>(rows: seq<R>, coarse: R -> K, fine: R -> Bytes, row: R)
    requires Fixes(rows, coarse, fine)
    requires forall a, b :: a in rows && b in rows && fine(a) == fine(b) ==> coarse(a) == coarse(b)
    ensures Holds(rows, coarse, (coarse(row), row)) <==> Holds(rows, fine, (fine(row), row))
  {
    forall i: nat
      ensures IsLast(rows, coarse, i) <==> IsLast(rows, fine, i)
    {
    }
  }

  /** Two stores of the same puts, one keyed coarsely and one keyed by the whole encoded key, list the
      same pairs exactly when the coarse key fixes the encoded one. */
  lemma StoresAgree<K(!new), R(!new)>(rows: seq<R>, coarse: R -> K, lt: (K, K) -> bool, fine: R -> Bytes)
    requires StrictOrder(lt)
    requires forall a, b :: a in rows && b in rows && fine(a) == fine(b) ==> coarse(a) == coarse(b)
    ensures Listing(Values(Table(rows, coarse, lt)), fine) == Table(rows, fine, B.Lt) <==> Fixes(rows, coarse, fine)
  {
    if Fixes(rows, coarse, fine) {
      FixedKeysAgree(rows, coarse, lt, fine);
    }
    if Listing(Values(Table(rows, coarse, lt)), fine) == Table(rows, fine, B.Lt) {
      AgreementFixesKeys(rows, coarse, lt, fine);
    }
  }

  lemma ValuesDistinct<K(!new), R(!new)>(rows: seq<R>, key: R -> K, lt: (K, K) -> bool)
    requires StrictOrder(lt)
    ensures
      var values := Values(Table(rows, key, lt));
      forall i, j :: 0 <= i < j < |values| ==> key(values[i]) != key(values[j])
  {
    TableHolds(rows, key, lt);
    TableKeys(rows, key, lt);
    var m := Table(rows, key, lt);
    forall i, j | 0 <= i < j < |m|
      ensures key(Values(m)[i]) != key(Values(m)[j])
    {
      assert m[i] in m && m[j] in m && lt(m[i].0, m[j].0);
    }
  }

  /** What is kept under the coarse keys lists in increasing order of the fine ones. */
  lemma FixedKeysIncrease<K(!new), R(!new)>(rows: seq<R>, coarse: R -> K, lt: (K, K) -> bool, fine: R -> Bytes)
    requires StrictOrder(lt)
    requires forall a, b :: a in rows && b in rows && fine(a) == fine(b) ==> coarse(a) == coarse(b)
    ensures Increasing(Listing(Values(Table(rows, coarse, lt)), fine), B.Lt)
  {
    var values := Values(Table(rows, coarse, lt));
    TableHolds(rows, coarse, lt);
    TableKeys(rows, coarse, lt);
    ValuesDistinct(rows, coarse, lt);
    forall i, j | 0 <= i < j < |values|
      ensures fine(values[i]) != fine(values[j])
    {
      assert values[i] in values && values[j] in values;
    }
    DistinctKeysIncrease(values, fine);
  }

  lemma FixedKeysKeep<K(!new), R(!new)>(rows: seq<R>, coarse: R -> K, lt: (K, K) -> bool, fine: R -> Bytes,
                                        pair: (Bytes, R))
    requires StrictOrder(lt) && Fixes(rows, coarse, fine)
    requires forall a, b :: a in rows && b in rows && fine(a) == fine(b) ==> coarse(a) == coarse(b)
    ensures pair in Listing(Values(Table(rows, coarse, lt)), fine) <==> pair in Table(rows, fine, B.Lt)
  {
    ByteOrderIsStrict();
    TableHolds(rows, coarse, lt);
    TableHolds(rows, fine, B.Lt);
    TableKeys(rows, coarse, lt);
    ListingPermutes(Values(Table(rows, coarse, lt)), fine);
    SameLastRows(rows, coarse, fine, pair.1);
  }

  lemma FixedKeysAgree<K(!new), R(!new)>(rows: seq<R>, coarse: R -> K, lt: (K, K) -> bool, fine: R -> Bytes)
    requires StrictOrder(lt)
    requires forall a, b :: a in rows && b in rows && fine(a) == fine(b) ==> coarse(a) == coarse(b)
    requires Fixes(rows, coarse, fine)
    ensures Listing(Values(Table(rows, coarse, lt)), fine) == Table(rows, fine, B.Lt)
  {
    var listing, table := Listing(Values(Table(rows, coarse, lt)), fine), Table(rows, fine, B.Lt);
    ByteOrderIsStrict();
    FixedKeysIncrease(rows, coarse, lt, fine);
    TableHolds(rows, fine, B.Lt);
    forall pair
      ensures pair in listing <==> pair in table
    {
      FixedKeysKeep(rows, coarse, lt, fine, pair);
    }
    SameMembersEqual(listing, table, B.Lt);
  }

  lemma AgreementFixesKeys<K(!new), R(!new)>(rows: seq<R>, coarse: R -> K, lt: (K, K) -> bool, fine: R -> Bytes)
    requires StrictOrder(lt)
    requires forall a, b :: a in rows && b in rows && fine(a) == fine(b) ==> coarse(a) == coarse(b)
    requires Listing(Values(Table(rows, coarse, lt)), fine) == Table(rows, fine, B.Lt)
    ensures Fixes(rows, coarse, fine)
  {
    ByteOrderIsStrict();
    var m := Table(rows, coarse, lt);
    TableHolds(rows, coarse, lt);
    TableHolds(rows, fine, B.Lt);
    TableKeys(rows, coarse, lt);
    ListingPermutes(Values(m), fine);
    forall a, b | a in rows && b in rows && coarse(a) == coarse(b)
      ensures fine(a) == fine(b)
    {
      var x := KeyIsHeld(rows, fine, a);
      var y := KeyIsHeld(rows, fine, b);
      assert (fine(x), x) in Table(rows, fine, B.Lt) && (fine(y), y) in Table(rows, fine, B.Lt);
      assert (coarse(x), x) in m && (coarse(y), y) in m;
      GetIsMembership(m, coarse(x), lt);
    }
  }

  /** A store that keeps every row lists what a keyed store holds exactly when no key repeats. */
  lemma VectorAgrees<R(!new)>(rows: seq<R>, key: R -> Bytes)
    ensures Listing(rows, key) == Table(rows, key, B.Lt) <==>
            forall i, j :: 0 <= i < j < |rows| ==> key(rows[i]) != key(rows[j])
  {
    ByteOrderIsStrict();
    TableHolds(rows, key, B.Lt);
    ListingPermutes(rows, key);
    var listing, table := Listing(rows, key), Table(rows, key, B.Lt);
    if listing == table {
      forall i, j | 0 <= i < j < |rows|
        ensures key(rows[i]) != key(rows[j])
      {
        IncreasingKeysDistinct(rows, key, i, j);
      }
    }
    if forall i, j :: 0 <= i < j < |rows| ==> key(rows[i]) != key(rows[j]) {
      DistinctKeysIncrease(rows, key);
      forall pair
        ensures pair in listing <==> pair in table
      {
        forall i: nat | i < |rows|
          ensures IsLast(rows, key, i)
        {
        }
      }
      SameMembersEqual(listing, table, B.Lt);
    }
  }

  lemma IncreasingKeysDistinct<R(!new)>(rows: seq<R>, key: R -> Bytes, i: nat, j: nat)
    requires i < j < |rows|
    requires Increasing(Listing(rows, key), B.Lt)
    ensures key(rows[i]) != key(rows[j])
  {
    ByteOrderIsStrict();
    var pairs, listing := Lists.Map((r: R) => (key(r), r), rows), Listing(rows, key);
    ListingPermutes(rows, key);
    IncreasingDistinct(listing, B.Lt);
    if key(rows[i]) == key(rows[j]) {
      assert pairs[i] in multiset(listing) && pairs[j] in multiset(listing);
      GetIsMembership(listing, key(rows[i]), B.Lt);
      assert pairs[i] == pairs[j];
      RepeatedMultiplicity(pairs, i, j);
      Lists.DistinctMultiplicity(listing, pairs[i]);
      assert false;
    }
  }

  /** A table has one row for every different key. */
  lemma TableCounts<K(!new), R(!new)>(rows: seq<R>, key: R -> K, lt: (K, K) -> bool)
    requires StrictOrder(lt)
    ensures |Table(rows, key, lt)| == |set r | r in rows :: key(r)|
  {
    var table := Table(rows, key, lt);
    var keys := Lists.Map((pair: (K, R)) => pair.0, table);
    TableHolds(rows, key, lt);
    forall i, j | 0 <= i < j < |keys|
      ensures keys[i] != keys[j]
    {
      assert lt(table[i].0, table[j].0);
    }
    Lists.DistinctSize(keys);
    forall k
      ensures k in keys <==> k in set r | r in rows :: key(r)
    {
      KeyIsListed(rows, key, lt, k);
    }
    assert (set k | k in keys) == set r | r in rows :: key(r);
  }

  lemma KeyIsListed<K(!new), R(!new)>(rows: seq<R>, key: R -> K, lt: (K, K) -> bool, k: K)
    requires StrictOrder(lt)
    ensures k in Lists.Map((pair: (K, R)) => pair.0, Table(rows, key, lt)) <==> exists r :: r in rows && key(r) == k
  {
    var table := Table(rows, key, lt);
    TableHolds(rows, key, lt);
    Lists.MapMembers((pair: (K, R)) => pair.0, table, k);
    forall r | r in rows && key(r) == k
      ensures exists pair :: pair in table && pair.0 == k
    {
      var last := KeyIsHeld(rows, key, r);
      assert (k, last) in table;
    }
    forall pair | pair in table && pair.0 == k
      ensures exists r :: r in rows && key(r) == k
    {
      assert Holds(rows, key, pair);
    }
  }
}
