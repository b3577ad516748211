/** Ordered maps. A `BTreeMap` and a RocksDB column family both hold one value a key and iterate
    in key order, so both are modelled by that iteration: a list of pairs with increasing keys. */
module OrderedMaps {
  import opened Prelude
  import Lists

  type OrderedMap<K, V> = seq<(K, V)>

  /** A strict total order on keys. */
  ghost predicate StrictOrder<K(!new)>(lt: (K, K) -> bool) {
    && (forall a :: !lt(a, a))
    && (forall a, b :: lt(a, b) || a == b || lt(b, a))
    && (forall a, b, c :: lt(a, b) && lt(b, c) ==> lt(a, c))
  }

  ghost predicate Increasing<K(!new), V>(m: OrderedMap<K, V>, lt: (K, K) -> bool) {
    forall i, j :: 0 <= i < j < |m| ==> lt(m[i].0, m[j].0)
  }

  /** Stores `v` under `k`, replacing what was there. */
  function Insert<K(==), V>(m: OrderedMap<K, V>, k: K, v: V, lt: (K, K) -> bool): (r: OrderedMap<K, V>) {
    if m == [] then [(k, v)]
    else if m[0].0 == k then [(k, v)] + m[1..]
    else if lt(k, m[0].0) then [(k, v)] + m
    else [m[0]] + Insert(m[1..], k, v, lt)
  }

  function Get<K(==), V>(m: OrderedMap<K, V>, k: K): (r: Option<V>) {
    if m == [] then None
    else if m[0].0 == k then Some(m[0].1)
    else Get(m[1..], k)
  }

  function Values<K, V>(m: OrderedMap<K, V>): (r: seq<V>) {
    Lists.Map((pair: (K, V)) => pair.1, m)
  }

  lemma {:induction false} InsertMembers<K(!new), V(!new)>(m: OrderedMap<K, V>, k: K, v: V, lt: (K, K) -> bool,
                                                           pair: (K, V))
    requires StrictOrder(lt) && Increasing(m, lt)
    ensures pair in Insert(m, k, v, lt) <==> pair == (k, v) || (pair in m && pair.0 != k)
  {
    if m != [] {
      var rest := m[1..];
      assert pair in m <==> pair == m[0] || pair in rest;
      forall other | other in rest
        ensures lt(m[0].0, other.0) && m[0].0 != other.0
      {
      }
      if m[0].0 != k && !lt(k, m[0].0) {
        InsertMembers(rest, k, v, lt, pair);
      }
    }
  }

  lemma {:induction false} InsertIncreasing<K(!new), V(!new)>(m: OrderedMap<K, V>, k: K, v: V, lt: (K, K) -> bool)
    requires StrictOrder(lt) && Increasing(m, lt)
    ensures Increasing(Insert(m, k, v, lt), lt)
  {
    if m != [] && m[0].0 != k && !lt(k, m[0].0) {
      var rest := Insert(m[1..], k, v, lt);
      InsertIncreasing(m[1..], k, v, lt);
      forall i | 0 <= i < |rest|
        ensures lt(m[0].0, rest[i].0)
      {
        InsertMembers(m[1..], k, v, lt, rest[i]);
        assert rest[i] in rest;
      }
    }
  }

  /** Each row stands under its own key, and the keys increase. */
  ghost predicate Keyed<K(!new), V(!new)>(m: OrderedMap<K, V>, key: V -> K, lt: (K, K) -> bool) {
    Increasing(m, lt) && forall pair :: pair in m ==> pair.0 == key(pair.1)
  }

  lemma InsertKeyed<K(!new), V(!new)>(m: OrderedMap<K, V>, v: V, key: V -> K, lt: (K, K) -> bool)
    requires StrictOrder(lt) && Keyed(m, key, lt)
    ensures Keyed(Insert(m, key(v), v, lt), key, lt)
  {
    InsertIncreasing(m, key(v), v, lt);
    forall pair | pair in Insert(m, key(v), v, lt)
      ensures pair.0 == key(pair.1)
    {
      InsertMembers(m, key(v), v, lt, pair);
    }
  }

  lemma {:induction false} GetIsMembership<K(!new), V>(m: OrderedMap<K, V>, k: K, lt: (K, K) -> bool)
    requires StrictOrder(lt) && Increasing(m, lt)
    ensures forall v :: Get(m, k) == Some(v) <==> (k, v) in m
    ensures Get(m, k).None? <==> forall pair :: pair in m ==> pair.0 != k
  {
    if m != [] {
      GetIsMembership(m[1..], k, lt);
      forall pair
        ensures pair in m <==> pair == m[0] || pair in m[1..]
      {
      }
      forall pair | pair in m[1..]
        ensures lt(m[0].0, pair.0)
      {
      }
    }
  }

  /** The pairs determine the map. */
  lemma SameMembersEqual<K(!new), V(!new)>(a: OrderedMap<K, V>, b: OrderedMap<K, V>, lt: (K, K) -> bool)
    requires StrictOrder(lt) && Increasing(a, lt) && Increasing(b, lt)
    requires forall pair :: pair in a <==> pair in b
    ensures a == b
  {
    var leq := (p: (K, V), q: (K, V)) => p == q || lt(p.0, q.0);
    IncreasingDistinct(a, lt);
    IncreasingDistinct(b, lt);
    Lists.DistinctSameMembersPermute(a, b);
    Lists.SortedPermutationsEqual(leq, a, b);
  }

  lemma IncreasingDistinct<K(!new), V>(m: OrderedMap<K, V>, lt: (K, K) -> bool)
    requires StrictOrder(lt) && Increasing(m, lt)
    ensures Lists.Distinct(m)
  {
    forall i, j | 0 <= i < j < |m|
      ensures m[i] != m[j]
    {
      assert lt(m[i].0, m[j].0);
    }
  }
}
