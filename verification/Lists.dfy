/** Sequences as the engines use them: filtering, the stable sort behind `sort_by`,
    and what is left of a sorted list when ties may be broken differently. */
module Lists {

  function Map<T, U>(f: T -> U, s: seq<T>): (r: seq<U>)
    ensures |r| == |s|
    ensures forall i :: 0 <= i < |s| ==> r[i] == f(s[i])
  {
    if s == [] then [] else [f(s[0])] + Map(f, s[1..])
  }

  function Filter<T(!new)>(keep: T -> bool, s: seq<T>): (r: seq<T>)
    ensures forall x :: x in r <==> x in s && keep(x)
  {
    if s == [] then []
    else
      assert forall x :: x in s <==> x == s[0] || x in s[1..];
      (if keep(s[0]) then [s[0]] else []) + Filter(keep, s[1..])
  }

  /** `Vec::truncate`. */
  function Take<T>(s: seq<T>, limit: nat): (r: seq<T>) {
    if limit < |s| then s[..limit] else s
  }

  lemma AppendAssociative<T>(a: seq<T>, b: seq<T>, c: seq<T>)
    ensures a + b + c == a + (b + c)
  {
  }

  lemma MoveLast<T>(s: seq<T>, t: seq<T>)
    requires s != []
    ensures s + t == s[..|s| - 1] + ([s[|s| - 1]] + t)
  {
  }

  lemma HasMember<T>(s: seq<T>)
    ensures s != [] ==> exists x :: x in s
  {
    if s != [] {
      assert s[0] in s;
    }
  }

  ghost predicate Distinct<T>(s: seq<T>) {
    forall i, j :: 0 <= i < j < |s| ==> s[i] != s[j]
  }

  ghost predicate SortedBy<T(!new)>(leq: (T, T) -> bool, s: seq<T>) {
    forall i, j :: 0 <= i < j < |s| ==> leq(s[i], s[j])
  }

  ghost predicate TotalPreorder<T(!new)>(leq: (T, T) -> bool) {
    && (forall x, y :: leq(x, y) || leq(y, x))
    && (forall x, y, z :: leq(x, y) && leq(y, z) ==> leq(x, z))
  }

  /** `leq` never ties two different elements of `s`. */
  ghost predicate Antisymmetric<T(!new)>(leq: (T, T) -> bool, s: seq<T>) {
    forall x, y :: x in s && y in s && leq(x, y) && leq(y, x) ==> x == y
  }

  /** Places `x` before the first element it does not exceed, so equal elements keep their order. */
  function InsertSorted<T>(leq: (T, T) -> bool, x: T, s: seq<T>): (r: seq<T>)
    ensures |r| == |s| + 1
  {
    if s == [] || leq(x, s[0]) then [x] + s else [s[0]] + InsertSorted(leq, x, s[1..])
  }

  /** Rust's stable `sort_by`, as a function. */
  function StableSort<T>(leq: (T, T) -> bool, s: seq<T>): (r: seq<T>)
    ensures |r| == |s|
  {
    if s == [] then [] else InsertSorted(leq, s[0], StableSort(leq, s[1..]))
  }

  lemma {:induction false} InsertSortedPermutes<T>(leq: (T, T) -> bool, x: T, s: seq<T>)
    ensures multiset(InsertSorted(leq, x, s)) == multiset([x] + s)
  {
    if s == [] || leq(x, s[0]) {
    } else {
      InsertSortedPermutes(leq, x, s[1..]);
      assert s == [s[0]] + s[1..];
      assert [x] + s[1..] + [s[0]] == [x] + (s[1..] + [s[0]]);
    }
  }

  lemma {:induction false} StableSortPermutes<T>(leq: (T, T) -> bool, s: seq<T>)
    ensures multiset(StableSort(leq, s)) == multiset(s)
  {
    if s != [] {
      StableSortPermutes(leq, s[1..]);
      InsertSortedPermutes(leq, s[0], StableSort(leq, s[1..]));
      assert s == [s[0]] + s[1..];
    }
  }

  lemma {:induction false} InsertSortedSorts<T(!new)>(leq: (T, T) -> bool, x: T, s: seq<T>)
    requires TotalPreorder(leq) && SortedBy(leq, s)
    ensures SortedBy(leq, InsertSorted(leq, x, s))
  {
    if s == [] || leq(x, s[0]) {
    } else {
      var rest := InsertSorted(leq, x, s[1..]);
      InsertSortedSorts(leq, x, s[1..]);
      InsertSortedPermutes(leq, x, s[1..]);
      forall i | 0 <= i < |rest|
        ensures leq(s[0], rest[i])
      {
        assert rest[i] in multiset(rest);
        assert rest[i] in [x] + s[1..];
      }
    }
  }

  lemma {:induction false} StableSortSorts<T(!new)>(leq: (T, T) -> bool, s: seq<T>)
    requires TotalPreorder(leq)
    ensures SortedBy(leq, StableSort(leq, s))
  {
    if s != [] {
      StableSortSorts(leq, s[1..]);
      InsertSortedSorts(leq, s[0], StableSort(leq, s[1..]));
    }
  }

  /** Where `x` first stands. */
  function Position<T(==)>(s: seq<T>, x: T): nat {
    if s == [] || s[0] == x then 0 else 1 + Position(s[1..], x)
  }

  lemma {:induction false} PositionOf<T>(s: seq<T>, i: nat)
    requires Distinct(s) && i < |s|
    ensures Position(s, s[i]) == i
  {
    if i > 0 {
      assert s[0] != s[i];
      PositionOf(s[1..], i - 1);
    }
  }

  /** The order with its ties broken by where the elements stand in `s`. */
  function Stably<T(==)>(leq: (T, T) -> bool, s: seq<T>): (T, T) -> bool {
    (x: T, y: T) => leq(x, y) && (!leq(y, x) || Position(s, x) <= Position(s, y))
  }

  lemma InsertSortedMembers<T>(leq: (T, T) -> bool, x: T, s: seq<T>)
    ensures forall y :: y in InsertSorted(leq, x, s) <==> y == x || y in s
  {
    InsertSortedPermutes(leq, x, s);
    PermutationMembers(InsertSorted(leq, x, s), [x] + s);
  }

  lemma {:induction false} InsertSortedKeeps<T(!new)>(leq: (T, T) -> bool, finer: (T, T) -> bool, x: T, s: seq<T>)
    requires TotalPreorder(leq) && SortedBy(leq, s) && SortedBy(finer, s)
    requires forall y :: y in s ==> if leq(x, y) then finer(x, y) else finer(y, x)
    ensures SortedBy(finer, InsertSorted(leq, x, s))
  {
    if s != [] && !leq(x, s[0]) {
      var rest := InsertSorted(leq, x, s[1..]);
      InsertSortedKeeps(leq, finer, x, s[1..]);
      InsertSortedMembers(leq, x, s[1..]);
      assert forall i :: 0 <= i < |rest| ==> rest[i] in rest;
    } else {
      assert forall i :: 0 <= i < |s| ==> s[i] in s && leq(x, s[i]);
    }
  }

  /** A stable sort also sorts by any finer order that agrees with how the elements stood. */
  lemma {:induction false} StableSortKeeps<T(!new)>(leq: (T, T) -> bool, finer: (T, T) -> bool, s: seq<T>)
    requires TotalPreorder(leq)
    requires forall x, y :: x in s && y in s && !leq(y, x) ==> finer(x, y)
    requires forall i, j :: 0 <= i < j < |s| && leq(s[i], s[j]) ==> finer(s[i], s[j])
    ensures SortedBy(finer, StableSort(leq, s))
  {
    if s != [] {
      var sorted := StableSort(leq, s[1..]);
      StableSortKeeps(leq, finer, s[1..]);
      StableSortSorts(leq, s[1..]);
      StableSortPermutes(leq, s[1..]);
      PermutationMembers(sorted, s[1..]);
      forall y | y in sorted
        ensures if leq(s[0], y) then finer(s[0], y) else finer(y, s[0])
      {
        var j :| 0 <= j < |s[1..]| && s[1..][j] == y;
        assert s[j + 1] == y && y in s && s[0] in s;
      }
      InsertSortedKeeps(leq, finer, s[0], sorted);
    }
  }

  lemma StableSortIsStable<T(!new)>(leq: (T, T) -> bool, s: seq<T>)
    requires TotalPreorder(leq) && Distinct(s)
    ensures SortedBy(Stably(leq, s), StableSort(leq, s))
    ensures Antisymmetric(Stably(leq, s), s)
  {
    forall i, j | 0 <= i < j < |s| && leq(s[i], s[j])
      ensures Stably(leq, s)(s[i], s[j])
    {
      PositionOf(s, i);
      PositionOf(s, j);
    }
    StableSortKeeps(leq, Stably(leq, s), s);
    forall x, y | x in s && y in s && Stably(leq, s)(x, y) && Stably(leq, s)(y, x)
      ensures x == y
    {
      var i :| 0 <= i < |s| && s[i] == x;
      var j :| 0 <= j < |s| && s[j] == y;
      PositionOf(s, i);
      PositionOf(s, j);
    }
  }

  /** The first rows of all the matches, sorted, up to the limit: what is omitted would come after them. */
  ghost predicate Top<T(!new)>(rows: seq<T>, leq: (T, T) -> bool, matches: seq<T>, limit: nat) {
    && |rows| == (if limit < |matches| then limit else |matches|)
    && exists omitted :: Completes(rows, leq, matches, omitted)
  }

  ghost predicate Completes<T(!new)>(rows: seq<T>, leq: (T, T) -> bool, matches: seq<T>, omitted: seq<T>) {
    multiset(rows + omitted) == multiset(matches) && SortedBy(leq, rows + omitted)
  }

  lemma TakenIsPrefix<T>(s: seq<T>, limit: nat)
    ensures
      var rows := Take(s, limit);
      |rows| == (if limit < |s| then limit else |s|) && rows + s[|rows|..] == s
  {
  }

  lemma TakenIsTop<T(!new)>(leq: (T, T) -> bool, matches: seq<T>, limit: nat)
    requires TotalPreorder(leq)
    ensures Top(Take(StableSort(leq, matches), limit), leq, matches, limit)
  {
    var sorted := StableSort(leq, matches);
    var rows := Take(sorted, limit);
    StableSortPermutes(leq, matches);
    StableSortSorts(leq, matches);
    TakenIsPrefix(sorted, limit);
    assert Completes(rows, leq, matches, sorted[|rows|..]);
  }

  lemma TopMatches<T(!new)>(rows: seq<T>, leq: (T, T) -> bool, matches: seq<T>, limit: nat)
    requires Top(rows, leq, matches, limit)
    ensures forall x :: x in rows ==> x in matches
  {
    var omitted :| Completes(rows, leq, matches, omitted);
    PermutationMembers(rows + omitted, matches);
    assert forall x :: x in rows ==> x in rows + omitted;
  }

  /** A list that is already in order is left as it is. */
  lemma {:induction false} SortingSortedIsIdentity<T(!new)>(leq: (T, T) -> bool, s: seq<T>)
    requires SortedBy(leq, s)
    ensures StableSort(leq, s) == s
  {
    if s != [] {
      SortingSortedIsIdentity(leq, s[1..]);
      if |s| > 1 {
        assert leq(s[0], s[1]);
      }
      assert s == [s[0]] + s[1..];
    }
  }

  lemma PermutationMembers<T>(a: seq<T>, b: seq<T>)
    requires multiset(a) == multiset(b)
    ensures |a| == |b|
    ensures forall x :: x in a <==> x in b
  {
    assert |multiset(a)| == |a| && |multiset(b)| == |b|;
    forall x
      ensures x in a <==> x in b
    {
      assert x in a <==> x in multiset(a);
      assert x in b <==> x in multiset(b);
    }
  }

  lemma RemoveOne<T>(s: seq<T>, j: nat)
    requires j < |s|
    ensures multiset(s[..j] + s[j + 1..]) == multiset(s) - multiset{s[j]}
  {
    assert s == s[..j] + [s[j]] + s[j + 1..];
  }

  lemma SortedHeadsEqual<T(!new)>(leq: (T, T) -> bool, a: seq<T>, b: seq<T>)
    requires a != [] && b != []
    requires b[0] in a && a[0] in b
    requires SortedBy(leq, a) && SortedBy(leq, b)
    requires Antisymmetric(leq, a)
    ensures a[0] == b[0]
  {
    var i :| 0 <= i < |b| && b[i] == a[0];
    var j :| 0 <= j < |a| && a[j] == b[0];
    assert i == 0 || leq(b[0], b[i]);
    assert j == 0 || leq(a[0], a[j]);
  }

  lemma TailOf<T>(s: seq<T>)
    requires s != []
    ensures s == [s[0]] + s[1..]
    ensures multiset(s[1..]) == multiset(s) - multiset{s[0]}
    ensures forall x :: x in s[1..] ==> x in s
  {
    RemoveOne(s, 0);
    assert s[..0] + s[1..] == s[1..];
  }

  /** Two sorted permutations of each other are equal when the order never ties two different elements. */
  lemma {:induction false} SortedPermutationsEqual<T(!new)>(leq: (T, T) -> bool, a: seq<T>, b: seq<T>)
    requires multiset(a) == multiset(b)
    requires SortedBy(leq, a) && SortedBy(leq, b)
    requires Antisymmetric(leq, a)
    ensures a == b
  {
    PermutationMembers(a, b);
    if a != [] {
      SortedHeadsEqual(leq, a, b);
      TailOf(a);
      TailOf(b);
      var a', b' := a[1..], b[1..];
      assert multiset(a') == multiset(b');
      SortedPermutationsEqual(leq, a', b');
    }
  }

  lemma MapMembers<T, U>(f: T -> U, s: seq<T>, y: U)
    ensures y in Map(f, s) <==> exists x :: x in s && f(x) == y
  {
    var mapped := Map(f, s);
    if y in mapped {
      var i :| 0 <= i < |mapped| && mapped[i] == y;
      assert s[i] in s;
    }
    forall x | x in s && f(x) == y
      ensures y in mapped
    {
      var i :| 0 <= i < |s| && s[i] == x;
      assert mapped[i] == y;
    }
  }

  lemma MapAppend<T, U>(f: T -> U, a: seq<T>, b: seq<T>)
    ensures Map(f, a + b) == Map(f, a) + Map(f, b)
  {
  }

  lemma {:induction false} MapPermutes<T, U>(f: T -> U, a: seq<T>, b: seq<T>)
    requires multiset(a) == multiset(b)
    ensures multiset(Map(f, a)) == multiset(Map(f, b))
  {
    PermutationMembers(a, b);
    if a != [] {
      assert a[0] in b;
      var j :| 0 <= j < |b| && b[j] == a[0];
      RemoveOne(b, j);
      TailOf(a);
      MapPermutes(f, a[1..], b[..j] + b[j + 1..]);
      MapWithout(f, b, j);
      MapTail(f, a);
    }
  }

  lemma MapTail<T, U>(f: T -> U, s: seq<T>)
    requires s != []
    ensures multiset(Map(f, s[1..])) == multiset(Map(f, s)) - multiset{f(s[0])}
  {
    TailOf(Map(f, s));
    assert Map(f, s)[1..] == Map(f, s[1..]);
  }

  lemma {:induction false} MapSlices<T, U>(f: T -> U, s: seq<T>, j: nat)
    requires j < |s|
    ensures Map(f, s[..j] + s[j + 1..]) == Map(f, s)[..j] + Map(f, s)[j + 1..]
  {
  }

  lemma MapWithout<T, U>(f: T -> U, s: seq<T>, j: nat)
    requires j < |s|
    ensures multiset(Map(f, s[..j] + s[j + 1..])) == multiset(Map(f, s)) - multiset{f(s[j])}
  {
    RemoveOne(Map(f, s), j);
    MapSlices(f, s, j);
  }

  /** Two permutations sorted consistently with an order on a projection agree on the projection,
      whatever either does with elements that the projection does not tell apart. */
  lemma SortedPermutationsAgreeOn<T, K(!new)>(project: T -> K, leq: (K, K) -> bool, a: seq<T>, b: seq<T>)
    requires multiset(a) == multiset(b)
    requires SortedBy(leq, Map(project, a)) && SortedBy(leq, Map(project, b))
    requires Antisymmetric(leq, Map(project, a))
    ensures Map(project, a) == Map(project, b)
  {
    MapPermutes(project, a, b);
    SortedPermutationsEqual(leq, Map(project, a), Map(project, b));
  }

  lemma DistinctAppend<T>(a: seq<T>, b: seq<T>)
    requires Distinct(a) && Distinct(b) && forall x :: x in a ==> x !in b
    ensures Distinct(a + b)
    ensures forall x :: x in a + b <==> x in a || x in b
  {
    forall i, j | 0 <= i < j < |a + b|
      ensures (a + b)[i] != (a + b)[j]
    {
      if i < |a| <= j {
        assert a[i] in a && b[j - |a|] in b;
      }
    }
  }

  lemma {:induction false} DistinctMultiplicity<T>(s: seq<T>, x: T)
    requires Distinct(s)
    ensures multiset(s)[x] == if x in s then 1 else 0
  {
    if s != [] {
      assert s == [s[0]] + s[1..];
      assert s[0] !in s[1..];
      DistinctMultiplicity(s[1..], x);
    }
  }

  lemma PermutationDistinct<T>(a: seq<T>, b: seq<T>)
    requires Distinct(a) && multiset(a) == multiset(b)
    ensures Distinct(b)
  {
    forall i, j | 0 <= i < j < |b|
      ensures b[i] != b[j]
    {
      DistinctMultiplicity(a, b[i]);
      assert b == b[..j] + [b[j]] + b[j + 1..];
      assert b[i] in b[..j];
    }
  }

  lemma DistinctSameMembersPermute<T>(a: seq<T>, b: seq<T>)
    requires Distinct(a) && Distinct(b)
    requires forall x :: x in a <==> x in b
    ensures multiset(a) == multiset(b)
  {
    forall x
      ensures multiset(a)[x] == multiset(b)[x]
    {
      DistinctMultiplicity(a, x);
      DistinctMultiplicity(b, x);
    }
  }

  lemma {:induction false} FilterDistinct<T(!new)>(keep: T -> bool, s: seq<T>)
    requires Distinct(s)
    ensures Distinct(Filter(keep, s))
  {
    if s != [] {
      FilterDistinct(keep, s[1..]);
      assert s[0] !in s[1..];
    }
  }

  lemma {:induction false} FilterSorted<T(!new)>(leq: (T, T) -> bool, keep: T -> bool, s: seq<T>)
    requires SortedBy(leq, s)
    ensures SortedBy(leq, Filter(keep, s))
  {
    if s != [] {
      FilterSorted(leq, keep, s[1..]);
      var rest := Filter(keep, s[1..]);
      forall i | 0 <= i < |rest|
        ensures leq(s[0], rest[i])
      {
        assert rest[i] in s[1..];
      }
    }
  }

  lemma {:induction false} FilterAppend<T(!new)>(keep: T -> bool, a: seq<T>, b: seq<T>)
    ensures Filter(keep, a + b) == Filter(keep, a) + Filter(keep, b)
  {
    if a == [] {
      assert a + b == b;
    } else {
      assert (a + b)[1..] == a[1..] + b;
      FilterAppend(keep, a[1..], b);
    }
  }

  lemma {:induction false} FilterWithout<T(!new)>(keep: T -> bool, s: seq<T>, j: nat)
    requires j < |s|
    ensures multiset(Filter(keep, s)) ==
            multiset(Filter(keep, s[..j] + s[j + 1..])) + multiset(if keep(s[j]) then [s[j]] else [])
  {
    assert s == s[..j] + ([s[j]] + s[j + 1..]);
    FilterAppend(keep, s[..j], [s[j]] + s[j + 1..]);
    FilterAppend(keep, s[..j], s[j + 1..]);
  }

  lemma {:induction false} FilterPermutes<T(!new)>(keep: T -> bool, a: seq<T>, b: seq<T>)
    requires multiset(a) == multiset(b)
    ensures multiset(Filter(keep, a)) == multiset(Filter(keep, b))
  {
    PermutationMembers(a, b);
    if a != [] {
      assert a[0] in b;
      var j :| 0 <= j < |b| && b[j] == a[0];
      RemoveOne(b, j);
      TailOf(a);
      FilterPermutes(keep, a[1..], b[..j] + b[j + 1..]);
      FilterWithout(keep, b, j);
    }
  }

  lemma {:induction false} DistinctSize<T>(s: seq<T>)
    requires Distinct(s)
    ensures |set x | x in s| == |s|
  {
    var members := set x | x in s;
    if s == [] {
      assert members == {};
    } else {
      var init, last := s[..|s| - 1], s[|s| - 1];
      DistinctSize(init);
      assert last !in init;
      assert members == (set x | x in init) + {last};
    }
  }

  /** The positions of the elements that pass. */
  ghost function Kept<T(!new)>(keep: T -> bool, s: seq<T>): set<nat> {
    set i: nat | i < |s| && keep(s[i])
  }

  lemma KeptStep<T(!new)>(keep: T -> bool, s: seq<T>)
    requires s != []
    ensures |Kept(keep, s)| == |Kept(keep, s[..|s| - 1])| + if keep(s[|s| - 1]) then 1 else 0
  {
    var n := |s| - 1;
    var before := Kept(keep, s[..n]);
    assert forall i: nat :: i < n ==> s[..n][i] == s[i];
    assert Kept(keep, s) == before + if keep(s[n]) then {n} else {};
  }

  lemma FilterStep<T(!new)>(keep: T -> bool, s: seq<T>)
    requires s != []
    ensures |Filter(keep, s)| == |Filter(keep, s[..|s| - 1])| + if keep(s[|s| - 1]) then 1 else 0
  {
    var init, last := s[..|s| - 1], [s[|s| - 1]];
    assert s == init + last;
    FilterAppend(keep, init, last);
  }

  lemma {:induction false} FilterCounts<T(!new)>(keep: T -> bool, s: seq<T>)
    ensures |Filter(keep, s)| == |Kept(keep, s)|
  {
    if s != [] {
      FilterCounts(keep, s[..|s| - 1]);
      FilterStep(keep, s);
      KeptStep(keep, s);
    }
  }

  lemma TakeMap<T, U>(f: T -> U, s: seq<T>, limit: nat)
    ensures Map(f, Take(s, limit)) == Take(Map(f, s), limit)
  {
  }
}
