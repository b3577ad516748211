/** What a replay stores: every row of the dataset once, kind by kind in the dataset's order, and nothing else. */
module Replays {
  import opened Rows
  import opened QueryHits
  import Lists
  import R = Rocks

  function Concat(parts: seq<seq<Put>>): seq<Put> {
    if parts == [] then [] else parts[0] + Concat(parts[1..])
  }

  ghost predicate Only(keep: Put -> bool, puts: seq<Put>) {
    forall p :: p in puts ==> keep(p)
  }

  ghost predicate Never(keep: Put -> bool, puts: seq<Put>) {
    forall p :: p in puts ==> !keep(p)
  }

  lemma {:induction false} NoneKept(keep: Put -> bool, parts: seq<seq<Put>>)
    requires forall i :: 0 <= i < |parts| ==> Never(keep, parts[i])
    ensures Lists.Filter(keep, Concat(parts)) == []
  {
    if parts != [] {
      NoneKept(keep, parts[1..]);
      Lists.FilterAppend(keep, parts[0], Concat(parts[1..]));
      R.FilterNone(keep, parts[0]);
    }
  }

  /** If one part alone is of a kind, it is what there is of that kind. */
  lemma {:induction false} OneKept(keep: Put -> bool, parts: seq<seq<Put>>, k: nat)
    requires k < |parts| && Only(keep, parts[k])
    requires forall i :: 0 <= i < |parts| && i != k ==> Never(keep, parts[i])
    ensures Lists.Filter(keep, Concat(parts)) == parts[k]
  {
    Lists.FilterAppend(keep, parts[0], Concat(parts[1..]));
    if k == 0 {
      NoneKept(keep, parts[1..]);
      R.FilterAll(keep, parts[0]);
      assert parts[0] + [] == parts[0];
    } else {
      OneKept(keep, parts[1..], k - 1);
      R.FilterNone(keep, parts[0]);
      assert [] + parts[k] == parts[k];
    }
  }

  /** The rows of a dataset as puts, kind by kind. */
  function Kinds(d: Dataset): seq<seq<Put>> {
    [Lists.Map((r: TxRow) => PutTx(r), d.txs), Lists.Map((r: NormalizedEvent) => PutEvent(r), d.events),
     Lists.Map((r: FillRow) => PutFill(r), d.fills), Lists.Map((r: OrderRow) => PutOrder(r), d.orders),
     Lists.Map((r: PositionRow) => PutPosition(r), d.positions),
     Lists.Map((r: BuilderRow) => PutBuilder(r), d.builders),
     Lists.Map((r: ActivityRow) => PutActivity(r), d.activities), [PutCheckpoint(d.checkpoint)]]
  }

  function Kind(put: Put): nat {
    match put
    case PutTx(_) => 0
    case PutEvent(_) => 1
    case PutFill(_) => 2
    case PutOrder(_) => 3
    case PutPosition(_) => 4
    case PutBuilder(_) => 5
    case PutActivity(_) => 6
    case PutCheckpoint(_) => 7
  }

  lemma KindsAreApart(d: Dataset, i: nat)
    requires i < 8
    ensures |Kinds(d)| == 8
    ensures forall p :: p in Kinds(d)[i] ==> Kind(p) == i
  {
  }

  lemma ConcatOfTwo(a: seq<Put>, b: seq<Put>)
    ensures Concat([a, b]) == a + b
  {
    assert [a, b][1..] == [b] && [b][1..] == [];
    assert Concat([b]) == b + [];
  }

  lemma ConcatOfFour(a: seq<Put>, b: seq<Put>, c: seq<Put>, d: seq<Put>)
    ensures Concat([a, b, c, d]) == a + b + (c + d)
  {
    assert [a, b, c, d] == [a, b] + [c, d];
    ConcatAppend([a, b], [c, d]);
    ConcatOfTwo(a, b);
    ConcatOfTwo(c, d);
  }

  lemma {:induction false} ConcatAppend(parts: seq<seq<Put>>, more: seq<seq<Put>>)
    ensures Concat(parts + more) == Concat(parts) + Concat(more)
  {
    if parts == [] {
      assert parts + more == more;
    } else {
      assert (parts + more)[1..] == parts[1..] + more;
      ConcatAppend(parts[1..], more);
    }
  }

  lemma ConcatOfEight(a: seq<Put>, b: seq<Put>, c: seq<Put>, d: seq<Put>, e: seq<Put>, f: seq<Put>, g: seq<Put>,
                      h: seq<Put>)
    ensures Concat([a, b, c, d, e, f, g, h]) == a + b + c + (d + e + f + g + h)
  {
    assert [a, b, c, d, e, f, g, h] == [a, b, c, d] + [e, f, g, h];
    ConcatAppend([a, b, c, d], [e, f, g, h]);
    ConcatOfFour(a, b, c, d);
    ConcatOfFour(e, f, g, h);
    Lists.AppendAssociative(a + b, c, d);
    Lists.AppendAssociative(a + b + c, d, e + f + (g + h));
    assert d + (e + f + (g + h)) == d + e + f + g + h;
  }

  lemma PutsAreKinds(d: Dataset)
    ensures Concat(Kinds(d)) == PutsOf(d)
  {
    var parts := Kinds(d);
    ConcatOfEight(parts[0], parts[1], parts[2], parts[3], parts[4], parts[5], parts[6], parts[7]);
  }

  /** Of each kind a replay puts exactly the dataset's rows, each once and in order. */
  lemma ReplayPutsKinds(d: Dataset, k: nat)
    requires k < 8
    ensures Lists.Filter((p: Put) => Kind(p) == k, PutsOf(d)) == Kinds(d)[k]
  {
    var parts := Kinds(d);
    PutsAreKinds(d);
    forall i: nat | i < 8
      ensures forall p :: p in parts[i] ==> Kind(p) == i
    {
      KindsAreApart(d, i);
    }
    OneKept((p: Put) => Kind(p) == k, parts, k);
  }
}
