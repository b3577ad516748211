/** The benchmark's query workers, which share the iterations by striding over them. */
module BenchWorkers {
  import opened Prelude
  import opened Division
  import opened QueryCorpus
  import opened QueryHits
  import Lists

  datatype AccessPattern = Sequential | Uniform | Zipfian

  const MULTIPLIER: u64 := 6_364_136_223_846_793_005

  function NextState(state: u64): u64 {
    (state * MULTIPLIER + 1) % U64_LIMIT
  }

  class DeterministicRng {
    var state: u64

    constructor (seed: u64)
      ensures state == FirstState(seed) == if seed == 0 then 1 else seed
    {
      state := if seed < 1 then 1 else seed;
    }

    method NextU64() returns (r: u64)
      modifies this
      ensures r == state == NextState(old(state))
    {
      state := (state * MULTIPLIER + 1) % U64_LIMIT;
      r := state;
    }

    method NextUsize(upper: nat) returns (r: nat)
      modifies this
      ensures upper > 0 ==> r < upper
      ensures upper <= 1 ==> r == 0 && state == old(state)
      ensures upper > 1 ==> state == NextState(old(state)) && r == state % upper
    {
      if upper <= 1 {
        return 0;
      }
      var next := NextU64();
      r := next % upper;
    }

    /** Over the reals the bound that the code takes to be safe never cuts anything off. */
    method NextZipfLike(upper: nat) returns (r: nat)
      modifies this
      ensures upper > 0 ==> r < upper
      ensures upper <= 1 ==> r == 0 && state == old(state)
      ensures upper > 1 ==> state == NextState(old(state)) && r == Skewed(Unit(state), upper)
    {
      if upper <= 1 {
        return 0;
      }
      var next := NextU64();
      var position := Skewed(Unit(next), upper);
      r := if position < upper - 1 then position else upper - 1;
    }
  }

  /** A seed of zero counts as one. */
  function FirstState(seed: u64): u64 {
    if seed == 0 then 1 else seed
  }

  /** The state after `n` numbers. */
  function StateAfter(seed: u64, n: nat): u64 {
    if n == 0 then FirstState(seed) else NextState(StateAfter(seed, n - 1))
  }

  /** The upper 53 bits of a number, as a fraction below one. */
  function Unit(n: u64): (unit: real)
    ensures 0.0 <= unit < 1.0
    ensures 0.0 <= n as real - unit * 18_446_744_073_709_551_616.0 < 2048.0
  {
    (n / 2048) as real / 9_007_199_254_740_992.0
  }

  lemma ProductBelow(a: real, b: real)
    requires 0.0 <= a < 1.0 && 0.0 < b
    ensures 0.0 <= a * b < b
  {
    assert b - a * b == (1.0 - a) * b;
  }

  function Cube(unit: real): (cube: real)
    requires 0.0 <= unit < 1.0
    ensures cube == unit * unit * unit && 0.0 <= cube < 1.0
  {
    CubeBelow(unit);
    unit * unit * unit
  }

  lemma CubeBelow(unit: real)
    requires 0.0 <= unit < 1.0
    ensures 0.0 <= unit * unit * unit < 1.0
  {
    if unit == 0.0 {
      assert unit * unit == 0.0;
    } else {
      ProductBelow(unit, unit);
      ProductBelow(unit * unit, unit);
    }
  }

  function Scaled(fraction: real, upper: nat): (x: real)
    requires 0.0 <= fraction < 1.0 && upper > 0
    ensures x == fraction * upper as real && 0.0 <= x < upper as real
  {
    ProductBelow(fraction, upper as real);
    fraction * upper as real
  }

  function WholePart(x: real, upper: nat): (n: nat)
    requires 0.0 <= x < upper as real
    ensures n as real <= x < n as real + 1.0 && n < upper
  {
    x.Floor
  }

  /** The cube of a fraction below one, as a position within a length. */
  function Skewed(unit: real, upper: nat): (position: nat)
    requires 0.0 <= unit < 1.0 && upper > 0
    ensures position < upper
    ensures position as real <= Scaled(Cube(unit), upper) < position as real + 1.0
  {
    WholePart(Scaled(Cube(unit), upper), upper)
  }

  /** The record that an iteration queries: in turn, at random, or at random with a bias to the front. */
  function IndexAt(pattern: AccessPattern, state: u64, iteration: nat, corpusLen: nat): (r: nat)
    requires corpusLen > 0
    ensures r < corpusLen
  {
    if pattern == Sequential then iteration % corpusLen
    else if corpusLen == 1 then 0
    else if pattern == Uniform then state % corpusLen
    else Skewed(Unit(state), corpusLen)
  }

  /** The state of a generator that has chosen `n` records. A choice without alternatives takes no number. */
  function ChosenState(pattern: AccessPattern, seed: u64, n: nat, corpusLen: nat): u64 {
    if pattern == Sequential || corpusLen == 1 then FirstState(seed) else StateAfter(seed, n)
  }

  /** The record that the `n`-th choice of a generator falls on. */
  function Choice(pattern: AccessPattern, seed: u64, n: nat, iteration: nat, corpusLen: nat): (r: nat)
    requires corpusLen > 0
    ensures r < corpusLen
  {
    IndexAt(pattern, StateAfter(seed, n + 1), iteration, corpusLen)
  }

  method QueryIndex(pattern: AccessPattern, sequentialIdx: nat, corpusLen: nat, rng: DeterministicRng, ghost seed: u64,
                    ghost n: nat) returns (r: nat)
    requires corpusLen > 0 && rng.state == ChosenState(pattern, seed, n, corpusLen)
    modifies rng
    ensures r == Choice(pattern, seed, n, sequentialIdx, corpusLen)
    ensures rng.state == ChosenState(pattern, seed, n + 1, corpusLen)
  {
    match pattern
    case Uniform => r := rng.NextUsize(corpusLen);
    case Zipfian => r := rng.NextZipfLike(corpusLen);
    case Sequential => r := sequentialIdx % corpusLen;
  }

  // One worker.

  predicate Turn(i: nat, concurrency: nat, worker: nat)
    requires concurrency > 0
  {
    i % concurrency == worker
  }

  /** Exactly the iterations of one residue class, each once. */
  ghost predicate Share(executed: seq<nat>, iterations: nat, concurrency: nat, worker: nat)
    requires concurrency > 0
  {
    && Lists.Distinct(executed)
    && forall i: nat :: i in executed <==> i < iterations && Turn(i, concurrency, worker)
  }

  lemma NextInClass(idx: nat, i: nat, concurrency: nat)
    requires concurrency > 0 && idx < i <= idx + concurrency
    ensures i % concurrency == idx % concurrency <==> i == idx + concurrency
  {
    var q, s, r := idx / concurrency, idx % concurrency, i - idx;
    assert idx == q * concurrency + s;
    assert (q + 1) * concurrency == q * concurrency + concurrency;
    if s + r < concurrency {
      DivisionUnique(i, concurrency, q, s + r);
    } else {
      DivisionUnique(i, concurrency, q + 1, s + r - concurrency);
    }
  }

  lemma FirstInClass(i: nat, concurrency: nat)
    requires i < concurrency
    ensures i % concurrency == i
  {
    DivisionUnique(i, concurrency, 0, i);
  }

  /** The worker's share of the iterations below `idx`. */
  ghost predicate ShareBelow(executed: seq<nat>, idx: nat, iterations: nat, concurrency: nat, worker: nat)
    requires concurrency > 0
  {
    && Lists.Distinct(executed)
    && forall i: nat :: i in executed <==> i < idx && i < iterations && Turn(i, concurrency, worker)
  }

  lemma NothingBelowFirst(executed: seq<nat>, iterations: nat, concurrency: nat, worker: nat)
    requires worker < concurrency && executed == []
    ensures ShareBelow(executed, worker, iterations, concurrency, worker)
  {
    forall i: nat | i < worker
      ensures !Turn(i, concurrency, worker)
    {
      FirstInClass(i, concurrency);
    }
    assert forall i: nat :: i < worker ==> !Turn(i, concurrency, worker);
  }

  lemma ShareGrows(executed: seq<nat>, idx: nat, iterations: nat, concurrency: nat, worker: nat)
    requires concurrency > 0 && idx < iterations && idx % concurrency == worker
    requires ShareBelow(executed, idx, iterations, concurrency, worker)
    ensures ShareBelow(executed + [idx], idx + concurrency, iterations, concurrency, worker)
    ensures (idx + concurrency) % concurrency == worker
  {
    NextInClass(idx, idx + concurrency, concurrency);
    Lists.DistinctAppend(executed, [idx]);
    forall i: nat | idx < i < idx + concurrency
      ensures !Turn(i, concurrency, worker)
    {
      NextInClass(idx, i, concurrency);
    }
  }

  /** Whether the query at a position of the corpus fails. */
  ghost function Failing(engine: Engine, corpus: seq<QueryRecord>): nat -> bool {
    (q: nat) => q < |corpus| && Execute(engine, corpus[q]).Err?
  }

  /** How many of the queries fail. */
  ghost function Failures(engine: Engine, corpus: seq<QueryRecord>, queried: seq<nat>): nat {
    |Lists.Kept(Failing(engine, corpus), queried)|
  }

  lemma FailuresAppend(engine: Engine, corpus: seq<QueryRecord>, queried: seq<nat>, q: nat)
    ensures Failures(engine, corpus, queried + [q]) ==
            Failures(engine, corpus, queried) + if Failing(engine, corpus)(q) then 1 else 0
  {
    assert (queried + [q])[..|queried|] == queried;
    Lists.KeptStep(Failing(engine, corpus), queried + [q]);
  }

  /** The records a worker queries, one for each iteration it executes. */
  ghost predicate Queries(queried: seq<nat>, executed: seq<nat>, pattern: AccessPattern, seed: u64, corpusLen: nat)
    requires corpusLen > 0
  {
    && |queried| == |executed|
    && forall k: nat :: k < |queried| ==> queried[k] == Choice(pattern, seed, k, executed[k], corpusLen)
  }

  /** A worker that has executed some iterations, whose generator has chosen as many records. */
  ghost predicate Working(engine: Engine, corpus: seq<QueryRecord>, pattern: AccessPattern, seed: u64, state: u64,
                          operations: nat, errors: nat, executed: seq<nat>, queried: seq<nat>)
    requires corpus != []
  {
    && state == ChosenState(pattern, seed, |queried|, |corpus|)
    && operations == |executed| && errors == Failures(engine, corpus, queried)
    && Queries(queried, executed, pattern, seed, |corpus|)
  }

  lemma WorksOn(engine: Engine, corpus: seq<QueryRecord>, pattern: AccessPattern, seed: u64, state: u64, next: u64,
                operations: nat, errors: nat, executed: seq<nat>, queried: seq<nat>, iteration: nat, q: nat)
    requires corpus != [] && Working(engine, corpus, pattern, seed, state, operations, errors, executed, queried)
    requires q == Choice(pattern, seed, |queried|, iteration, |corpus|)
    requires next == ChosenState(pattern, seed, |queried| + 1, |corpus|)
    ensures Working(engine, corpus, pattern, seed, next, operations + 1,
                    errors + if Execute(engine, corpus[q]).Err? then 1 else 0, executed + [iteration], queried + [q])
  {
    FailuresAppend(engine, corpus, queried, q);
    QueriesAppend(queried, executed, pattern, seed, |corpus|, iteration, q);
  }

  lemma QueriesAppend(queried: seq<nat>, executed: seq<nat>, pattern: AccessPattern, seed: u64, corpusLen: nat,
                      iteration: nat, q: nat)
    requires corpusLen > 0 && Queries(queried, executed, pattern, seed, corpusLen)
    requires q == Choice(pattern, seed, |queried|, iteration, corpusLen)
    ensures Queries(queried + [q], executed + [iteration], pattern, seed, corpusLen)
  {
  }

  lemma NothingFails(engine: Engine, corpus: seq<QueryRecord>)
    ensures Failures(engine, corpus, []) == 0
  {
    assert Lists.Kept(Failing(engine, corpus), []) == {};
  }

  method MeasureQueryWorker(engine: Engine, corpus: seq<QueryRecord>, iterations: nat, concurrency: nat, worker: nat,
                            pattern: AccessPattern, seed: u64)
    returns (operations: nat, errors: nat, ghost executed: seq<nat>, ghost queried: seq<nat>)
    requires corpus != [] && worker < concurrency
    ensures operations == |executed| && Share(executed, iterations, concurrency, worker)
    ensures Queries(queried, executed, pattern, seed, |corpus|)
    ensures errors == Failures(engine, corpus, queried)
  {
    var rng := new DeterministicRng(seed);
    operations, errors, executed, queried := 0, 0, [], [];
    var idx := worker;
    FirstInClass(worker, concurrency);
    NothingBelowFirst(executed, iterations, concurrency, worker);
    NothingFails(engine, corpus);
    while idx < iterations
      invariant fresh(rng) && idx % concurrency == worker
      invariant Working(engine, corpus, pattern, seed, rng.state, operations, errors, executed, queried)
      invariant ShareBelow(executed, idx, iterations, concurrency, worker)
      decreases iterations - idx
    {
      ghost var state := rng.state;
      var recordIdx := QueryIndex(pattern, idx, |corpus|, rng, seed, |queried|);
      WorksOn(engine, corpus, pattern, seed, state, rng.state, operations, errors, executed, queried, idx, recordIdx);
      ShareGrows(executed, idx, iterations, concurrency, worker);
      executed, queried := executed + [idx], queried + [recordIdx];
      var record := corpus[recordIdx];
      if Execute(engine, record).Err? {
        errors := errors + 1;
      }
      operations := operations + 1;
      idx := idx + concurrency;
    }
    ShareIsDone(executed, idx, iterations, concurrency, worker);
  }

  lemma ShareIsDone(executed: seq<nat>, idx: nat, iterations: nat, concurrency: nat, worker: nat)
    requires concurrency > 0 && idx >= iterations
    requires ShareBelow(executed, idx, iterations, concurrency, worker)
    ensures Share(executed, iterations, concurrency, worker)
  {
  }

  // All workers.

  function Flatten(parts: seq<seq<nat>>): seq<nat> {
    if parts == [] then [] else Flatten(parts[..|parts| - 1]) + parts[|parts| - 1]
  }

  function UpTo(n: nat): seq<nat> {
    seq(n, i => i)
  }

  ghost predicate Shares(parts: seq<seq<nat>>, iterations: nat, concurrency: nat)
    requires concurrency > 0
  {
    forall w: nat :: w < |parts| ==> Share(parts[w], iterations, concurrency, w)
  }

  lemma {:induction false} SharesFlatten(parts: seq<seq<nat>>, iterations: nat, concurrency: nat)
    requires concurrency > 0 && |parts| <= concurrency && Shares(parts, iterations, concurrency)
    ensures Lists.Distinct(Flatten(parts))
    ensures forall i: nat :: i in Flatten(parts) <==> i < iterations && i % concurrency < |parts|
  {
    if parts != [] {
      var init, last := parts[..|parts| - 1], parts[|parts| - 1];
      assert Shares(init, iterations, concurrency);
      SharesFlatten(init, iterations, concurrency);
      assert Share(last, iterations, concurrency, |init|);
      Lists.DistinctAppend(Flatten(init), last);
    }
  }

  /** The workers' shares are the iterations, cut up: none is missed and none is done twice. */
  lemma WorkersPartition(parts: seq<seq<nat>>, iterations: nat, concurrency: nat)
    requires concurrency > 0 && |parts| == concurrency && Shares(parts, iterations, concurrency)
    ensures multiset(Flatten(parts)) == multiset(UpTo(iterations))
    ensures |Flatten(parts)| == iterations
  {
    SharesFlatten(parts, iterations, concurrency);
    forall i: nat
      ensures i in Flatten(parts) <==> i in UpTo(iterations)
    {
      assert i < iterations ==> UpTo(iterations)[i] == i;
    }
    Lists.DistinctSameMembersPermute(Flatten(parts), UpTo(iterations));
    Lists.PermutationMembers(Flatten(parts), UpTo(iterations));
  }

  datatype WorkerResult = WorkerResult(operations: nat, errors: nat)

  function Operations(results: seq<WorkerResult>): nat {
    if results == [] then 0 else Operations(results[..|results| - 1]) + results[|results| - 1].operations
  }

  function Errors(results: seq<WorkerResult>): nat {
    if results == [] then 0 else Errors(results[..|results| - 1]) + results[|results| - 1].errors
  }

  method FinishQueryResults(results: seq<WorkerResult>) returns (merged: WorkerResult)
    ensures merged == WorkerResult(Operations(results), Errors(results))
  {
    var operations, errors := 0, 0;
    for i := 0 to |results|
      invariant operations == Operations(results[..i]) && errors == Errors(results[..i])
    {
      assert results[..i + 1][..i] == results[..i];
      operations := operations + results[i].operations;
      errors := errors + results[i].errors;
    }
    assert results[..|results|] == results;
    merged := WorkerResult(operations, errors);
  }

  lemma ResultsAppend(results: seq<WorkerResult>, more: WorkerResult)
    ensures Operations(results + [more]) == Operations(results) + more.operations
    ensures Errors(results + [more]) == Errors(results) + more.errors
  {
    assert (results + [more])[..|results|] == results;
  }

  lemma FlattenAppend(parts: seq<seq<nat>>, part: seq<nat>)
    ensures Flatten(parts + [part]) == Flatten(parts) + part
  {
    assert (parts + [part])[..|parts|] == parts;
  }

  // Which queries fail, over all workers.

  ghost predicate AllQueries(queries: seq<seq<nat>>, parts: seq<seq<nat>>, pattern: AccessPattern,
                             workerSeed: nat -> u64, corpusLen: nat)
    requires corpusLen > 0
  {
    && |queries| == |parts|
    && forall w: nat :: w < |parts| ==> Queries(queries[w], parts[w], pattern, workerSeed(w), corpusLen)
  }

  lemma FailuresConcat(engine: Engine, corpus: seq<QueryRecord>, a: seq<nat>, b: seq<nat>)
    ensures Failures(engine, corpus, a + b) == Failures(engine, corpus, a) + Failures(engine, corpus, b)
  {
    var failing := Failing(engine, corpus);
    Lists.FilterCounts(failing, a);
    Lists.FilterCounts(failing, b);
    Lists.FilterCounts(failing, a + b);
    Lists.FilterAppend(failing, a, b);
  }

  lemma {:induction false} SequentialFlatten(queries: seq<seq<nat>>, parts: seq<seq<nat>>, workerSeed: nat -> u64,
                                             corpusLen: nat)
    requires corpusLen > 0 && AllQueries(queries, parts, Sequential, workerSeed, corpusLen)
    ensures Flatten(queries) == Lists.Map((i: nat) => i % corpusLen, Flatten(parts))
  {
    if parts != [] {
      var n := |parts| - 1;
      var inTurn := (i: nat) => i % corpusLen;
      assert forall w: nat :: w < n ==> queries[..n][w] == queries[w] && parts[..n][w] == parts[w];
      SequentialFlatten(queries[..n], parts[..n], workerSeed, corpusLen);
      assert Queries(queries[n], parts[n], Sequential, workerSeed(n), corpusLen);
      assert queries[n] == Lists.Map(inTurn, parts[n]);
      Lists.MapAppend(inTurn, Flatten(parts[..n]), parts[n]);
    }
  }

  lemma FailuresPermute(engine: Engine, corpus: seq<QueryRecord>, a: seq<nat>, b: seq<nat>)
    requires multiset(a) == multiset(b)
    ensures Failures(engine, corpus, a) == Failures(engine, corpus, b)
  {
    var failing := Failing(engine, corpus);
    Lists.FilterPermutes(failing, a, b);
    Lists.FilterCounts(failing, a);
    Lists.FilterCounts(failing, b);
    Lists.PermutationMembers(Lists.Filter(failing, a), Lists.Filter(failing, b));
  }

  lemma FailuresInTurn(engine: Engine, corpus: seq<QueryRecord>, queried: seq<nat>, iterations: nat)
    requires corpus != [] && |queried| == iterations && forall i :: 0 <= i < iterations ==> queried[i] == i % |corpus|
    ensures Failures(engine, corpus, queried) == |set i: nat | i < iterations && Failing(engine, corpus)(i % |corpus|)|
  {
    var failing := Failing(engine, corpus);
    assert Lists.Kept(failing, queried) == set i: nat | i < iterations && failing(i % |corpus|);
  }

  /** In turn, the failures are those of the iterations, whoever executes them. */
  lemma SequentialFailures(engine: Engine, corpus: seq<QueryRecord>, queries: seq<seq<nat>>, parts: seq<seq<nat>>,
                           workerSeed: nat -> u64, iterations: nat)
    requires corpus != [] && AllQueries(queries, parts, Sequential, workerSeed, |corpus|)
    requires multiset(Flatten(parts)) == multiset(UpTo(iterations))
    ensures Failures(engine, corpus, Flatten(queries)) ==
            |set i: nat | i < iterations && Failing(engine, corpus)(i % |corpus|)|
  {
    var inTurn := (i: nat) => i % |corpus|;
    var queried := Lists.Map(inTurn, UpTo(iterations));
    SequentialFlatten(queries, parts, workerSeed, |corpus|);
    Lists.MapPermutes(inTurn, Flatten(parts), UpTo(iterations));
    FailuresPermute(engine, corpus, Flatten(queries), queried);
    FailuresInTurn(engine, corpus, queried, iterations);
  }

  lemma NoFailures(engine: Engine, corpus: seq<QueryRecord>, queried: seq<nat>)
    requires AllHit(engine, corpus)
    ensures Failures(engine, corpus, queried) == 0
  {
    forall q: nat
      ensures !Failing(engine, corpus)(q)
    {
      assert q < |corpus| ==> corpus[q] in corpus;
    }
    assert Lists.Kept(Failing(engine, corpus), queried) == {};
  }

  ghost predicate AllMiss(engine: Engine, corpus: seq<QueryRecord>) {
    forall q :: q in corpus ==> Execute(engine, q).Err?
  }

  lemma {:induction false} OnlyFailures(engine: Engine, corpus: seq<QueryRecord>, queried: seq<nat>)
    requires AllMiss(engine, corpus) && forall q :: q in queried ==> q < |corpus|
    ensures Failures(engine, corpus, queried) == |queried|
  {
    if queried == [] {
      assert Lists.Kept(Failing(engine, corpus), queried) == {};
    } else {
      var init, last := queried[..|queried| - 1], queried[|queried| - 1];
      assert forall q :: q in init ==> q in queried;
      OnlyFailures(engine, corpus, init);
      FailuresAppend(engine, corpus, init, last);
      assert queried == init + [last] && last in queried && corpus[last] in corpus;
    }
  }

  datatype BenchError = ConcurrencyZero | ConcurrencyAboveIterations | WarmupFailed(error: QueryError)

  function WarmQuery(engine: Engine, corpus: seq<QueryRecord>, pattern: AccessPattern, seed: u64,
                     i: nat): Result<(), QueryError>
    requires corpus != []
  {
    Execute(engine, corpus[Choice(pattern, seed, i, i, |corpus|)])
  }

  ghost predicate WarmsUp(engine: Engine, corpus: seq<QueryRecord>, pattern: AccessPattern, seed: u64, warmup: nat)
    requires corpus != []
  {
    forall i: nat :: i < warmup ==> WarmQuery(engine, corpus, pattern, seed, i).Ok?
  }

  /** The first query that fails while warming up does so with this error. */
  ghost predicate FailsWarmingUp(engine: Engine, corpus: seq<QueryRecord>, pattern: AccessPattern, seed: u64,
                                 warmup: nat, error: QueryError)
    requires corpus != []
  {
    exists i: nat :: i < warmup && WarmsUp(engine, corpus, pattern, seed, i)
      && WarmQuery(engine, corpus, pattern, seed, i) == Err(error)
  }

  method WarmUp(engine: Engine, corpus: seq<QueryRecord>, warmup: nat, pattern: AccessPattern, seed: u64)
    returns (error: Option<QueryError>)
    requires corpus != []
    ensures error.None? ==> WarmsUp(engine, corpus, pattern, seed, warmup)
    ensures error.Some? ==> FailsWarmingUp(engine, corpus, pattern, seed, warmup, error.value)
  {
    var rng := new DeterministicRng(seed);
    for i := 0 to warmup
      invariant fresh(rng) && rng.state == ChosenState(pattern, seed, i, |corpus|)
      invariant WarmsUp(engine, corpus, pattern, seed, i)
    {
      var recordIdx := QueryIndex(pattern, i, |corpus|, rng, seed, i);
      var warm := Execute(engine, corpus[recordIdx]);
      assert warm == WarmQuery(engine, corpus, pattern, seed, i);
      if warm.Err? {
        return Some(warm.error);
      }
    }
    return None;
  }

  /** The workers one after another, each with its own seed. They share nothing but the engine they read, so their
      order does not matter. */
  method MeasureWorkers(engine: Engine, corpus: seq<QueryRecord>, iterations: nat, concurrency: nat,
                        pattern: AccessPattern, workerSeed: nat -> u64)
    returns (results: seq<WorkerResult>, ghost parts: seq<seq<nat>>, ghost queries: seq<seq<nat>>)
    requires corpus != [] && concurrency > 0
    ensures |parts| == concurrency && Shares(parts, iterations, concurrency)
    ensures AllQueries(queries, parts, pattern, workerSeed, |corpus|)
    ensures Operations(results) == |Flatten(parts)|
    ensures Errors(results) == Failures(engine, corpus, Flatten(queries))
  {
    results, parts, queries := [], [], [];
    NothingFails(engine, corpus);
    for worker := 0 to concurrency
      invariant |parts| == worker && Shares(parts, iterations, concurrency)
      invariant AllQueries(queries, parts, pattern, workerSeed, |corpus|)
      invariant Tallied(results, engine, corpus, parts, queries)
    {
      var operations, errors, executed, queried :=
        MeasureQueryWorker(engine, corpus, iterations, concurrency, worker, pattern, workerSeed(worker));
      SharesAppend(parts, executed, iterations, concurrency);
      AllQueriesAppend(queries, parts, queried, executed, pattern, workerSeed, |corpus|);
      TalliedAppend(results, engine, corpus, parts, queries, executed, queried);
      results := results + [WorkerResult(operations, errors)];
      parts, queries := parts + [executed], queries + [queried];
    }
  }

  lemma SharesAppend(parts: seq<seq<nat>>, executed: seq<nat>, iterations: nat, concurrency: nat)
    requires concurrency > 0 && Shares(parts, iterations, concurrency)
    requires Share(executed, iterations, concurrency, |parts|)
    ensures Shares(parts + [executed], iterations, concurrency)
  {
    forall w: nat | w < |parts| + 1
      ensures Share((parts + [executed])[w], iterations, concurrency, w)
    {
      assert w < |parts| ==> (parts + [executed])[w] == parts[w];
    }
  }

  lemma AllQueriesAppend(queries: seq<seq<nat>>, parts: seq<seq<nat>>, queried: seq<nat>, executed: seq<nat>,
                         pattern: AccessPattern, workerSeed: nat -> u64, corpusLen: nat)
    requires corpusLen > 0 && AllQueries(queries, parts, pattern, workerSeed, corpusLen)
    requires Queries(queried, executed, pattern, workerSeed(|parts|), corpusLen)
    ensures AllQueries(queries + [queried], parts + [executed], pattern, workerSeed, corpusLen)
  {
    forall w: nat | w < |parts| + 1
      ensures Queries((queries + [queried])[w], (parts + [executed])[w], pattern, workerSeed(w), corpusLen)
    {
      if w < |parts| {
        assert (queries + [queried])[w] == queries[w] && (parts + [executed])[w] == parts[w];
      }
    }
  }

  /** What the workers so far have counted is what they have executed, and how many of their queries fail. */
  ghost predicate Tallied(results: seq<WorkerResult>, engine: Engine, corpus: seq<QueryRecord>, parts: seq<seq<nat>>,
                          queries: seq<seq<nat>>)
  {
    && Operations(results) == |Flatten(parts)|
    && Errors(results) == Failures(engine, corpus, Flatten(queries))
  }

  lemma TalliedAppend(results: seq<WorkerResult>, engine: Engine, corpus: seq<QueryRecord>, parts: seq<seq<nat>>,
                      queries: seq<seq<nat>>, executed: seq<nat>, queried: seq<nat>)
    requires Tallied(results, engine, corpus, parts, queries)
    ensures Tallied(results + [WorkerResult(|executed|, Failures(engine, corpus, queried))], engine, corpus,
                    parts + [executed], queries + [queried])
  {
    ResultsAppend(results, WorkerResult(|executed|, Failures(engine, corpus, queried)));
    FlattenAppend(parts, executed);
    FlattenAppend(queries, queried);
    FailuresConcat(engine, corpus, Flatten(queries), queried);
  }

  lemma {:induction false} QueriesInCorpus(queries: seq<seq<nat>>, parts: seq<seq<nat>>, pattern: AccessPattern,
                                           workerSeed: nat -> u64, corpusLen: nat)
    requires corpusLen > 0 && AllQueries(queries, parts, pattern, workerSeed, corpusLen)
    ensures |Flatten(queries)| == |Flatten(parts)| && forall q :: q in Flatten(queries) ==> q < corpusLen
  {
    if parts != [] {
      var n := |parts| - 1;
      assert forall w: nat :: w < n ==> queries[..n][w] == queries[w] && parts[..n][w] == parts[w];
      QueriesInCorpus(queries[..n], parts[..n], pattern, workerSeed, corpusLen);
      assert Queries(queries[n], parts[n], pattern, workerSeed(n), corpusLen);
    }
  }

  /** What the workers measured. */
  ghost predicate Measured(merged: WorkerResult, engine: Engine, corpus: seq<QueryRecord>, iterations: nat,
                           pattern: AccessPattern, workerSeed: nat -> u64, parts: seq<seq<nat>>,
                           queries: seq<seq<nat>>)
    requires corpus != []
  {
    && multiset(Flatten(parts)) == multiset(UpTo(iterations))
    && AllQueries(queries, parts, pattern, workerSeed, |corpus|) && |Flatten(queries)| == iterations
    && merged == WorkerResult(iterations, Failures(engine, corpus, Flatten(queries)))
    && (AllHit(engine, corpus) ==> merged.errors == 0)
    && (AllMiss(engine, corpus) ==> merged.errors == iterations)
    && (pattern == Sequential ==>
          merged.errors == |set i: nat | i < iterations && Failing(engine, corpus)(i % |corpus|)|)
  }

  lemma MergedIsMeasured(merged: WorkerResult, engine: Engine, corpus: seq<QueryRecord>, iterations: nat,
                         pattern: AccessPattern, workerSeed: nat -> u64, parts: seq<seq<nat>>, queries: seq<seq<nat>>)
    requires corpus != [] && parts != [] && Shares(parts, iterations, |parts|)
    requires AllQueries(queries, parts, pattern, workerSeed, |corpus|)
    requires merged == WorkerResult(|Flatten(parts)|, Failures(engine, corpus, Flatten(queries)))
    ensures Measured(merged, engine, corpus, iterations, pattern, workerSeed, parts, queries)
  {
    WorkersPartition(parts, iterations, |parts|);
    QueriesInCorpus(queries, parts, pattern, workerSeed, |corpus|);
    if AllHit(engine, corpus) {
      NoFailures(engine, corpus, Flatten(queries));
    }
    if AllMiss(engine, corpus) {
      OnlyFailures(engine, corpus, Flatten(queries));
    }
    if pattern == Sequential {
      SequentialFailures(engine, corpus, queries, parts, workerSeed, iterations);
    }
  }

  /** Measures the iterations over all workers, unless a query fails while warming up. */
  method MeasureQueries(engine: Engine, corpus: seq<QueryRecord>, iterations: nat, warmup: nat, concurrency: nat,
                        pattern: AccessPattern, seed: u64, workerSeed: nat -> u64)
    returns (r: Result<WorkerResult, BenchError>, ghost parts: seq<seq<nat>>, ghost queries: seq<seq<nat>>)
    requires corpus != []
    ensures r == Err(ConcurrencyZero) <==> concurrency == 0
    ensures r == Err(ConcurrencyAboveIterations) <==> 0 < iterations < concurrency
    ensures 0 < concurrency && (iterations == 0 || concurrency <= iterations) ==>
              (r.Ok? <==> WarmsUp(engine, corpus, pattern, seed, warmup))
    ensures r.Err? && r.error.WarmupFailed? ==> FailsWarmingUp(engine, corpus, pattern, seed, warmup, r.error.error)
    ensures r.Ok? ==> 0 < concurrency == |parts| && Shares(parts, iterations, concurrency)
                      && Measured(r.value, engine, corpus, iterations, pattern, workerSeed, parts, queries)
  {
    parts, queries := [], [];
    if concurrency == 0 {
      return Err(ConcurrencyZero), parts, queries;
    }
    if iterations > 0 && concurrency > iterations {
      return Err(ConcurrencyAboveIterations), parts, queries;
    }
    var error := WarmUp(engine, corpus, warmup, pattern, seed);
    if error.Some? {
      return Err(WarmupFailed(error.value)), parts, queries;
    }
    var results;
    results, parts, queries := MeasureWorkers(engine, corpus, iterations, concurrency, pattern, workerSeed);
    var merged := FinishQueryResults(results);
    MergedIsMeasured(merged, engine, corpus, iterations, pattern, workerSeed, parts, queries);
    r := Ok(merged);
  }
}
