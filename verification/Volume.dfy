/** Builder-code volume over a time window. Both engines run the same loop over a builder's rows,
    the memory engine in fill-id order and RocksDB newest first. */
module Volume {
  import opened Prelude
  import opened Rows
  import opened Decimal
  import DecimalText
  import Lists
  import Totals

  datatype BuilderVolumeRow = BuilderVolumeRow(
    builderAddr: Bytes, window: TimeWindow, windowStartUs: u64, windowEndUs: u64,
    notionalVolume: Bytes, trades: nat, activeAccounts: nat, estimatedFeeShare: Option<Bytes>)

  /** A builder's rows, in the order in which they stand. */
  function OfBuilder(rows: seq<BuilderRow>, builder: Bytes): (mine: seq<BuilderRow>)
    ensures forall r :: r in mine <==> r in rows && r.builderAddr == builder
  {
    Lists.Filter((r: BuilderRow) => r.builderAddr == builder, rows)
  }

  function MaxU64(a: u64, b: u64): u64 {
    if a < b then b else a
  }

  function SaturatingSub(a: u64, b: u64): u64 {
    if a < b then 0 else a - b
  }

  function SaturatingAdd(a: u64, b: u64): u64 {
    if a + b > U64_MAX then U64_MAX else a + b
  }

  /** The largest timestamp up to which anything was processed, zero without a checkpoint. */
  function LatestCheckpoint(rows: seq<IngestCheckpoint>): (max: u64)
    ensures forall r :: r in rows ==> r.lastProcessedTimestampUs <= max
    ensures max == 0 || exists r :: r in rows && r.lastProcessedTimestampUs == max
  {
    if rows == [] then 0
    else
      assert forall r :: r in rows <==> r == rows[0] || r in rows[1..];
      MaxU64(rows[0].lastProcessedTimestampUs, LatestCheckpoint(rows[1..]))
  }

  function MaxTimestamp(rows: seq<BuilderRow>): (max: u64)
    ensures forall r :: r in rows ==> r.timestampUs <= max
    ensures max == 0 || exists r :: r in rows && r.timestampUs == max
  {
    if rows == [] then 0
    else
      assert forall r :: r in rows <==> r == rows[0] || r in rows[1..];
      MaxU64(rows[0].timestampUs, MaxTimestamp(rows[1..]))
  }

  function WindowEnd(rows: seq<BuilderRow>, checkpointTs: u64): u64 {
    MaxU64(checkpointTs, MaxTimestamp(rows))
  }

  function WindowStart(rows: seq<BuilderRow>, checkpointTs: u64, window: TimeWindow): u64 {
    SaturatingAdd(SaturatingSub(MaxU64(MaxTimestamp(rows), WindowEnd(rows, checkpointTs)), window.DurationUs()), 1)
  }

  function Terms(rows: seq<BuilderRow>, amount: BuilderRow -> Option<Bytes>): seq<Term> {
    Lists.Map((r: BuilderRow) => TermOf(amount(r)), rows)
  }

  function NotionalTerms(rows: seq<BuilderRow>): seq<Term> {
    Terms(rows, (r: BuilderRow) => r.notional)
  }

  function FeeTerms(rows: seq<BuilderRow>): seq<Term> {
    Terms(rows, (r: BuilderRow) => r.estimatedFeeAmount)
  }

  predicate HasFee(rows: seq<BuilderRow>) {
    exists r :: r in rows && r.estimatedFeeAmount.Some?
  }

  function Since(rows: seq<BuilderRow>, start: u64): seq<BuilderRow> {
    Lists.Filter((r: BuilderRow) => r.timestampUs >= start, rows)
  }

  function VolumeOf(rows: seq<BuilderRow>, checkpointTs: u64, builder: Bytes,
                    window: TimeWindow): Option<BuilderVolumeRow> {
    if rows == [] then None
    else
      var start := WindowStart(rows, checkpointTs, window);
      var recent := Since(rows, start);
      Some(BuilderVolumeRow(
             builder, window, start, WindowEnd(rows, checkpointTs),
             DecimalText.ToText(Accumulate(NotionalTerms(recent))),
             |recent|,
             |set r | r in recent :: r.account|,
             if HasFee(recent) then Some(DecimalText.ToText(Accumulate(FeeTerms(recent)))) else None))
  }

  // What a volume reports of its rows.

  /** Whether a time lies in the window that ends at `end`. Time zero never does. */
  predicate InWindow(timestampUs: u64, end: u64, window: TimeWindow) {
    timestampUs > 0 && timestampUs + window.DurationUs() > end
  }

  ghost predicate Counts(rows: seq<BuilderRow>, i: nat, end: u64, window: TimeWindow) {
    i < |rows| && InWindow(rows[i].timestampUs, end, window)
  }

  /** The sum of an amount over the rows in the window. */
  ghost function Total(rows: seq<BuilderRow>, amount: BuilderRow -> Option<Bytes>, end: u64, window: TimeWindow): real {
    if rows == [] then 0.0
    else
      var first := if InWindow(rows[0].timestampUs, end, window) then Totals.Amount(TermOf(amount(rows[0]))) else 0.0;
      first + Total(rows[1..], amount, end, window)
  }

  /** No amount in the window has more than `scale` decimals, and neither overflows their sum with as many. */
  ghost predicate Suffices(scale: nat, rows: seq<BuilderRow>, amount: BuilderRow -> Option<Bytes>, end: u64,
                           window: TimeWindow)
  {
    && (forall r :: r in rows && InWindow(r.timestampUs, end, window) ==> ScaleOf(TermOf(amount(r))) <= scale)
    && Totals.Fits(Total(rows, amount, end, window), scale)
  }

  /** The text denotes the sum of the amount over the rows in the window, unless that overflows. */
  ghost predicate Denotes(text: Bytes, rows: seq<BuilderRow>, amount: BuilderRow -> Option<Bytes>, end: u64,
                          window: TimeWindow)
  {
    forall scale: nat :: Suffices(scale, rows, amount, end, window) ==>
      ParseDecimal(text).Some? && Totals.Amount(ParseDecimal(text)) == Total(rows, amount, end, window)
  }

  ghost predicate ReportsWindow(v: BuilderVolumeRow, rows: seq<BuilderRow>, checkpointTs: u64, window: TimeWindow) {
    && v.window == window
    && checkpointTs <= v.windowEndUs && (forall r :: r in rows ==> r.timestampUs <= v.windowEndUs)
    && (v.windowEndUs == checkpointTs || exists r :: r in rows && r.timestampUs == v.windowEndUs)
    && forall t: u64 :: InWindow(t, v.windowEndUs, window) <==> t >= v.windowStartUs
  }

  ghost predicate ReportsCounts(v: BuilderVolumeRow, rows: seq<BuilderRow>) {
    && v.trades == |set i: nat | i < |rows| && Counts(rows, i, v.windowEndUs, v.window)|
    && v.activeAccounts == |set r | r in rows && InWindow(r.timestampUs, v.windowEndUs, v.window) :: r.account|
  }

  ghost predicate ReportsAmounts(v: BuilderVolumeRow, rows: seq<BuilderRow>) {
    && Denotes(v.notionalVolume, rows, (r: BuilderRow) => r.notional, v.windowEndUs, v.window)
    && (v.estimatedFeeShare.Some? <==>
          exists r :: r in rows && InWindow(r.timestampUs, v.windowEndUs, v.window) && r.estimatedFeeAmount.Some?)
    && (v.estimatedFeeShare.Some? ==>
          Denotes(v.estimatedFeeShare.value, rows, (r: BuilderRow) => r.estimatedFeeAmount, v.windowEndUs, v.window))
  }

  /** The volume of these rows, when everything up to the checkpoint has been processed. */
  ghost predicate Reports(volume: Option<BuilderVolumeRow>, rows: seq<BuilderRow>, checkpointTs: u64, builder: Bytes,
                          window: TimeWindow)
  {
    && (volume.None? <==> rows == [])
    && (volume.Some? ==>
          && volume.value.builderAddr == builder && ReportsWindow(volume.value, rows, checkpointTs, window)
          && ReportsCounts(volume.value, rows) && ReportsAmounts(volume.value, rows))
  }

  lemma StartOpensWindow(rows: seq<BuilderRow>, checkpointTs: u64, window: TimeWindow, t: u64)
    ensures InWindow(t, WindowEnd(rows, checkpointTs), window) <==> t >= WindowStart(rows, checkpointTs, window)
  {
  }

  lemma SinceTrades(rows: seq<BuilderRow>, start: u64, end: u64, window: TimeWindow)
    requires forall t: u64 :: InWindow(t, end, window) <==> t >= start
    ensures |Since(rows, start)| == |set i: nat | i < |rows| && Counts(rows, i, end, window)|
  {
    var keep := (r: BuilderRow) => r.timestampUs >= start;
    Lists.FilterCounts(keep, rows);
    assert Lists.Kept(keep, rows) == set i: nat | i < |rows| && Counts(rows, i, end, window);
  }

  lemma SinceMembers(rows: seq<BuilderRow>, start: u64, end: u64, window: TimeWindow)
    requires forall t: u64 :: InWindow(t, end, window) <==> t >= start
    ensures forall r :: r in Since(rows, start) <==> r in rows && InWindow(r.timestampUs, end, window)
    ensures (set r | r in Since(rows, start) :: r.account) ==
            (set r | r in rows && InWindow(r.timestampUs, end, window) :: r.account)
  {
  }

  lemma {:induction false} AmountSumOfTail(terms: seq<Term>)
    requires terms != []
    ensures Totals.AmountSum(terms) == Totals.Amount(terms[0]) + Totals.AmountSum(terms[1..])
  {
    var init := terms[..|terms| - 1];
    if |terms| == 1 {
      assert init == [] && terms[1..] == [];
    } else {
      AmountSumOfTail(init);
      assert init[1..] == terms[1..][..|terms| - 2];
    }
  }

  lemma SumOfOneMore(row: BuilderRow, rows: seq<BuilderRow>, amount: BuilderRow -> Option<Bytes>)
    ensures Totals.AmountSum(Terms([row] + rows, amount)) ==
            Totals.Amount(TermOf(amount(row))) + Totals.AmountSum(Terms(rows, amount))
  {
    var terms := Terms([row] + rows, amount);
    AmountSumOfTail(terms);
    assert terms[1..] == Terms(rows, amount);
  }

  lemma {:induction false} TotalOfSince(rows: seq<BuilderRow>, amount: BuilderRow -> Option<Bytes>, start: u64,
                                        end: u64, window: TimeWindow)
    requires forall t: u64 :: InWindow(t, end, window) <==> t >= start
    ensures Totals.AmountSum(Terms(Since(rows, start), amount)) == Total(rows, amount, end, window)
  {
    if rows != [] {
      var row, rest := rows[0], Since(rows[1..], start);
      TotalOfSince(rows[1..], amount, start, end, window);
      assert Since(rows, start) == (if InWindow(row.timestampUs, end, window) then [row] else []) + rest;
      if InWindow(row.timestampUs, end, window) {
        SumOfOneMore(row, rest, amount);
      } else {
        assert Since(rows, start) == rest;
      }
    }
  }

  lemma SinceDenotes(rows: seq<BuilderRow>, amount: BuilderRow -> Option<Bytes>, start: u64, end: u64,
                     window: TimeWindow)
    requires forall t: u64 :: InWindow(t, end, window) <==> t >= start
    ensures Denotes(DecimalText.ToText(Accumulate(Terms(Since(rows, start), amount))), rows, amount, end, window)
  {
    var terms := Terms(Since(rows, start), amount);
    TotalOfSince(rows, amount, start, end, window);
    forall scale: nat | Suffices(scale, rows, amount, end, window)
      ensures
        var printed := ParseDecimal(DecimalText.ToText(Accumulate(terms)));
        printed.Some? && Totals.Amount(printed) == Total(rows, amount, end, window)
    {
      forall t | t in terms
        ensures ScaleOf(t) <= scale
      {
        var i :| 0 <= i < |terms| && terms[i] == t;
        assert Since(rows, start)[i] in Since(rows, start);
      }
      Totals.TotalDenotes(terms, scale);
    }
  }

  /** The volume reports the window, counts and sums of the rows whose time lies in the window. */
  lemma VolumeReports(rows: seq<BuilderRow>, checkpointTs: u64, builder: Bytes, window: TimeWindow)
    ensures Reports(VolumeOf(rows, checkpointTs, builder, window), rows, checkpointTs, builder, window)
  {
    if rows != [] {
      var start, end := WindowStart(rows, checkpointTs, window), WindowEnd(rows, checkpointTs);
      forall t: u64
        ensures InWindow(t, end, window) <==> t >= start
      {
        StartOpensWindow(rows, checkpointTs, window, t);
      }
      var v := VolumeOf(rows, checkpointTs, builder, window).value;
      assert ReportsWindow(v, rows, checkpointTs, window);
      SinceReportsCounts(v, rows, start);
      SinceReportsAmounts(v, rows, start);
    }
  }

  lemma SinceReportsCounts(v: BuilderVolumeRow, rows: seq<BuilderRow>, start: u64)
    requires forall t: u64 :: InWindow(t, v.windowEndUs, v.window) <==> t >= start
    requires v.trades == |Since(rows, start)| && v.activeAccounts == |set r | r in Since(rows, start) :: r.account|
    ensures ReportsCounts(v, rows)
  {
    SinceTrades(rows, start, v.windowEndUs, v.window);
    SinceMembers(rows, start, v.windowEndUs, v.window);
  }

  lemma SinceReportsAmounts(v: BuilderVolumeRow, rows: seq<BuilderRow>, start: u64)
    requires forall t: u64 :: InWindow(t, v.windowEndUs, v.window) <==> t >= start
    requires v.notionalVolume == DecimalText.ToText(Accumulate(NotionalTerms(Since(rows, start))))
    requires v.estimatedFeeShare ==
             if HasFee(Since(rows, start)) then Some(DecimalText.ToText(Accumulate(FeeTerms(Since(rows, start)))))
             else None
    ensures ReportsAmounts(v, rows)
  {
    SinceMembers(rows, start, v.windowEndUs, v.window);
    SinceDenotes(rows, (r: BuilderRow) => r.notional, start, v.windowEndUs, v.window);
    SinceDenotes(rows, (r: BuilderRow) => r.estimatedFeeAmount, start, v.windowEndUs, v.window);
  }

  // The loop that computes it.

  lemma TermsOneMore(rows: seq<BuilderRow>, row: BuilderRow, amount: BuilderRow -> Option<Bytes>)
    ensures Accumulate(Terms(rows + [row], amount)) == Added(Accumulate(Terms(rows, amount)), TermOf(amount(row)))
  {
    var term: Term := TermOf(amount(row));
    assert Terms(rows + [row], amount) == Terms(rows, amount) + [term];
  }

  lemma TermsAppend(rows: seq<BuilderRow>, row: BuilderRow)
    ensures Accumulate(NotionalTerms(rows + [row])) == Added(Accumulate(NotionalTerms(rows)), TermOf(row.notional))
    ensures Accumulate(FeeTerms(rows + [row])) == Added(Accumulate(FeeTerms(rows)), TermOf(row.estimatedFeeAmount))
  {
    TermsOneMore(rows, row, (r: BuilderRow) => r.notional);
    TermsOneMore(rows, row, (r: BuilderRow) => r.estimatedFeeAmount);
  }

  method ComputeVolume(rows: seq<BuilderRow>, checkpointTs: u64, builder: Bytes, window: TimeWindow)
    returns (volume: Option<BuilderVolumeRow>)
    ensures volume == VolumeOf(rows, checkpointTs, builder, window)
    ensures Reports(volume, rows, checkpointTs, builder, window)
  {
    VolumeReports(rows, checkpointTs, builder, window);
    if rows == [] {
      return None;
    }
    var end := WindowEnd(rows, checkpointTs);
    var start := WindowStart(rows, checkpointTs, window);
    var recent := Since(rows, start);
    var trades, accounts, notional, feeShare := Tally(recent);
    volume := Some(BuilderVolumeRow(builder, window, start, end, notional, trades, |accounts|, feeShare));
  }

  ghost predicate Tallied(rows: seq<BuilderRow>, trades: nat, accounts: set<Bytes>, notional: Decimal,
                          feeShare: Decimal, hasFeeShare: bool)
  {
    && trades == |rows|
    && accounts == (set r | r in rows :: r.account)
    && notional == Accumulate(NotionalTerms(rows)) && feeShare == Accumulate(FeeTerms(rows))
    && hasFeeShare == HasFee(rows)
  }

  lemma TallyOneMore(rows: seq<BuilderRow>, n: nat, trades: nat, accounts: set<Bytes>, notional: Decimal,
                     feeShare: Decimal, hasFeeShare: bool)
    requires n < |rows| && Tallied(rows[..n], trades, accounts, notional, feeShare, hasFeeShare)
    ensures Tallied(rows[..n + 1], trades + 1, accounts + {rows[n].account}, Added(notional, TermOf(rows[n].notional)),
                    Added(feeShare, TermOf(rows[n].estimatedFeeAmount)), hasFeeShare
                      || rows[n].estimatedFeeAmount.Some?)
  {
    assert rows[..n + 1] == rows[..n] + [rows[n]];
    TermsAppend(rows[..n], rows[n]);
    TallyAppend(rows[..n], rows[n]);
  }

  /** The loop over the rows inside the window. */
  method Tally(recent: seq<BuilderRow>)
    returns (trades: nat, accounts: set<Bytes>, notionalText: Bytes, feeText: Option<Bytes>)
    ensures trades == |recent|
    ensures accounts == set r | r in recent :: r.account
    ensures notionalText == DecimalText.ToText(Accumulate(NotionalTerms(recent)))
    ensures feeText == if HasFee(recent) then Some(DecimalText.ToText(Accumulate(FeeTerms(recent)))) else None
  {
    trades, accounts := 0, {};
    var notional := new DecimalAccumulator();
    var feeShare := new DecimalAccumulator();
    var hasFeeShare := false;
    for i := 0 to |recent|
      invariant fresh(notional) && fresh(feeShare) && notional != feeShare
      invariant Tallied(recent[..i], trades, accounts, notional.Total(), feeShare.Total(), hasFeeShare)
    {
      TallyOneMore(recent, i, trades, accounts, notional.Total(), feeShare.Total(), hasFeeShare);
      trades := trades + 1;
      accounts := accounts + {recent[i].account};
      notional.AddIfSome(recent[i].notional);
      feeShare.AddIfSome(recent[i].estimatedFeeAmount);
      hasFeeShare := hasFeeShare || recent[i].estimatedFeeAmount.Some?;
    }
    assert recent[..|recent|] == recent;
    notionalText := DecimalText.Render(Decimal(notional.units, notional.scale));
    feeText := None;
    if hasFeeShare {
      var text := DecimalText.Render(Decimal(feeShare.units, feeShare.scale));
      feeText := Some(text);
    }
  }

  lemma TallyAppend(rows: seq<BuilderRow>, row: BuilderRow)
    ensures (set r | r in rows + [row] :: r.account) == (set r | r in rows :: r.account) + {row.account}
    ensures HasFee(rows + [row]) <==> HasFee(rows) || row.estimatedFeeAmount.Some?
  {
    assert forall r :: r in rows + [row] <==> r in rows || r == row;
    assert row in rows + [row];
  }

  lemma TermsOrderFree(a: seq<BuilderRow>, b: seq<BuilderRow>, amount: BuilderRow -> Option<Bytes>)
    requires multiset(a) == multiset(b)
    ensures Accumulate(Terms(a, amount)) == Accumulate(Terms(b, amount))
  {
    Lists.MapPermutes((r: BuilderRow) => TermOf(amount(r)), a, b);
    AccumulateOrderFree(Terms(a, amount), Terms(b, amount));
  }

  lemma WindowOrderFree(a: seq<BuilderRow>, b: seq<BuilderRow>, checkpointTs: u64, window: TimeWindow)
    requires multiset(a) == multiset(b)
    ensures WindowEnd(a, checkpointTs) == WindowEnd(b, checkpointTs)
    ensures WindowStart(a, checkpointTs, window) == WindowStart(b, checkpointTs, window)
  {
    Lists.PermutationMembers(a, b);
    assert MaxTimestamp(a) == MaxTimestamp(b);
  }

  lemma AccountsOrderFree(a: seq<BuilderRow>, b: seq<BuilderRow>)
    requires multiset(a) == multiset(b)
    ensures |a| == |b| && (HasFee(a) <==> HasFee(b))
    ensures (set r | r in a :: r.account) == (set r | r in b :: r.account)
  {
    Lists.PermutationMembers(a, b);
  }

  /** The volume depends on which rows a builder has, not on the order in which they are visited. */
  lemma VolumeOrderFree(a: seq<BuilderRow>, b: seq<BuilderRow>, checkpointTs: u64, builder: Bytes, window: TimeWindow)
    requires multiset(a) == multiset(b)
    ensures VolumeOf(a, checkpointTs, builder, window) == VolumeOf(b, checkpointTs, builder, window)
  {
    var start := WindowStart(a, checkpointTs, window);
    var x, y := Since(a, start), Since(b, start);
    WindowOrderFree(a, b, checkpointTs, window);
    AccountsOrderFree(a, b);
    Lists.FilterPermutes((r: BuilderRow) => r.timestampUs >= start, a, b);
    AccountsOrderFree(x, y);
    TermsOrderFree(x, y, (r: BuilderRow) => r.notional);
    TermsOrderFree(x, y, (r: BuilderRow) => r.estimatedFeeAmount);
  }
}
