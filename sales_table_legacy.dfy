/**
 * The earlier sales-by-state aggregator: the same reduction of each state's
 * orders into a positional column, with a state-total counter reset for
 * every state, and no "Grand Total" column. Its state columns are the
 * state columns of the later aggregator.
 */
module SalesTableLegacy {
  import opened Wrappers
  import opened Orders
  import opened StringOrder
  import opened Grouping
  import opened SalesSpec
  import SalesTable

  /** The earlier configuration: any number field may be summed. */
  datatype DataConfig = DataConfig(rowDimension: StringKey, rowSubDimension: StringKey,
                                   colDimension: StringKey, colMetric: NumKey)
  {
    function Dims(): SalesSpec.Dims
    {
      SalesSpec.Dims(rowDimension, rowSubDimension, colDimension, colMetric)
    }
  }

  /**
   * The callback for one sub-key bucket: the sub-key's position among the
   * row's sub-keys (-1 when absent) receives the rounded total of the
   * bucket's measure, which is also added to the subtotal slot and to the
   * state's running total.
   */
  method ReduceSubGroup(orders: seq<Order>, subDim: string, metric: NumKey, subs: seq<string>,
                        totals: seq<int>, grandTotal: int)
    returns (totals': seq<int>, grandTotal': int)
    requires |totals| == |subs| + 1
    ensures totals' == SalesTable.Place(totals, IndexOf(subs, subDim), Round(MeasureSum(orders, metric)))
    ensures grandTotal' == grandTotal + Round(MeasureSum(orders, metric))
  {
    var n := |subs|;
    var subDimIndex := IndexOf(subs, subDim);
    var total := Round(MeasureSum(orders, metric));
    totals' := totals;
    if subDimIndex >= 0 {
      totals' := totals'[subDimIndex := total];
    }
    totals' := totals'[n := totals'[n] + total];
    grandTotal' := grandTotal + total;
  }

  /**
   * The reduction over the sub-key buckets of one row key: the row's group
   * ends up filled from the buckets, and the state's running total grows by
   * the total of all the buckets.
   */
  method ReduceSubGroups(groups: seq<(string, seq<Order>)>, metric: NumKey, subs: seq<string>,
                         totals0: seq<int>, grandTotal0: int)
    returns (totals: seq<int>, grandTotal: int)
    requires Distinct(subs) && Distinct(RowKeys(groups)) && |totals0| == |subs| + 1
    ensures totals == SalesTable.Fill(totals0, subs, groups, metric)
    ensures grandTotal == grandTotal0 + Sum(SalesTable.GroupTotals(groups, metric))
  {
    totals, grandTotal := totals0, grandTotal0;
    SalesTable.FillNothing(totals0, subs, metric);
    for t := 0 to |groups|
      invariant totals == SalesTable.Fill(totals0, subs, groups[..t], metric)
      invariant grandTotal == grandTotal0 + Sum(SalesTable.GroupTotals(groups[..t], metric))
    {
      var (subDim, orders) := groups[t];
      SalesTable.FillStep(totals0, subs, groups, metric, t);
      SalesTable.GroupTotalsStep(groups, metric, t);
      totals, grandTotal := ReduceSubGroup(orders, subDim, metric, subs, totals, grandTotal);
    }
    assert groups[..|groups|] == groups;
  }

  /**
   * The callbacks over the sub-key buckets of orders whose row key is not
   * in the row structure: the writes go to an empty array, so only the
   * state's running total grows.
   */
  method ReduceUnmatchedSubGroups(groups: seq<(string, seq<Order>)>, metric: NumKey, grandTotal0: int)
    returns (grandTotal: int)
    ensures grandTotal == grandTotal0 + Sum(SalesTable.GroupTotals(groups, metric))
  {
    grandTotal := grandTotal0;
    for t := 0 to |groups|
      invariant grandTotal == grandTotal0 + Sum(SalesTable.GroupTotals(groups[..t], metric))
    {
      SalesTable.GroupTotalsStep(groups, metric, t);
      grandTotal := grandTotal + Round(MeasureSum(groups[t].1, metric));
    }
    assert groups[..|groups|] == groups;
  }

  /**
   * The callback for one row-key bucket of a state: when its row key is
   * found at row `i`, the accumulator's group `i` is reduced in place from
   * the bucket's orders, otherwise the accumulator is unchanged; either way
   * the state's running total grows by the rounded totals of the bucket's
   * sub-keys.
   */
  method ReduceRowGroup(orders: seq<Order>, rows: Rows, d: SalesSpec.Dims, accTotals: Column, grandTotal: int)
    returns (accTotals': Column, grandTotal': int)
    requires WellFormedRows(rows) && Shaped(accTotals, rows)
    ensures SalesTable.RowOf(rows, orders, d).Some? ==>
              var i := SalesTable.RowOf(rows, orders, d).value;
              accTotals' == accTotals[i := SalesTable.Overlay(accTotals[i], orders, d, rows[i].1)]
    ensures SalesTable.RowOf(rows, orders, d).None? ==> accTotals' == accTotals
    ensures grandTotal' == grandTotal + SalesTable.BucketsTotal(orders, d)
  {
    var curr := SalesTable.RowOf(rows, orders, d);
    var subGroups := GroupBy(orders, d.sub);
    AscendingIsDistinct(RowKeys(subGroups));
    SalesTable.BucketsTotalFromGroups(orders, d);
    accTotals' := accTotals;
    match curr {
      case Some(i) =>
        var currSet := rows[i].1;
        AscendingIsDistinct(currSet);
        var totals;
        totals, grandTotal' := ReduceSubGroups(subGroups, d.metric, currSet, accTotals[i], grandTotal);
        SalesTable.FillFromBuckets(accTotals[i], currSet, orders, d);
        accTotals' := accTotals'[i := totals];
      case None =>
        grandTotal' := ReduceUnmatchedSubGroups(subGroups, d.metric, grandTotal);
    }
  }

  /** Before any bucket: the template is the zero state and nothing is added. */
  lemma RowGroupsStart(rows: Rows, d: SalesSpec.Dims)
    ensures Framed(SalesTable.ZeroGroups(rows), [0]) == Framed(SalesTable.StateFromGroups(rows, [], d), [0])
    ensures Sum(Lasts(SalesTable.StateFromGroups(rows, [], d), |rows|)) == 0
  {
    SalesTable.StateFromNoGroups(rows, d);
    SumZeros(Lasts(SalesTable.ZeroGroups(rows), |rows|));
  }

  /** After bucket `t`: the reduction so far covers one bucket more. */
  lemma RowGroupsAdvance(groups: seq<(string, seq<Order>)>, rows: Rows, d: SalesSpec.Dims, grandTotal0: int, t: nat,
                         accTotals: Column, grandTotal: int, accTotals': Column, grandTotal': int)
    requires WellFormedRows(rows) && Distinct(RowKeys(groups)) && SalesTable.Matched(rows, groups, d) && t < |groups|
    requires accTotals == Framed(SalesTable.StateFromGroups(rows, groups[..t], d), [0])
    requires grandTotal == grandTotal0 + Sum(Lasts(SalesTable.StateFromGroups(rows, groups[..t], d), |rows|))
    requires SalesTable.RowOf(rows, groups[t].1, d) == FindRow(rows, groups[t].0) && FindRow(rows, groups[t].0).Some?
    requires var i := FindRow(rows, groups[t].0).value;
             accTotals' == accTotals[i := SalesTable.Overlay(accTotals[i], groups[t].1, d, rows[i].1)]
    requires grandTotal' == grandTotal + SalesTable.BucketsTotal(groups[t].1, d)
    ensures accTotals' == Framed(SalesTable.StateFromGroups(rows, groups[..t + 1], d), [0])
    ensures grandTotal' == grandTotal0 + Sum(Lasts(SalesTable.StateFromGroups(rows, groups[..t + 1], d), |rows|))
  {
    var n := |rows|;
    var before := SalesTable.StateFromGroups(rows, groups[..t], d);
    var i := FindRow(rows, groups[t].0).value;
    var row := SalesTable.Overlay(ZeroRow(|rows[i].1|), groups[t].1, d, rows[i].1);
    SalesTable.StateStep(rows, groups, d, t, i);
    SalesTable.FramedUpdate(before, [0], i, row);
    SalesTable.LastsUpdate(before, n, i, row);
    SumUpdate(Lasts(before, n), i, Last(row));
  }

  /**
   * The reduction over a state's row-key buckets from a fresh template: the
   * column ends up holding the row groups read off the buckets with its
   * total slot still 0, and the state's running total is the sum of their
   * subtotals.
   */
  method ReduceRowGroups(groups: seq<(string, seq<Order>)>, rows: Rows, d: SalesSpec.Dims, accTotals0: Column)
    returns (accTotals: Column, grandTotal: int)
    requires WellFormedRows(rows) && Distinct(RowKeys(groups)) && SalesTable.Matched(rows, groups, d)
    requires accTotals0 == Framed(SalesTable.ZeroGroups(rows), [0])
    ensures accTotals == Framed(SalesTable.StateFromGroups(rows, groups, d), [0])
    ensures grandTotal == Sum(Lasts(SalesTable.StateFromGroups(rows, groups, d), |rows|))
  {
    accTotals, grandTotal := accTotals0, 0;
    RowGroupsStart(rows, d);
    for t := 0 to |groups|
      invariant accTotals == Framed(SalesTable.StateFromGroups(rows, groups[..t], d), [0])
      invariant grandTotal == Sum(Lasts(SalesTable.StateFromGroups(rows, groups[..t], d), |rows|))
    {
      SalesTable.FramedShaped(rows, SalesTable.StateFromGroups(rows, groups[..t], d), [0]);
      ghost var acc, g := accTotals, grandTotal;
      accTotals, grandTotal := ReduceRowGroup(groups[t].1, rows, d, accTotals, grandTotal);
      RowGroupsAdvance(groups, rows, d, 0, t, acc, g, accTotals, grandTotal);
    }
    assert groups[..|groups|] == groups;
  }

  /**
   * One state's column: a fresh template (the loop that pushes a zero group
   * per row key and the trailing `[0]`) reduced over the state's row-key
   * buckets, then its last group set to the state's own total. The column
   * is the specification's column of the state.
   */
  method ReduceState(stateOrders: seq<Order>, rows: Rows, d: SalesSpec.Dims) returns (reducedTotals: Column)
    requires WellFormedRows(rows) && LookupsHit(rows, stateOrders, d)
    ensures reducedTotals == StateColumn(stateOrders, rows, d)
  {
    var initialAccumulator := SalesTable.CreateColumnMap(rows);
    var groups := GroupBy(stateOrders, d.row);
    SalesTable.StateBucketsMatched(stateOrders, rows, d);
    var grandTotal;
    reducedTotals, grandTotal := ReduceRowGroups(groups, rows, d, initialAccumulator);
    SalesTable.StateFromBuckets(stateOrders, rows, d);
    SalesTable.StateColumnFromTotal(stateOrders, rows, d, grandTotal);
    if |reducedTotals| > 0 {
      reducedTotals := reducedTotals[|reducedTotals| - 1 := [grandTotal]];
    }
  }

  /**
   * `formatData`: the row structure, and each state in ascending order of
   * the column key paired with its column as the specification states it:
   * every slot the rounded sum of the measure over its state, row key and
   * sub-key, every row group closed by its subtotal, every column by the
   * state's total.
   */
  method FormatData(data: seq<Order>, config: DataConfig) returns (rowDims: Rows, colMetrics: seq<(string, Column)>)
    ensures rowDims == RowKeyValues(data, config.rowDimension, config.rowSubDimension)
    ensures colMetrics == Entries(States(data, config.Dims()), StateColumns(data, config.Dims()))
  {
    var d := config.Dims();
    rowDims := RowKeyValues(data, d.row, d.sub);
    var states := GroupBy(data, d.col);
    SalesTable.StateBucketColumns(data, d);
    SalesTable.StateBucketLookups(data, d);
    ghost var entries := Entries(RowKeys(states), SalesTable.ColumnsOf(states, rowDims, d));
    colMetrics := [];
    for k := 0 to |states|
      invariant colMetrics == entries[..k]
    {
      var (state, stateOrders) := states[k];
      var reducedTotals := ReduceState(stateOrders, rowDims, d);
      TakeOneMore(entries, k);
      colMetrics := colMetrics + [(state, reducedTotals)];
    }
    assert entries[..|states|] == entries;
  }

  /**
   * The earlier table is the later one without its "Grand Total" entry:
   * the same states in the same order with the same columns. It only
   * unfolds `Entries` and `ExpectedTable`; it says something about the two
   * aggregators through their `FormatData` ensures.
   */
  lemma OlderMatchesNewer(data: seq<Order>, d: SalesSpec.Dims)
    ensures var older, newer := Entries(States(data, d), StateColumns(data, d)), ExpectedTable(data, d);
            |newer| == |older| + 1 && newer[..|older|] == older && newer[|older|].0 == GrandTotalKey
  {
  }
}
