/**
 * The sales-by-state aggregator: the positional column template, and the
 * reduction that fills one column per state plus the "Grand Total" column.
 * The source mutates nested number arrays inside nested `reduce` callbacks;
 * here each callback is a method returning the updated sequences, each
 * `reduce` a loop, and every loop is proved against the declarative table
 * of `SalesSpec` through ghost "partly reduced" values.
 */
module SalesTable {
  import opened Wrappers
  import opened Orders
  import opened StringOrder
  import opened Grouping
  import opened SalesSpec

  /** The measures a pivot may sum. */
  type Quantifiable = k: NumKey | k.Sales? || k.Quantity? || k.Discount? || k.Profit? witness Sales

  /** The table configuration: row field, sub-row field, column field and summed measure. */
  datatype DataConfig = DataConfig(rowKey: StringKey, rowSubKey: StringKey, colKey: StringKey, colMetric: Quantifiable)
  {
    function Dims(): SalesSpec.Dims
    {
      SalesSpec.Dims(rowKey, rowSubKey, colKey, colMetric)
    }
  }

  /** A zero group per row key. */
  function ZeroGroups(rows: Rows): seq<seq<int>>
  {
    seq(|rows|, i requires 0 <= i < |rows| => ZeroRow(|rows[i].1|))
  }

  /**
   * The positional template: a zero group with a slot per sub-key plus the
   * subtotal slot for each row key, and after the last one the `[0]` that
   * will hold the column total.
   */
  method CreateColumnMap(nested: Rows) returns (columnMap: Column)
    ensures columnMap == Framed(ZeroGroups(nested), [0])
    ensures Shaped(columnMap, nested)
  {
    columnMap := [];
    for i := 0 to |nested|
      invariant columnMap == ZeroGroups(nested[..i]) + (if i == |nested| && i > 0 then [[0]] else [])
    {
      var arr := nested[i].1;
      var sub := [0];
      for t := 0 to |arr|
        invariant sub == ZeroRow(t)
      {
        sub := sub + [0];
      }
      assert ZeroGroups(nested[..i + 1]) == ZeroGroups(nested[..i]) + [sub];
      columnMap := columnMap + [sub];
      if i == |nested| - 1 {
        columnMap := columnMap + [[0]];
      }
    }
    assert nested[..|nested|] == nested;
  }

  // ---- One row key of a state: its sub-key buckets ----

  /** The rounded measure total of each bucket. */
  function GroupTotals(groups: seq<(string, seq<Order>)>, m: NumKey): (r: seq<int>)
    ensures |r| == |groups|
    ensures forall k :: 0 <= k < |groups| ==> r[k] == Round(MeasureSum(groups[k].1, m))
  {
    seq(|groups|, k requires 0 <= k < |groups| => Round(MeasureSum(groups[k].1, m)))
  }

  /**
   * A row group after the sub-key buckets are reduced into `start`: the
   * slot of each sub-key that has a bucket holds that bucket's total, the
   * other slots keep their value, and the subtotal slot grows by the total
   * of all the buckets.
   */
  function Fill(start: seq<int>, subs: seq<string>, groups: seq<(string, seq<Order>)>, m: NumKey): (r: seq<int>)
    requires |start| == |subs| + 1
    ensures |r| == |start|
  {
    var keys := RowKeys(groups);
    seq(|subs|, j requires 0 <= j < |subs| =>
          var k := IndexOf(keys, subs[j]);
          if k < 0 then start[j] else Round(MeasureSum(groups[k].1, m)))
    + [start[|subs|] + Sum(GroupTotals(groups, m))]
  }

  /** The slot of each sub-key as a function of the sub-key. */
  function CellOf(orders: seq<Order>, d: SalesSpec.Dims): string -> int
  {
    u => Cell(orders, d, u)
  }

  /** The rounded totals of all the sub-keys the orders carry, added up. */
  function BucketsTotal(orders: seq<Order>, d: SalesSpec.Dims): int
  {
    SumOver(SortedDistinct(Keys(orders, d.sub)), CellOf(orders, d))
  }

  /**
   * A row group after one row key's orders are reduced into `start`, stated
   * from the orders: every sub-key some order carries has its rounded total
   * in its slot, the other slots keep their value, and the subtotal slot
   * grows by the rounded totals of all the sub-keys the orders carry.
   */
  function Overlay(start: seq<int>, orders: seq<Order>, d: SalesSpec.Dims, subs: seq<string>): (r: seq<int>)
    requires |start| == |subs| + 1
    ensures |r| == |start| && Last(r) == Last(start) + BucketsTotal(orders, d)
  {
    seq(|subs|, j requires 0 <= j < |subs| =>
          if subs[j] in Keys(orders, d.sub) then Cell(orders, d, subs[j]) else start[j])
    + [start[|subs|] + BucketsTotal(orders, d)]
  }

  /** The bucket totals of some orders add up to the total over their sub-keys. */
  lemma BucketsTotalFromGroups(orders: seq<Order>, d: SalesSpec.Dims)
    ensures Sum(GroupTotals(GroupBy(orders, d.sub), d.metric)) == BucketsTotal(orders, d)
  {
    var groups := GroupBy(orders, d.sub);
    var ks := SortedDistinct(Keys(orders, d.sub));
    var f := CellOf(orders, d);
    assert GroupTotals(groups, d.metric) == seq(|ks|, j requires 0 <= j < |ks| => f(ks[j]));
    SumOverSlots(ks, f);
  }

  /** The bucket for `u`, found by its key, holds the orders whose sub-key is `u`. */
  lemma BucketOfKey(orders: seq<Order>, d: SalesSpec.Dims, u: string)
    ensures var groups := GroupBy(orders, d.sub);
            var k := IndexOf(RowKeys(groups), u);
            && (k < 0 <==> u !in Keys(orders, d.sub))
            && (k >= 0 ==> groups[k].1 == Where(orders, d.sub, u))
  {
  }

  /** Filling from the sub-key buckets of some orders is the overlay of those orders. */
  lemma FillFromBuckets(start: seq<int>, subs: seq<string>, orders: seq<Order>, d: SalesSpec.Dims)
    requires |start| == |subs| + 1
    ensures Fill(start, subs, GroupBy(orders, d.sub), d.metric) == Overlay(start, orders, d, subs)
  {
    var fill, over := Fill(start, subs, GroupBy(orders, d.sub), d.metric), Overlay(start, orders, d, subs);
    forall j | 0 <= j < |subs| ensures fill[j] == over[j] {
      BucketOfKey(orders, d, subs[j]);
    }
    BucketsTotalFromGroups(orders, d);
  }

  /** A sub-key no order carries has the slot value 0. */
  lemma AbsentCell(orders: seq<Order>, d: SalesSpec.Dims, u: string)
    requires u !in Keys(orders, d.sub)
    ensures Cell(orders, d, u) == 0
  {
    WhereAbsent(orders, d.sub, u);
  }

  /** When the row's sub-keys cover every order, the bucket total is the sum of the row's slots. */
  lemma CoveredTotal(orders: seq<Order>, d: SalesSpec.Dims, subs: seq<string>)
    requires StrictlyAscending(subs)
    requires forall o :: o in orders ==> Str(o, d.sub) in subs
    ensures BucketsTotal(orders, d) == Sum(seq(|subs|, j requires 0 <= j < |subs| => Cell(orders, d, subs[j])))
  {
    var ks := SortedDistinct(Keys(orders, d.sub));
    var f := CellOf(orders, d);
    forall u | u !in Keys(orders, d.sub) ensures f(u) == 0 {
      AbsentCell(orders, d, u);
    }
    forall u | u in ks ensures u in subs {
      var o := MemberOfKey(orders, d.sub, u);
    }
    SumOverSubset(ks, subs, f);
    SumOverSlots(subs, f);
    assert seq(|subs|, j requires 0 <= j < |subs| => Cell(orders, d, subs[j]))
        == seq(|subs|, j requires 0 <= j < |subs| => f(subs[j]));
  }

  /**
   * When every order's sub-key is one of the row's sub-keys, the overlay of
   * a fresh group is the row group of the specification: each sub-key's
   * rounded total, then the sum of those slots.
   */
  lemma CoveredOverlay(orders: seq<Order>, d: SalesSpec.Dims, subs: seq<string>)
    requires StrictlyAscending(subs)
    requires forall o :: o in orders ==> Str(o, d.sub) in subs
    ensures Overlay(ZeroRow(|subs|), orders, d, subs) == RowTotals(orders, d, subs)
  {
    var over, rt := Overlay(ZeroRow(|subs|), orders, d, subs), RowTotals(orders, d, subs);
    forall j | 0 <= j < |subs| ensures over[j] == rt[j] {
      if subs[j] !in Keys(orders, d.sub) {
        AbsentCell(orders, d, subs[j]);
      }
    }
    CoveredTotal(orders, d, subs);
  }

  /** Writing `c` into slot `i` (no slot when `i` is -1) and adding it to the subtotal slot. */
  function Place(row: seq<int>, i: int, c: int): (r: seq<int>)
    requires |row| > 0 && i < |row| - 1
    ensures |r| == |row|
  {
    var n := |row| - 1;
    (if i >= 0 then row[i := c] else row)[n := row[n] + c]
  }

  /** Adding `c` to slot `i` (no slot when `i` is -1) and to the subtotal slot. */
  function Bump(row: seq<int>, i: int, c: int): (r: seq<int>)
    requires |row| > 0 && i < |row| - 1
    ensures |r| == |row|
  {
    var n := |row| - 1;
    (if i >= 0 then row[i := row[i] + c] else row)[n := row[n] + c]
  }

  /**
   * The callback for one sub-key bucket: the sub-key's position among the
   * row's sub-keys (`indexOf`, -1 when absent) receives the rounded total
   * of the bucket's measure; that total is added to the subtotal slot, to
   * the same two slots of the grand-total group and to both running totals.
   */
  method ReduceSubGroup(orders: seq<Order>, subKey: string, metric: NumKey, subs: seq<string>,
                        totals: seq<int>, gtRow: seq<int>, stateGrandTotal: int, grandTotal: int)
    returns (totals': seq<int>, gtRow': seq<int>, stateGrandTotal': int, grandTotal': int)
    requires |totals| == |subs| + 1 && |gtRow| == |subs| + 1
    ensures totals' == Place(totals, IndexOf(subs, subKey), Round(MeasureSum(orders, metric)))
    ensures gtRow' == Bump(gtRow, IndexOf(subs, subKey), Round(MeasureSum(orders, metric)))
    ensures stateGrandTotal' == stateGrandTotal + Round(MeasureSum(orders, metric))
    ensures grandTotal' == grandTotal + Round(MeasureSum(orders, metric))
  {
    var n := |subs|;
    var subKeyIndex := IndexOf(subs, subKey);
    var total := Round(MeasureSum(orders, metric));
    totals', gtRow' := totals, gtRow;
    if subKeyIndex >= 0 {
      totals' := totals'[subKeyIndex := total];
    }
    totals' := totals'[n := totals'[n] + total];
    if subKeyIndex >= 0 {
      gtRow' := gtRow'[subKeyIndex := gtRow'[subKeyIndex] + total];
    }
    gtRow' := gtRow'[n := gtRow'[n] + total];
    stateGrandTotal' := stateGrandTotal + total;
    grandTotal' := grandTotal + total;
  }

  lemma FillNothing(start: seq<int>, subs: seq<string>, m: NumKey)
    requires |start| == |subs| + 1
    ensures Fill(start, subs, [], m) == start
  {
  }

  /** Where the bucket for `u` sits among one bucket more. */
  lemma BucketIndexStep(groups: seq<(string, seq<Order>)>, t: nat, u: string)
    requires Distinct(RowKeys(groups)) && t < |groups|
    ensures IndexOf(RowKeys(groups[..t + 1]), u) ==
            if u == groups[t].0 then t else IndexOf(RowKeys(groups[..t]), u)
  {
    var g := groups[..t];
    assert RowKeys(groups[..t + 1]) == RowKeys(g) + [groups[t].0];
    assert groups[t].0 !in RowKeys(g);
    IndexOfAppend(RowKeys(g), groups[t].0, u);
  }

  lemma GroupTotalsStep(groups: seq<(string, seq<Order>)>, m: NumKey, t: nat)
    requires t < |groups|
    ensures Sum(GroupTotals(groups[..t + 1], m)) == Sum(GroupTotals(groups[..t], m)) + Round(MeasureSum(groups[t].1, m))
  {
    assert GroupTotals(groups[..t + 1], m)[..t] == GroupTotals(groups[..t], m);
  }

  /** One more bucket changes only the slot of its own sub-key, which still held its starting value. */
  lemma FillSlotStep(start: seq<int>, subs: seq<string>, groups: seq<(string, seq<Order>)>, m: NumKey, t: nat, j: nat)
    requires |start| == |subs| + 1
    requires Distinct(subs) && Distinct(RowKeys(groups)) && t < |groups| && j < |subs|
    ensures var before := Fill(start, subs, groups[..t], m);
            && (subs[j] == groups[t].0 ==> before[j] == start[j])
            && Fill(start, subs, groups[..t + 1], m)[j] ==
               if subs[j] == groups[t].0 then Round(MeasureSum(groups[t].1, m)) else before[j]
  {
    BucketIndexStep(groups, t, subs[j]);
  }

  /**
   * Reducing one more bucket: its sub-key's slot still held its starting
   * value, and the group after one bucket more is the group before with
   * that bucket placed.
   */
  lemma FillStep(start: seq<int>, subs: seq<string>, groups: seq<(string, seq<Order>)>, m: NumKey, t: nat)
    requires |start| == |subs| + 1
    requires Distinct(subs) && Distinct(RowKeys(groups)) && t < |groups|
    ensures var before := Fill(start, subs, groups[..t], m);
            var i := IndexOf(subs, groups[t].0);
            && (i >= 0 ==> before[i] == start[i])
            && Fill(start, subs, groups[..t + 1], m) == Place(before, i, Round(MeasureSum(groups[t].1, m)))
  {
    var c := Round(MeasureSum(groups[t].1, m));
    var before, after := Fill(start, subs, groups[..t], m), Fill(start, subs, groups[..t + 1], m);
    var i := IndexOf(subs, groups[t].0);
    forall j | 0 <= j < |subs|
      ensures after[j] == Place(before, i, c)[j]
      ensures j == i ==> before[j] == start[j]
    {
      FillSlotStep(start, subs, groups, m, t, j);
    }
    GroupTotalsStep(groups, m, t);
  }

  lemma AddRowsZero(a: seq<int>)
    requires |a| > 0
    ensures AddRows(a, ZeroRow(|a| - 1)) == a
  {
  }

  /** Placing into a slot that held 0 adds to the sum of two groups what bumping adds. */
  lemma AddRowsPlace(a: seq<int>, b: seq<int>, i: int, c: int)
    requires |a| == |b| > 0 && i < |b| - 1 && (i >= 0 ==> b[i] == 0)
    ensures AddRows(a, Place(b, i, c)) == Bump(AddRows(a, b), i, c)
  {
  }

  /**
   * The inner reduction over the sub-key buckets of one row key, from the
   * row's group in the accumulator: the group ends up filled from the
   * buckets, the grand-total group grows slot by slot by what the buckets
   * hold, and both running totals by the total of all the buckets.
   */
  method ReduceSubGroups(groups: seq<(string, seq<Order>)>, metric: NumKey, subs: seq<string>,
                         totals0: seq<int>, gtRow0: seq<int>, stateGrandTotal0: int, grandTotal0: int)
    returns (totals: seq<int>, gtRow: seq<int>, stateGrandTotal: int, grandTotal: int)
    requires Distinct(subs) && Distinct(RowKeys(groups))
    requires |totals0| == |subs| + 1 && |gtRow0| == |subs| + 1
    ensures totals == Fill(totals0, subs, groups, metric)
    ensures gtRow == AddRows(gtRow0, Fill(ZeroRow(|subs|), subs, groups, metric))
    ensures stateGrandTotal == stateGrandTotal0 + Sum(GroupTotals(groups, metric))
    ensures grandTotal == grandTotal0 + Sum(GroupTotals(groups, metric))
  {
    ghost var zero := ZeroRow(|subs|);
    totals, gtRow, stateGrandTotal, grandTotal := totals0, gtRow0, stateGrandTotal0, grandTotal0;
    FillNothing(totals0, subs, metric);
    FillNothing(zero, subs, metric);
    AddRowsZero(gtRow0);
    for t := 0 to |groups|
      invariant totals == Fill(totals0, subs, groups[..t], metric)
      invariant gtRow == AddRows(gtRow0, Fill(zero, subs, groups[..t], metric))
      invariant stateGrandTotal == stateGrandTotal0 + Sum(GroupTotals(groups[..t], metric))
      invariant grandTotal == grandTotal0 + Sum(GroupTotals(groups[..t], metric))
    {
      var (subKey, orders) := groups[t];
      FillStep(totals0, subs, groups, metric, t);
      FillStep(zero, subs, groups, metric, t);
      AddRowsPlace(gtRow0, Fill(zero, subs, groups[..t], metric), IndexOf(subs, subKey), Round(MeasureSum(orders, metric)));
      GroupTotalsStep(groups, metric, t);
      totals, gtRow, stateGrandTotal, grandTotal :=
        ReduceSubGroup(orders, subKey, metric, subs, totals, gtRow, stateGrandTotal, grandTotal);
    }
    assert groups[..|groups|] == groups;
  }

  // ---- One state: its row-key buckets ----

  /**
   * The callbacks over the sub-key buckets of orders whose row key is not
   * in the row-key structure: there is no group to write to (the writes go
   * to index -1 of an empty array), so only the running totals grow.
   */
  method ReduceUnmatchedSubGroups(groups: seq<(string, seq<Order>)>, metric: NumKey,
                                  stateGrandTotal0: int, grandTotal0: int)
    returns (stateGrandTotal: int, grandTotal: int)
    ensures stateGrandTotal == stateGrandTotal0 + Sum(GroupTotals(groups, metric))
    ensures grandTotal == grandTotal0 + Sum(GroupTotals(groups, metric))
  {
    stateGrandTotal, grandTotal := stateGrandTotal0, grandTotal0;
    for t := 0 to |groups|
      invariant stateGrandTotal == stateGrandTotal0 + Sum(GroupTotals(groups[..t], metric))
      invariant grandTotal == grandTotal0 + Sum(GroupTotals(groups[..t], metric))
    {
      var total := Round(MeasureSum(groups[t].1, metric));
      GroupTotalsStep(groups, metric, t);
      stateGrandTotal := stateGrandTotal + total;
      grandTotal := grandTotal + total;
    }
    assert groups[..|groups|] == groups;
  }

  /** `rowKeyValues.find(...)` for the row key of a bucket's first order (none for an empty bucket). */
  function RowOf(rows: Rows, orders: seq<Order>, d: SalesSpec.Dims): Option<nat>
  {
    if orders == [] then None else FindRow(rows, Str(orders[0], d.row))
  }

  /**
   * The callback for one row-key bucket of a state. When its row key is
   * found at row `i`, the accumulator's group `i` is reduced in place from
   * the bucket's orders and the grand-total group `i` grows by their
   * figures; when it is not found neither column changes. Either way both
   * running totals grow by the rounded totals of the bucket's sub-keys.
   */
  method ReduceRowGroup(orders: seq<Order>, rows: Rows, d: SalesSpec.Dims,
                        accTotals: Column, grandTotals: Column, stateGrandTotal: int, grandTotal: int)
    returns (accTotals': Column, grandTotals': Column, stateGrandTotal': int, grandTotal': int)
    requires WellFormedRows(rows) && Shaped(accTotals, rows) && Shaped(grandTotals, rows)
    ensures RowOf(rows, orders, d).Some? ==>
              var i := RowOf(rows, orders, d).value;
              && accTotals' == accTotals[i := Overlay(accTotals[i], orders, d, rows[i].1)]
              && grandTotals' == grandTotals[i := AddRows(grandTotals[i], Overlay(ZeroRow(|rows[i].1|), orders, d, rows[i].1))]
    ensures RowOf(rows, orders, d).None? ==> accTotals' == accTotals && grandTotals' == grandTotals
    ensures stateGrandTotal' == stateGrandTotal + BucketsTotal(orders, d)
    ensures grandTotal' == grandTotal + BucketsTotal(orders, d)
  {
    var curr := RowOf(rows, orders, d);
    var subGroups := GroupBy(orders, d.sub);
    AscendingIsDistinct(RowKeys(subGroups));
    BucketsTotalFromGroups(orders, d);
    accTotals', grandTotals' := accTotals, grandTotals;
    match curr {
      case Some(i) =>
        var subs := rows[i].1;
        AscendingIsDistinct(subs);
        var totals, gtRow;
        totals, gtRow, stateGrandTotal', grandTotal' :=
          ReduceSubGroups(subGroups, d.metric, subs, accTotals[i], grandTotals[i], stateGrandTotal, grandTotal);
        FillFromBuckets(accTotals[i], subs, orders, d);
        FillFromBuckets(ZeroRow(|subs|), subs, orders, d);
        accTotals' := accTotals'[i := totals];
        grandTotals' := grandTotals'[i := gtRow];
      case None =>
        stateGrandTotal', grandTotal' := ReduceUnmatchedSubGroups(subGroups, d.metric, stateGrandTotal, grandTotal);
    }
  }

  /**
   * A state's row groups read off its row-key buckets: each row with a
   * bucket holds the overlay of that bucket on a zero group, each row
   * without one stays zero.
   */
  ghost function StateFromGroups(rows: Rows, groups: seq<(string, seq<Order>)>, d: SalesSpec.Dims): (r: seq<seq<int>>)
    ensures |r| == |rows|
    ensures forall i :: 0 <= i < |rows| ==> |r[i]| == |rows[i].1| + 1
  {
    seq(|rows|, i requires 0 <= i < |rows| =>
          var k := IndexOf(RowKeys(groups), rows[i].0);
          if k < 0 then ZeroRow(|rows[i].1|) else Overlay(ZeroRow(|rows[i].1|), groups[k].1, d, rows[i].1))
  }

  /** Every bucket is non-empty, keyed by its first order's row key, and that key is a row key. */
  predicate Matched(rows: Rows, groups: seq<(string, seq<Order>)>, d: SalesSpec.Dims)
  {
    forall t :: 0 <= t < |groups| ==>
      groups[t].1 != [] && Str(groups[t].1[0], d.row) == groups[t].0 && groups[t].0 in RowKeys(rows)
  }

  lemma StateFromNoGroups(rows: Rows, d: SalesSpec.Dims)
    ensures StateFromGroups(rows, [], d) == ZeroGroups(rows)
  {
  }

  /** One more bucket changes only the row of its own key, which was still zero. */
  lemma StateSlotStep(rows: Rows, groups: seq<(string, seq<Order>)>, d: SalesSpec.Dims, t: nat, r: nat)
    requires WellFormedRows(rows) && Distinct(RowKeys(groups)) && t < |groups| && r < |rows|
    ensures var before := StateFromGroups(rows, groups[..t], d);
            && (rows[r].0 == groups[t].0 ==> before[r] == ZeroRow(|rows[r].1|))
            && StateFromGroups(rows, groups[..t + 1], d)[r] ==
               if rows[r].0 == groups[t].0 then Overlay(ZeroRow(|rows[r].1|), groups[t].1, d, rows[r].1) else before[r]
  {
    BucketIndexStep(groups, t, rows[r].0);
  }

  /** Reducing one more bucket of a state replaces its (still zero) row by the bucket's overlay. */
  lemma StateStep(rows: Rows, groups: seq<(string, seq<Order>)>, d: SalesSpec.Dims, t: nat, i: nat)
    requires WellFormedRows(rows) && Distinct(RowKeys(groups)) && t < |groups|
    requires i < |rows| && rows[i].0 == groups[t].0
    ensures var before := StateFromGroups(rows, groups[..t], d);
            && before[i] == ZeroRow(|rows[i].1|)
            && StateFromGroups(rows, groups[..t + 1], d) == before[i := Overlay(ZeroRow(|rows[i].1|), groups[t].1, d, rows[i].1)]
  {
    AscendingIsDistinct(RowKeys(rows));
    var before, after := StateFromGroups(rows, groups[..t], d), StateFromGroups(rows, groups[..t + 1], d);
    forall r | 0 <= r < |rows|
      ensures after[r] == before[i := Overlay(ZeroRow(|rows[i].1|), groups[t].1, d, rows[i].1)][r]
      ensures r == i ==> before[r] == ZeroRow(|rows[r].1|)
    {
      StateSlotStep(rows, groups, d, t, r);
      assert rows[r].0 == groups[t].0 <==> r == i by {
        assert RowKeys(rows)[r] == rows[r].0 && RowKeys(rows)[i] == rows[i].0;
      }
    }
  }

  lemma FramedUpdate(groups: seq<seq<int>>, last: seq<int>, i: nat, x: seq<int>)
    requires i < |groups|
    ensures Framed(groups, last)[i := x] == Framed(groups[i := x], last)
  {
  }

  /** Adding a group into a zero group of one column adds it to the sum of two columns. */
  lemma AddColsUpdate(a: seq<seq<int>>, b: seq<seq<int>>, i: nat, x: seq<int>)
    requires |a| == |b| && i < |b| && |a[i]| > 0 && b[i] == ZeroRow(|a[i]| - 1)
    ensures AddCols(a, b)[i] == a[i]
    ensures AddCols(a, b[i := x]) == AddCols(a, b)[i := AddRows(a[i], x)]
  {
    AddRowsZero(a[i]);
  }

  lemma LastsUpdate(m: seq<seq<int>>, n: nat, i: nat, x: seq<int>)
    requires |m| == n && i < n
    ensures Lasts(m[i := x], n) == Lasts(m, n)[i := Last(x)]
  {
  }

  lemma FramedShaped(rows: Rows, groups: seq<seq<int>>, last: seq<int>)
    requires |groups| == |rows| && |last| == 1
    requires forall i :: 0 <= i < |rows| ==> |groups[i]| == |rows[i].1| + 1
    ensures Shaped(Framed(groups, last), rows)
  {
  }

  /** Before any bucket: the template is the zero state, the grand-total column is unchanged, nothing is added. */
  lemma RowGroupsStart(rows: Rows, d: SalesSpec.Dims, grandTotals0: Column)
    requires Shaped(grandTotals0, rows)
    ensures Framed(ZeroGroups(rows), [0]) == Framed(StateFromGroups(rows, [], d), [0])
    ensures grandTotals0 == Framed(AddCols(Head(grandTotals0, |rows|), StateFromGroups(rows, [], d)), Tail(grandTotals0, |rows|))
    ensures Sum(Lasts(StateFromGroups(rows, [], d), |rows|)) == 0
  {
    var n := |rows|;
    var head := Head(grandTotals0, n);
    StateFromNoGroups(rows, d);
    forall i | 0 <= i < n ensures AddRows(head[i], ZeroRow(|head[i]| - 1)) == head[i] {
      AddRowsZero(head[i]);
    }
    assert AddCols(head, ZeroGroups(rows)) == head;
    SumZeros(Lasts(ZeroGroups(rows), n));
  }

  /** Before bucket `t`: its row key is found, and both columns still have the template's shape. */
  lemma RowGroupsReady(groups: seq<(string, seq<Order>)>, rows: Rows, d: SalesSpec.Dims, grandTotals0: Column,
                       t: nat, accTotals: Column, grandTotals: Column)
    requires WellFormedRows(rows) && Matched(rows, groups, d) && Shaped(grandTotals0, rows) && t < |groups|
    requires accTotals == Framed(StateFromGroups(rows, groups[..t], d), [0])
    requires grandTotals == Framed(AddCols(Head(grandTotals0, |rows|), StateFromGroups(rows, groups[..t], d)),
                                   Tail(grandTotals0, |rows|))
    ensures RowOf(rows, groups[t].1, d) == FindRow(rows, groups[t].0) && FindRow(rows, groups[t].0).Some?
    ensures Shaped(accTotals, rows) && Shaped(grandTotals, rows)
  {
    var before := StateFromGroups(rows, groups[..t], d);
    FramedShaped(rows, before, [0]);
    FramedShaped(rows, AddCols(Head(grandTotals0, |rows|), before), Tail(grandTotals0, |rows|));
  }

  /** After bucket `t`: the reduction so far covers one bucket more. */
  lemma RowGroupsAdvance(groups: seq<(string, seq<Order>)>, rows: Rows, d: SalesSpec.Dims,
                         grandTotals0: Column, stateGrandTotal0: int, grandTotal0: int, t: nat,
                         accTotals: Column, grandTotals: Column, stateGrandTotal: int, grandTotal: int,
                         accTotals': Column, grandTotals': Column, stateGrandTotal': int, grandTotal': int)
    requires WellFormedRows(rows) && Distinct(RowKeys(groups)) && Matched(rows, groups, d)
    requires Shaped(grandTotals0, rows) && t < |groups|
    requires accTotals == Framed(StateFromGroups(rows, groups[..t], d), [0])
    requires grandTotals == Framed(AddCols(Head(grandTotals0, |rows|), StateFromGroups(rows, groups[..t], d)),
                                   Tail(grandTotals0, |rows|))
    requires stateGrandTotal == stateGrandTotal0 + Sum(Lasts(StateFromGroups(rows, groups[..t], d), |rows|))
    requires grandTotal == grandTotal0 + Sum(Lasts(StateFromGroups(rows, groups[..t], d), |rows|))
    requires RowOf(rows, groups[t].1, d) == FindRow(rows, groups[t].0) && FindRow(rows, groups[t].0).Some?
    requires var i := RowOf(rows, groups[t].1, d).value;
             && accTotals' == accTotals[i := Overlay(accTotals[i], groups[t].1, d, rows[i].1)]
             && grandTotals' == grandTotals[i := AddRows(grandTotals[i], Overlay(ZeroRow(|rows[i].1|), groups[t].1, d, rows[i].1))]
    requires stateGrandTotal' == stateGrandTotal + BucketsTotal(groups[t].1, d)
    requires grandTotal' == grandTotal + BucketsTotal(groups[t].1, d)
    ensures accTotals' == Framed(StateFromGroups(rows, groups[..t + 1], d), [0])
    ensures grandTotals' == Framed(AddCols(Head(grandTotals0, |rows|), StateFromGroups(rows, groups[..t + 1], d)),
                                   Tail(grandTotals0, |rows|))
    ensures stateGrandTotal' == stateGrandTotal0 + Sum(Lasts(StateFromGroups(rows, groups[..t + 1], d), |rows|))
    ensures grandTotal' == grandTotal0 + Sum(Lasts(StateFromGroups(rows, groups[..t + 1], d), |rows|))
  {
    var n := |rows|;
    var head, tail := Head(grandTotals0, n), Tail(grandTotals0, n);
    var before := StateFromGroups(rows, groups[..t], d);
    var i := FindRow(rows, groups[t].0).value;
    var row := Overlay(ZeroRow(|rows[i].1|), groups[t].1, d, rows[i].1);
    StateStep(rows, groups, d, t, i);
    FramedUpdate(before, [0], i, row);
    AddColsUpdate(head, before, i, row);
    FramedUpdate(AddCols(head, before), tail, i, AddRows(head[i], row));
    LastsUpdate(before, n, i, row);
    SumUpdate(Lasts(before, n), i, Last(row));
  }

  /**
   * The reduction over a state's row-key buckets (ascending), from a fresh
   * column template: the state's column ends up holding the row groups read
   * off the buckets with its total slot still 0, the grand-total column's
   * row groups grow by them, and both running totals by their subtotals.
   */
  method ReduceRowGroups(groups: seq<(string, seq<Order>)>, rows: Rows, d: SalesSpec.Dims,
                         accTotals0: Column, grandTotals0: Column, stateGrandTotal0: int, grandTotal0: int)
    returns (accTotals: Column, grandTotals: Column, stateGrandTotal: int, grandTotal: int)
    requires WellFormedRows(rows) && Distinct(RowKeys(groups)) && Matched(rows, groups, d)
    requires accTotals0 == Framed(ZeroGroups(rows), [0]) && Shaped(grandTotals0, rows)
    ensures accTotals == Framed(StateFromGroups(rows, groups, d), [0])
    ensures grandTotals == Framed(AddCols(Head(grandTotals0, |rows|), StateFromGroups(rows, groups, d)),
                                  Tail(grandTotals0, |rows|))
    ensures stateGrandTotal == stateGrandTotal0 + Sum(Lasts(StateFromGroups(rows, groups, d), |rows|))
    ensures grandTotal == grandTotal0 + Sum(Lasts(StateFromGroups(rows, groups, d), |rows|))
  {
    accTotals, grandTotals, stateGrandTotal, grandTotal := accTotals0, grandTotals0, stateGrandTotal0, grandTotal0;
    RowGroupsStart(rows, d, grandTotals0);
    for t := 0 to |groups|
      invariant accTotals == Framed(StateFromGroups(rows, groups[..t], d), [0])
      invariant grandTotals == Framed(AddCols(Head(grandTotals0, |rows|), StateFromGroups(rows, groups[..t], d)),
                                      Tail(grandTotals0, |rows|))
      invariant stateGrandTotal == stateGrandTotal0 + Sum(Lasts(StateFromGroups(rows, groups[..t], d), |rows|))
      invariant grandTotal == grandTotal0 + Sum(Lasts(StateFromGroups(rows, groups[..t], d), |rows|))
    {
      RowGroupsReady(groups, rows, d, grandTotals0, t, accTotals, grandTotals);
      ghost var acc, gt, st, g := accTotals, grandTotals, stateGrandTotal, grandTotal;
      accTotals, grandTotals, stateGrandTotal, grandTotal :=
        ReduceRowGroup(groups[t].1, rows, d, accTotals, grandTotals, stateGrandTotal, grandTotal);
      RowGroupsAdvance(groups, rows, d, grandTotals0, stateGrandTotal0, grandTotal0, t,
                       acc, gt, st, g, accTotals, grandTotals, stateGrandTotal, grandTotal);
    }
    assert groups[..|groups|] == groups;
  }

  // ---- One state column ----

  /** The row-key buckets of a state's orders meet what the row reduction needs. */
  lemma StateBucketsMatched(stateOrders: seq<Order>, rows: Rows, d: SalesSpec.Dims)
    requires LookupsHit(rows, stateOrders, d)
    ensures Distinct(RowKeys(GroupBy(stateOrders, d.row)))
    ensures Matched(rows, GroupBy(stateOrders, d.row), d)
  {
    var groups := GroupBy(stateOrders, d.row);
    AscendingIsDistinct(RowKeys(groups));
    forall t | 0 <= t < |groups|
      ensures groups[t].1 != [] && Str(groups[t].1[0], d.row) == groups[t].0 && groups[t].0 in RowKeys(rows)
    {
      assert groups[t].1[0] in groups[t].1;
    }
  }

  /** Row `r` read off the state's buckets is the specification's row group `r`. */
  lemma StateRowFromBuckets(stateOrders: seq<Order>, rows: Rows, d: SalesSpec.Dims, r: nat)
    requires WellFormedRows(rows) && LookupsHit(rows, stateOrders, d) && r < |rows|
    ensures StateFromGroups(rows, GroupBy(stateOrders, d.row), d)[r] == StateRow(stateOrders, rows, d, r)
  {
    var groups := GroupBy(stateOrders, d.row);
    var key, subs := rows[r].0, rows[r].1;
    var k := IndexOf(RowKeys(groups), key);
    if k < 0 {
      WhereAbsent(stateOrders, d.row, key);
      RowTotalsOfNothing(d, subs);
    } else {
      var bucket := Where(stateOrders, d.row, key);
      assert groups[k].1 == bucket;
      AscendingIsDistinct(RowKeys(rows));
      forall o | o in bucket ensures Str(o, d.sub) in subs {
        var q := FindRow(rows, Str(o, d.row)).value;
        assert RowKeys(rows)[q] == RowKeys(rows)[r];
      }
      CoveredOverlay(bucket, d, subs);
    }
  }

  /** A state's row groups read off its buckets are the specification's row groups. */
  lemma StateFromBuckets(stateOrders: seq<Order>, rows: Rows, d: SalesSpec.Dims)
    requires WellFormedRows(rows) && LookupsHit(rows, stateOrders, d)
    ensures StateFromGroups(rows, GroupBy(stateOrders, d.row), d) == StateRows(stateOrders, rows, d)
  {
    forall r | 0 <= r < |rows|
      ensures StateFromGroups(rows, GroupBy(stateOrders, d.row), d)[r] == StateRows(stateOrders, rows, d)[r]
    {
      StateRowFromBuckets(stateOrders, rows, d, r);
    }
  }

  /** Overwriting the trailing group of a column. */
  lemma FramedSetLast(groups: seq<seq<int>>, last: seq<int>, last': seq<int>)
    requires groups != []
    ensures Framed(groups, last)[|groups| := last'] == Framed(groups, last')
  {
  }

  /** A state's column is its row groups framed with a 0, the last group then set to the state total. */
  lemma StateColumnFromTotal(stateOrders: seq<Order>, rows: Rows, d: SalesSpec.Dims, total: int)
    requires total == Sum(Lasts(StateRows(stateOrders, rows, d), |rows|))
    ensures var m := Framed(StateRows(stateOrders, rows, d), [0]);
            StateColumn(stateOrders, rows, d) == if |m| > 0 then m[|m| - 1 := [total]] else m
  {
    var groups := StateRows(stateOrders, rows, d);
    if groups != [] {
      FramedSetLast(groups, [0], [total]);
    }
  }

  /**
   * One state's column: a fresh template reduced over the state's row-key
   * buckets, then its last group set to the state's total. The column is
   * the specification's column of the state (each row group the rounded
   * sub-key totals with their subtotal, then the state total), the
   * grand-total column has the state's row groups added in and its last
   * group set to the grand total so far, and that grand total has grown by
   * the state total.
   */
  method ReduceState(stateOrders: seq<Order>, rows: Rows, d: SalesSpec.Dims, grandTotals0: Column, grandTotal0: int)
    returns (reducedTotals: Column, grandTotals: Column, grandTotal: int)
    requires WellFormedRows(rows) && LookupsHit(rows, stateOrders, d) && Shaped(grandTotals0, rows)
    ensures reducedTotals == StateColumn(stateOrders, rows, d)
    ensures grandTotals == Framed(AddCols(Head(grandTotals0, |rows|), StateRows(stateOrders, rows, d)), [grandTotal])
    ensures grandTotal == grandTotal0 + StateTotal(stateOrders, rows, d)
  {
    var initialAccumulator := CreateColumnMap(rows);
    var groups := GroupBy(stateOrders, d.row);
    StateBucketsMatched(stateOrders, rows, d);
    var stateGrandTotal;
    reducedTotals, grandTotals, stateGrandTotal, grandTotal :=
      ReduceRowGroups(groups, rows, d, initialAccumulator, grandTotals0, 0, grandTotal0);
    StateFromBuckets(stateOrders, rows, d);
    StateColumnFromTotal(stateOrders, rows, d, stateGrandTotal);
    if |reducedTotals| > 0 {
      reducedTotals := reducedTotals[|reducedTotals| - 1 := [stateGrandTotal]];
    }
    if |grandTotals| > 0 {
      FramedSetLast(AddCols(Head(grandTotals0, |rows|), StateRows(stateOrders, rows, d)), Tail(grandTotals0, |rows|), [grandTotal]);
      grandTotals := grandTotals[|grandTotals| - 1 := [grandTotal]];
    }
  }

  // ---- The whole table ----

  /** Slot sums over one column more. */
  lemma SlotSumStep(cols: seq<Column>, col: Column, i: nat, j: nat)
    ensures SlotSum(cols + [col], i, j) == SlotSum(cols, i, j) + Slot(col, i, j)
  {
    assert (cols + [col])[..|cols|] == cols;
  }

  /** With no state columns the "Grand Total" column is the zero template. */
  lemma GrandColumnStart(rows: Rows)
    ensures GrandColumn([], rows) == Framed(ZeroGroups(rows), [0])
  {
    forall i | 0 <= i < |rows| ensures GrandRows([], rows)[i] == ZeroGroups(rows)[i] {
    }
    assert GrandRows([], rows) == ZeroGroups(rows);
  }

  /** One state column more adds its row group `i` to the grand-total row group `i`. */
  lemma GrandRowStep(cols: seq<Column>, rows: Rows, groups: seq<seq<int>>, total: int, i: nat)
    requires |groups| == |rows| && i < |rows| && |groups[i]| == |rows[i].1| + 1
    ensures GrandRows(cols + [Framed(groups, [total])], rows)[i] == AddRows(GrandRows(cols, rows)[i], groups[i])
  {
    var col := Framed(groups, [total]);
    forall j | 0 <= j < |rows[i].1| + 1
      ensures GrandRows(cols + [col], rows)[i][j] == AddRows(GrandRows(cols, rows)[i], groups[i])[j]
    {
      SlotSumStep(cols, col, i, j);
    }
  }

  /**
   * Adding one state column (its row groups framed with its total) to the
   * "Grand Total" column adds its row groups group by group, and its total
   * to the last slot.
   */
  lemma GrandRowsStep(cols: seq<Column>, rows: Rows, groups: seq<seq<int>>, total: int)
    requires |groups| == |rows|
    requires forall i :: 0 <= i < |rows| ==> |groups[i]| == |rows[i].1| + 1
    ensures GrandRows(cols + [Framed(groups, [total])], rows) == AddCols(GrandRows(cols, rows), groups)
  {
    forall i | 0 <= i < |rows|
      ensures GrandRows(cols + [Framed(groups, [total])], rows)[i] == AddCols(GrandRows(cols, rows), groups)[i]
    {
      GrandRowStep(cols, rows, groups, total, i);
    }
  }

  lemma GrandTotalStep(cols: seq<Column>, rows: Rows, groups: seq<seq<int>>, total: int)
    requires rows != [] && |groups| == |rows|
    ensures SlotSum(cols + [Framed(groups, [total])], |rows|, 0) == SlotSum(cols, |rows|, 0) + total
  {
    SlotSumStep(cols, Framed(groups, [total]), |rows|, 0);
  }

  /** After one state more, the grand-total column and the grand total are those over one column more. */
  lemma GrandAdvance(cols: seq<Column>, rows: Rows, groups: seq<seq<int>>, total: int,
                     grandTotals: Column, grandTotal: int, grandTotals': Column, grandTotal': int)
    requires rows != [] && |groups| == |rows|
    requires forall i :: 0 <= i < |rows| ==> |groups[i]| == |rows[i].1| + 1
    requires grandTotals == GrandColumn(cols, rows) && grandTotal == SlotSum(cols, |rows|, 0)
    requires grandTotals' == Framed(AddCols(Head(grandTotals, |rows|), groups), [grandTotal'])
    requires grandTotal' == grandTotal + total
    ensures grandTotals' == GrandColumn(cols + [Framed(groups, [total])], rows)
    ensures grandTotal' == SlotSum(cols + [Framed(groups, [total])], |rows|, 0)
  {
    GrandRowsStep(cols, rows, groups, total);
    GrandTotalStep(cols, rows, groups, total);
    assert Head(grandTotals, |rows|) == GrandRows(cols, rows);
  }

  /** The "Grand Total" column so far has the template's shape. */
  lemma GrandColumnShaped(cols: seq<Column>, rows: Rows)
    ensures Shaped(GrandColumn(cols, rows), rows)
  {
  }

  /** The column of each state bucket. */
  ghost function ColumnsOf(states: seq<(string, seq<Order>)>, rows: Rows, d: SalesSpec.Dims): (cols: seq<Column>)
    ensures |cols| == |states|
  {
    seq(|states|, k requires 0 <= k < |states| => StateColumn(states[k].1, rows, d))
  }

  /**
   * The reduction over the state buckets, in order, from a fresh
   * "Grand Total" template: each state is paired with its column as the
   * specification states it, and the "Grand Total" column and grand total
   * are the slot-by-slot sums of those columns.
   */
  method ReduceStates(states: seq<(string, seq<Order>)>, rows: Rows, d: SalesSpec.Dims)
    returns (colMetrics: seq<(string, Column)>, grandTotals: Column, grandTotal: int)
    requires WellFormedRows(rows) && (states != [] ==> rows != [])
    requires forall k :: 0 <= k < |states| ==> LookupsHit(rows, states[k].1, d)
    ensures colMetrics == Entries(RowKeys(states), ColumnsOf(states, rows, d))
    ensures grandTotals == GrandColumn(ColumnsOf(states, rows, d), rows)
    ensures grandTotal == SlotSum(ColumnsOf(states, rows, d), |rows|, 0)
  {
    ghost var cols := ColumnsOf(states, rows, d);
    ghost var entries := Entries(RowKeys(states), cols);
    grandTotals := CreateColumnMap(rows);
    grandTotal := 0;
    GrandColumnStart(rows);
    colMetrics := [];
    for k := 0 to |states|
      invariant colMetrics == entries[..k]
      invariant grandTotals == GrandColumn(cols[..k], rows)
      invariant grandTotal == SlotSum(cols[..k], |rows|, 0)
    {
      var (state, stateOrders) := states[k];
      GrandColumnShaped(cols[..k], rows);
      ghost var gt, g := grandTotals, grandTotal;
      var reducedTotals;
      reducedTotals, grandTotals, grandTotal := ReduceState(stateOrders, rows, d, grandTotals, grandTotal);
      GrandAdvance(cols[..k], rows, StateRows(stateOrders, rows, d), StateTotal(stateOrders, rows, d),
                   gt, g, grandTotals, grandTotal);
      TakeOneMore(cols, k);
      TakeOneMore(entries, k);
      assert entries[k] == (state, reducedTotals);
      colMetrics := colMetrics + [(state, reducedTotals)];
    }
    assert cols[..|states|] == cols;
    assert entries[..|states|] == entries;
  }

  /** The state buckets carry the states in order, and their columns are the specification's. */
  lemma StateBucketColumns(data: seq<Order>, d: SalesSpec.Dims)
    ensures RowKeys(GroupBy(data, d.col)) == States(data, d)
    ensures ColumnsOf(GroupBy(data, d.col), RowKeyValues(data, d.row, d.sub), d) == StateColumns(data, d)
  {
  }

  /** Every state bucket's lookups hit, and there are row keys whenever there is a state. */
  lemma StateBucketLookups(data: seq<Order>, d: SalesSpec.Dims)
    ensures var groups := GroupBy(data, d.col);
            var rows := RowKeyValues(data, d.row, d.sub);
            && (groups != [] ==> rows != [])
            && forall k :: 0 <= k < |groups| ==> LookupsHit(rows, groups[k].1, d)
  {
    var groups := GroupBy(data, d.col);
    var rows := RowKeyValues(data, d.row, d.sub);
    LookupsNeverMiss(data, d);
    forall k | 0 <= k < |groups| ensures LookupsHit(rows, groups[k].1, d) {
      LookupsHitWhere(rows, data, d, d.col, groups[k].0);
    }
    if groups != [] {
      var o := groups[0].1[0];
      assert o in groups[0].1;
      KeyOfMember(data, d.row, o);
    }
  }

  /**
   * `formatData`: the row-key structure, then one column per state in
   * ascending order of the column key, each paired with its state, then the
   * "Grand Total" column. The row-key structure is the distinct row keys
   * with their distinct sub-keys, both ascending, and the columns are
   * exactly the table of the specification: every slot the rounded sum of
   * the measure over its state, row key and sub-key, every row group closed
   * by its subtotal, every state column by its total, and the "Grand Total"
   * column their slot-by-slot sum.
   */
  method FormatData(data: seq<Order>, config: DataConfig) returns (rowKeyValues: Rows, colMetrics: seq<(string, Column)>)
    ensures rowKeyValues == RowKeyValues(data, config.rowKey, config.rowSubKey)
    ensures colMetrics == ExpectedTable(data, config.Dims())
  {
    var d := config.Dims();
    rowKeyValues := RowKeyValues(data, d.row, d.sub);
    var states := GroupBy(data, d.col);
    StateBucketColumns(data, d);
    StateBucketLookups(data, d);
    var grandTotals, grandTotal;
    colMetrics, grandTotals, grandTotal := ReduceStates(states, rowKeyValues, d);
    colMetrics := colMetrics + [(GrandTotalKey, grandTotals)];
  }
}

