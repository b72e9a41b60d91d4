/**
 * What the sales pivot promises, proved about its declarative table (which
 * `SalesTable.FormatData` is proved to produce): column order, the
 * template's shape, slot values, row subtotals, column totals, and the
 * "Grand Total" column as the slot-by-slot sum of the state columns.
 */
module SalesProperties {
  import opened Orders
  import opened StringOrder
  import opened Grouping
  import opened SalesSpec

  // ---- Sums over slots ----

  /** Sums are additive slot by slot. */
  lemma {:induction false} SumAdd(a: seq<int>, b: seq<int>)
    requires |a| == |b|
    ensures Sum(seq(|a|, j requires 0 <= j < |a| => a[j] + b[j])) == Sum(a) + Sum(b)
  {
    if a != [] {
      var n := |a| - 1;
      SumAdd(a[..n], b[..n]);
      assert seq(|a|, j requires 0 <= j < |a| => a[j] + b[j])[..n]
          == seq(n, j requires 0 <= j < n => a[..n][j] + b[..n][j]);
    }
  }

  /** The slots of one column at some positions. */
  function Slots(c: Column, ps: seq<(nat, nat)>): (r: seq<int>)
    ensures |r| == |ps|
  {
    seq(|ps|, p requires 0 <= p < |ps| => Slot(c, ps[p].0, ps[p].1))
  }

  /** The slot sums over some columns at some positions. */
  function SlotSums(cols: seq<Column>, ps: seq<(nat, nat)>): (r: seq<int>)
    ensures |r| == |ps|
  {
    seq(|ps|, p requires 0 <= p < |ps| => SlotSum(cols, ps[p].0, ps[p].1))
  }

  /**
   * When slot `(i, j)` of every column is the sum of its slots at positions
   * `ps`, the same holds of the slot sums: summing over columns keeps every
   * subtotal and every total a subtotal and a total.
   */
  lemma {:induction false} SlotSumLinear(cols: seq<Column>, i: nat, j: nat, ps: seq<(nat, nat)>)
    requires forall k :: 0 <= k < |cols| ==> Slot(cols[k], i, j) == Sum(Slots(cols[k], ps))
    ensures SlotSum(cols, i, j) == Sum(SlotSums(cols, ps))
  {
    if cols == [] {
      SumZeros(SlotSums(cols, ps));
    } else {
      var n := |cols| - 1;
      var init, c := cols[..n], cols[n];
      SlotSumLinear(init, i, j, ps);
      var a, b := SlotSums(init, ps), Slots(c, ps);
      SumAdd(a, b);
      assert SlotSums(cols, ps) == seq(|a|, p requires 0 <= p < |a| => a[p] + b[p]);
    }
  }

  /** A slot sum is the sum of that slot over the columns. */
  lemma {:induction false} SlotSumIsSum(cols: seq<Column>, i: nat, j: nat)
    ensures SlotSum(cols, i, j) == Sum(seq(|cols|, k requires 0 <= k < |cols| => Slot(cols[k], i, j)))
  {
    if cols != [] {
      var n := |cols| - 1;
      SlotSumIsSum(cols[..n], i, j);
      assert seq(|cols|, k requires 0 <= k < |cols| => Slot(cols[k], i, j))[..n]
          == seq(n, k requires 0 <= k < n => Slot(cols[..n][k], i, j));
    }
  }

  /** The positions of row group `i`'s sub-key slots. */
  function RowPositions(rows: Rows, i: nat): (ps: seq<(nat, nat)>)
    requires i < |rows|
    ensures |ps| == |rows[i].1| && forall j :: 0 <= j < |ps| ==> ps[j] == (i, j)
  {
    seq(|rows[i].1|, j requires 0 <= j < |rows[i].1| => (i, j))
  }

  /** The positions of the row subtotal slots. */
  function TotalPositions(rows: Rows): (ps: seq<(nat, nat)>)
    ensures |ps| == |rows| && forall i :: 0 <= i < |ps| ==> ps[i] == (i, |rows[i].1|)
  {
    seq(|rows|, i requires 0 <= i < |rows| => (i, |rows[i].1|))
  }

  // ---- One column ----

  /** Every state column has the template's shape. */
  lemma StateColumnShaped(stateOrders: seq<Order>, rows: Rows, d: Dims)
    ensures Shaped(StateColumn(stateOrders, rows, d), rows)
  {
  }

  /** In a state column every row group's subtotal slot is the sum of its sub-key slots. */
  lemma StateSubtotal(stateOrders: seq<Order>, rows: Rows, d: Dims, i: nat)
    requires i < |rows|
    ensures var c := StateColumn(stateOrders, rows, d);
            Slot(c, i, |rows[i].1|) == Sum(Slots(c, RowPositions(rows, i)))
  {
    var c := StateColumn(stateOrders, rows, d);
    var m := |rows[i].1|;
    var orders := Where(stateOrders, d.row, rows[i].0);
    var cells := seq(m, j requires 0 <= j < m => Cell(orders, d, rows[i].1[j]));
    assert c[i] == cells + [Sum(cells)];
    assert Slots(c, RowPositions(rows, i)) == cells;
  }

  /** In a state column the trailing slot is the sum of the row subtotals. */
  lemma StateTotalSlot(stateOrders: seq<Order>, rows: Rows, d: Dims)
    requires rows != []
    ensures var c := StateColumn(stateOrders, rows, d);
            Slot(c, |rows|, 0) == Sum(Slots(c, TotalPositions(rows)))
  {
    var c := StateColumn(stateOrders, rows, d);
    assert Slots(c, TotalPositions(rows)) == Lasts(StateRows(stateOrders, rows, d), |rows|);
  }

  /** Summing state columns keeps every row group's last slot the sum of its sub-key slots. */
  lemma GrandSubtotal(cols: seq<Column>, rows: Rows, i: nat)
    requires i < |rows|
    requires forall k :: 0 <= k < |cols| ==> Slot(cols[k], i, |rows[i].1|) == Sum(Slots(cols[k], RowPositions(rows, i)))
    ensures var g := GrandRows(cols, rows)[i];
            g[|g| - 1] == Sum(g[..|g| - 1])
  {
    var g := GrandRows(cols, rows)[i];
    SlotSumLinear(cols, i, |rows[i].1|, RowPositions(rows, i));
    assert SlotSums(cols, RowPositions(rows, i)) == g[..|g| - 1];
  }

  /** Summing state columns keeps the trailing slot the sum of the row subtotals. */
  lemma GrandTotalOfSubtotals(cols: seq<Column>, rows: Rows)
    requires rows != []
    requires forall k :: 0 <= k < |cols| ==> Slot(cols[k], |rows|, 0) == Sum(Slots(cols[k], TotalPositions(rows)))
    ensures var c := GrandColumn(cols, rows);
            c[|rows|] == [Sum(Lasts(c, |rows|))]
  {
    var c := GrandColumn(cols, rows);
    SlotSumLinear(cols, |rows|, 0, TotalPositions(rows));
    assert SlotSums(cols, TotalPositions(rows)) == Lasts(c, |rows|);
  }

  // ---- The table ----

  /**
   * Entry `k` of the table: the state columns in order, then "Grand Total".
   * It only unfolds `ExpectedTable`; it means something about the aggregator
   * through the `FormatData` ensures, which equates the two.
   */
  lemma TableEntry(data: seq<Order>, d: Dims, k: nat)
    requires k < |ExpectedTable(data, d)|
    ensures var t, states, rows := ExpectedTable(data, d), States(data, d), RowKeyValues(data, d.row, d.sub);
            && |t| == |states| + 1
            && (k < |states| ==> t[k] == (states[k], StateColumn(Where(data, d.col, states[k]), rows, d)))
            && (k == |states| ==> t[k] == (GrandTotalKey, GrandColumn(StateColumns(data, d), rows)))
  {
  }

  /**
   * Column order: one entry per distinct column-key value, in strictly
   * ascending order, then the "Grand Total" entry last.
   */
  lemma ColumnOrder(data: seq<Order>, d: Dims)
    ensures var t, states := ExpectedTable(data, d), States(data, d);
            && |t| == |states| + 1
            && (forall k :: 0 <= k < |states| ==> t[k].0 == states[k])
            && t[|states|].0 == GrandTotalKey
            && StrictlyAscending(states)
            && (forall v :: v in states <==> v in Keys(data, d.col))
  {
  }

  /** No orders: the only entry is "Grand Total" with an empty column. */
  lemma EmptyTable(d: Dims)
    ensures ExpectedTable([], d) == [(GrandTotalKey, [])]
  {
    assert States([], d) == [];
    assert RowKeyValues([], d.row, d.sub) == [];
  }

  /** Every column of the table, "Grand Total" included, has the template's shape. */
  lemma TableShaped(data: seq<Order>, d: Dims, k: nat)
    requires k < |ExpectedTable(data, d)|
    ensures Shaped(ExpectedTable(data, d)[k].1, RowKeyValues(data, d.row, d.sub))
  {
    TableEntry(data, d, k);
    var states := States(data, d);
    if k < |states| {
      StateColumnShaped(Where(data, d.col, states[k]), RowKeyValues(data, d.row, d.sub), d);
    }
  }

  /** Slot `(i, j)` of one state's column, from that state's orders. */
  lemma StateColumnSlot(stateOrders: seq<Order>, rows: Rows, d: Dims, i: nat, j: nat)
    requires i < |rows| && j < |rows[i].1|
    ensures var c := StateColumn(stateOrders, rows, d);
            var orders := Where(Where(stateOrders, d.row, rows[i].0), d.sub, rows[i].1[j]);
            i < |c| && j < |c[i]| && c[i][j] == Round(MeasureSum(orders, d.metric))
  {
  }

  /** No orders round to 0. */
  lemma RoundOfNothing(m: NumKey)
    ensures Round(MeasureSum([], m)) == 0
  {
  }

  /**
   * Slot `(i, j)` of a state's column is the rounded sum of the measure over
   * the orders with that state, row key and sub-key; with no such order it
   * is 0.
   */
  lemma StateSlot(data: seq<Order>, d: Dims, k: nat, i: nat, j: nat)
    requires k < |States(data, d)|
    requires var rows := RowKeyValues(data, d.row, d.sub); i < |rows| && j < |rows[i].1|
    ensures var t, rows, s := ExpectedTable(data, d), RowKeyValues(data, d.row, d.sub), States(data, d)[k];
            var orders := Where(Where(Where(data, d.col, s), d.row, rows[i].0), d.sub, rows[i].1[j]);
            && k < |t| && i < |t[k].1| && j < |t[k].1[i]|
            && t[k].1[i][j] == Round(MeasureSum(orders, d.metric))
            && (orders == [] ==> t[k].1[i][j] == 0)
  {
    var rows, s := RowKeyValues(data, d.row, d.sub), States(data, d)[k];
    TableEntry(data, d, k);
    StateColumnSlot(Where(data, d.col, s), rows, d, i, j);
    RoundOfNothing(d.metric);
  }

  /** In a state column, each row group's last slot is the sum of its sub-key slots. */
  lemma StateGroupSubtotal(stateOrders: seq<Order>, rows: Rows, d: Dims, i: nat)
    requires i < |rows|
    ensures var c := StateColumn(stateOrders, rows, d);
            i < |c| && |c[i]| > 0 && c[i][|c[i]| - 1] == Sum(c[i][..|c[i]| - 1])
  {
    var c := StateColumn(stateOrders, rows, d);
    StateColumnShaped(stateOrders, rows, d);
    StateSubtotal(stateOrders, rows, d, i);
    assert Slots(c, RowPositions(rows, i)) == c[i][..|rows[i].1|];
  }

  /** In the "Grand Total" column, each row group's last slot is the sum of its sub-key slots. */
  lemma GrandGroupSubtotal(data: seq<Order>, d: Dims, i: nat)
    requires i < |RowKeyValues(data, d.row, d.sub)|
    ensures var c := GrandColumn(StateColumns(data, d), RowKeyValues(data, d.row, d.sub));
            i < |c| && |c[i]| > 0 && c[i][|c[i]| - 1] == Sum(c[i][..|c[i]| - 1])
  {
    var rows := RowKeyValues(data, d.row, d.sub);
    var states := States(data, d);
    var cols := StateColumns(data, d);
    forall q | 0 <= q < |cols| ensures Slot(cols[q], i, |rows[i].1|) == Sum(Slots(cols[q], RowPositions(rows, i))) {
      StateSubtotal(Where(data, d.col, states[q]), rows, d, i);
    }
    GrandSubtotal(cols, rows, i);
  }

  /**
   * Row subtotals: in every column of the table, "Grand Total" included,
   * each row group's last slot is the sum of its sub-key slots.
   */
  lemma RowSubtotals(data: seq<Order>, d: Dims, k: nat, i: nat)
    requires k < |ExpectedTable(data, d)| && i < |RowKeyValues(data, d.row, d.sub)|
    ensures var t := ExpectedTable(data, d);
            && i < |t[k].1|
            && var g := t[k].1[i];
               |g| > 0 && g[|g| - 1] == Sum(g[..|g| - 1])
  {
    var states, rows := States(data, d), RowKeyValues(data, d.row, d.sub);
    TableEntry(data, d, k);
    if k < |states| {
      StateGroupSubtotal(Where(data, d.col, states[k]), rows, d, i);
      assert ExpectedTable(data, d)[k].1 == StateColumn(Where(data, d.col, states[k]), rows, d);
    } else {
      GrandGroupSubtotal(data, d, i);
      assert ExpectedTable(data, d)[k].1 == GrandColumn(StateColumns(data, d), rows);
    }
  }

  /** A state column's trailing slot is the sum of its row subtotals. */
  lemma StateColumnTotal(stateOrders: seq<Order>, rows: Rows, d: Dims)
    requires rows != []
    ensures var c := StateColumn(stateOrders, rows, d);
            |c| == |rows| + 1 && c[|rows|] == [Sum(Lasts(c, |rows|))]
  {
    var c := StateColumn(stateOrders, rows, d);
    StateColumnShaped(stateOrders, rows, d);
    StateTotalSlot(stateOrders, rows, d);
    assert Slots(c, TotalPositions(rows)) == Lasts(c, |rows|);
  }

  /** The "Grand Total" column's trailing slot is the sum of its row subtotals. */
  lemma GrandColumnTotal(data: seq<Order>, d: Dims)
    requires RowKeyValues(data, d.row, d.sub) != []
    ensures var rows := RowKeyValues(data, d.row, d.sub);
            var c := GrandColumn(StateColumns(data, d), rows);
            |c| == |rows| + 1 && c[|rows|] == [Sum(Lasts(c, |rows|))]
  {
    var rows := RowKeyValues(data, d.row, d.sub);
    var states := States(data, d);
    var cols := StateColumns(data, d);
    forall q | 0 <= q < |cols| ensures Slot(cols[q], |rows|, 0) == Sum(Slots(cols[q], TotalPositions(rows))) {
      StateTotalSlot(Where(data, d.col, states[q]), rows, d);
    }
    GrandTotalOfSubtotals(cols, rows);
  }

  /**
   * Column totals: in every column of the table, "Grand Total" included,
   * the trailing slot is the sum of the row subtotals.
   */
  lemma ColumnTotals(data: seq<Order>, d: Dims, k: nat)
    requires k < |ExpectedTable(data, d)| && RowKeyValues(data, d.row, d.sub) != []
    ensures var rows, c := RowKeyValues(data, d.row, d.sub), ExpectedTable(data, d)[k].1;
            |c| == |rows| + 1 && c[|rows|] == [Sum(Lasts(c, |rows|))]
  {
    var states := States(data, d);
    TableEntry(data, d, k);
    if k < |states| {
      StateColumnTotal(Where(data, d.col, states[k]), RowKeyValues(data, d.row, d.sub), d);
    } else {
      GrandColumnTotal(data, d);
    }
  }

  /**
   * The state entries of the table carry the state columns. It only unfolds
   * `ExpectedTable`; it means something about the aggregator through the
   * `FormatData` ensures.
   */
  lemma TableColumns(data: seq<Order>, d: Dims)
    ensures var t, cols := ExpectedTable(data, d), StateColumns(data, d);
            |t| == |cols| + 1 && forall k :: 0 <= k < |cols| ==> t[k].1 == cols[k]
  {
  }

  /**
   * Inside its shape, the "Grand Total" column holds the slot sums. It only
   * unfolds `GrandColumn`; it means something about the aggregator through the
   * `FormatData` ensures.
   */
  lemma GrandSlot(cols: seq<Column>, rows: Rows, i: nat, j: nat)
    requires var g := GrandColumn(cols, rows); i < |g| && j < |g[i]|
    ensures GrandColumn(cols, rows)[i][j] == SlotSum(cols, i, j)
  {
  }

  /** Each slot of the "Grand Total" column is the sum of that slot over the columns. */
  lemma GrandColumnSlots(cols: seq<Column>, rows: Rows, i: nat, j: nat)
    requires var g := GrandColumn(cols, rows); i < |g| && j < |g[i]|
    ensures GrandColumn(cols, rows)[i][j] == Sum(seq(|cols|, k requires 0 <= k < |cols| => Slot(cols[k], i, j)))
  {
    GrandSlot(cols, rows, i, j);
    SlotSumIsSum(cols, i, j);
  }

  /**
   * The "Grand Total" column: each of its slots, the trailing grand total
   * included, is the sum over the state columns of the same slot.
   */
  lemma GrandTotalSlots(data: seq<Order>, d: Dims, i: nat, j: nat)
    requires var t := ExpectedTable(data, d); i < |t[|t| - 1].1| && j < |t[|t| - 1].1[i]|
    ensures var t, states := ExpectedTable(data, d), States(data, d);
            t[|states|].1[i][j] == Sum(seq(|states|, k requires 0 <= k < |states| => Slot(t[k].1, i, j)))
  {
    var t, states := ExpectedTable(data, d), States(data, d);
    var cols := StateColumns(data, d);
    TableEntry(data, d, |states|);
    TableColumns(data, d);
    GrandColumnSlots(cols, RowKeyValues(data, d.row, d.sub), i, j);
    var a := seq(|cols|, k requires 0 <= k < |cols| => Slot(cols[k], i, j));
    var b := seq(|states|, k requires 0 <= k < |states| => Slot(t[k].1, i, j));
    assert |a| == |b|;
    forall k | 0 <= k < |a| ensures a[k] == b[k] {
      assert t[k].1 == cols[k];
    }
    assert seq(|cols|, k requires 0 <= k < |cols| => Slot(cols[k], i, j))
        == seq(|states|, k requires 0 <= k < |states| => Slot(t[k].1, i, j));
  }
}
