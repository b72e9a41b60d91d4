/**
 * What the sales pivot is meant to contain, stated directly from the
 * orders: every slot is the rounded sum of the measure over the orders of
 * its column, row key and sub-key; every row group ends with its subtotal;
 * every state column ends with its total; and the "Grand Total" column
 * adds the state columns slot by slot.
 */
module SalesSpec {
  import opened Orders
  import opened StringOrder
  import opened Grouping

  /** A row-key structure: each row key with its sub-keys. */
  type Rows = seq<(string, seq<string>)>

  /** One column of the pivot: a slot group per row key, then the column's total as `[t]`. */
  type Column = seq<seq<int>>

  /** The fields that make the rows, the sub-rows and the columns, and the number summed. */
  datatype Dims = Dims(row: StringKey, sub: StringKey, col: StringKey, metric: NumKey)

  const GrandTotalKey: string := "Grand Total"

  function Sum(xs: seq<int>): int
  {
    if xs == [] then 0 else Sum(xs[..|xs| - 1]) + xs[|xs| - 1]
  }

  /** The last slot of a group (its subtotal), or 0 for an empty group. */
  function Last(r: seq<int>): int
  {
    if r == [] then 0 else r[|r| - 1]
  }

  /** A zero group for `n` sub-keys: `n` slots and the subtotal slot. */
  function ZeroRow(n: nat): (r: seq<int>)
    ensures |r| == n + 1 && forall j :: 0 <= j < |r| ==> r[j] == 0
  {
    seq(n + 1, _ => 0)
  }

  /** Two groups added slot by slot (missing slots of `b` count as 0). */
  function AddRows(a: seq<int>, b: seq<int>): (r: seq<int>)
    ensures |r| == |a|
  {
    seq(|a|, j requires 0 <= j < |a| => a[j] + (if j < |b| then b[j] else 0))
  }

  /** Groups added group by group. */
  function AddCols(a: seq<seq<int>>, b: seq<seq<int>>): (r: seq<seq<int>>)
    ensures |r| == |a| && forall i :: 0 <= i < |a| ==> |r[i]| == |a[i]|
  {
    seq(|a|, i requires 0 <= i < |a| => AddRows(a[i], if i < |b| then b[i] else []))
  }

  /** The groups of a column followed by its one-slot total group; no groups at all for no rows. */
  function Framed(groups: seq<seq<int>>, last: seq<int>): Column
  {
    if groups == [] then [] else groups + [last]
  }

  /** The first `n` groups of a column. */
  function Head(m: Column, n: nat): seq<seq<int>>
  {
    if n <= |m| then m[..n] else m
  }

  /** Group `n` of a column, or `[]`. */
  function Tail(m: Column, n: nat): seq<int>
  {
    if n < |m| then m[n] else []
  }

  lemma TakeOneMore<T>(s: seq<T>, k: nat)
    requires k < |s|
    ensures s[..k + 1] == s[..k] + [s[k]]
  {
  }

  /** Row keys strictly ascending, and each row's sub-keys strictly ascending. */
  predicate WellFormedRows(rows: Rows)
  {
    StrictlyAscending(RowKeys(rows)) && forall i :: 0 <= i < |rows| ==> StrictlyAscending(rows[i].1)
  }

  /**
   * The shape of a column for `rows`: one group of `|sub-keys| + 1` slots per
   * row key and a trailing one-slot group; no groups at all when there are
   * no row keys.
   */
  predicate Shaped(m: Column, rows: Rows)
  {
    && |m| == (if |rows| == 0 then 0 else |rows| + 1)
    && (forall i :: 0 <= i < |rows| ==> |m[i]| == |rows[i].1| + 1)
    && (|rows| > 0 ==> |m[|rows|]| == 1)
  }

  /** Every order's row key is found, and its sub-key is among that row's sub-keys. */
  predicate LookupsHit(rows: Rows, orders: seq<Order>, d: Dims)
  {
    forall o :: o in orders ==>
      var r := FindRow(rows, Str(o, d.row));
      r.Some? && Str(o, d.sub) in rows[r.value].1
  }

  /** The slot of sub-key `u`: the rounded sum of the measure over the orders with that sub-key. */
  function Cell(orders: seq<Order>, d: Dims, u: string): int
  {
    Round(MeasureSum(Where(orders, d.sub, u), d.metric))
  }

  /** A row group: one slot per sub-key, then their sum. */
  function RowTotals(orders: seq<Order>, d: Dims, subs: seq<string>): (r: seq<int>)
    ensures |r| == |subs| + 1
  {
    var cells := seq(|subs|, j requires 0 <= j < |subs| => Cell(orders, d, subs[j]));
    cells + [Sum(cells)]
  }

  /** Row group `i` of a state: the state's orders with row key `i`. */
  function StateRow(stateOrders: seq<Order>, rows: Rows, d: Dims, i: nat): seq<int>
    requires i < |rows|
  {
    RowTotals(Where(stateOrders, d.row, rows[i].0), d, rows[i].1)
  }

  function StateRows(stateOrders: seq<Order>, rows: Rows, d: Dims): (r: seq<seq<int>>)
    ensures |r| == |rows|
  {
    seq(|rows|, i requires 0 <= i < |rows| => StateRow(stateOrders, rows, d, i))
  }

  /** The subtotals of the first `n` groups. */
  function Lasts(m: seq<seq<int>>, n: nat): (r: seq<int>)
    requires n <= |m|
    ensures |r| == n
  {
    seq(n, i requires 0 <= i < n => Last(m[i]))
  }

  /** A state's total: the sum of its row subtotals. */
  function StateTotal(stateOrders: seq<Order>, rows: Rows, d: Dims): int
  {
    Sum(Lasts(StateRows(stateOrders, rows, d), |rows|))
  }

  /** The column of one state. */
  function StateColumn(stateOrders: seq<Order>, rows: Rows, d: Dims): Column
  {
    Framed(StateRows(stateOrders, rows, d), [StateTotal(stateOrders, rows, d)])
  }

  /** Slot `j` of group `i`, or 0 outside the column. */
  function Slot(c: Column, i: nat, j: nat): int
  {
    if i < |c| && j < |c[i]| then c[i][j] else 0
  }

  /** Slot `(i, j)` added up over a list of columns. */
  function SlotSum(cols: seq<Column>, i: nat, j: nat): int
  {
    if cols == [] then 0 else SlotSum(cols[..|cols| - 1], i, j) + Slot(cols[|cols| - 1], i, j)
  }

  /** The row groups of the "Grand Total" column: each slot summed over the state columns. */
  function GrandRows(cols: seq<Column>, rows: Rows): (r: seq<seq<int>>)
    ensures |r| == |rows| && forall i :: 0 <= i < |rows| ==> |r[i]| == |rows[i].1| + 1
  {
    seq(|rows|, i requires 0 <= i < |rows| =>
          seq(|rows[i].1| + 1, j requires 0 <= j < |rows[i].1| + 1 => SlotSum(cols, i, j)))
  }

  /** The "Grand Total" column: its row groups, then the sum of the state totals. */
  function GrandColumn(cols: seq<Column>, rows: Rows): Column
  {
    Framed(GrandRows(cols, rows), [SlotSum(cols, |rows|, 0)])
  }

  /** The distinct column-key values in ascending order. */
  function States(data: seq<Order>, d: Dims): seq<string>
  {
    SortedDistinct(Keys(data, d.col))
  }

  /** The state columns, in the order of `States`. */
  function StateColumns(data: seq<Order>, d: Dims): (cols: seq<Column>)
    ensures |cols| == |States(data, d)|
  {
    var rows := RowKeyValues(data, d.row, d.sub);
    var states := States(data, d);
    seq(|states|, k requires 0 <= k < |states| => StateColumn(Where(data, d.col, states[k]), rows, d))
  }

  /** Each state paired with its column. */
  function Entries(states: seq<string>, cols: seq<Column>): seq<(string, Column)>
  {
    seq(|states|, k requires 0 <= k < |states| => (states[k], if k < |cols| then cols[k] else []))
  }

  /** The whole table: each state with its column, then "Grand Total". */
  function ExpectedTable(data: seq<Order>, d: Dims): seq<(string, Column)>
  {
    var cols := StateColumns(data, d);
    Entries(States(data, d), cols) + [(GrandTotalKey, GrandColumn(cols, RowKeyValues(data, d.row, d.sub)))]
  }

  // ---- Facts the aggregators' proofs rest on ----

  lemma {:induction false} SumUpdate(xs: seq<int>, j: nat, v: int)
    requires j < |xs|
    ensures Sum(xs[j := v]) == Sum(xs) - xs[j] + v
    decreases |xs|
  {
    var n := |xs| - 1;
    if j < n {
      assert xs[j := v][..n] == xs[..n][j := v];
      SumUpdate(xs[..n], j, v);
    } else {
      assert xs[j := v][..n] == xs[..n];
    }
  }

  lemma {:induction false} SumZeros(xs: seq<int>)
    requires forall j :: 0 <= j < |xs| ==> xs[j] == 0
    ensures Sum(xs) == 0
    decreases |xs|
  {
    if xs != [] { SumZeros(xs[..|xs| - 1]); }
  }

  /** `f` summed over the keys `ks`. */
  function SumOver(ks: seq<string>, f: string -> int): int
  {
    if ks == [] then 0 else SumOver(ks[..|ks| - 1], f) + f(ks[|ks| - 1])
  }

  lemma {:induction false} SumOverSlots(ks: seq<string>, f: string -> int)
    ensures Sum(seq(|ks|, j requires 0 <= j < |ks| => f(ks[j]))) == SumOver(ks, f)
    decreases |ks|
  {
    if ks != [] {
      var n := |ks| - 1;
      SumOverSlots(ks[..n], f);
      assert seq(|ks|, j requires 0 <= j < |ks| => f(ks[j]))[..n] == seq(n, j requires 0 <= j < n => f(ks[..n][j]));
    }
  }

  /**
   * Summing over ascending keys, extra keys where `f` is 0 change nothing:
   * the sum over `small` equals the sum over any ascending `big` that
   * contains it and adds only zeros.
   */
  lemma {:induction false} SumOverSubset(small: seq<string>, big: seq<string>, f: string -> int)
    requires StrictlyAscending(small) && StrictlyAscending(big)
    requires forall u :: u in small ==> u in big
    requires forall u :: u in big && u !in small ==> f(u) == 0
    ensures SumOver(small, f) == SumOver(big, f)
    decreases |big|
  {
    if big != [] {
      var n := |big| - 1;
      var b, rest := big[n], big[..n];
      assert b !in rest by {
        forall p | 0 <= p < n ensures big[p] != b {
          LessIrreflexive(b);
        }
      }
      if b in small {
        var m := |small| - 1;
        assert small[m] == b by {
          assert small[m] in big;
          var p :| 0 <= p < |big| && big[p] == small[m];
          var k :| 0 <= k < |small| && small[k] == b;
          if k < m {
            if p < n {
              LessAsymmetric(big[p], b);
            } else {
              LessIrreflexive(b);
            }
          }
        }
        forall u | u in small[..m] ensures u in rest {
          var k :| 0 <= k < m && small[k] == u;
          LessIrreflexive(u);
          assert u in big;
        }
        SumOverSubset(small[..m], rest, f);
      } else {
        SumOverSubset(small, rest, f);
      }
    }
  }

  /** A group with no orders behind it is all zeros. */
  lemma RowTotalsOfNothing(d: Dims, subs: seq<string>)
    ensures RowTotals([], d, subs) == ZeroRow(|subs|)
  {
    var cells := seq(|subs|, j requires 0 <= j < |subs| => Cell([], d, subs[j]));
    forall j | 0 <= j < |subs| ensures cells[j] == 0 {
      assert Where([], d.sub, subs[j]) == [];
    }
    SumZeros(cells);
  }

  /** The row-key structure of the orders finds every order's row key and sub-key. */
  lemma LookupsNeverMiss(data: seq<Order>, d: Dims)
    ensures LookupsHit(RowKeyValues(data, d.row, d.sub), data, d)
  {
    var rows := RowKeyValues(data, d.row, d.sub);
    forall o | o in data
      ensures var r := FindRow(rows, Str(o, d.row));
              r.Some? && Str(o, d.sub) in rows[r.value].1
    {
      KeyOfMember(data, d.row, o);
      var r := FindRow(rows, Str(o, d.row));
      assert o in Where(data, d.row, rows[r.value].0);
      KeyOfMember(Where(data, d.row, rows[r.value].0), d.sub, o);
    }
  }

  lemma LookupsHitWhere(rows: Rows, data: seq<Order>, d: Dims, k: StringKey, v: string)
    requires LookupsHit(rows, data, d)
    ensures LookupsHit(rows, Where(data, k, v), d)
  {
  }
}
