/**
 * The grouping steps the pivot aggregators are built from: the orders of
 * one `groupBy` bucket, the values of a field, the row-key structure
 * (`groupBy(rowKey).sortBy(k).mapEntries(sub-keys toSet().sort())`), the
 * sum of a measure and `Math.round`.
 */
module Grouping {
  import opened Wrappers
  import opened Orders
  import opened StringOrder

  /** The orders whose field `k` equals `v`, in their original order (one `groupBy` bucket). */
  function Where(data: seq<Order>, k: StringKey, v: string): (r: seq<Order>)
    ensures |r| <= |data|
    ensures forall o :: o in r <==> o in data && Str(o, k) == v
  {
    if data == [] then []
    else
      var last := data[|data| - 1];
      assert data == data[..|data| - 1] + [last];
      Where(data[..|data| - 1], k, v) + (if Str(last, k) == v then [last] else [])
  }

  lemma ConcatAssociative<T>(x: seq<T>, y: seq<T>, z: seq<T>)
    ensures (x + y) + z == x + (y + z)
  {
  }

  /** Splitting the last element off the second part of a concatenation. */
  lemma ConcatLast<T>(a: seq<T>, b: seq<T>)
    requires b != []
    ensures b == b[..|b| - 1] + [b[|b| - 1]]
    ensures a + b == (a + b[..|b| - 1]) + [b[|b| - 1]]
  {
    assert b == b[..|b| - 1] + [b[|b| - 1]];
  }

  /** One more order goes to the end of its bucket, if it belongs there. */
  lemma WhereSnoc(data: seq<Order>, o: Order, k: StringKey, v: string)
    ensures Where(data + [o], k, v) == Where(data, k, v) + (if Str(o, k) == v then [o] else [])
  {
    var d := data + [o];
    assert d[..|d| - 1] == data;
  }

  /** Filtering keeps the input order: the bucket of a concatenation is the concatenation of the buckets. */
  lemma {:induction false} WhereAppend(a: seq<Order>, b: seq<Order>, k: StringKey, v: string)
    ensures Where(a + b, k, v) == Where(a, k, v) + Where(b, k, v)
    decreases |b|
  {
    if b == [] {
      assert a + b == a;
    } else {
      var pre, last := b[..|b| - 1], b[|b| - 1];
      var wa, wp := Where(a, k, v), Where(pre, k, v);
      var t := if Str(last, k) == v then [last] else [];
      WhereAppend(a, pre, k, v);
      ConcatLast(a, b);
      WhereSnoc(a + pre, last, k, v);
      WhereSnoc(pre, last, k, v);
      ConcatAssociative(wa, wp, t);
    }
  }

  /** `data.map(o => o.get(k))`. */
  function Keys(data: seq<Order>, k: StringKey): (r: seq<string>)
    ensures |r| == |data|
    ensures forall i :: 0 <= i < |data| ==> r[i] == Str(data[i], k)
  {
    seq(|data|, i requires 0 <= i < |data| => Str(data[i], k))
  }

  lemma KeyOfMember(data: seq<Order>, k: StringKey, o: Order)
    requires o in data
    ensures Str(o, k) in Keys(data, k)
  {
    var i :| 0 <= i < |data| && data[i] == o;
    assert Keys(data, k)[i] == Str(o, k);
  }

  /** A value of the field is the field of some order. */
  lemma MemberOfKey(data: seq<Order>, k: StringKey, v: string) returns (o: Order)
    requires v in Keys(data, k)
    ensures o in data && Str(o, k) == v
  {
    var i :| 0 <= i < |data| && Keys(data, k)[i] == v;
    o := data[i];
  }

  /** A bucket for a value no order has is empty. */
  lemma WhereAbsent(data: seq<Order>, k: StringKey, v: string)
    requires v !in Keys(data, k)
    ensures Where(data, k, v) == []
  {
    if Where(data, k, v) != [] {
      var o := Where(data, k, v)[0];
      KeyOfMember(data, k, o);
    }
  }

  /** The keys of a keyed sequence (the first components). */
  function RowKeys<T>(rows: seq<(string, T)>): (r: seq<string>)
    ensures |r| == |rows| && forall i :: 0 <= i < |rows| ==> r[i] == rows[i].0
  {
    seq(|rows|, i requires 0 <= i < |rows| => rows[i].0)
  }

  /**
   * `groupBy(o => o.get(k)).sortBy((v, key) => key)`: one bucket per
   * distinct value of `k`, values ascending, each bucket holding exactly
   * the orders with that value, in their original order, and never empty.
   */
  function GroupBy(data: seq<Order>, k: StringKey): (groups: seq<(string, seq<Order>)>)
    ensures RowKeys(groups) == SortedDistinct(Keys(data, k))
    ensures StrictlyAscending(RowKeys(groups))
    ensures forall v :: v in RowKeys(groups) <==> v in Keys(data, k)
    ensures forall t :: 0 <= t < |groups| ==> groups[t].1 == Where(data, k, groups[t].0) && groups[t].1 != []
  {
    var ks := SortedDistinct(Keys(data, k));
    var groups := seq(|ks|, t requires 0 <= t < |ks| => (ks[t], Where(data, k, ks[t])));
    assert RowKeys(groups) == ks;
    assert forall t :: 0 <= t < |groups| ==> groups[t].1 != [] by {
      forall t | 0 <= t < |groups| ensures groups[t].1 != [] {
        var o := MemberOfKey(data, k, ks[t]);
        assert o in groups[t].1;
      }
    }
    groups
  }

  /**
   * `rowKeyValues`: the buckets of `rowKey`, each row key paired with the
   * distinct values of `subKey` in its bucket, in ascending order.
   */
  function RowKeyValues(data: seq<Order>, rowKey: StringKey, subKey: StringKey)
    : (rows: seq<(string, seq<string>)>)
    ensures StrictlyAscending(RowKeys(rows))
    ensures forall v :: v in RowKeys(rows) <==> v in Keys(data, rowKey)
    ensures forall i :: 0 <= i < |rows| ==> StrictlyAscending(rows[i].1)
    ensures forall i, u :: 0 <= i < |rows| ==>
              (u in rows[i].1 <==> u in Keys(Where(data, rowKey, rows[i].0), subKey))
  {
    var groups := GroupBy(data, rowKey);
    var rows := seq(|groups|, i requires 0 <= i < |groups| =>
                              (groups[i].0, SortedDistinct(Keys(groups[i].1, subKey))));
    assert RowKeys(rows) == RowKeys(groups);
    rows
  }

  /** `array.find(arr => arr.includes(key))` then `indexOf`: the position of the first row with that key. */
  function FindRow(rows: seq<(string, seq<string>)>, key: string): (r: Option<nat>)
    ensures r.None? <==> key !in RowKeys(rows)
    ensures r.Some? ==> r.value < |rows| && rows[r.value].0 == key
                        && forall i :: 0 <= i < r.value ==> rows[i].0 != key
  {
    if rows == [] then None
    else if rows[0].0 == key then Some(0)
    else
      match FindRow(rows[1..], key)
      case None => None
      case Some(i) => Some(i + 1)
  }

  /** `Math.round`: the nearest integer, halves rounded up. */
  function Round(x: real): (r: int)
    ensures x - 0.5 < r as real <= x + 0.5
  {
    (x + 0.5).Floor
  }

  /** `orders.reduce((sub, o) => sub + (o.get(m) || 0), 0)`. */
  function MeasureSum(orders: seq<Order>, m: NumKey): real
  {
    if orders == [] then 0.0
    else MeasureSum(orders[..|orders| - 1], m) + Num(orders[|orders| - 1], m)
  }

  /** The measure sum of two runs of orders is the sum of their measure sums. */
  lemma {:induction false} MeasureSumAppend(a: seq<Order>, b: seq<Order>, m: NumKey)
    ensures MeasureSum(a + b, m) == MeasureSum(a, m) + MeasureSum(b, m)
    decreases |b|
  {
    if b == [] {
      assert a + b == a;
    } else {
      var pre, last := b[..|b| - 1], b[|b| - 1];
      MeasureSumAppend(a, pre, m);
      ConcatLast(a, b);
      var ab := (a + pre) + [last];
      assert ab[..|ab| - 1] == a + pre && ab[|ab| - 1] == last;
    }
  }
}
