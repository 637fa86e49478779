/** The loop every store query runs: `for rows.Next() { ... append ... }`
    over the rows a `SELECT` returns. A table is a map from primary key to
    row. Without `ORDER BY` the database returns the rows in an order of its
    own choosing; that order is an input here, a scan order of the table. */
module Rows {

  /** Every row is stored under its own primary key. */
  ghost predicate Keyed<T>(table: map<int, T>, key: T -> int)
  {
    forall k :: k in table ==> key(table[k]) == k
  }

  /** `order` visits every key of `table` exactly once. */
  ghost predicate ScanOrder<T>(table: map<int, T>, order: seq<int>)
  {
    && (forall i :: 0 <= i < |order| ==> order[i] in table)
    && (forall k :: k in table ==> k in order)
    && (forall i, j :: 0 <= i < j < |order| ==> order[i] != order[j])
  }

  /** `order` visits rows of `table`, none twice, and at least every row
      that `keep` selects: the rows an index or a full scan reads. */
  ghost predicate Covers<T>(table: map<int, T>, keep: T -> bool, order: seq<int>)
  {
    && (forall i :: 0 <= i < |order| ==> order[i] in table)
    && (forall k :: k in table && keep(table[k]) ==> k in order)
    && (forall i, j :: 0 <= i < j < |order| ==> order[i] != order[j])
  }

  /** `r` lists rows of `table`, none of them twice. */
  ghost predicate ListsRows<T>(table: map<int, T>, key: T -> int, r: seq<T>)
  {
    && (forall i :: 0 <= i < |r| ==> key(r[i]) in table && table[key(r[i])] == r[i])
    && (forall i, j :: 0 <= i < j < |r| ==> key(r[i]) != key(r[j]))
  }

  /** `SELECT * FROM table WHERE keep(row)`, collected into a slice in the
      order the database returns the rows. */
  method Query<T>(table: map<int, T>, key: T -> int, keep: T -> bool, order: seq<int>)
    returns (r: seq<T>)
    requires Keyed(table, key)
    requires Covers(table, keep, order)
    ensures ListsRows(table, key, r)
    ensures forall i :: 0 <= i < |r| ==> keep(r[i])
    ensures forall k :: k in table && keep(table[k]) ==> table[k] in r
  {
    r := [];
    for n := 0 to |order|
      invariant forall i :: 0 <= i < |r| ==>
        key(r[i]) in order[..n] && table[key(r[i])] == r[i] && keep(r[i])
      invariant forall i, j :: 0 <= i < j < |r| ==> key(r[i]) != key(r[j])
      invariant forall m :: 0 <= m < n && keep(table[order[m]]) ==> table[order[m]] in r
    {
      var row := table[order[n]];
      assert order[..n + 1] == order[..n] + [order[n]];
      if keep(row) {
        assert key(row) == order[n] && order[n] !in order[..n];
        r := r + [row];
      }
    }
    assert order[..|order|] == order;
    forall k | k in table && keep(table[k])
      ensures table[k] in r
    {
      var m :| 0 <= m < |order| && order[m] == k;
    }
  }
}
