/**
 * `SELECT * FROM table ORDER BY …`: every row of a table exactly once, in an order that
 * keeps a total preorder between earlier and later rows.
 */
module Tables {
  import opened Wrappers
  import opened Schema
  import Sorting

  /** The rows of `table`, each once, sorted by `le` whenever `le` is a total preorder. */
  method OrderedRows<V(==,!new)>(table: map<int, V>, le: ((int, V), (int, V)) -> bool) returns (rows: seq<(int, V)>)
    ensures Enumerates(rows, table)
    ensures |rows| == |table|
    ensures Sorting.TotalPreorder(le) ==> Sorting.SortedBy(rows, le)
  {
    var unordered := Rows(table);
    rows := Sorting.Sort(unordered, le);
    SortedRowsEnumerate(unordered, table, le);
  }

  /** `SELECT id … WHERE …` with `.get`: some row satisfying `matches`, or none when no row does. */
  method Find<V>(table: map<int, V>, matches: V -> bool) returns (k: Option<int>)
    ensures k.None? <==> forall i :: i in table ==> !matches(table[i])
    ensures k.Some? ==> k.value in table && matches(table[k.value])
  {
    if exists i :: i in table && matches(table[i]) {
      var i :| i in table && matches(table[i]);
      return Some(i);
    }
    return None;
  }

  /** Sorting the rows of a table keeps each row exactly once. */
  lemma SortedRowsEnumerate<V(!new)>(rows: seq<(int, V)>, table: map<int, V>, le: ((int, V), (int, V)) -> bool)
    requires Enumerates(rows, table)
    ensures Enumerates(Sorting.Sort(rows, le), table)
    ensures |Sorting.Sort(rows, le)| == |rows|
  {
    var sorted := Sorting.Sort(rows, le);
    assert Sorting.Distinct(rows) by {
      forall i, j | 0 <= i < j < |rows|
        ensures rows[i] != rows[j]
      {
        assert rows[i].0 != rows[j].0;
      }
    }
    Sorting.SortKeepsDistinct(rows, le);
    SameRows(rows, sorted, table);
    assert |multiset(sorted)| == |multiset(rows)|;
  }

  lemma SameRows<V>(rows: seq<(int, V)>, sorted: seq<(int, V)>, table: map<int, V>)
    requires Enumerates(rows, table) && Sorting.Distinct(sorted) && multiset(sorted) == multiset(rows)
    ensures Enumerates(sorted, table)
  {
    forall i | 0 <= i < |sorted|
      ensures sorted[i] in rows
    {
      assert sorted[i] in multiset(sorted);
    }
    forall k | k in table
      ensures exists i :: 0 <= i < |sorted| && sorted[i].0 == k
    {
      var j :| 0 <= j < |rows| && rows[j].0 == k;
      assert rows[j] in multiset(rows);
      var i :| 0 <= i < |sorted| && sorted[i] == rows[j];
    }
    forall i, j | 0 <= i < j < |sorted|
      ensures sorted[i].0 != sorted[j].0
    {
      assert sorted[i] != sorted[j];
    }
  }
}
