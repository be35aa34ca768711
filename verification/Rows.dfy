/** Queries over a table: WHERE keeps the rows a condition selects, ORDER BY sorts rows
    by a pair of columns. A table is a sequence of rows in no particular order. */
module Rows {

  type SortKey = (int, int)

  predicate Before(a: SortKey, b: SortKey) {
    a.0 < b.0 || (a.0 == b.0 && a.1 < b.1)
  }

  ghost predicate Ordered<T(!new)>(rows: seq<T>, key: T -> SortKey) {
    forall i, j :: 0 <= i < j < |rows| ==> Before(key(rows[i]), key(rows[j]))
  }

  ghost predicate DistinctKeys<T(!new)>(rows: seq<T>, key: T -> SortKey) {
    forall i, j :: 0 <= i < j < |rows| ==> key(rows[i]) != key(rows[j])
  }

  function Where<T>(rows: seq<T>, condition: T -> bool): seq<T> {
    if rows == [] then [] else
      var last := rows[|rows| - 1];
      Where(rows[..|rows| - 1], condition) + (if condition(last) then [last] else [])
  }

  function Insert<T>(row: T, rows: seq<T>, key: T -> SortKey): seq<T> {
    if rows == [] || !Before(key(row), key(rows[|rows| - 1])) then rows + [row]
    else Insert(row, rows[..|rows| - 1], key) + [rows[|rows| - 1]]
  }

  function OrderBy<T>(rows: seq<T>, key: T -> SortKey): seq<T> {
    if rows == [] then [] else Insert(rows[|rows| - 1], OrderBy(rows[..|rows| - 1], key), key)
  }

  // ----- WHERE -----

  lemma {:induction false} WhereMembers<T(!new)>(rows: seq<T>, condition: T -> bool)
    ensures forall x :: x in Where(rows, condition) <==> x in rows && condition(x)
  {
    if rows != [] {
      var init, last := rows[..|rows| - 1], rows[|rows| - 1];
      WhereMembers(init, condition);
      assert rows == init + [last];
    }
  }

  lemma WhereAppend<T(!new)>(rows: seq<T>, row: T, condition: T -> bool)
    ensures Where(rows + [row], condition) == Where(rows, condition) + (if condition(row) then [row] else [])
  {
    assert (rows + [row])[..|rows|] == rows;
  }

  lemma {:induction false} WhereConcat<T(!new)>(a: seq<T>, b: seq<T>, condition: T -> bool)
    ensures Where(a + b, condition) == Where(a, condition) + Where(b, condition)
  {
    if b == [] {
      assert a + b == a;
    } else {
      var init, last := b[..|b| - 1], b[|b| - 1];
      WhereConcat(a, init, condition);
      assert (a + b)[..|a + b| - 1] == a + init;
    }
  }

  lemma {:induction false} WhereAll<T(!new)>(rows: seq<T>, condition: T -> bool)
    requires forall i :: 0 <= i < |rows| ==> condition(rows[i])
    ensures Where(rows, condition) == rows
  {
    if rows != [] {
      WhereAll(rows[..|rows| - 1], condition);
    }
  }

  lemma {:induction false} WhereNone<T(!new)>(rows: seq<T>, condition: T -> bool)
    requires forall i :: 0 <= i < |rows| ==> !condition(rows[i])
    ensures Where(rows, condition) == []
  {
    if rows != [] {
      WhereNone(rows[..|rows| - 1], condition);
    }
  }

  lemma {:induction false} WherePrefix<T(!new)>(rows: seq<T>, condition: T -> bool, k: nat)
    requires k <= |rows|
    requires forall i :: 0 <= i < |rows| ==> (condition(rows[i]) <==> i < k)
    ensures Where(rows, condition) == rows[..k]
  {
    if k < |rows| {
      WherePrefix(rows[..|rows| - 1], condition, k);
    } else {
      WhereAll(rows, condition);
    }
  }

  lemma {:induction false} WhereSingle<T(!new)>(rows: seq<T>, condition: T -> bool, k: nat)
    requires k < |rows|
    requires forall i :: 0 <= i < |rows| ==> (condition(rows[i]) <==> i == k)
    ensures Where(rows, condition) == [rows[k]]
  {
    if k < |rows| - 1 {
      WhereSingle(rows[..|rows| - 1], condition, k);
    } else {
      WhereNone(rows[..|rows| - 1], condition);
    }
  }

  lemma {:induction false} WhereAgrees<T(!new)>(rows: seq<T>, p: T -> bool, q: T -> bool)
    requires forall i :: 0 <= i < |rows| ==> p(rows[i]) == q(rows[i])
    ensures Where(rows, p) == Where(rows, q)
  {
    if rows != [] {
      WhereAgrees(rows[..|rows| - 1], p, q);
    }
  }

  /** Selected rows keep their relative positions, so distinct keys stay distinct. */
  lemma {:induction false} WhereDistinct<T(!new)>(rows: seq<T>, condition: T -> bool, key: T -> SortKey)
    requires DistinctKeys(rows, key)
    ensures DistinctKeys(Where(rows, condition), key)
  {
    if rows != [] {
      var init, last := rows[..|rows| - 1], rows[|rows| - 1];
      WhereDistinct(init, condition, key);
      var kept := Where(init, condition);
      WhereMembers(init, condition);
      forall i | 0 <= i < |kept|
        ensures key(kept[i]) != key(last)
      {
        assert kept[i] in kept;
        var j :| 0 <= j < |init| && init[j] == kept[i];
        assert rows[j] == kept[i];
      }
    }
  }

  // ----- ORDER BY -----

  lemma {:induction false} InsertMembers<T(!new)>(row: T, rows: seq<T>, key: T -> SortKey)
    ensures |Insert(row, rows, key)| == |rows| + 1
    ensures forall x :: x in Insert(row, rows, key) <==> x in rows || x == row
  {
    if rows != [] && Before(key(row), key(rows[|rows| - 1])) {
      var init, last := rows[..|rows| - 1], rows[|rows| - 1];
      InsertMembers(row, init, key);
      assert rows == init + [last];
    }
  }

  lemma {:induction false} InsertOrdered<T(!new)>(row: T, rows: seq<T>, key: T -> SortKey)
    requires Ordered(rows, key)
    requires forall i :: 0 <= i < |rows| ==> key(rows[i]) != key(row)
    ensures Ordered(Insert(row, rows, key), key)
  {
    if rows != [] && Before(key(row), key(rows[|rows| - 1])) {
      var init, last := rows[..|rows| - 1], rows[|rows| - 1];
      InsertOrdered(row, init, key);
      InsertMembers(row, init, key);
      var front := Insert(row, init, key);
      forall i | 0 <= i < |front|
        ensures Before(key(front[i]), key(last))
      {
        assert front[i] in front;
        if front[i] != row {
          var j :| 0 <= j < |init| && init[j] == front[i];
          assert rows[j] == front[i];
        }
      }
    }
  }

  lemma {:induction false} OrderByMembers<T(!new)>(rows: seq<T>, key: T -> SortKey)
    ensures |OrderBy(rows, key)| == |rows|
    ensures forall x :: x in OrderBy(rows, key) <==> x in rows
  {
    if rows != [] {
      var init, last := rows[..|rows| - 1], rows[|rows| - 1];
      OrderByMembers(init, key);
      InsertMembers(last, OrderBy(init, key), key);
      assert rows == init + [last];
    }
  }

  lemma {:induction false} OrderByOrdered<T(!new)>(rows: seq<T>, key: T -> SortKey)
    requires DistinctKeys(rows, key)
    ensures Ordered(OrderBy(rows, key), key)
  {
    if rows != [] {
      var init, last := rows[..|rows| - 1], rows[|rows| - 1];
      OrderByOrdered(init, key);
      OrderByMembers(init, key);
      var sorted := OrderBy(init, key);
      forall i | 0 <= i < |sorted|
        ensures key(sorted[i]) != key(last)
      {
        assert sorted[i] in sorted;
        var j :| 0 <= j < |init| && init[j] == sorted[i];
        assert rows[j] == sorted[i];
      }
      InsertOrdered(last, sorted, key);
    }
  }

  /** Ordered rows are determined by the set of rows. */
  lemma {:induction false} OrderedUnique<T(!new)>(a: seq<T>, b: seq<T>, key: T -> SortKey)
    requires Ordered(a, key) && Ordered(b, key)
    requires forall x :: x in a <==> x in b
    ensures a == b
  {
    HasMember(b);
    if a != [] {
      assert a[0] in b;
      LastAgrees(a, b, key);
      var a0, b0 := a[..|a| - 1], b[..|b| - 1];
      InitMembers(a, key);
      InitMembers(b, key);
      forall x | x in a0
        ensures x in b0
      {
        assert x in a && x in b;
      }
      forall x | x in b0
        ensures x in a0
      {
        assert x in b && x in a;
      }
      OrderedUnique(a0, b0, key);
      assert a == a0 + [a[|a| - 1]] && b == b0 + [b[|b| - 1]];
    }
  }

  lemma HasMember<T(!new)>(rows: seq<T>)
    ensures rows != [] ==> exists x :: x in rows
  {
    if rows != [] { assert rows[0] in rows; }
  }

  lemma LastAgrees<T(!new)>(a: seq<T>, b: seq<T>, key: T -> SortKey)
    requires a != [] && b != [] && Ordered(a, key) && Ordered(b, key)
    requires forall x :: x in a <==> x in b
    ensures a[|a| - 1] == b[|b| - 1]
  {
    var la, lb := a[|a| - 1], b[|b| - 1];
    assert la in a && lb in b;
    var i :| 0 <= i < |b| && b[i] == la;
    var j :| 0 <= j < |a| && a[j] == lb;
  }

  lemma InitMembers<T(!new)>(rows: seq<T>, key: T -> SortKey)
    requires rows != [] && Ordered(rows, key)
    ensures forall x :: x in rows[..|rows| - 1] <==> x in rows && x != rows[|rows| - 1]
    ensures Ordered(rows[..|rows| - 1], key)
  {
    var init, last := rows[..|rows| - 1], rows[|rows| - 1];
    assert rows == init + [last];
    forall i | 0 <= i < |init|
      ensures init[i] != last
    {
      assert Before(key(rows[i]), key(last));
    }
  }

  lemma BeforeMeansEarlier<T(!new)>(rows: seq<T>, key: T -> SortKey, i: nat, j: nat)
    requires Ordered(rows, key) && i < |rows| && j < |rows| && Before(key(rows[i]), key(rows[j]))
    ensures i < j
  {
  }

  /** Sorting ordered rows changes nothing. */
  lemma OrderByOrderedRows<T(!new)>(rows: seq<T>, key: T -> SortKey)
    requires Ordered(rows, key)
    ensures OrderBy(rows, key) == rows
  {
    OrderByOrdered(rows, key);
    OrderByMembers(rows, key);
    OrderedUnique(OrderBy(rows, key), rows, key);
  }

  // ----- sets of rows -----

  lemma {:induction false} SubsetSize<T>(a: set<T>, b: set<T>)
    requires a <= b
    ensures |a| <= |b|
    decreases |a|
  {
    if a != {} {
      var x :| x in a;
      SubsetSize(a - {x}, b - {x});
    }
  }
}
