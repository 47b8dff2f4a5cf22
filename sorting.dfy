/**
 Descending sort of rows by one column, as pandas sort_values(by=..., ascending=False)
 with missing values placed last. pandas' default sort is not stable, so
 nothing here is promised about the order of rows with equal keys: the sort
 is specified only by its result being non-increasing and a permutation of
 its input. Insertion sort is the reference implementation.
 */
module Sorting {
  import opened Cells

  /** Rows are non-increasing in column j (missing values at the end). */
  ghost predicate SortedDesc(rows: seq<Row>, j: nat) {
    forall a, b :: 0 <= a < b < |rows| ==> KeyLe(At(rows[b], j), At(rows[a], j))
  }

  function Insert(x: Row, s: seq<Row>, j: nat): (r: seq<Row>)
    requires SortedDesc(s, j)
    ensures SortedDesc(r, j)
    ensures multiset(r) == multiset(s) + multiset{x}
  {
    if s == [] then [x]
    else if KeyLe(At(s[0], j), At(x, j)) then
      InsertFront(x, s, j);
      [x] + s
    else
      var rest := Insert(x, s[1..], j);
      InsertBehind(x, s, j, rest);
      assert s == [s[0]] + s[1..];
      [s[0]] + rest
  }

  lemma InsertFront(x: Row, s: seq<Row>, j: nat)
    requires SortedDesc(s, j) && s != [] && KeyLe(At(s[0], j), At(x, j))
    ensures SortedDesc([x] + s, j)
  {
    var r := [x] + s;
    forall a, b | 0 <= a < b < |r| ensures KeyLe(At(r[b], j), At(r[a], j)) {
      if a == 0 && b > 1 {
        KeyLeTrans(At(s[b - 1], j), At(s[0], j), At(x, j));
      }
    }
  }

  lemma InsertBehind(x: Row, s: seq<Row>, j: nat, rest: seq<Row>)
    requires SortedDesc(s, j) && s != [] && !KeyLe(At(s[0], j), At(x, j))
    requires SortedDesc(rest, j) && multiset(rest) == multiset(s[1..]) + multiset{x}
    ensures SortedDesc([s[0]] + rest, j)
  {
    var r := [s[0]] + rest;
    forall b | 0 < b < |r| ensures KeyLe(At(r[b], j), At(r[0], j)) {
      var y := rest[b - 1];
      assert y in multiset(rest);
      if y == x {
        KeyLeTotal(At(s[0], j), At(x, j));
      } else {
        assert y in multiset(s[1..]);
        var i :| 0 <= i < |s[1..]| && s[1..][i] == y;
        assert s[i + 1] == y;
      }
    }
  }

  /** The rows of s in non-increasing order of column j. */
  function SortDesc(s: seq<Row>, j: nat): (r: seq<Row>)
    ensures SortedDesc(r, j)
    ensures multiset(r) == multiset(s)
  {
    if s == [] then []
    else
      assert s == [s[0]] + s[1..];
      Insert(s[0], SortDesc(s[1..], j), j)
  }

  /** A prefix of a sorted sequence is sorted. */
  lemma PrefixSorted(s: seq<Row>, j: nat, m: nat)
    requires SortedDesc(s, j) && m <= |s|
    ensures SortedDesc(s[..m], j)
  {
  }

  /**
   Every row left out of a prefix of a sorted sequence sorts at or below
   every row of the prefix: the prefix holds the largest keys.
   */
  lemma {:induction false} PrefixHoldsLargest(s: seq<Row>, j: nat, m: nat)
    requires SortedDesc(s, j) && m <= |s|
    ensures forall x, y :: x in multiset(s) - multiset(s[..m]) && y in s[..m] ==> KeyLe(At(x, j), At(y, j))
  {
    assert s == s[..m] + s[m..];
    assert multiset(s) - multiset(s[..m]) == multiset(s[m..]);
    forall x, y | x in multiset(s) - multiset(s[..m]) && y in s[..m] ensures KeyLe(At(x, j), At(y, j)) {
      assert x in s[m..];
      var b :| 0 <= b < |s[m..]| && s[m..][b] == x;
      var a :| 0 <= a < m && s[..m][a] == y;
      assert s[m + b] == x && s[a] == y;
    }
  }
}
