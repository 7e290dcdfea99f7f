/** The `ORDER BY` of a query: the selected rows listed by an integer key.
    Rows with equal keys may come in any order, as in SQL. */
module Sorting {

  predicate SortedBy<T>(s: seq<T>, key: T -> int) {
    forall i, j | 0 <= i < j < |s| :: key(s[i]) <= key(s[j])
  }

  /** The position before the first element whose key is not below `x`'s. */
  function InsertionPoint<T>(s: seq<T>, x: T, key: T -> int): (i: nat)
    ensures i <= |s|
    ensures forall k | 0 <= k < i :: key(s[k]) < key(x)
    ensures i < |s| ==> key(x) <= key(s[i])
    decreases |s|
  {
    if s == [] || key(x) <= key(s[0]) then 0 else 1 + InsertionPoint(s[1..], x, key)
  }

  /** `x` inserted into a sorted sequence at its insertion point. */
  function InsertSorted<T>(s: seq<T>, x: T, key: T -> int): (r: seq<T>)
    requires SortedBy(s, key)
    ensures SortedBy(r, key)
    ensures multiset(r) == multiset(s) + multiset{x}
  {
    var i := InsertionPoint(s, x, key);
    InsertionKeepsOrder(s, x, key, i);
    assert s == s[..i] + s[i..];
    s[..i] + [x] + s[i..]
  }

  lemma InsertionKeepsOrder<T>(s: seq<T>, x: T, key: T -> int, i: nat)
    requires SortedBy(s, key) && i <= |s|
    requires forall k | 0 <= k < i :: key(s[k]) < key(x)
    requires i < |s| ==> key(x) <= key(s[i])
    ensures SortedBy(s[..i] + [x] + s[i..], key)
  {
    var r := s[..i] + [x] + s[i..];
    forall p, q | 0 <= p < q < |r| ensures key(r[p]) <= key(r[q]) {
      var kp := if p < i then key(s[p]) else if p == i then key(x) else key(s[p - 1]);
      var kq := if q < i then key(s[q]) else if q == i then key(x) else key(s[q - 1]);
      assert key(r[p]) == kp && key(r[q]) == kq;
      if q > i && p <= i {
        assert key(x) <= key(s[i]) <= key(s[q - 1]);
      }
    }
  }

  /** The rows of a table, ordered by `key` ascending; a descending order is the
      ascending order of the negated key. */
  method OrderBy<T>(rows: set<T>, key: T -> int) returns (r: seq<T>)
    ensures SortedBy(r, key)
    ensures multiset(r) == multiset(rows)
    ensures forall x :: x in r <==> x in rows
    ensures |r| == |rows|
  {
    r := [];
    var todo := rows;
    while todo != {}
      invariant todo <= rows
      invariant SortedBy(r, key)
      invariant multiset(r) + multiset(todo) == multiset(rows)
      decreases |todo|
    {
      var x :| x in todo;
      r := InsertSorted(r, x, key);
      todo := todo - {x};
    }
    assert multiset(r) == multiset(rows);
    forall x ensures x in r <==> x in rows {
      assert x in r <==> x in multiset(r);
    }
    assert |multiset(r)| == |multiset(rows)|;
  }
}
