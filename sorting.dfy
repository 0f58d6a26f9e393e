/**
 * LINQ OrderBy / OrderByDescending / ThenBy as one stable sort under a
 * "must precede" relation `lt`: an element is placed after every element
 * it does not strictly precede, so ties keep their input order.
 */
module Sorting {
  import opened Collections

  /** Insert `x` in front of the first element it strictly precedes. */
  function InsertBy<T>(s: seq<T>, x: T, lt: (T, T) -> bool): (r: seq<T>)
    ensures |r| == |s| + 1
    ensures multiset(r) == multiset(s) + multiset{x}
  {
    if |s| == 0 then [x]
    else if lt(x, s[0]) then [x] + s
    else
      assert s == [s[0]] + s[1..];
      [s[0]] + InsertBy(s[1..], x, lt)
  }

  /** Stable insertion sort: each element in input order is inserted after its ties. */
  function SortBy<T>(s: seq<T>, lt: (T, T) -> bool): (r: seq<T>)
    ensures |r| == |s|
    ensures multiset(r) == multiset(s)
  {
    if |s| == 0 then []
    else
      assert s == s[..|s| - 1] + [s[|s| - 1]];
      InsertBy(SortBy(s[..|s| - 1], lt), s[|s| - 1], lt)
  }

  predicate Ascending<T>(s: seq<T>, key: T -> real)
  {
    forall i, j :: 0 <= i < j < |s| ==> key(s[i]) <= key(s[j])
  }

  predicate Descending<T>(s: seq<T>, key: T -> real)
  {
    forall i, j :: 0 <= i < j < |s| ==> key(s[i]) >= key(s[j])
  }

  /** Every element of an insertion result is the inserted one or came from the input. */
  lemma InsertMembers<T>(s: seq<T>, x: T, lt: (T, T) -> bool)
    ensures forall y :: y in InsertBy(s, x, lt) ==> y == x || y in s
  {
    var r := InsertBy(s, x, lt);
    forall y | y in r ensures y == x || y in s {
      assert y in multiset(r);
    }
  }

  lemma ConsAscending<T>(h: T, t: seq<T>, key: T -> real)
    requires Ascending(t, key)
    requires forall y :: y in t ==> key(h) <= key(y)
    ensures Ascending([h] + t, key)
  {
    var r := [h] + t;
    forall i, j | 0 <= i < j < |r| ensures key(r[i]) <= key(r[j]) {
      if i > 0 { assert r[i] == t[i - 1] && r[j] == t[j - 1]; }
      else { assert r[j] in t; }
    }
  }

  lemma ConsDescending<T>(h: T, t: seq<T>, key: T -> real)
    requires Descending(t, key)
    requires forall y :: y in t ==> key(h) >= key(y)
    ensures Descending([h] + t, key)
  {
    var r := [h] + t;
    forall i, j | 0 <= i < j < |r| ensures key(r[i]) >= key(r[j]) {
      if i > 0 { assert r[i] == t[i - 1] && r[j] == t[j - 1]; }
      else { assert r[j] in t; }
    }
  }

  lemma {:induction false} InsertAscending<T>(s: seq<T>, x: T, lt: (T, T) -> bool, key: T -> real)
    requires forall a, b :: lt(a, b) == (key(a) < key(b))
    requires Ascending(s, key)
    ensures Ascending(InsertBy(s, x, lt), key)
  {
    if |s| > 0 {
      forall y | y in s[1..] ensures key(s[0]) <= key(y) {
        var j :| 0 <= j < |s[1..]| && s[1..][j] == y;
        assert s[j + 1] == y;
      }
      if lt(x, s[0]) {
        assert s == [s[0]] + s[1..];
        ConsAscending(x, s, key);
      } else {
        var t := InsertBy(s[1..], x, lt);
        InsertAscending(s[1..], x, lt, key);
        InsertMembers(s[1..], x, lt);
        ConsAscending(s[0], t, key);
      }
    }
  }

  lemma {:induction false} InsertDescending<T>(s: seq<T>, x: T, lt: (T, T) -> bool, key: T -> real)
    requires forall a, b :: lt(a, b) == (key(a) > key(b))
    requires Descending(s, key)
    ensures Descending(InsertBy(s, x, lt), key)
  {
    if |s| > 0 {
      forall y | y in s[1..] ensures key(s[0]) >= key(y) {
        var j :| 0 <= j < |s[1..]| && s[1..][j] == y;
        assert s[j + 1] == y;
      }
      if lt(x, s[0]) {
        assert s == [s[0]] + s[1..];
        ConsDescending(x, s, key);
      } else {
        var t := InsertBy(s[1..], x, lt);
        InsertDescending(s[1..], x, lt, key);
        InsertMembers(s[1..], x, lt);
        ConsDescending(s[0], t, key);
      }
    }
  }

  /** OrderBy(key) yields keys in non-decreasing order. */
  lemma {:induction false} SortAscending<T>(s: seq<T>, lt: (T, T) -> bool, key: T -> real)
    requires forall a, b :: lt(a, b) == (key(a) < key(b))
    ensures Ascending(SortBy(s, lt), key)
  {
    if |s| > 0 {
      SortAscending(s[..|s| - 1], lt, key);
      InsertAscending(SortBy(s[..|s| - 1], lt), s[|s| - 1], lt, key);
    }
  }

  /** OrderByDescending(key) yields keys in non-increasing order. */
  lemma {:induction false} SortDescending<T>(s: seq<T>, lt: (T, T) -> bool, key: T -> real)
    requires forall a, b :: lt(a, b) == (key(a) > key(b))
    ensures Descending(SortBy(s, lt), key)
  {
    if |s| > 0 {
      SortDescending(s[..|s| - 1], lt, key);
      InsertDescending(SortBy(s[..|s| - 1], lt), s[|s| - 1], lt, key);
    }
  }

  lemma {:induction false} InsertCongruent<T>(s: seq<T>, x: T, lt1: (T, T) -> bool, lt2: (T, T) -> bool)
    requires forall b :: b in s ==> lt1(x, b) == lt2(x, b)
    ensures InsertBy(s, x, lt1) == InsertBy(s, x, lt2)
  {
    if |s| > 0 {
      assert s[0] in s;
      assert forall b :: b in s[1..] ==> b in s;
      InsertCongruent(s[1..], x, lt1, lt2);
    }
  }

  /**
   * Two orders that decide every pair of input elements alike sort the input
   * identically, ties included.
   */
  lemma {:induction false} SortCongruent<T>(s: seq<T>, lt1: (T, T) -> bool, lt2: (T, T) -> bool)
    requires forall a, b :: a in s && b in s ==> lt1(a, b) == lt2(a, b)
    ensures SortBy(s, lt1) == SortBy(s, lt2)
  {
    if |s| > 0 {
      var s', x := s[..|s| - 1], s[|s| - 1];
      assert forall a :: a in s' ==> a in s;
      SortCongruent(s', lt1, lt2);
      var t := SortBy(s', lt1);
      forall b | b in t ensures lt1(x, b) == lt2(x, b) {
        assert b in multiset(t);
        assert b in multiset(s');
      }
      InsertCongruent(t, x, lt1, lt2);
    }
  }

  lemma {:induction false} InsertAllTies<T>(s: seq<T>, x: T, lt: (T, T) -> bool)
    requires forall b :: b in s ==> !lt(x, b)
    ensures InsertBy(s, x, lt) == s + [x]
  {
    if |s| > 0 {
      assert s[0] in s;
      assert forall b :: b in s[1..] ==> b in s;
      InsertAllTies(s[1..], x, lt);
      assert s == [s[0]] + s[1..];
    }
  }

  /** Stability: when no element strictly precedes another, the order is the input order. */
  lemma {:induction false} SortAllTies<T>(s: seq<T>, lt: (T, T) -> bool)
    requires forall a, b :: a in s && b in s ==> !lt(a, b)
    ensures SortBy(s, lt) == s
  {
    if |s| > 0 {
      var s', x := s[..|s| - 1], s[|s| - 1];
      assert forall a :: a in s' ==> a in s;
      SortAllTies(s', lt);
      InsertAllTies(s', x, lt);
    }
  }

  /** `OrderByDescending(key).Take(n)` and its relatives: the first n after sorting. */
  function TopBy<T>(s: seq<T>, lt: (T, T) -> bool, n: nat): (r: seq<T>)
    ensures |r| == if n < |s| then n else |s|
    ensures multiset(r) <= multiset(s)
  {
    var sorted := SortBy(s, lt);
    assert sorted == Take(sorted, n) + sorted[|Take(sorted, n)|..];
    Take(sorted, n)
  }

  /**
   * Top-N by a numeric key: at most n elements, all from the input, in
   * non-increasing key order, and no element left out has a larger key than
   * any element kept.
   */
  lemma TopByRanks<T>(s: seq<T>, lt: (T, T) -> bool, key: T -> real, n: nat)
    requires forall a, b :: lt(a, b) == (key(a) > key(b))
    ensures var r := TopBy(s, lt, n);
      Descending(r, key)
      && (forall x :: x in r ==> x in s)
      && (forall x :: x in s && x !in r ==> forall y :: y in r ==> key(y) >= key(x))
  {
    var sorted := SortBy(s, lt);
    var r := TopBy(s, lt, n);
    SortDescending(s, lt, key);
    assert r == sorted[..|r|];
    forall x | x in r ensures x in s {
      assert x in multiset(r);
    }
    forall x | x in s && x !in r ensures x in sorted {
      assert x in multiset(sorted);
    }
    PrefixDominates(sorted, |r|, key);
  }

  /** In a non-increasing sequence, the first k elements are at least every later one. */
  lemma PrefixDominates<T>(s: seq<T>, k: nat, key: T -> real)
    requires Descending(s, key) && k <= |s|
    ensures forall x :: x in s && x !in s[..k] ==> forall y :: y in s[..k] ==> key(y) >= key(x)
  {
    forall x, y | x in s && x !in s[..k] && y in s[..k] ensures key(y) >= key(x) {
      var j :| 0 <= j < |s| && s[j] == x;
      var i :| 0 <= i < k && s[..k][i] == y;
      assert s[i] == y;
      assert forall m :: 0 <= m < k ==> s[..k][m] == s[m];
    }
  }

  /** No element is placed after one it strictly precedes. */
  predicate SortedBy<T>(s: seq<T>, lt: (T, T) -> bool)
  {
    forall i, j :: 0 <= i < j < |s| ==> !lt(s[j], s[i])
  }

  /** `lt` is a strict partial order on the elements of `s`. */
  ghost predicate StrictOrderOn<T(!new)>(s: seq<T>, lt: (T, T) -> bool)
  {
    (forall a :: a in s ==> !lt(a, a))
    && (forall a, b, c :: a in s && b in s && c in s && lt(a, b) && lt(b, c) ==> lt(a, c))
  }

  /** Putting in front an element that strictly precedes the current head keeps the order. */
  lemma PrependSorted<T(!new)>(s: seq<T>, x: T, lt: (T, T) -> bool, dom: seq<T>)
    requires StrictOrderOn(dom, lt)
    requires x in dom && forall a :: a in s ==> a in dom
    requires |s| > 0 && lt(x, s[0])
    requires SortedBy(s, lt)
    ensures SortedBy([x] + s, lt)
  {
    var r, h := [x] + s, s[0];
    forall j | 0 < j < |r| ensures !lt(r[j], x) {
      var y := s[j - 1];
      assert r[j] == y;
      assert y in dom && h in dom;
      assert lt(y, x) ==> lt(y, h);
      if j - 1 > 0 { assert !lt(y, h); } else { assert !lt(y, y); }
    }
    forall i, j | 0 <= i < j < |r| ensures !lt(r[j], r[i]) {
      if i > 0 { assert r[i] == s[i - 1] && r[j] == s[j - 1]; }
    }
  }

  lemma {:induction false} InsertSorted<T(!new)>(s: seq<T>, x: T, lt: (T, T) -> bool, dom: seq<T>)
    requires StrictOrderOn(dom, lt)
    requires x in dom && forall a :: a in s ==> a in dom
    requires SortedBy(s, lt)
    ensures SortedBy(InsertBy(s, x, lt), lt)
  {
    if |s| > 0 {
      if lt(x, s[0]) {
        PrependSorted(s, x, lt, dom);
      } else {
        var tail := s[1..];
        assert forall a :: a in tail ==> a in s;
        InsertSorted(tail, x, lt, dom);
        InsertMembers(tail, x, lt);
        forall y | y in tail ensures !lt(y, s[0]) {
          var j :| 0 <= j < |tail| && tail[j] == y;
          assert s[j + 1] == y;
        }
        ConsSorted(s[0], InsertBy(tail, x, lt), lt);
      }
    }
  }

  lemma ConsSorted<T>(h: T, t: seq<T>, lt: (T, T) -> bool)
    requires SortedBy(t, lt)
    requires forall y :: y in t ==> !lt(y, h)
    ensures SortedBy([h] + t, lt)
  {
    var r := [h] + t;
    forall i, j | 0 <= i < j < |r| ensures !lt(r[j], r[i]) {
      if i > 0 { assert r[i] == t[i - 1] && r[j] == t[j - 1]; }
      else { assert r[j] in t; }
    }
  }

  /** A stable sort under a strict partial order leaves no pair out of order. */
  lemma {:induction false} SortSorted<T(!new)>(s: seq<T>, lt: (T, T) -> bool)
    requires StrictOrderOn(s, lt)
    ensures SortedBy(SortBy(s, lt), lt)
  {
    if |s| > 0 {
      var s', x := s[..|s| - 1], s[|s| - 1];
      assert forall a :: a in s' ==> a in s;
      SortSorted(s', lt);
      var t := SortBy(s', lt);
      forall a | a in t ensures a in s {
        assert a in multiset(t);
        assert a in multiset(s');
      }
      InsertSorted(t, x, lt, s);
    }
  }
}
