/**
 * Sequence vocabulary shared by the model: optional values, LINQ-style
 * Distinct / Union / Take, and grouping by a key with per-key counts and sums.
 *
 * Every recursive definition peels the LAST element, so that a loop that walks
 * a sequence from the front keeps `acc == F(s[..i])` as its invariant.
 */
module Collections {

  datatype Option<T> = None | Some(value: T)

  predicate NoDuplicates<K(==, !new)>(s: seq<K>)
  {
    forall i, j :: 0 <= i < j < |s| ==> s[i] != s[j]
  }

  /** LINQ Distinct: the elements of `s` once each, in order of first occurrence. */
  function Distinct<K(==, !new)>(s: seq<K>): (r: seq<K>)
    ensures forall k :: k in r <==> k in s
    ensures NoDuplicates(r)
    ensures |r| <= |s|
  {
    if |s| == 0 then []
    else
      var d := Distinct(s[..|s| - 1]);
      assert s == s[..|s| - 1] + [s[|s| - 1]];
      if s[|s| - 1] in d then d else d + [s[|s| - 1]]
  }

  /** A sequence that already has no repetitions is its own Distinct. */
  lemma {:induction false} DistinctOfDistinct<K(!new)>(s: seq<K>)
    requires NoDuplicates(s)
    ensures Distinct(s) == s
  {
    if |s| > 0 {
      DistinctOfDistinct(s[..|s| - 1]);
    }
  }

  /** LINQ Union: the distinct elements of `a`, then those of `b` not in `a`. */
  function Union<K(==, !new)>(a: seq<K>, b: seq<K>): (r: seq<K>)
    ensures forall k :: k in r <==> k in a || k in b
    ensures NoDuplicates(r)
  {
    Distinct(a + b)
  }

  /** LINQ Take(n): the first n elements, or all of them. */
  function Take<T>(s: seq<T>, n: nat): (r: seq<T>)
    ensures |r| <= n && |r| <= |s|
    ensures |r| == if n < |s| then n else |s|
    ensures r <= s
  {
    if n < |s| then s[..n] else s
  }

  /** LINQ Select. */
  function Map<T, U>(s: seq<T>, f: T -> U): (r: seq<U>)
    ensures |r| == |s|
    ensures forall i :: 0 <= i < |s| ==> r[i] == f(s[i])
  {
    if |s| == 0 then [] else Map(s[..|s| - 1], f) + [f(s[|s| - 1])]
  }

  lemma MapMembers<T, U>(s: seq<T>, f: T -> U, y: U)
    ensures y in Map(s, f) <==> exists x :: x in s && f(x) == y
  {
    if y in Map(s, f) {
      var i :| 0 <= i < |s| && Map(s, f)[i] == y;
      assert s[i] in s;
    }
  }

  /** LINQ FirstOrDefault(p), with None for the default: the earliest element satisfying `p`. */
  function FirstWhere<T(==, !new)>(s: seq<T>, p: T -> bool): (r: Option<T>)
    ensures r.None? <==> forall x :: x in s ==> !p(x)
    ensures r.Some? ==> exists i :: 0 <= i < |s| && s[i] == r.value && p(s[i]) && forall j :: 0 <= j < i ==> !p(s[j])
  {
    if |s| == 0 then None
    else
      var s' := s[..|s| - 1];
      var r' := FirstWhere(s', p);
      assert forall x :: x in s ==> x in s' || x == s[|s| - 1];
      if r'.Some? then
        assert exists i :: 0 <= i < |s'| && s'[i] == r'.value && p(s'[i]) && forall j :: 0 <= j < i ==> !p(s'[j]);
        var i :| 0 <= i < |s'| && s'[i] == r'.value && p(s'[i]) && forall j :: 0 <= j < i ==> !p(s'[j]);
        assert s[i] == r'.value && forall j :: 0 <= j < i ==> s[j] == s'[j];
        r'
      else if p(s[|s| - 1]) then
        assert forall j :: 0 <= j < |s| - 1 ==> s[j] in s';
        Some(s[|s| - 1])
      else None
  }

  /** The first element satisfying `p` is the one FirstWhere returns. */
  lemma FirstWhereAt<T(!new)>(s: seq<T>, p: T -> bool, i: int)
    requires 0 <= i < |s| && p(s[i]) && forall j :: 0 <= j < i ==> !p(s[j])
    ensures FirstWhere(s, p) == Some(s[i])
  {
    var r := FirstWhere(s, p);
    var k :| 0 <= k < |s| && s[k] == r.value && p(s[k]) && forall j :: 0 <= j < k ==> !p(s[j]);
    assert !(k < i) && !(i < k);
  }

  /** LINQ Where. */
  function Filter<T(!new)>(s: seq<T>, p: T -> bool): (r: seq<T>)
    ensures |r| <= |s|
    ensures forall x :: x in r <==> x in s && p(x)
    ensures multiset(r) <= multiset(s)
  {
    if |s| == 0 then []
    else
      var f := Filter(s[..|s| - 1], p);
      assert s == s[..|s| - 1] + [s[|s| - 1]];
      if p(s[|s| - 1]) then f + [s[|s| - 1]] else f
  }

  lemma {:induction false} FilterAppend<T(!new)>(a: seq<T>, b: seq<T>, p: T -> bool)
    ensures Filter(a + b, p) == Filter(a, p) + Filter(b, p)
  {
    if |b| > 0 {
      assert (a + b)[..|a + b| - 1] == a + b[..|b| - 1];
      FilterAppend(a, b[..|b| - 1], p);
    } else {
      assert a + b == a;
    }
  }

  /** Filtering twice is filtering once by the conjunction. */
  lemma {:induction false} FilterFilter<T(!new)>(s: seq<T>, p: T -> bool, q: T -> bool)
    ensures Filter(Filter(s, p), q) == Filter(s, x => p(x) && q(x))
  {
    if |s| > 0 {
      var s' := s[..|s| - 1];
      FilterFilter(s', p, q);
      var x := s[|s| - 1];
      if p(x) {
        assert Filter(s, p) == Filter(s', p) + [x];
        assert Filter(s, p)[..|Filter(s, p)| - 1] == Filter(s', p);
      }
    }
  }

  /** Two predicates that agree on every element select the same rows. */
  lemma {:induction false} FilterCongruent<T(!new)>(s: seq<T>, p: T -> bool, q: T -> bool)
    requires forall x :: x in s ==> p(x) == q(x)
    ensures Filter(s, p) == Filter(s, q)
  {
    if |s| > 0 {
      assert forall x :: x in s[..|s| - 1] ==> x in s;
      FilterCongruent(s[..|s| - 1], p, q);
    }
  }

  /** Number of elements satisfying `p` (LINQ Count(predicate)). */
  function CountIf<T(!new)>(s: seq<T>, p: T -> bool): (n: nat)
    ensures n <= |s|
    ensures n == |Filter(s, p)|
    ensures n == 0 <==> forall x :: x in s ==> !p(x)
  {
    if |s| == 0 then 0
    else
      assert s == s[..|s| - 1] + [s[|s| - 1]];
      CountIf(s[..|s| - 1], p) + (if p(s[|s| - 1]) then 1 else 0)
  }

  /** Sum of `f` over `s` (LINQ Sum). */
  function SumOf<T(!new)>(s: seq<T>, f: T -> int): (n: int)
    ensures (forall x :: x in s ==> f(x) >= 0) ==> n >= 0
  {
    if |s| == 0 then 0
    else
      assert forall x :: x in s[..|s| - 1] ==> x in s;
      SumOf(s[..|s| - 1], f) + f(s[|s| - 1])
  }

  lemma {:induction false} SumOfAppend<T(!new)>(a: seq<T>, b: seq<T>, f: T -> int)
    ensures SumOf(a + b, f) == SumOf(a, f) + SumOf(b, f)
  {
    if |b| > 0 {
      assert (a + b)[..|a + b| - 1] == a + b[..|b| - 1];
      SumOfAppend(a, b[..|b| - 1], f);
    } else {
      assert a + b == a;
    }
  }

  /** Sum of a real-valued `f` over `s`. */
  function SumReal<T(!new)>(s: seq<T>, f: T -> real): (n: real)
    ensures (forall x :: x in s ==> f(x) >= 0.0) ==> n >= 0.0
  {
    if |s| == 0 then 0.0
    else
      assert forall x :: x in s[..|s| - 1] ==> x in s;
      SumReal(s[..|s| - 1], f) + f(s[|s| - 1])
  }

  // ---------------------------------------------------------------------
  // Grouping by a key (LINQ GroupBy with Count() or Sum() per group)
  // ---------------------------------------------------------------------

  /** The group keys of `s` in order of first occurrence. */
  function KeysOf<T(!new), K(==, !new)>(s: seq<T>, key: T -> K): (ks: seq<K>)
    ensures NoDuplicates(ks)
    ensures forall k :: k in ks <==> exists x :: x in s && key(x) == k
    ensures |ks| <= |s|
  {
    var m := Map(s, key);
    assert forall k :: k in m <==> exists x :: x in s && key(x) == k by {
      forall k ensures k in m <==> exists x :: x in s && key(x) == k {
        if exists x :: x in s && key(x) == k {
          var x :| x in s && key(x) == k;
          var i :| 0 <= i < |s| && s[i] == x;
          assert m[i] == k;
        }
      }
    }
    Distinct(m)
  }

  /** Size of the group with key `k` (0 when there is no such group). */
  function CountKey<T(!new), K(==, !new)>(s: seq<T>, key: T -> K, k: K): (n: nat)
    ensures n <= |s|
    ensures n == 0 <==> forall x :: x in s ==> key(x) != k
  {
    if |s| == 0 then 0
    else
      assert s == s[..|s| - 1] + [s[|s| - 1]];
      CountKey(s[..|s| - 1], key, k) + (if key(s[|s| - 1]) == k then 1 else 0)
  }

  /** Sum of `val` over the group with key `k` (0 when there is no such group). */
  function SumKey<T(!new), K(==, !new)>(s: seq<T>, key: T -> K, k: K, val: T -> int): (n: int)
    ensures (forall x :: x in s ==> key(x) != k) ==> n == 0
    ensures (forall x :: x in s ==> val(x) >= 0) ==> n >= 0
  {
    if |s| == 0 then 0
    else
      assert forall x :: x in s[..|s| - 1] ==> x in s;
      SumKey(s[..|s| - 1], key, k, val) + (if key(s[|s| - 1]) == k then val(s[|s| - 1]) else 0)
  }

  /** Real-valued sum of `val` over the group with key `k`. */
  function SumKeyReal<T(!new), K(==, !new)>(s: seq<T>, key: T -> K, k: K, val: T -> real): (n: real)
    ensures (forall x :: x in s ==> key(x) != k) ==> n == 0.0
  {
    if |s| == 0 then 0.0
    else
      assert forall x :: x in s[..|s| - 1] ==> x in s;
      SumKeyReal(s[..|s| - 1], key, k, val) + (if key(s[|s| - 1]) == k then val(s[|s| - 1]) else 0.0)
  }

  /** Σ over the keys `ks` of the group sums. */
  function SumOverKeys<T(!new), K(==, !new)>(s: seq<T>, key: T -> K, ks: seq<K>, val: T -> int): int
  {
    if |ks| == 0 then 0
    else SumOverKeys(s, key, ks[..|ks| - 1], val) + SumKey(s, key, ks[|ks| - 1], val)
  }

  /** Σ over the keys `ks` of the group sizes. */
  function CountOverKeys<T(!new), K(==, !new)>(s: seq<T>, key: T -> K, ks: seq<K>): int
  {
    if |ks| == 0 then 0
    else CountOverKeys(s, key, ks[..|ks| - 1]) + CountKey(s, key, ks[|ks| - 1])
  }

  /** Σ over `ks` of the indicator of `y`. */
  function Hits<K(==, !new)>(ks: seq<K>, y: K): nat
  {
    if |ks| == 0 then 0 else Hits(ks[..|ks| - 1], y) + (if ks[|ks| - 1] == y then 1 else 0)
  }

  lemma {:induction false} HitsOnce<K(!new)>(ks: seq<K>, y: K)
    requires NoDuplicates(ks)
    ensures Hits(ks, y) == if y in ks then 1 else 0
  {
    if |ks| > 0 {
      var ks' := ks[..|ks| - 1];
      HitsOnce(ks', y);
      assert ks == ks' + [ks[|ks| - 1]];
      if ks[|ks| - 1] == y {
        assert y !in ks' by {
          forall i | 0 <= i < |ks'| ensures ks'[i] != y { assert ks[i] == ks'[i]; }
        }
      }
    }
  }

  lemma {:induction false} SumOverKeysStep<T(!new), K(!new)>(s: seq<T>, x: T, key: T -> K, ks: seq<K>, val: T -> int)
    requires NoDuplicates(ks)
    ensures SumOverKeys(s + [x], key, ks, val) == SumOverKeys(s, key, ks, val) + (if key(x) in ks then val(x) else 0)
  {
    if |ks| > 0 {
      var ks', k := ks[..|ks| - 1], ks[|ks| - 1];
      SumOverKeysStep(s, x, key, ks', val);
      assert (s + [x])[..|s + [x]| - 1] == s;
      assert ks == ks' + [k];
      assert k !in ks';
    }
  }

  lemma {:induction false} CountOverKeysStep<T(!new), K(!new)>(s: seq<T>, x: T, key: T -> K, ks: seq<K>)
    ensures CountOverKeys(s + [x], key, ks) == CountOverKeys(s, key, ks) + Hits(ks, key(x))
  {
    if |ks| > 0 {
      CountOverKeysStep(s, x, key, ks[..|ks| - 1]);
      assert (s + [x])[..|s + [x]| - 1] == s;
    }
  }

  /**
   * Conservation of sums: when every row's key is listed exactly once in
   * `ks`, the group sums over `ks` add up to the sum over all rows.
   */
  lemma {:induction false} SumConservation<T(!new), K(!new)>(s: seq<T>, key: T -> K, ks: seq<K>, val: T -> int)
    requires NoDuplicates(ks)
    requires forall x :: x in s ==> key(x) in ks
    ensures SumOverKeys(s, key, ks, val) == SumOf(s, val)
  {
    if |s| == 0 {
      ZeroOverKeys(s, key, ks, val);
    } else {
      var s', x := s[..|s| - 1], s[|s| - 1];
      assert s == s' + [x];
      SumConservation(s', key, ks, val);
      SumOverKeysStep(s', x, key, ks, val);
    }
  }

  /** Conservation of counts: the group sizes over `ks` add up to |s|. */
  lemma {:induction false} CountConservation<T(!new), K(!new)>(s: seq<T>, key: T -> K, ks: seq<K>)
    requires NoDuplicates(ks)
    requires forall x :: x in s ==> key(x) in ks
    ensures CountOverKeys(s, key, ks) == |s|
  {
    if |s| == 0 {
      ZeroCountOverKeys(key, ks);
    } else {
      var s', x := s[..|s| - 1], s[|s| - 1];
      assert s == s' + [x];
      CountConservation(s', key, ks);
      CountOverKeysStep(s', x, key, ks);
      HitsOnce(ks, key(x));
    }
  }

  lemma {:induction false} ZeroOverKeys<T(!new), K(!new)>(s: seq<T>, key: T -> K, ks: seq<K>, val: T -> int)
    requires |s| == 0
    ensures SumOverKeys(s, key, ks, val) == 0
  {
    if |ks| > 0 { ZeroOverKeys(s, key, ks[..|ks| - 1], val); }
  }

  lemma {:induction false} ZeroCountOverKeys<T(!new), K(!new)>(key: T -> K, ks: seq<K>)
    ensures CountOverKeys([], key, ks) == 0
  {
    if |ks| > 0 { ZeroCountOverKeys(key, ks[..|ks| - 1]); }
  }

  // ---------------------------------------------------------------------
  // Zero-filled lookup in a list of (key, value) groups
  // (`FirstOrDefault(g => g.Key == k)?.Value ?? 0`)
  // ---------------------------------------------------------------------

  /** Value of the first pair whose key is `k`, or 0. */
  function LookupOrZero<K(==, !new)>(groups: seq<(K, int)>, k: K): int
  {
    if |groups| == 0 then 0
    else if groups[0].0 == k then groups[0].1
    else LookupOrZero(groups[1..], k)
  }

  /** The value half of a (key, value) group. */
  function GroupValue<K>(p: (K, int)): int { p.1 }

  /** One (key, per-key sum) pair for each key in `ks`. */
  function SumPairs<T(!new), K(==, !new)>(s: seq<T>, key: T -> K, ks: seq<K>, val: T -> int): (g: seq<(K, int)>)
    ensures |g| == |ks|
    ensures forall i :: 0 <= i < |g| ==> g[i] == (ks[i], SumKey(s, key, ks[i], val))
  {
    seq(|ks|, i requires 0 <= i < |ks| => (ks[i], SumKey(s, key, ks[i], val)))
  }

  /** One (key, group size) pair for each key in `ks`. */
  function CountPairs<T(!new), K(==, !new)>(s: seq<T>, key: T -> K, ks: seq<K>): (g: seq<(K, int)>)
    ensures |g| == |ks|
    ensures forall i :: 0 <= i < |g| ==> g[i] == (ks[i], CountKey(s, key, ks[i]))
  {
    seq(|ks|, i requires 0 <= i < |ks| => (ks[i], CountKey(s, key, ks[i])))
  }

  /** LINQ GroupBy(key).Select(g => (g.Key, g.Sum(val))), in first-occurrence order. */
  function GroupSums<T(!new), K(==, !new)>(s: seq<T>, key: T -> K, val: T -> int): seq<(K, int)>
  {
    SumPairs(s, key, KeysOf(s, key), val)
  }

  /** LINQ GroupBy(key).Select(g => (g.Key, g.Count())), in first-occurrence order. */
  function GroupCounts<T(!new), K(==, !new)>(s: seq<T>, key: T -> K): seq<(K, int)>
  {
    CountPairs(s, key, KeysOf(s, key))
  }

  lemma {:induction false} LookupFound<K(!new)>(groups: seq<(K, int)>, i: nat)
    requires i < |groups|
    requires forall j :: 0 <= j < i ==> groups[j].0 != groups[i].0
    ensures LookupOrZero(groups, groups[i].0) == groups[i].1
  {
    if i > 0 { LookupFound(groups[1..], i - 1); }
  }

  lemma {:induction false} LookupMissing<K(!new)>(groups: seq<(K, int)>, k: K)
    requires forall j :: 0 <= j < |groups| ==> groups[j].0 != k
    ensures LookupOrZero(groups, k) == 0
  {
    if |groups| > 0 { LookupMissing(groups[1..], k); }
  }

  /**
   * Zero fill: looking a key up in the grouped sums yields that key's sum,
   * and 0 for a key no row has.
   */
  lemma LookupGroupSums<T(!new), K(!new)>(s: seq<T>, key: T -> K, val: T -> int, k: K)
    ensures LookupOrZero(GroupSums(s, key, val), k) == SumKey(s, key, k, val)
  {
    var g, ks := GroupSums(s, key, val), KeysOf(s, key);
    if k in ks {
      var i :| 0 <= i < |ks| && ks[i] == k;
      LookupFound(g, i);
    } else {
      LookupMissing(g, k);
    }
  }

  /** Zero fill for grouped counts. */
  lemma LookupGroupCounts<T(!new), K(!new)>(s: seq<T>, key: T -> K, k: K)
    ensures LookupOrZero(GroupCounts(s, key), k) == CountKey(s, key, k)
  {
    var g, ks := GroupCounts(s, key), KeysOf(s, key);
    if k in ks {
      var i :| 0 <= i < |ks| && ks[i] == k;
      LookupFound(g, i);
    } else {
      LookupMissing(g, k);
    }
  }

  /** The counts of a GroupBy(...).Count() add up to the number of rows. */
  lemma GroupCountsTotal<T(!new), K(!new)>(s: seq<T>, key: T -> K)
    ensures SumOf(GroupCounts(s, key), GroupValue) == |s|
  {
    var ks := KeysOf(s, key);
    CountConservation(s, key, ks);
    CountPairsTotal(s, key, ks);
  }

  lemma {:induction false} CountPairsTotal<T(!new), K(!new)>(s: seq<T>, key: T -> K, ks: seq<K>)
    ensures SumOf(CountPairs(s, key, ks), GroupValue) == CountOverKeys(s, key, ks)
  {
    if |ks| > 0 {
      var ks' := ks[..|ks| - 1];
      CountPairsTotal(s, key, ks');
      assert CountPairs(s, key, ks)[..|ks| - 1] == CountPairs(s, key, ks');
    }
  }

  /** The sums of a GroupBy(...).Sum() add up to the sum over all rows. */
  lemma GroupSumsTotal<T(!new), K(!new)>(s: seq<T>, key: T -> K, val: T -> int)
    ensures SumOf(GroupSums(s, key, val), GroupValue) == SumOf(s, val)
  {
    var ks := KeysOf(s, key);
    SumConservation(s, key, ks, val);
    SumPairsTotal(s, key, ks, val);
  }

  lemma {:induction false} SumPairsTotal<T(!new), K(!new)>(s: seq<T>, key: T -> K, ks: seq<K>, val: T -> int)
    ensures SumOf(SumPairs(s, key, ks, val), GroupValue) == SumOverKeys(s, key, ks, val)
  {
    if |ks| > 0 {
      var ks' := ks[..|ks| - 1];
      SumPairsTotal(s, key, ks', val);
      assert SumPairs(s, key, ks, val)[..|ks| - 1] == SumPairs(s, key, ks', val);
    }
  }

  // ---------------------------------------------------------------------
  // Reordering (OrderBy after GroupBy) changes neither sums nor lookups
  // ---------------------------------------------------------------------

  /** Removing position i from a sequence removes one copy of b[i] from its multiset. */
  lemma MultisetRemove<T>(b: seq<T>, i: int)
    requires 0 <= i < |b|
    ensures multiset(b[..i] + b[i + 1..]) == multiset(b) - multiset{b[i]}
    ensures b[i] in multiset(b)
  {
    assert b == b[..i] + [b[i]] + b[i + 1..];
  }

  lemma SumOfRemove<T(!new)>(b: seq<T>, i: int, f: T -> int)
    requires 0 <= i < |b|
    ensures SumOf(b, f) == SumOf(b[..i] + b[i + 1..], f) + f(b[i])
  {
    var l, x, r := b[..i], b[i], b[i + 1..];
    var lx := b[..i + 1];
    assert lx == l + [x];
    assert b == lx + r;
    SumOfAppend(lx, r, f);
    SumOfSnoc(l, x, f);
    SumOfAppend(l, r, f);
  }

  lemma SumOfSnoc<T(!new)>(l: seq<T>, x: T, f: T -> int)
    ensures SumOf(l + [x], f) == SumOf(l, f) + f(x)
  {
    assert (l + [x])[..|l|] == l;
  }

  lemma {:induction false} SumOfPermutation<T(!new)>(a: seq<T>, b: seq<T>, f: T -> int)
    requires multiset(a) == multiset(b)
    ensures SumOf(a, f) == SumOf(b, f)
  {
    if |a| > 0 {
      var a', x := a[..|a| - 1], a[|a| - 1];
      MultisetRemove(a, |a| - 1);
      assert a[..|a| - 1] + a[|a|..] == a';
      var i :| 0 <= i < |b| && b[i] == x;
      MultisetRemove(b, i);
      SumOfPermutation(a', b[..i] + b[i + 1..], f);
      SumOfRemove(b, i, f);
      SumOfRemove(a, |a| - 1, f);
    } else {
      assert b == [];
    }
  }

  lemma {:induction false} LookupAllSame<K(!new)>(g: seq<(K, int)>, k: K, p: (K, int))
    requires p in g && p.0 == k
    requires forall q :: q in g && q.0 == k ==> q == p
    ensures LookupOrZero(g, k) == p.1
  {
    if g[0].0 != k {
      assert forall q :: q in g[1..] ==> q in g;
      LookupAllSame(g[1..], k, p);
    }
  }

  predicate DistinctKeys<K(==, !new)>(g: seq<(K, int)>)
  {
    forall i, j :: 0 <= i < j < |g| ==> g[i].0 != g[j].0
  }

  /** A reordered list of groups with distinct keys answers every lookup alike. */
  lemma LookupPermutation<K(!new)>(g1: seq<(K, int)>, g2: seq<(K, int)>, k: K)
    requires multiset(g1) == multiset(g2)
    requires DistinctKeys(g1)
    ensures LookupOrZero(g1, k) == LookupOrZero(g2, k)
  {
    if exists i :: 0 <= i < |g1| && g1[i].0 == k {
      var i :| 0 <= i < |g1| && g1[i].0 == k;
      var p := g1[i];
      forall q | q in g1 && q.0 == k ensures q == p {
        var j :| 0 <= j < |g1| && g1[j] == q;
      }
      LookupAllSame(g1, k, p);
      assert p in multiset(g2);
      forall q | q in g2 && q.0 == k ensures q == p {
        assert q in multiset(g1);
      }
      LookupAllSame(g2, k, p);
    } else {
      LookupMissing(g1, k);
      forall j | 0 <= j < |g2| ensures g2[j].0 != k {
        assert g2[j] in multiset(g1);
      }
      LookupMissing(g2, k);
    }
  }

  lemma GroupSumsDistinctKeys<T(!new), K(!new)>(s: seq<T>, key: T -> K, val: T -> int)
    ensures DistinctKeys(GroupSums(s, key, val))
  {
  }

  lemma GroupCountsDistinctKeys<T(!new), K(!new)>(s: seq<T>, key: T -> K)
    ensures DistinctKeys(GroupCounts(s, key))
  {
  }

  // ---------------------------------------------------------------------
  // Re-grouping grouped counts by a coarser key
  // ---------------------------------------------------------------------

  lemma {:induction false} CountKeyIsFilterLength<T(!new), C(!new)>(s: seq<T>, ck: T -> C, c: C)
    ensures CountKey(s, ck, c) == |Filter(s, x => ck(x) == c)|
  {
    if |s| > 0 {
      CountKeyIsFilterLength(s[..|s| - 1], ck, c);
    }
  }

  lemma {:induction false} CountKeyOfFilter<T(!new), K(!new), C(!new)>(
    s: seq<T>, key: T -> K, ck: T -> C, c: C, p: T -> bool, k: K, gk: C)
    requires forall x :: p(x) == (ck(x) == c)
    requires forall x :: key(x) == k ==> ck(x) == gk
    ensures CountKey(Filter(s, p), key, k) == if gk == c then CountKey(s, key, k) else 0
  {
    if |s| > 0 {
      var s', x := s[..|s| - 1], s[|s| - 1];
      CountKeyOfFilter(s', key, ck, c, p, k, gk);
      var f' := Filter(s', p);
      if p(x) {
        assert Filter(s, p) == f' + [x];
        assert (f' + [x])[..|f' + [x]| - 1] == f';
      }
    }
  }

  /**
   * Summing the counts of a fine grouping over the fine keys that map to the
   * coarse key `c` gives the number of rows whose coarse key is `c`. `gk`
   * reads the coarse key off a (fine key, count) pair and `ck` off a row.
   */
  lemma CoarsenCounts<T(!new), K(!new), C(!new)>(
    s: seq<T>, key: T -> K, g: K -> C, gk: ((K, int)) -> C, ck: T -> C, c: C)
    requires forall p: (K, int) :: gk(p) == g(p.0)
    requires forall x :: ck(x) == g(key(x))
    ensures SumKey(GroupCounts(s, key), gk, c, GroupValue) == CountKey(s, ck, c)
  {
    var ks := KeysOf(s, key);
    var p := x => ck(x) == c;
    var sc := Filter(s, p);
    CoarsenPairs(s, key, g, gk, ck, c, p, ks);
    forall x | x in sc ensures key(x) in ks { assert x in s; }
    CountConservation(sc, key, ks);
    CountKeyIsFilterLength(s, ck, c);
  }

  lemma {:induction false} CoarsenPairs<T(!new), K(!new), C(!new)>(
    s: seq<T>, key: T -> K, g: K -> C, gk: ((K, int)) -> C, ck: T -> C, c: C, p: T -> bool, ks: seq<K>)
    requires forall q: (K, int) :: gk(q) == g(q.0)
    requires forall x :: ck(x) == g(key(x))
    requires forall x :: p(x) == (ck(x) == c)
    ensures SumKey(CountPairs(s, key, ks), gk, c, GroupValue) == CountOverKeys(Filter(s, p), key, ks)
  {
    if |ks| > 0 {
      var ks', k := ks[..|ks| - 1], ks[|ks| - 1];
      CoarsenPairs(s, key, g, gk, ck, c, p, ks');
      var cp := CountPairs(s, key, ks);
      assert cp[..|cp| - 1] == CountPairs(s, key, ks');
      CountKeyOfFilter(s, key, ck, c, p, k, g(k));
    }
  }

  /** Every (key, count) pair of a grouping is a real group: its key occurs and the count is its size. */
  lemma GroupCountsMembers<T(!new), K(!new)>(s: seq<T>, key: T -> K, p: (K, int))
    requires p in GroupCounts(s, key)
    ensures p.1 == CountKey(s, key, p.0) && p.1 >= 1
    ensures p.0 in KeysOf(s, key)
  {
    var i :| 0 <= i < |GroupCounts(s, key)| && GroupCounts(s, key)[i] == p;
    assert p.0 == KeysOf(s, key)[i];
  }

  /** Every (key, sum) pair of a grouping carries the sum of its group. */
  lemma GroupSumsMembers<T(!new), K(!new)>(s: seq<T>, key: T -> K, val: T -> int, p: (K, int))
    requires p in GroupSums(s, key, val)
    ensures p.1 == SumKey(s, key, p.0, val)
    ensures p.0 in KeysOf(s, key)
  {
    var i :| 0 <= i < |GroupSums(s, key, val)| && GroupSums(s, key, val)[i] == p;
    assert p.0 == KeysOf(s, key)[i];
  }

  /** Summing through a projection. */
  lemma {:induction false} SumOfMap<T(!new), U(!new)>(s: seq<T>, f: T -> U, h: U -> int, k: T -> int)
    requires forall x :: h(f(x)) == k(x)
    ensures SumOf(Map(s, f), h) == SumOf(s, k)
  {
    if |s| > 0 {
      SumOfMap(s[..|s| - 1], f, h, k);
      assert Map(s, f)[..|s| - 1] == Map(s[..|s| - 1], f);
    }
  }

  /** SumKey through an explicit indicator function. */
  lemma {:induction false} SumKeyIsSumOf<T(!new), K(!new)>(s: seq<T>, key: T -> K, k: K, val: T -> int, f: T -> int)
    requires forall x :: f(x) == if key(x) == k then val(x) else 0
    ensures SumKey(s, key, k, val) == SumOf(s, f)
  {
    if |s| > 0 {
      SumKeyIsSumOf(s[..|s| - 1], key, k, val, f);
    }
  }

  /** A group's sum does not depend on the order of the rows. */
  lemma SumKeyPermutation<T(!new), K(!new)>(a: seq<T>, b: seq<T>, key: T -> K, k: K, val: T -> int)
    requires multiset(a) == multiset(b)
    ensures SumKey(a, key, k, val) == SumKey(b, key, k, val)
  {
    var f := (x: T) => if key(x) == k then val(x) else 0;
    SumKeyIsSumOf(a, key, k, val, f);
    SumKeyIsSumOf(b, key, k, val, f);
    SumOfPermutation(a, b, f);
  }

  /** A permutation of a sequence without repetitions has none either. */
  lemma NoDuplicatesPermutation<K(!new)>(a: seq<K>, b: seq<K>)
    requires multiset(a) == multiset(b)
    requires NoDuplicates(a)
    ensures NoDuplicates(b)
  {
    forall i, j | 0 <= i < j < |b| ensures b[i] != b[j] {
      if b[i] == b[j] {
        var x := b[i];
        assert b == b[..j] + [x] + b[j + 1..];
        assert x in multiset(b[..j]) by { assert b[..j][i] == x; }
        assert multiset(b)[x] >= 2;
        AtMostOnce(a, x);
        assert false;
      }
    }
  }

  lemma {:induction false} AtMostOnce<K(!new)>(a: seq<K>, x: K)
    requires NoDuplicates(a)
    ensures multiset(a)[x] <= 1
  {
    if |a| > 0 {
      var a' := a[..|a| - 1];
      assert a == a' + [a[|a| - 1]];
      AtMostOnce(a', x);
      if a[|a| - 1] == x {
        assert x !in a' by {
          forall i | 0 <= i < |a'| ensures a'[i] != x { assert a'[i] == a[i]; }
        }
      }
    }
  }

  lemma TwoPositions<K(!new)>(b: seq<K>, i: int, j: int)
    requires 0 <= i < j < |b|
    ensures b[i] == b[j] ==> multiset(b)[b[i]] >= 2
  {
    assert b == b[..j] + b[j..];
    assert b[..j][i] == b[i] && b[j..][0] == b[j];
    assert b[i] in multiset(b[..j]) && b[j] in multiset(b[j..]);
  }

  /** Taking part of a list without repetitions (as a sub-multiset) keeps it free of repetitions. */
  lemma NoDuplicatesSub<K(!new)>(a: seq<K>, b: seq<K>)
    requires NoDuplicates(a) && multiset(b) <= multiset(a)
    ensures NoDuplicates(b)
  {
    forall i, j | 0 <= i < j < |b| ensures b[i] != b[j] {
      AtMostOnce(a, b[i]);
      TwoPositions(b, i, j);
    }
  }

  /** LINQ SelectMany: the lists one after the other. */
  function Flatten<T(==, !new)>(ss: seq<seq<T>>): (r: seq<T>)
    ensures forall x :: x in r <==> exists s :: s in ss && x in s
  {
    if |ss| == 0 then []
    else
      var a := Flatten(ss[..|ss| - 1]);
      assert forall s :: s in ss <==> s in ss[..|ss| - 1] || s == ss[|ss| - 1];
      a + ss[|ss| - 1]
  }

  // ---------------------------------------------------------------------
  // Real-valued sums: costs are count x unit cost
  // ---------------------------------------------------------------------

  lemma {:induction false} SumRealAppend<T(!new)>(a: seq<T>, b: seq<T>, f: T -> real)
    ensures SumReal(a + b, f) == SumReal(a, f) + SumReal(b, f)
  {
    if |b| > 0 {
      assert (a + b)[..|a + b| - 1] == a + b[..|b| - 1];
      SumRealAppend(a, b[..|b| - 1], f);
    } else {
      assert a + b == a;
    }
  }

  lemma SumRealRemove<T(!new)>(b: seq<T>, i: int, f: T -> real)
    requires 0 <= i < |b|
    ensures SumReal(b, f) == SumReal(b[..i] + b[i + 1..], f) + f(b[i])
  {
    var l, x, r := b[..i], b[i], b[i + 1..];
    var lx := b[..i + 1];
    assert lx == l + [x];
    assert b == lx + r;
    SumRealAppend(lx, r, f);
    SumRealSnoc(l, x, f);
    SumRealAppend(l, r, f);
  }

  lemma SumRealSnoc<T(!new)>(l: seq<T>, x: T, f: T -> real)
    ensures SumReal(l + [x], f) == SumReal(l, f) + f(x)
  {
    assert (l + [x])[..|l|] == l;
  }

  lemma {:induction false} SumRealPermutation<T(!new)>(a: seq<T>, b: seq<T>, f: T -> real)
    requires multiset(a) == multiset(b)
    ensures SumReal(a, f) == SumReal(b, f)
  {
    if |a| > 0 {
      var a', x := a[..|a| - 1], a[|a| - 1];
      MultisetRemove(a, |a| - 1);
      assert a[..|a| - 1] + a[|a|..] == a';
      var i :| 0 <= i < |b| && b[i] == x;
      MultisetRemove(b, i);
      SumRealPermutation(a', b[..i] + b[i + 1..], f);
      SumRealRemove(b, i, f);
      SumRealRemove(a, |a| - 1, f);
    } else {
      assert b == [];
    }
  }

  /** Summing a real value through a projection. */
  lemma {:induction false} SumRealOfMap<T(!new), U(!new)>(s: seq<T>, f: T -> U, h: U -> real, k: T -> real)
    requires forall x :: h(f(x)) == k(x)
    ensures SumReal(Map(s, f), h) == SumReal(s, k)
  {
    if |s| > 0 {
      SumRealOfMap(s[..|s| - 1], f, h, k);
      assert Map(s, f)[..|s| - 1] == Map(s[..|s| - 1], f);
    }
  }

  /** Two real functions that agree on the elements give the same sum. */
  lemma {:induction false} SumRealCongruent<T(!new)>(s: seq<T>, f: T -> real, g: T -> real)
    requires forall x :: x in s ==> f(x) == g(x)
    ensures SumReal(s, f) == SumReal(s, g)
  {
    if |s| > 0 {
      assert forall x :: x in s[..|s| - 1] ==> x in s;
      SumRealCongruent(s[..|s| - 1], f, g);
    }
  }

  /** Σ over the keys `ks` of the real group sums. */
  function SumOverKeysReal<T(!new), K(==, !new)>(s: seq<T>, key: T -> K, ks: seq<K>, val: T -> real): real
  {
    if |ks| == 0 then 0.0
    else SumOverKeysReal(s, key, ks[..|ks| - 1], val) + SumKeyReal(s, key, ks[|ks| - 1], val)
  }

  lemma {:induction false} SumOverKeysRealStep<T(!new), K(!new)>(s: seq<T>, x: T, key: T -> K, ks: seq<K>, val: T -> real)
    requires NoDuplicates(ks)
    ensures SumOverKeysReal(s + [x], key, ks, val) == SumOverKeysReal(s, key, ks, val) + (if key(x) in ks then val(x) else 0.0)
  {
    if |ks| > 0 {
      var ks', k := ks[..|ks| - 1], ks[|ks| - 1];
      SumOverKeysRealStep(s, x, key, ks', val);
      assert (s + [x])[..|s + [x]| - 1] == s;
      assert ks == ks' + [k];
      assert k !in ks';
    }
  }

  lemma {:induction false} ZeroOverKeysReal<T(!new), K(!new)>(s: seq<T>, key: T -> K, ks: seq<K>, val: T -> real)
    requires |s| == 0
    ensures SumOverKeysReal(s, key, ks, val) == 0.0
  {
    if |ks| > 0 { ZeroOverKeysReal(s, key, ks[..|ks| - 1], val); }
  }

  /** Conservation of real sums over a covering list of distinct keys. */
  lemma {:induction false} SumRealConservation<T(!new), K(!new)>(s: seq<T>, key: T -> K, ks: seq<K>, val: T -> real)
    requires NoDuplicates(ks)
    requires forall x :: x in s ==> key(x) in ks
    ensures SumOverKeysReal(s, key, ks, val) == SumReal(s, val)
  {
    if |s| == 0 {
      ZeroOverKeysReal(s, key, ks, val);
    } else {
      var s', x := s[..|s| - 1], s[|s| - 1];
      assert s == s' + [x];
      SumRealConservation(s', key, ks, val);
      SumOverKeysRealStep(s', x, key, ks, val);
    }
  }

  /**
   * `n * u` for a count `n`, written as repeated addition so that reasoning
   * about costs stays linear; VecesIsProduct ties it to multiplication.
   */
  function Veces(n: int, u: real): real
  {
    if n <= 0 then 0.0 else Veces(n - 1, u) + u
  }

  lemma {:induction false} VecesIsProduct(n: nat, u: real)
    ensures Veces(n, u) == (n as real) * u
  {
    if n > 0 {
      var m := (n - 1) as real;
      VecesIsProduct(n - 1, u);
      assert (n as real) == m + 1.0;
      calc {
        (n as real) * u;
        (m + 1.0) * u;
        { Distribute(m, 1.0, u); }
        m * u + 1.0 * u;
        Veces(n - 1, u) + u;
      }
    }
  }

  lemma Distribute(a: real, b: real, c: real)
    ensures (a + b) * c == a * c + b * c
  {
  }

  /** A group's size times a per-key weight is the sum of that weight over the group. */
  lemma {:induction false} CountTimesWeight<T(!new), K(!new)>(s: seq<T>, key: T -> K, k: K, w: K -> real, val: T -> real)
    requires forall x :: val(x) == w(key(x))
    ensures Veces(CountKey(s, key, k), w(k)) == SumKeyReal(s, key, k, val)
  {
    if |s| > 0 {
      var s' := s[..|s| - 1];
      CountTimesWeight(s', key, k, w, val);
    }
  }

  lemma {:induction false} WeightedPairs<T(!new), K(!new)>(
    s: seq<T>, key: T -> K, ks: seq<K>, h: ((K, int)) -> real, val: T -> real)
    requires forall k :: h((k, CountKey(s, key, k))) == SumKeyReal(s, key, k, val)
    ensures SumReal(CountPairs(s, key, ks), h) == SumOverKeysReal(s, key, ks, val)
  {
    if |ks| > 0 {
      var ks' := ks[..|ks| - 1];
      WeightedPairs(s, key, ks', h, val);
      var cp := CountPairs(s, key, ks);
      assert cp[..|ks| - 1] == CountPairs(s, key, ks');
    }
  }

  /**
   * Weighted conservation: when each group is valued at its size times a
   * per-key weight, the values add up to the sum of the weights over the rows.
   */
  lemma WeightedGroupCounts<T(!new), K(!new)>(s: seq<T>, key: T -> K, w: K -> real, h: ((K, int)) -> real, val: T -> real)
    requires forall p: (K, int) :: h(p) == Veces(p.1, w(p.0))
    requires forall x :: val(x) == w(key(x))
    ensures SumReal(GroupCounts(s, key), h) == SumReal(s, val)
  {
    var ks := KeysOf(s, key);
    forall k ensures h((k, CountKey(s, key, k))) == SumKeyReal(s, key, k, val) {
      CountTimesWeight(s, key, k, w, val);
    }
    WeightedPairs(s, key, ks, h, val);
    SumRealConservation(s, key, ks, val);
  }

  // ---------------------------------------------------------------------
  // Sums taken group by group
  // ---------------------------------------------------------------------

  /** A group's real sum is the sum over the group's rows (`p` selects the group). */
  lemma {:induction false} SumKeyRealOfFilter<T(!new), K(!new)>(s: seq<T>, key: T -> K, k: K, p: T -> bool, val: T -> real)
    requires forall x :: p(x) == (key(x) == k)
    ensures SumKeyReal(s, key, k, val) == SumReal(Filter(s, p), val)
  {
    if |s| > 0 {
      var s', x := s[..|s| - 1], s[|s| - 1];
      SumKeyRealOfFilter(s', key, k, p, val);
      if p(x) {
        SumRealAppend(Filter(s', p), [x], val);
      }
    }
  }

  /** A group's size is the number of the group's rows (`p` selects the group). */
  lemma {:induction false} CountKeyOfGroup<T(!new), K(!new)>(s: seq<T>, key: T -> K, k: K, p: T -> bool)
    requires forall x :: p(x) == (key(x) == k)
    ensures CountKey(s, key, k) == |Filter(s, p)|
  {
    if |s| > 0 {
      CountKeyOfGroup(s[..|s| - 1], key, k, p);
    }
  }

  /** Adding up, key by key, each key's real group sum gives SumOverKeysReal. */
  lemma {:induction false} SumRealByKeys<T(!new), K(!new)>(s: seq<T>, key: T -> K, ks: seq<K>, g: K -> real, val: T -> real)
    requires forall k :: g(k) == SumKeyReal(s, key, k, val)
    ensures SumReal(ks, g) == SumOverKeysReal(s, key, ks, val)
  {
    if |ks| > 0 {
      SumRealByKeys(s, key, ks[..|ks| - 1], g, val);
    }
  }

  /** Adding up, key by key, each key's group sum gives SumOverKeys. */
  lemma {:induction false} SumOfBySumKeys<T(!new), K(!new)>(s: seq<T>, key: T -> K, ks: seq<K>, g: K -> int, val: T -> int)
    requires forall k :: g(k) == SumKey(s, key, k, val)
    ensures SumOf(ks, g) == SumOverKeys(s, key, ks, val)
  {
    if |ks| > 0 {
      SumOfBySumKeys(s, key, ks[..|ks| - 1], g, val);
    }
  }

  /** Two lists of the same length whose elements agree position by position under f and g have equal sums. */
  lemma {:induction false} SumOfAligned<T(!new), U(!new)>(a: seq<T>, b: seq<U>, f: T -> int, g: U -> int)
    requires |a| == |b|
    requires forall i :: 0 <= i < |a| ==> f(a[i]) == g(b[i])
    ensures SumOf(a, f) == SumOf(b, g)
  {
    if |a| > 0 {
      SumOfAligned(a[..|a| - 1], b[..|b| - 1], f, g);
    }
  }

  /** Adding up, key by key, each key's group size gives CountOverKeys. */
  lemma {:induction false} SumOfByKeys<T(!new), K(!new)>(s: seq<T>, key: T -> K, ks: seq<K>, g: K -> int)
    requires forall k :: g(k) == CountKey(s, key, k)
    ensures SumOf(ks, g) == CountOverKeys(s, key, ks)
  {
    if |ks| > 0 {
      SumOfByKeys(s, key, ks[..|ks| - 1], g);
    }
  }

  /** A group's sum is the sum over the rows the group keeps (LINQ Where(...).Sum()). */
  lemma {:induction false} SumKeyIsFilterSum<T(!new), K(!new)>(s: seq<T>, key: T -> K, k: K, val: T -> int, p: T -> bool)
    requires forall x :: p(x) == (key(x) == k)
    ensures SumKey(s, key, k, val) == SumOf(Filter(s, p), val)
  {
    if |s| > 0 {
      var s', x := s[..|s| - 1], s[|s| - 1];
      SumKeyIsFilterSum(s', key, k, val, p);
      if p(x) {
        var f' := Filter(s', p);
        assert Filter(s, p) == f' + [x];
        assert (f' + [x])[..|f' + [x]| - 1] == f';
      }
    }
  }

  /**
   * A group of a finer key is a group of a coarser key within the rows a
   * filter keeps: the rows whose `fine` key is `kf` are exactly the rows
   * kept by `p` whose `coarse` key is `kc`.
   */
  lemma {:induction false} SumKeyOfFilter<T(!new), K(!new), C(!new)>(
    s: seq<T>, fine: T -> K, kf: K, coarse: T -> C, kc: C, p: T -> bool, val: T -> int)
    requires forall x :: (fine(x) == kf) == (p(x) && coarse(x) == kc)
    ensures SumKey(s, fine, kf, val) == SumKey(Filter(s, p), coarse, kc, val)
  {
    if |s| > 0 {
      var s', x := s[..|s| - 1], s[|s| - 1];
      SumKeyOfFilter(s', fine, kf, coarse, kc, p, val);
      if p(x) {
        var f' := Filter(s', p);
        assert Filter(s, p) == f' + [x];
        assert (f' + [x])[..|f' + [x]| - 1] == f';
      }
    }
  }

  /** Counting version of SumKeyOfFilter. */
  lemma {:induction false} CountKeyOfFinerKey<T(!new), K(!new), C(!new)>(
    s: seq<T>, fine: T -> K, kf: K, coarse: T -> C, kc: C, p: T -> bool)
    requires forall x :: (fine(x) == kf) == (p(x) && coarse(x) == kc)
    ensures CountKey(s, fine, kf) == CountKey(Filter(s, p), coarse, kc)
  {
    if |s| > 0 {
      var s', x := s[..|s| - 1], s[|s| - 1];
      CountKeyOfFinerKey(s', fine, kf, coarse, kc, p);
      if p(x) {
        var f' := Filter(s', p);
        assert Filter(s, p) == f' + [x];
        assert (f' + [x])[..|f' + [x]| - 1] == f';
      }
    }
  }

  /** Sum is linear: where h is f + g, summing h is summing f and summing g. */
  lemma {:induction false} SumOfPlus<T(!new)>(s: seq<T>, f: T -> int, g: T -> int, h: T -> int)
    requires forall x :: x in s ==> h(x) == f(x) + g(x)
    ensures SumOf(s, h) == SumOf(s, f) + SumOf(s, g)
  {
    if |s| > 0 {
      assert forall x :: x in s[..|s| - 1] ==> x in s;
      SumOfPlus(s[..|s| - 1], f, g, h);
    }
  }

  /** Counting is monotone in the predicate. */
  lemma {:induction false} CountIfMonotone<T(!new)>(s: seq<T>, p: T -> bool, q: T -> bool)
    requires forall x :: p(x) ==> q(x)
    ensures CountIf(s, p) <= CountIf(s, q)
  {
    if |s| > 0 {
      CountIfMonotone(s[..|s| - 1], p, q);
    }
  }

  /** Counting under q splits into counting under p and under q-but-not-p. */
  lemma {:induction false} CountIfSplit<T(!new)>(s: seq<T>, p: T -> bool, q: T -> bool, d: T -> bool)
    requires forall x :: p(x) ==> q(x)
    requires forall x :: d(x) == (q(x) && !p(x))
    ensures CountIf(s, q) == CountIf(s, p) + CountIf(s, d)
  {
    if |s| > 0 {
      CountIfSplit(s[..|s| - 1], p, q, d);
    }
  }

  /** Predicates that agree on the elements of s count the same. */
  lemma {:induction false} CountIfCongruent<T(!new)>(s: seq<T>, p: T -> bool, q: T -> bool)
    requires forall x :: x in s ==> p(x) == q(x)
    ensures CountIf(s, p) == CountIf(s, q)
  {
    if |s| > 0 {
      assert forall x :: x in s[..|s| - 1] ==> x in s;
      CountIfCongruent(s[..|s| - 1], p, q);
    }
  }

  /** A group's size is the number of rows carrying its key. */
  lemma {:induction false} CountKeyIsCountIf<T(!new), K(!new)>(s: seq<T>, key: T -> K, k: K, p: T -> bool)
    requires forall x :: p(x) == (key(x) == k)
    ensures CountKey(s, key, k) == CountIf(s, p)
  {
    if |s| > 0 {
      CountKeyIsCountIf(s[..|s| - 1], key, k, p);
    }
  }

  /**
   * Reordering a sequence keeps the set of its keys, and keeps them distinct
   * when distinct elements have distinct keys.
   */
  lemma KeysOfReordering<T(!new), K(!new)>(b: seq<T>, r: seq<T>, key: T -> K)
    requires multiset(r) == multiset(b)
    ensures forall k :: k in Map(r, key) <==> k in Map(b, key)
    ensures NoDuplicates(b) && (forall x, y :: x in b && y in b && key(x) == key(y) ==> x == y) ==>
      NoDuplicates(Map(r, key))
  {
    var kb, kr := Map(b, key), Map(r, key);
    forall k ensures k in kr <==> k in kb {
      if k in kr {
        var i :| 0 <= i < |r| && kr[i] == k;
        assert r[i] in multiset(b);
        var j :| 0 <= j < |b| && b[j] == r[i];
        assert kb[j] == k;
      }
      if k in kb {
        var j :| 0 <= j < |b| && kb[j] == k;
        assert b[j] in multiset(r);
        var i :| 0 <= i < |r| && r[i] == b[j];
        assert kr[i] == k;
      }
    }
    if NoDuplicates(b) && (forall x, y :: x in b && y in b && key(x) == key(y) ==> x == y) {
      NoDuplicatesPermutation(b, r);
      forall i, j | 0 <= i < j < |r| ensures kr[i] != kr[j] {
        assert r[i] in multiset(b) && r[j] in multiset(b);
      }
    }
  }

  // ---------------------------------------------------------------------
  // "Add an entry for every key no existing entry matches"
  // ---------------------------------------------------------------------

  /** Some entry of gs has a key that eq relates to k (`gs.Any(g => eq(key(g), k))`). */
  predicate AnyMatches<G, K>(gs: seq<G>, k: K, key: G -> K, eq: (K, K) -> bool)
  {
    exists i :: 0 <= i < |gs| && eq(key(gs[i]), k)
  }

  /**
   * The entries a loop over ks ends with when, at each key that no entry
   * matches yet, it appends mk(k).
   */
  function AppendMissing<G, K>(gs: seq<G>, ks: seq<K>, key: G -> K, eq: (K, K) -> bool, mk: K -> G): (r: seq<G>)
    ensures gs <= r
    ensures |r| <= |gs| + |ks|
  {
    if |ks| == 0 then gs
    else
      var r' := AppendMissing(gs, ks[..|ks| - 1], key, eq, mk);
      if AnyMatches(r', ks[|ks| - 1], key, eq) then r' else r' + [mk(ks[|ks| - 1])]
  }

  /** Every appended entry is mk of one of the visited keys. */
  lemma {:induction false} AppendMissingAdded<G, K>(gs: seq<G>, ks: seq<K>, key: G -> K, eq: (K, K) -> bool, mk: K -> G)
    requires forall k :: key(mk(k)) == k
    ensures forall j :: |gs| <= j < |AppendMissing(gs, ks, key, eq, mk)| ==>
      key(AppendMissing(gs, ks, key, eq, mk)[j]) in ks
      && AppendMissing(gs, ks, key, eq, mk)[j] == mk(key(AppendMissing(gs, ks, key, eq, mk)[j]))
  {
    if |ks| > 0 {
      var ks', last := ks[..|ks| - 1], ks[|ks| - 1];
      AppendMissingAdded(gs, ks', key, eq, mk);
      var r', r := AppendMissing(gs, ks', key, eq, mk), AppendMissing(gs, ks, key, eq, mk);
      assert r == if AnyMatches(r', last, key, eq) then r' else r' + [mk(last)];
      assert forall k :: k in ks' ==> k in ks;
      forall j | |gs| <= j < |r| ensures key(r[j]) in ks && r[j] == mk(key(r[j])) {
        if j < |r'| {
          assert r[j] == r'[j] && key(r'[j]) in ks';
        } else {
          assert r[j] == mk(last);
        }
      }
    }
  }

  /** After the loop every visited key matches some entry. */
  lemma {:induction false} AppendMissingCovers<G, K>(gs: seq<G>, ks: seq<K>, key: G -> K, eq: (K, K) -> bool, mk: K -> G)
    requires forall k :: eq(key(mk(k)), k)
    ensures forall k :: k in ks ==> AnyMatches(AppendMissing(gs, ks, key, eq, mk), k, key, eq)
  {
    if |ks| > 0 {
      var ks', last := ks[..|ks| - 1], ks[|ks| - 1];
      AppendMissingCovers(gs, ks', key, eq, mk);
      var r', r := AppendMissing(gs, ks', key, eq, mk), AppendMissing(gs, ks, key, eq, mk);
      forall k | AnyMatches(r', k, key, eq) ensures AnyMatches(r, k, key, eq) {
        var i :| 0 <= i < |r'| && eq(key(r'[i]), k);
        assert r[i] == r'[i];
      }
      if !AnyMatches(r', last, key, eq) {
        assert eq(key(r[|r'|]), last);
      }
      forall k | k in ks ensures k in ks' || k == last {
        var i :| 0 <= i < |ks| && ks[i] == k;
        if i < |ks'| { assert ks'[i] == k; }
      }
    }
  }

  /** An appended entry's key is unrelated by eq to the key of every entry before it. */
  lemma {:induction false} AppendMissingDistinct<G, K>(gs: seq<G>, ks: seq<K>, key: G -> K, eq: (K, K) -> bool, mk: K -> G)
    requires forall k :: key(mk(k)) == k
    ensures forall i, j :: 0 <= i < j < |AppendMissing(gs, ks, key, eq, mk)| && |gs| <= j ==>
      !eq(key(AppendMissing(gs, ks, key, eq, mk)[i]), key(AppendMissing(gs, ks, key, eq, mk)[j]))
  {
    if |ks| > 0 {
      var ks', last := ks[..|ks| - 1], ks[|ks| - 1];
      AppendMissingDistinct(gs, ks', key, eq, mk);
      var r', r := AppendMissing(gs, ks', key, eq, mk), AppendMissing(gs, ks, key, eq, mk);
      assert r == if AnyMatches(r', last, key, eq) then r' else r' + [mk(last)];
      forall i, j | 0 <= i < j < |r| && |gs| <= j ensures !eq(key(r[i]), key(r[j])) {
        if j < |r'| {
          assert r[i] == r'[i] && r[j] == r'[j];
        } else {
          assert r[j] == mk(last) && r[i] == r'[i];
        }
      }
    }
  }

  /** A sum of terms that are all zero is zero. */
  lemma {:induction false} SumOfZero<T(!new)>(s: seq<T>, f: T -> int)
    requires forall x :: x in s ==> f(x) == 0
    ensures SumOf(s, f) == 0
  {
    if |s| > 0 {
      assert forall x :: x in s[..|s| - 1] ==> x in s;
      SumOfZero(s[..|s| - 1], f);
    }
  }

  /** Distinct keys stay distinct when the entries are reordered. */
  lemma DistinctKeysReordered<T(!new), K(!new)>(b: seq<T>, r: seq<T>, key: T -> K)
    requires multiset(r) == multiset(b)
    requires NoDuplicates(Map(b, key))
    ensures NoDuplicates(Map(r, key))
  {
    var kb := Map(b, key);
    forall x, y | x in b && y in b && key(x) == key(y) ensures x == y {
      var i :| 0 <= i < |b| && b[i] == x;
      var j :| 0 <= j < |b| && b[j] == y;
      assert kb[i] == kb[j];
    }
    forall i, j | 0 <= i < j < |b| ensures b[i] != b[j] {
      assert kb[i] != kb[j];
    }
    KeysOfReordering(b, r, key);
  }

  /** Reordering keeps which keys some entry matches. */
  lemma AnyMatchesReordered<G, K>(a: seq<G>, b: seq<G>, k: K, key: G -> K, eq: (K, K) -> bool)
    requires multiset(a) == multiset(b)
    requires AnyMatches(a, k, key, eq)
    ensures AnyMatches(b, k, key, eq)
  {
    var i :| 0 <= i < |a| && eq(key(a[i]), k);
    assert a[i] in multiset(b);
    var j :| 0 <= j < |b| && b[j] == a[i];
  }

  /** Counting a predicate every element satisfies counts every element. */
  lemma {:induction false} CountIfAll<T(!new)>(s: seq<T>, p: T -> bool)
    requires forall x :: x in s ==> p(x)
    ensures CountIf(s, p) == |s|
  {
    if |s| > 0 {
      assert forall x :: x in s[..|s| - 1] ==> x in s;
      CountIfAll(s[..|s| - 1], p);
    }
  }

  /** The key half of a (key, value) group. */
  function GroupKey<K>(p: (K, int)): K { p.0 }

  /** Reordering groups with distinct keys keeps the keys distinct. */
  lemma DistinctKeysReorderedGroups<K(!new)>(g1: seq<(K, int)>, g2: seq<(K, int)>)
    requires multiset(g2) == multiset(g1)
    requires DistinctKeys(g1)
    ensures DistinctKeys(g2)
  {
    var k1, k2 := Map(g1, GroupKey), Map(g2, GroupKey);
    forall i, j | 0 <= i < j < |k1| ensures k1[i] != k1[j] {
      assert g1[i].0 != g1[j].0;
    }
    DistinctKeysReordered(g1, g2, GroupKey);
    forall i, j | 0 <= i < j < |g2| ensures g2[i].0 != g2[j].0 {
      assert k2[i] != k2[j];
    }
  }
}
