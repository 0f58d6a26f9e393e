/**
 * Tables as sequences of rows with a key column: the key is unique, a row
 * is found by its key (EF's Find and FirstOrDefault), and rows are added,
 * replaced and removed.
 */
module KeyedTables {
  import opened Collections

  /** No two rows share a key. */
  predicate UniqueBy<T, K(==)>(s: seq<T>, key: T -> K)
  {
    forall i, j :: 0 <= i < j < |s| ==> key(s[i]) != key(s[j])
  }

  /** Some row has key `k`. */
  predicate HasKey<T, K(==)>(s: seq<T>, key: T -> K, k: K)
  {
    exists i :: 0 <= i < |s| && key(s[i]) == k
  }

  /** The position of the first row with key `k`. */
  function IndexOf<T, K(==)>(s: seq<T>, key: T -> K, k: K): (r: Option<nat>)
    ensures r.None? <==> !HasKey(s, key, k)
    ensures r.Some? ==> r.value < |s| && key(s[r.value]) == k
    ensures r.Some? ==> forall j :: 0 <= j < r.value ==> key(s[j]) != k
    decreases |s|
  {
    if |s| == 0 then None
    else if key(s[0]) == k then Some(0)
    else
      var r := IndexOf(s[1..], key, k);
      assert HasKey(s, key, k) ==> HasKey(s[1..], key, k) by {
        if HasKey(s, key, k) {
          var i :| 0 <= i < |s| && key(s[i]) == k;
          assert key(s[1..][i - 1]) == k;
        }
      }
      if r.None? then None else Some(r.value + 1)
  }

  /** With unique keys, the row with key `k` is the only one. */
  lemma IndexOfUnique<T, K>(s: seq<T>, key: T -> K, i: int)
    requires UniqueBy(s, key) && 0 <= i < |s|
    ensures IndexOf(s, key, key(s[i])) == Some(i)
  {
    var r := IndexOf(s, key, key(s[i]));
    assert r.Some?;
    assert !(r.value < i) && !(i < r.value);
  }

  /** Adding a row whose key is new keeps keys unique. */
  lemma AppendUnique<T, K>(s: seq<T>, key: T -> K, x: T)
    requires UniqueBy(s, key) && !HasKey(s, key, key(x))
    ensures UniqueBy(s + [x], key)
  {
    forall i, j | 0 <= i < j < |s + [x]|
      ensures key((s + [x])[i]) != key((s + [x])[j])
    {
      if j == |s| {
        assert key(s[i]) != key(x);
      }
    }
  }

  /** Replacing row `i` by a row whose key no other row holds keeps keys unique. */
  lemma ReplaceUnique<T, K>(s: seq<T>, key: T -> K, i: int, x: T)
    requires UniqueBy(s, key) && 0 <= i < |s|
    requires forall j :: 0 <= j < |s| && j != i ==> key(s[j]) != key(x)
    ensures UniqueBy(s[i := x], key)
  {
  }

  /** The table without row `i`. */
  function RemoveAt<T>(s: seq<T>, i: int): (r: seq<T>)
    requires 0 <= i < |s|
    ensures |r| == |s| - 1
    ensures forall j :: 0 <= j < i ==> r[j] == s[j]
    ensures forall j :: i <= j < |r| ==> r[j] == s[j + 1]
  {
    s[..i] + s[i + 1..]
  }

  /**
   * Removing row `i` of a table with unique keys: keys stay unique, and the
   * rows left are exactly those whose key differs from the removed one.
   */
  lemma {:induction false} RemoveAtUnique<T, K>(s: seq<T>, key: T -> K, i: int)
    requires UniqueBy(s, key) && 0 <= i < |s|
    ensures UniqueBy(RemoveAt(s, i), key)
    ensures forall x :: x in RemoveAt(s, i) <==> x in s && key(x) != key(s[i])
    ensures !HasKey(RemoveAt(s, i), key, key(s[i]))
  {
    var r := RemoveAt(s, i);
    forall a, b | 0 <= a < b < |r| ensures key(r[a]) != key(r[b]) {
      var a' := if a < i then a else a + 1;
      var b' := if b < i then b else b + 1;
      assert r[a] == s[a'] && r[b] == s[b'] && a' < b';
    }
    forall x ensures x in r <==> x in s && key(x) != key(s[i]) {
      if x in r {
        var j :| 0 <= j < |r| && r[j] == x;
        var j' := if j < i then j else j + 1;
        assert s[j'] == x && j' != i;
      }
      if x in s && key(x) != key(s[i]) {
        var j :| 0 <= j < |s| && s[j] == x;
        assert j != i;
        if j < i {
          assert r[j] == x;
        } else {
          assert r[j - 1] == x;
        }
      }
    }
  }
}
