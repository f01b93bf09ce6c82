/**
 * Sorting a list by a key under a total order: the `ORDER BY` of the table's
 * queries and Kotlin's `sortedBy` / `sortedByDescending`, which are stable.
 */
module Sorting {

  /** `le` is reflexive-total, antisymmetric and transitive on keys. */
  ghost predicate IsTotalOrder<K(!new)>(le: (K, K) -> bool) {
    && (forall a, b :: le(a, b) || le(b, a))
    && (forall a, b :: le(a, b) && le(b, a) ==> a == b)
    && (forall a, b, c :: le(a, b) && le(b, c) ==> le(a, c))
  }

  /** Every earlier element's key is at most every later element's key. */
  ghost predicate SortedBy<T, K>(s: seq<T>, key: T -> K, le: (K, K) -> bool) {
    forall i, j :: 0 <= i < j < |s| ==> le(key(s[i]), key(s[j]))
  }

  /** The elements whose key is `k`, in their order in `s`. */
  ghost function WithKey<T, K>(s: seq<T>, key: T -> K, k: K): seq<T> {
    if s == [] then []
    else (if key(s[0]) == k then [s[0]] else []) + WithKey(s[1..], key, k)
  }

  /** Places `x` before the first element whose key is not below `x`'s. */
  function InsertBy<T, K>(x: T, s: seq<T>, key: T -> K, le: (K, K) -> bool): (r: seq<T>)
    ensures |r| == |s| + 1
    ensures multiset(r) == multiset(s) + multiset{x}
  {
    if s == [] || le(key(x), key(s[0])) then [x] + s
    else
      assert s == [s[0]] + s[1..];
      [s[0]] + InsertBy(x, s[1..], key, le)
  }

  /** Insertion sort; elements with equal keys keep their relative order. */
  function SortBy<T, K>(s: seq<T>, key: T -> K, le: (K, K) -> bool): (r: seq<T>)
    ensures |r| == |s|
    ensures multiset(r) == multiset(s)
  {
    if s == [] then []
    else
      assert s == [s[0]] + s[1..];
      InsertBy(s[0], SortBy(s[1..], key, le), key, le)
  }

  lemma {:induction false} InsertBySorted<T, K(!new)>(x: T, s: seq<T>, key: T -> K, le: (K, K) -> bool)
    requires IsTotalOrder(le) && SortedBy(s, key, le)
    ensures SortedBy(InsertBy(x, s, key, le), key, le)
  {
    if s == [] || le(key(x), key(s[0])) {
      forall z | z in s ensures le(key(x), key(z)) {
        var m :| 0 <= m < |s| && s[m] == z;
        if m > 0 {
          assert le(key(s[0]), key(s[m]));
        }
      }
      SortedCons(x, s, key, le);
    } else {
      InsertBySorted(x, s[1..], key, le);
      var t := InsertBy(x, s[1..], key, le);
      assert InsertBy(x, s, key, le) == [s[0]] + t;
      forall z | z in t ensures le(key(s[0]), key(z)) {
        assert z in multiset(t);
        if z != x {
          var m :| 0 <= m < |s[1..]| && s[1..][m] == z;
          assert s[m + 1] == z;
        }
      }
      SortedCons(s[0], t, key, le);
    }
  }

  /** A sorted list stays sorted when an element at most all of its keys is put in front. */
  lemma SortedCons<T, K>(y: T, t: seq<T>, key: T -> K, le: (K, K) -> bool)
    requires SortedBy(t, key, le)
    requires forall z :: z in t ==> le(key(y), key(z))
    ensures SortedBy([y] + t, key, le)
  {
    var r := [y] + t;
    forall i, j | 0 <= i < j < |r| ensures le(key(r[i]), key(r[j])) {
      assert r[j] == t[j - 1];
      if i > 0 {
        assert r[i] == t[i - 1];
      }
    }
  }

  /** The result of SortBy is ordered by the key. */
  lemma {:induction false} SortBySorted<T, K(!new)>(s: seq<T>, key: T -> K, le: (K, K) -> bool)
    requires IsTotalOrder(le)
    ensures SortedBy(SortBy(s, key, le), key, le)
  {
    if s != [] {
      SortBySorted(s[1..], key, le);
      InsertBySorted(s[0], SortBy(s[1..], key, le), key, le);
    }
  }

  lemma {:induction false} InsertByStable<T, K(!new)>(x: T, s: seq<T>, key: T -> K, le: (K, K) -> bool, k: K)
    requires IsTotalOrder(le)
    ensures WithKey(InsertBy(x, s, key, le), key, k) == (if key(x) == k then [x] else []) + WithKey(s, key, k)
  {
    if s == [] || le(key(x), key(s[0])) {
      assert ([x] + s)[1..] == s;
    } else {
      InsertByStable(x, s[1..], key, le, k);
      var r := [s[0]] + InsertBy(x, s[1..], key, le);
      assert r[1..] == InsertBy(x, s[1..], key, le);
      assert key(s[0]) != key(x);
    }
  }

  /** Stability: for every key, the elements with that key keep their relative order. */
  lemma {:induction false} SortByStable<T, K(!new)>(s: seq<T>, key: T -> K, le: (K, K) -> bool, k: K)
    requires IsTotalOrder(le)
    ensures WithKey(SortBy(s, key, le), key, k) == WithKey(s, key, k)
  {
    if s != [] {
      SortByStable(s[1..], key, le, k);
      InsertByStable(s[0], SortBy(s[1..], key, le), key, le, k);
    }
  }

  /** A list already ordered by the key is left exactly as it is. */
  lemma {:induction false} SortBySortedIsIdentity<T, K(!new)>(s: seq<T>, key: T -> K, le: (K, K) -> bool)
    requires IsTotalOrder(le) && SortedBy(s, key, le)
    ensures SortBy(s, key, le) == s
  {
    if s != [] {
      SortBySortedIsIdentity(s[1..], key, le);
      assert s == [s[0]] + s[1..];
      if |s| > 1 {
        assert le(key(s[0]), key(s[1]));
      }
    }
  }

  /** Ordered neighbours make an ordered list. */
  lemma {:induction false} SortedFromAdjacent<T, K(!new)>(s: seq<T>, key: T -> K, le: (K, K) -> bool)
    requires IsTotalOrder(le)
    requires forall i :: 0 <= i < |s| - 1 ==> le(key(s[i]), key(s[i + 1]))
    ensures SortedBy(s, key, le)
  {
    if |s| > 1 {
      SortedFromAdjacent(s[1..], key, le);
      forall j | 1 < j < |s| ensures le(key(s[0]), key(s[j])) {
        assert s[1..][j - 1] == s[j];
        assert le(key(s[1]), key(s[j]));
      }
    }
  }

  /** Strictly increasing neighbours have pairwise distinct keys. */
  lemma {:induction false} DistinctKeysFromAdjacent<T, K(!new)>(s: seq<T>, key: T -> K, le: (K, K) -> bool)
    requires IsTotalOrder(le)
    requires forall i :: 0 <= i < |s| - 1 ==> le(key(s[i]), key(s[i + 1])) && key(s[i]) != key(s[i + 1])
    ensures forall i, j :: 0 <= i < j < |s| ==> key(s[i]) != key(s[j])
  {
    SortedFromAdjacent(s, key, le);
    forall i, j | 0 <= i < j < |s| ensures key(s[i]) != key(s[j]) {
      assert le(key(s[i]), key(s[i + 1]));
      assert le(key(s[i + 1]), key(s[j]));
    }
  }

  /**
   * With distinct keys there is only one ordered arrangement of a set of
   * elements: two ordered duplicate-free lists of one length with the same elements are equal.
   */
  lemma {:induction false} SortedUnique<T, K(!new)>(a: seq<T>, b: seq<T>, key: T -> K, le: (K, K) -> bool)
    requires IsTotalOrder(le)
    requires |a| == |b| && forall x :: x in a <==> x in b
    requires forall i, j :: 0 <= i < j < |b| ==> b[i] != b[j]
    requires SortedBy(a, key, le) && SortedBy(b, key, le)
    requires forall i, j :: 0 <= i < j < |a| ==> key(a[i]) != key(a[j])
    ensures a == b
  {
    if a != [] {
      SameHead(a, b, key, le);
      assert a == [a[0]] + a[1..] && b == [b[0]] + b[1..];
      forall x ensures x in a[1..] <==> x in b[1..] {
        if x in a[1..] {
          var i :| 0 <= i < |a[1..]| && a[1..][i] == x;
          assert key(a[i + 1]) != key(a[0]);
          assert x in b && x != b[0];
        }
        if x in b[1..] {
          var i :| 0 <= i < |b[1..]| && b[1..][i] == x;
          assert b[i + 1] != b[0];
          assert x in a && x != a[0];
        }
      }
      SortedUnique(a[1..], b[1..], key, le);
      assert a == [a[0]] + a[1..] && b == [b[0]] + b[1..];
    }
  }

  /** A duplicate-free list ordered with distinct keys is the sorted form of any same-length list with the same elements. */
  lemma IsSortOf<T, K(!new)>(d: seq<T>, raw: seq<T>, key: T -> K, le: (K, K) -> bool)
    requires IsTotalOrder(le)
    requires |d| == |raw| && forall x :: x in d <==> x in raw
    requires forall i, j :: 0 <= i < j < |raw| ==> raw[i] != raw[j]
    requires SortedBy(d, key, le)
    requires forall i, j :: 0 <= i < j < |d| ==> key(d[i]) != key(d[j])
    ensures d == SortBy(raw, key, le)
  {
    var sorted := SortBy(raw, key, le);
    SortBySorted(raw, key, le);
    assert forall i, j :: 0 <= i < j < |sorted| ==> sorted[i] != sorted[j] by {
      PermutationDistinct(raw, sorted);
    }
    assert forall x :: x in raw <==> x in multiset(sorted);
    SortedUnique(d, sorted, key, le);
  }

  lemma {:induction false} PermutationDistinct<T>(a: seq<T>, b: seq<T>)
    requires multiset(a) == multiset(b)
    requires forall i, j :: 0 <= i < j < |a| ==> a[i] != a[j]
    ensures forall i, j :: 0 <= i < j < |b| ==> b[i] != b[j]
  {
    forall i, j | 0 <= i < j < |b| ensures b[i] != b[j] {
      if b[i] == b[j] {
        assert multiset(b)[b[i]] >= 2 by {
          assert b == b[..i] + [b[i]] + b[i + 1..j] + [b[j]] + b[j + 1..];
        }
        CountAtMostOne(a, b[i]);
        assert false;
      }
    }
  }

  lemma {:induction false} CountAtMostOne<T>(a: seq<T>, x: T)
    requires forall i, j :: 0 <= i < j < |a| ==> a[i] != a[j]
    ensures multiset(a)[x] <= 1
  {
    if a != [] {
      CountAtMostOne(a[1..], x);
      assert a == [a[0]] + a[1..];
      if a[0] == x {
        assert x !in a[1..];
      }
    }
  }

  lemma SameHead<T, K(!new)>(a: seq<T>, b: seq<T>, key: T -> K, le: (K, K) -> bool)
    requires IsTotalOrder(le)
    requires a != [] && forall x :: x in a <==> x in b
    requires SortedBy(a, key, le) && SortedBy(b, key, le)
    requires forall i, j :: 0 <= i < j < |a| ==> key(a[i]) != key(a[j])
    ensures b != [] && a[0] == b[0]
  {
    assert a[0] in b;
    assert b[0] in b;
    var m :| 0 <= m < |a| && a[m] == b[0];
    var n :| 0 <= n < |b| && b[n] == a[0];
    assert le(key(b[0]), key(b[n]));
    assert le(key(a[0]), key(a[m]));
  }

  function IntLe(a: int, b: int): bool { a <= b }
  function IntGe(a: int, b: int): bool { a >= b }

  lemma IntOrders()
    ensures IsTotalOrder(IntLe) && IsTotalOrder(IntGe)
  {
  }
}
