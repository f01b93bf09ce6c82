/** List operations of the Kotlin collections library used by the core: `filter`, `count`, `distinct`. */
module Seqs {

  /** `filter`: the elements satisfying `p`, in their original order. */
  function Filter<T>(s: seq<T>, p: T -> bool): (r: seq<T>)
    ensures |r| <= |s|
    ensures forall x :: x in r ==> x in s && p(x)
  {
    if s == [] then []
    else (if p(s[0]) then [s[0]] else []) + Filter(s[1..], p)
  }

  /** `a` can be obtained from `b` by dropping elements, keeping the order. */
  ghost predicate IsSubsequence<T>(a: seq<T>, b: seq<T>)
    decreases |b|
  {
    if b == [] then a == []
    else (a != [] && a[0] == b[0] && IsSubsequence(a[1..], b[1..])) || IsSubsequence(a, b[1..])
  }

  predicate NoDuplicates<T(==)>(s: seq<T>) {
    forall i, j :: 0 <= i < j < |s| ==> s[i] != s[j]
  }

  /** `distinct` after `seen`: first occurrences of the elements not already seen. */
  function DistinctFrom<T(==)>(s: seq<T>, seen: set<T>): (r: seq<T>)
    ensures forall x :: x in r ==> x in s && x !in seen
    ensures forall x :: x in s && x !in seen ==> x in r
  {
    if s == [] then []
    else if s[0] in seen then DistinctFrom(s[1..], seen)
    else [s[0]] + DistinctFrom(s[1..], seen + {s[0]})
  }

  /** Kotlin's `distinct()`: first occurrences, in order. */
  function Distinct<T(==)>(s: seq<T>): seq<T> {
    DistinctFrom(s, {})
  }

  /** Filtering a list with a given first element. */
  lemma FilterCons<T>(x: T, rest: seq<T>, p: T -> bool)
    ensures Filter([x] + rest, p) == (if p(x) then [x] else []) + Filter(rest, p)
  {
    assert ([x] + rest)[0] == x && ([x] + rest)[1..] == rest;
  }

  /** An element is kept exactly when it is in the list and satisfies the predicate. */
  lemma {:induction false} FilterMembership<T>(s: seq<T>, p: T -> bool, x: T)
    ensures x in Filter(s, p) <==> x in s && p(x)
  {
    if s != [] {
      FilterMembership(s[1..], p, x);
      assert s == [s[0]] + s[1..];
    }
  }

  /** A filter keeps the relative order of what it keeps. */
  lemma {:induction false} FilterIsSubsequence<T>(s: seq<T>, p: T -> bool)
    ensures IsSubsequence(Filter(s, p), s)
  {
    if s != [] {
      FilterIsSubsequence(s[1..], p);
      if p(s[0]) {
        assert Filter(s, p) == [s[0]] + Filter(s[1..], p);
        assert Filter(s, p)[1..] == Filter(s[1..], p);
      } else {
        assert Filter(s, p) == Filter(s[1..], p);
      }
    }
  }

  /** A predicate that holds throughout keeps everything. */
  lemma {:induction false} FilterKeepsAll<T>(s: seq<T>, p: T -> bool)
    requires forall x :: x in s ==> p(x)
    ensures Filter(s, p) == s
  {
    if s != [] {
      FilterKeepsAll(s[1..], p);
      assert s == [s[0]] + s[1..];
    }
  }

  /** The filter keeps nothing exactly when no element satisfies the predicate. */
  lemma {:induction false} FilterKeepsNoneIff<T>(s: seq<T>, p: T -> bool)
    ensures Filter(s, p) == [] <==> forall x :: x in s ==> !p(x)
  {
    if s != [] {
      FilterKeepsNoneIff(s[1..], p);
      assert s == [s[0]] + s[1..];
    }
  }

  /** A predicate and its negation split the list: the two counts add up to its length. */
  lemma {:induction false} FilterComplement<T>(s: seq<T>, p: T -> bool, q: T -> bool)
    requires forall x :: x in s ==> q(x) == !p(x)
    ensures |Filter(s, p)| + |Filter(s, q)| == |s|
  {
    if s != [] {
      FilterComplement(s[1..], p, q);
    }
  }

  /** `distinct` leaves no element twice. */
  lemma {:induction false} DistinctFromNoDuplicates<T>(s: seq<T>, seen: set<T>)
    ensures NoDuplicates(DistinctFrom(s, seen))
  {
    if s != [] && s[0] !in seen {
      DistinctFromNoDuplicates(s[1..], seen + {s[0]});
    } else if s != [] {
      DistinctFromNoDuplicates(s[1..], seen);
    }
  }

  /** The elements of a list, as a set. */
  ghost function Elems<T>(s: seq<T>): set<T> {
    set e | e in s
  }

  /** The tail of a duplicate-free prefix disjoint from `seen` is disjoint from `seen` plus the head. */
  lemma PrefixTail<T>(d: seq<T>, seen: set<T>)
    requires d != [] && NoDuplicates(d)
    requires forall e :: e in d ==> e !in seen
    ensures NoDuplicates(d[1..])
    ensures forall e :: e in d[1..] ==> e !in seen + {d[0]}
  {
    var rest := d[1..];
    forall i, j | 0 <= i < j < |rest| ensures rest[i] != rest[j] {
      assert rest[i] == d[i + 1] && rest[j] == d[j + 1];
    }
    forall e | e in rest ensures e !in seen + {d[0]} {
      var i :| 0 <= i < |rest| && rest[i] == e;
      assert d[i + 1] == e;
    }
  }

  lemma SeenCons<T>(seen: set<T>, y: T, s: seq<T>)
    ensures seen + {y} + Elems(s) == seen + Elems([y] + s)
  {
    assert Elems([y] + s) == {y} + Elems(s);
  }

  /** `distinct` on a list whose first element is unseen keeps that element and counts it as seen. */
  lemma DistinctFromCons<T>(y: T, s: seq<T>, seen: set<T>)
    requires y !in seen
    ensures DistinctFrom([y] + s, seen) == [y] + DistinctFrom(s, seen + {y})
  {
    assert ([y] + s)[0] == y && ([y] + s)[1..] == s;
  }

  /** One step of DistinctFromPrefix: an unseen head is kept before the rest's result. */
  lemma DistinctFromPrefixStep<T>(y: T, rest: seq<T>, x: seq<T>, seen: set<T>)
    requires y !in seen
    requires DistinctFrom(rest + x, seen + {y}) == rest + DistinctFrom(x, seen + {y} + Elems(rest))
    ensures DistinctFrom([y] + rest + x, seen) == [y] + rest + DistinctFrom(x, seen + Elems([y] + rest))
  {
    var seenAfter := seen + Elems([y] + rest);
    SeenCons(seen, y, rest);
    var tail := DistinctFrom(x, seenAfter);
    calc {
      DistinctFrom([y] + rest + x, seen);
      { assert [y] + rest + x == [y] + (rest + x); }
      DistinctFrom([y] + (rest + x), seen);
      { DistinctFromCons(y, rest + x, seen); }
      [y] + DistinctFrom(rest + x, seen + {y});
      [y] + (rest + tail);
      { assert [y] + (rest + tail) == [y] + rest + tail; }
      [y] + rest + tail;
    }
  }

  /**
   * A duplicate-free prefix disjoint from `seen` is kept whole, and the rest
   * continues with that prefix counted as seen.
   */
  lemma {:induction false} DistinctFromPrefix<T>(d: seq<T>, x: seq<T>, seen: set<T>)
    requires NoDuplicates(d)
    requires forall e :: e in d ==> e !in seen
    ensures DistinctFrom(d + x, seen) == d + DistinctFrom(x, seen + Elems(d))
  {
    if d == [] {
      assert d + x == x;
      assert seen + Elems(d) == seen;
    } else {
      PrefixTail(d, seen);
      DistinctFromPrefix(d[1..], x, seen + {d[0]});
      assert d == [d[0]] + d[1..];
      DistinctFromPrefixStep(d[0], d[1..], x, seen);
    }
  }
}
