/** Ordering of records by a numeric key, used by the median (ascending values)
    and by the importance table (descending importance). */
module Sorting {

  /** `s` is in non-decreasing order of `key`. */
  predicate SortedBy<T>(s: seq<T>, key: T -> real) {
    forall i, j :: 0 <= i < j < |s| ==> key(s[i]) <= key(s[j])
  }

  /** Inserts `x` into an already ordered sequence, before the first element
      whose key is not smaller. */
  function Insert<T>(x: T, s: seq<T>, key: T -> real): (r: seq<T>)
    requires SortedBy(s, key)
    ensures SortedBy(r, key)
    ensures multiset(r) == multiset(s) + multiset{x}
  {
    if s == [] then [x]
    else if key(x) <= key(s[0]) then [x] + s
    else
      var tail := Insert(x, s[1..], key);
      assert s == [s[0]] + s[1..];
      LowerBoundKept(key(s[0]), x, s[1..], tail, key);
      ConsSorted(s[0], tail, key);
      [s[0]] + tail
  }

  /** An element no larger than any element of an ordered sequence can go in front of it. */
  lemma ConsSorted<T>(y: T, t: seq<T>, key: T -> real)
    requires SortedBy(t, key) && forall k :: 0 <= k < |t| ==> key(y) <= key(t[k])
    ensures SortedBy([y] + t, key)
  {
    var r := [y] + t;
    forall i, j | 0 <= i < j < |r| ensures key(r[i]) <= key(r[j]) {
      assert r[j] == t[j - 1];
      if i > 0 {
        assert r[i] == t[i - 1];
      }
    }
  }

  /** A lower bound of `x` and of every element of `s` bounds every element
      of a sequence holding exactly those elements. */
  lemma LowerBoundKept<T>(lo: real, x: T, s: seq<T>, t: seq<T>, key: T -> real)
    requires multiset(t) == multiset(s) + multiset{x}
    requires lo <= key(x) && forall k :: 0 <= k < |s| ==> lo <= key(s[k])
    ensures forall k :: 0 <= k < |t| ==> lo <= key(t[k])
  {
    forall k | 0 <= k < |t| ensures lo <= key(t[k]) {
      assert t[k] in multiset(t);
      if t[k] != x {
        assert t[k] in multiset(s);
      }
    }
  }

  /** An ordering of `s` by `key`: the same elements, in non-decreasing key order. */
  function SortBy<T>(s: seq<T>, key: T -> real): (r: seq<T>)
    ensures SortedBy(r, key)
    ensures multiset(r) == multiset(s)
    ensures |r| == |s|
  {
    if s == [] then []
    else
      assert s == [s[0]] + s[1..];
      Insert(s[0], SortBy(s[1..], key), key)
  }

  /** A sequence without repetitions holds each element at most once. */
  lemma {:induction false} DistinctOccursOnce<T>(s: seq<T>)
    requires forall i, j :: 0 <= i < j < |s| ==> s[i] != s[j]
    ensures forall x :: multiset(s)[x] <= 1
  {
    if s != [] {
      DistinctOccursOnce(s[1..]);
      assert s == [s[0]] + s[1..];
      assert s[0] !in s[1..];
    }
  }

  /** An element found at two positions occurs at least twice. */
  lemma RepeatedOccursTwice<T>(s: seq<T>, i: nat, j: nat)
    requires i < j < |s| && s[i] == s[j]
    ensures multiset(s)[s[i]] >= 2
  {
    assert s == s[..i] + [s[i]] + s[i + 1..j] + [s[j]] + s[j + 1..];
  }
}
