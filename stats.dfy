/** Column statistics as pandas computes them: `Series.median()` skips
    missing cells and is missing itself when no value is present. */
module Stats {
  import opened Wrappers
  import opened Sorting

  function Identity(x: real): real { x }

  /** The middle value of a non-empty sequence, or the mean of its two middle
      values when its length is even. */
  function Middle(s: seq<real>): real
    requires s != []
  {
    var n := |s|;
    if n % 2 == 1 then s[n / 2] else (s[n / 2 - 1] + s[n / 2]) / 2.0
  }

  /** The median of the given (present) values: the middle value once ordered,
      or the mean of the two middle values when there is an even number of them. */
  function Median(xs: seq<real>): (m: Option<real>)
    ensures m.None? <==> xs == []
    ensures m.Some? ==> exists i :: 0 <= i < |xs| && xs[i] <= m.value
    ensures m.Some? ==> exists j :: 0 <= j < |xs| && m.value <= xs[j]
  {
    if xs == [] then None
    else
      var s := SortBy(xs, Identity);
      var n := |s|;
      var m := Middle(s);
      assert s[0] <= m <= s[n - 1];
      assert s[0] in multiset(xs) && s[n - 1] in multiset(xs);
      Some(m)
  }

  /** Two ascending orderings of the same values are the same sequence, so the
      ordering `Median` uses is determined by the values alone. */
  lemma {:induction false} SortedUnique(a: seq<real>, b: seq<real>)
    requires SortedBy(a, Identity) && SortedBy(b, Identity)
    requires multiset(a) == multiset(b)
    ensures a == b
  {
    if a == [] {
      assert |multiset(b)| == 0;
    } else {
      SmallestFirst(a, b);
      SmallestFirst(b, a);
      SameTail(a, b);
      SortedUnique(a[1..], b[1..]);
      assert a == [a[0]] + a[1..] && b == [b[0]] + b[1..];
    }
  }

  /** The first value of an ascending ordering is at most every value of any
      sequence holding the same values. */
  lemma SmallestFirst(a: seq<real>, b: seq<real>)
    requires a != [] && SortedBy(a, Identity) && multiset(a) == multiset(b)
    ensures b != [] && a[0] <= b[0]
  {
    assert b[..] != [] by {
      assert a[0] in multiset(b);
    }
    assert b[0] in multiset(a);
    var j :| 0 <= j < |a| && a[j] == b[0];
    assert Identity(a[0]) <= Identity(a[j]);
  }

  /** Removing equal first values from sequences with the same values leaves
      the same values. */
  lemma SameTail(a: seq<real>, b: seq<real>)
    requires a != [] && b != [] && a[0] == b[0] && multiset(a) == multiset(b)
    ensures multiset(a[1..]) == multiset(b[1..])
  {
    assert a == [a[0]] + a[1..] && b == [b[0]] + b[1..];
    calc {
      multiset(a[1..]);
      multiset(a) - multiset{a[0]};
      multiset(b) - multiset{b[0]};
      multiset(b[1..]);
    }
  }

  /** The median is the middle value of any ascending ordering of the values,
      or the mean of its two middle values when their number is even. */
  lemma MedianIsMiddle(xs: seq<real>, s: seq<real>)
    requires xs != [] && SortedBy(s, Identity) && multiset(s) == multiset(xs)
    ensures |s| == |xs|
    ensures Median(xs) == Some(if |s| % 2 == 1 then s[|s| / 2] else (s[|s| / 2 - 1] + s[|s| / 2]) / 2.0)
  {
    var t := SortBy(xs, Identity);
    MedianOfOrdering(xs);
    SortedUnique(t, s);
    MiddleIs(s);
  }

  lemma MiddleIs(s: seq<real>)
    requires s != []
    ensures Middle(s) == if |s| % 2 == 1 then s[|s| / 2] else (s[|s| / 2 - 1] + s[|s| / 2]) / 2.0
  {
  }

  lemma MedianOfOrdering(xs: seq<real>)
    requires xs != []
    ensures SortBy(xs, Identity) != [] && Median(xs) == Some(Middle(SortBy(xs, Identity)))
  {
  }

  /** Number of elements of `xs` satisfying `p`. */
  function Count(xs: seq<real>, p: real -> bool): (n: nat)
    ensures n <= |xs|
  {
    if xs == [] then 0 else (if p(xs[0]) then 1 else 0) + Count(xs[1..], p)
  }

  function AtMost(m: real): real -> bool { x => x <= m }

  function AtLeast(m: real): real -> bool { x => m <= x }

  lemma {:induction false} CountAppend(u: seq<real>, v: seq<real>, p: real -> bool)
    ensures Count(u + v, p) == Count(u, p) + Count(v, p)
  {
    if u != [] {
      assert (u + v)[1..] == u[1..] + v;
      CountAppend(u[1..], v, p);
    } else {
      assert u + v == v;
    }
  }

  /** Counting does not depend on the order of the values. */
  lemma {:induction false} CountPermutation(a: seq<real>, b: seq<real>, p: real -> bool)
    requires multiset(a) == multiset(b)
    ensures Count(a, p) == Count(b, p)
  {
    if a != [] {
      var x := a[0];
      assert x in multiset(b);
      var k :| 0 <= k < |b| && b[k] == x;
      var rest := b[..k] + b[k + 1..];
      RemoveAt(b, k);
      assert a == [x] + a[1..];
      calc {
        multiset(a[1..]);
        multiset(a) - multiset{x};
        multiset(b) - multiset{x};
        multiset(rest) + multiset{x} - multiset{x};
        multiset(rest);
      }
      CountPermutation(a[1..], rest, p);
    }
  }

  /** Taking out the k-th value removes one copy of it and changes the count
      by its own contribution. */
  lemma RemoveAt(b: seq<real>, k: nat)
    requires k < |b|
    ensures multiset(b) == multiset(b[..k] + b[k + 1..]) + multiset{b[k]}
    ensures forall p: real -> bool :: Count(b, p) == Count(b[..k] + b[k + 1..], p) + (if p(b[k]) then 1 else 0)
  {
    assert b == b[..k] + [b[k]] + b[k + 1..];
    forall p: real -> bool
      ensures Count(b, p) == Count(b[..k] + b[k + 1..], p) + (if p(b[k]) then 1 else 0)
    {
      CountAppend(b[..k], b[k + 1..], p);
      CountAppend(b[..k] + [b[k]], b[k + 1..], p);
      CountAppend(b[..k], [b[k]], p);
    }
  }

  lemma {:induction false} CountWhole(u: seq<real>, p: real -> bool)
    requires forall i :: 0 <= i < |u| ==> p(u[i])
    ensures Count(u, p) == |u|
  {
    if u != [] {
      CountWhole(u[1..], p);
    }
  }

  /** The median is a true middle value: at least half of the values are at
      most the median, and at least half are at least the median. */
  lemma MedianHalves(xs: seq<real>)
    requires xs != []
    ensures 2 * Count(xs, AtMost(Median(xs).value)) >= |xs|
    ensures 2 * Count(xs, AtLeast(Median(xs).value)) >= |xs|
  {
    var s := SortBy(xs, Identity);
    var n := |s|;
    var m := Median(xs).value;
    if n % 2 == 1 {
      assert m == s[n / 2];
      PrefixCount(s, n / 2 + 1, m);
    } else {
      assert m == (s[n / 2 - 1] + s[n / 2]) / 2.0;
      assert Identity(s[n / 2 - 1]) <= Identity(s[n / 2]);
      PrefixCount(s, n / 2, m);
    }
    SuffixCount(s, n / 2, m);
    CountPermutation(xs, s, AtMost(m));
    CountPermutation(xs, s, AtLeast(m));
  }

  lemma PrefixCount(s: seq<real>, k: nat, m: real)
    requires SortedBy(s, Identity) && 0 < k <= |s| && s[k - 1] <= m
    ensures Count(s, AtMost(m)) >= k
  {
    assert s == s[..k] + s[k..];
    forall i | 0 <= i < k ensures AtMost(m)(s[..k][i]) {
      assert Identity(s[i]) <= Identity(s[k - 1]);
    }
    CountWhole(s[..k], AtMost(m));
    CountAppend(s[..k], s[k..], AtMost(m));
  }

  lemma SuffixCount(s: seq<real>, k: nat, m: real)
    requires SortedBy(s, Identity) && k < |s| && m <= s[k]
    ensures Count(s, AtLeast(m)) >= |s| - k
  {
    assert s == s[..k] + s[k..];
    forall i | 0 <= i < |s| - k ensures AtLeast(m)(s[k..][i]) {
      assert Identity(s[k]) <= Identity(s[k + i]);
    }
    CountWhole(s[k..], AtLeast(m));
    CountAppend(s[..k], s[k..], AtLeast(m));
  }
}
