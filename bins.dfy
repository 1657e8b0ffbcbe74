/** Success labels: pandas `cut` of the IMDB score into the bins [0, 3, 6, 10]
    labelled Flop, Average, Hit. The same rule is applied when the dashboard
    loads its data, when the Power BI export is written and when the Power BI
    data is prepared. */
module Bins {
  import opened Wrappers

  datatype Label = Flop | Average | Hit

  /** Bin edges must be strictly increasing (pandas refuses other edges). */
  predicate Increasing(edges: seq<real>) {
    forall i, j :: 0 <= i < j < |edges| ==> edges[i] < edges[j]
  }

  /** Index of the bin of `x` among the right-closed intervals
      (edges[k], edges[k + 1]], as `cut` assigns it with its default `right=True`
      and without `include_lowest`; none when `x` lies outside all of them. */
  function Bucket(x: real, edges: seq<real>): (b: Option<nat>)
    ensures b.Some? ==> b.value + 1 < |edges|
  {
    if |edges| < 2 then None
    else if edges[0] < x <= edges[1] then Some(0)
    else match Bucket(x, edges[1..])
      case None => None
      case Some(k) => Some(k + 1)
  }

  /** Bucket puts `x` in bin k exactly when edges[k] < x <= edges[k + 1]. */
  lemma {:induction false} BucketIn(x: real, edges: seq<real>, k: nat)
    requires Increasing(edges)
    ensures Bucket(x, edges) == Some(k) <==> k + 1 < |edges| && edges[k] < x <= edges[k + 1]
  {
    if |edges| >= 2 && !(edges[0] < x <= edges[1]) {
      if k > 0 {
        BucketIn(x, edges[1..], k - 1);
      } else {
        var b := Bucket(x, edges[1..]);
        assert b.Some? ==> Bucket(x, edges) == Some(b.value + 1);
      }
    }
  }

  /** Bucket finds no bin exactly when `x` is at or below the lowest edge or
      above the highest one: values outside the bins are not clamped. */
  lemma {:induction false} BucketOutside(x: real, edges: seq<real>)
    requires Increasing(edges)
    ensures Bucket(x, edges).None? <==> |edges| < 2 || x <= edges[0] || edges[|edges| - 1] < x
  {
    if |edges| >= 2 && !(edges[0] < x <= edges[1]) {
      BucketOutside(x, edges[1..]);
    }
  }

  /** pandas `cut` of one value with the given edges and bin labels; a missing
      value stays missing. */
  function Cut<L>(x: Option<real>, edges: seq<real>, labels: seq<L>): (r: Option<L>)
    requires |labels| + 1 == |edges|
    ensures x.None? ==> r.None?
    ensures x.Some? ==> (r.Some? <==> Bucket(x.value, edges).Some?)
    ensures r.Some? ==> r.value == labels[Bucket(x.value, edges).value]
  {
    match x
    case None => None
    case Some(v) =>
      match Bucket(v, edges)
      case None => None
      case Some(k) => Some(labels[k])
  }

  const SCORE_BINS: seq<real> := [0.0, 3.0, 6.0, 10.0]
  const SCORE_LABELS: seq<Label> := [Flop, Average, Hit]

  /** The success label of an IMDB score: (0, 3] is Flop, (3, 6] is Average,
      (6, 10] is Hit, so 3.0 and 6.0 fall in the lower bin; a missing score or
      one outside (0, 10] gets no label. */
  function SuccessLabel(score: Option<real>): (r: Option<Label>)
    ensures r == Some(Flop) <==> score.Some? && 0.0 < score.value <= 3.0
    ensures r == Some(Average) <==> score.Some? && 3.0 < score.value <= 6.0
    ensures r == Some(Hit) <==> score.Some? && 6.0 < score.value <= 10.0
    ensures r.None? <==> score.None? || score.value <= 0.0 || 10.0 < score.value
  {
    if score.Some? then
      BucketIn(score.value, SCORE_BINS, 0);
      BucketIn(score.value, SCORE_BINS, 1);
      BucketIn(score.value, SCORE_BINS, 2);
      BucketOutside(score.value, SCORE_BINS);
      Cut(score, SCORE_BINS, SCORE_LABELS)
    else
      Cut(score, SCORE_BINS, SCORE_LABELS)
  }

  /** Position of a label in the ordinal scale Flop < Average < Hit. */
  function Rank(l: Label): nat {
    match l
    case Flop => 0
    case Average => 1
    case Hit => 2
  }

  /** Labels follow the order of the scores: of two labelled scores, the
      higher never gets the lower label. */
  lemma SuccessLabelMonotone(a: real, b: real)
    requires a <= b && SuccessLabel(Some(a)).Some? && SuccessLabel(Some(b)).Some?
    ensures Rank(SuccessLabel(Some(a)).value) <= Rank(SuccessLabel(Some(b)).value)
  {
  }

  /** Bins never overlap and follow the order of their edges: a higher score
      never gets a lower label. */
  lemma {:induction false} BucketMonotone(x: real, y: real, edges: seq<real>)
    requires Increasing(edges) && x <= y
    requires Bucket(x, edges).Some? && Bucket(y, edges).Some?
    ensures Bucket(x, edges).value <= Bucket(y, edges).value
  {
    var i, j := Bucket(x, edges).value, Bucket(y, edges).value;
    BucketIn(x, edges, i);
    BucketIn(y, edges, j);
  }

  /** Number of entries of a label column equal to `l` (pandas `value_counts`
      for that label, 0 when it never occurs). */
  function CountLabel(labels: seq<Option<Label>>, l: Label): (n: nat)
    ensures n <= |labels|
    ensures n == 0 <==> forall i :: 0 <= i < |labels| ==> labels[i] != Some(l)
  {
    if labels == [] then 0
    else (if labels[0] == Some(l) then 1 else 0) + CountLabel(labels[1..], l)
  }

  /** The count of a label is the number of its occurrences in the column. */
  lemma {:induction false} CountLabelIsMultiplicity(labels: seq<Option<Label>>, l: Label)
    ensures CountLabel(labels, l) == multiset(labels)[Some(l)]
  {
    if labels != [] {
      assert labels == [labels[0]] + labels[1..];
      CountLabelIsMultiplicity(labels[1..], l);
    }
  }

  function CountMissing(labels: seq<Option<Label>>): nat {
    if labels == [] then 0
    else (if labels[0].None? then 1 else 0) + CountMissing(labels[1..])
  }

  /** Every entry is counted exactly once: as one of the three labels or as unlabelled. */
  lemma {:induction false} CountsPartition(labels: seq<Option<Label>>)
    ensures CountLabel(labels, Flop) + CountLabel(labels, Average) + CountLabel(labels, Hit)
            + CountMissing(labels) == |labels|
  {
    if labels != [] {
      CountsPartition(labels[1..]);
      match labels[0]
      case None =>
      case Some(l) => assert l == Flop || l == Average || l == Hit;
    }
  }
}
