/** The computations behind the Streamlit dashboard: loading the labelled
    table, the home-page counts, the training features with median
    imputation, the query row built from the user's inputs, and the
    post-processing of the classifier's outputs (confidence and the ranked
    importance table). The classifier itself is not modelled: its class
    probabilities and feature importances are inputs. */
module App {
  import opened Wrappers
  import opened Sorting
  import opened Bins
  import opened Columns
  import opened Frames
  import opened Movies

  /** Name of the column `load_data` adds to the table. */
  const LABEL_COLUMN: Col := Success

  /** The six model features, in training order. */
  const FEATURES: seq<Col> := [
    Duration, Budget, Gross, NumVotedUsers, MovieFacebookLikes, DirectorFacebookLikes]

  lemma FeaturesDistinct()
    ensures Distinct(FEATURES)
  {
  }

  // ---------------------------------------------------------------- home page

  datatype Summary = Summary(totalMovies: nat, hitMovies: nat)

  /** The "Total Movies" and "Hit Movies" metrics of the home page. */
  function HomeSummary(movies: seq<Movie>): (s: Summary)
    ensures s.totalMovies == |movies|
    ensures s.hitMovies <= s.totalMovies
    ensures s.hitMovies == 0 <==> forall i :: 0 <= i < |movies| ==>
      !(movies[i].imdbScore.Some? && 6.0 < movies[i].imdbScore.value <= 10.0)
    ensures s.hitMovies == multiset(LabelColumn(movies))[Some(Hit)]
  {
    var labels := LabelColumn(movies);
    CountLabelIsMultiplicity(labels, Hit);
    Summary(|movies|, CountLabel(labels, Hit))
  }

  /** The hit count and the counts of the two other labels and of the
      unlabelled rows add up to the total. */
  lemma HomeCountsPartition(movies: seq<Movie>)
    ensures HomeSummary(movies).hitMovies
      + CountLabel(LabelColumn(movies), Flop) + CountLabel(LabelColumn(movies), Average)
      + CountMissing(LabelColumn(movies)) == HomeSummary(movies).totalMovies
  {
    CountsPartition(LabelColumn(movies));
  }

  // ------------------------------------------------------- training features

  /** `df[features]`. */
  function FeatureFrame(movies: seq<Movie>): (f: Frame)
    ensures f.columns == FEATURES && |f.rows| == |movies| && Rectangular(f)
  {
    Select(movies, LABEL_COLUMN, FEATURES)
  }

  /** `frame.fillna(frame.median())`: every column is imputed with its own median. */
  function FillMedians(f: Frame): (g: Frame)
    requires Rectangular(f)
    ensures g.columns == f.columns && |g.rows| == |f.rows| && Rectangular(g)
    ensures forall i, k :: 0 <= i < |f.rows| && 0 <= k < |f.columns| ==>
      g.rows[i][k] == FillMedian(ColumnAt(f, k))[i]
  {
    var cols := seq(|f.columns|, k requires 0 <= k < |f.columns| => FillMedian(ColumnAt(f, k)));
    Frame(f.columns, seq(|f.rows|, i requires 0 <= i < |f.rows| =>
      seq(|f.columns|, k requires 0 <= k < |f.columns| => cols[k][i])))
  }

  /** The training matrix `X`. */
  function TrainingFeatures(movies: seq<Movie>): (x: Frame)
    ensures x.columns == FEATURES && |x.rows| == |movies| && Rectangular(x)
  {
    FillMedians(FeatureFrame(movies))
  }

  /** The values of one feature over the whole table. */
  function FeatureColumn(movies: seq<Movie>, k: nat): (col: seq<Cell>)
    requires k < |FEATURES|
    ensures |col| == |movies|
    ensures forall i :: 0 <= i < |movies| ==> col[i] == NumCell(Number(movies[i], FEATURES[k]))
  {
    ColumnAt(FeatureFrame(movies), k)
  }

  /** A present feature value reaches the training matrix unchanged; a missing
      one is replaced by the median of that feature over the table, and that
      median lies between two present values of the same feature. */
  lemma TrainingFeaturesImpute(movies: seq<Movie>, i: nat, k: nat)
    requires i < |movies| && k < |FEATURES|
    ensures Number(movies[i], FEATURES[k]).Some? ==>
      TrainingFeatures(movies).rows[i][k] == Num(Number(movies[i], FEATURES[k]).value)
    ensures Number(movies[i], FEATURES[k]).None? ==>
      TrainingFeatures(movies).rows[i][k] == MedianCell(FeatureColumn(movies, k))
    ensures Number(movies[i], FEATURES[k]).None? && TrainingFeatures(movies).rows[i][k].Num? ==>
      WithinRange(FeatureColumn(movies, k), TrainingFeatures(movies).rows[i][k].x)
  {
    FillMedianSpec(FeatureColumn(movies, k));
  }

  /** When every feature has a value somewhere in the table, no training cell
      is missing; a feature missing from every row stays missing. */
  lemma TrainingFeaturesComplete(movies: seq<Movie>)
    ensures (forall k :: 0 <= k < |FEATURES| ==> HasValue(FeatureColumn(movies, k))) ==>
      forall i, k :: 0 <= i < |movies| && 0 <= k < |FEATURES| ==> TrainingFeatures(movies).rows[i][k].Num?
    ensures forall i, k :: 0 <= i < |movies| && 0 <= k < |FEATURES| && !HasValue(FeatureColumn(movies, k)) ==>
      TrainingFeatures(movies).rows[i][k].NA?
  {
    var x := TrainingFeatures(movies);
    forall i, k | 0 <= i < |movies| && 0 <= k < |FEATURES|
      ensures HasValue(FeatureColumn(movies, k)) ==> x.rows[i][k].Num?
      ensures !HasValue(FeatureColumn(movies, k)) ==> x.rows[i][k].NA?
    {
      var col := FeatureColumn(movies, k);
      FillMedianComplete(col);
      assert x.rows[i][k] == FillMedian(col)[i];
    }
    if forall k :: 0 <= k < |FEATURES| ==> HasValue(FeatureColumn(movies, k)) {
      forall i, k | 0 <= i < |movies| && 0 <= k < |FEATURES| ensures x.rows[i][k].Num? {
        assert HasValue(FeatureColumn(movies, k));
      }
    }
  }

  // ------------------------------------------------------------- query row

  /** The values of the six input widgets: whole numbers, budget and gross in
      millions of dollars. */
  datatype QueryInput = QueryInput(
    duration: int, budget: int, gross: int,
    votedUsers: int, movieLikes: int, directorLikes: int)

  /** `input_data`: a one-row frame of the inputs, budget and gross converted
      to dollars. */
  function QueryFrame(q: QueryInput): (f: Frame)
    ensures f.columns == FEATURES
    ensures |f.rows| == 1 && Rectangular(f)
    ensures f.rows[0] == [
      Num(q.duration as real), Num(q.budget as real * MILLION), Num(q.gross as real * MILLION),
      Num(q.votedUsers as real), Num(q.movieLikes as real), Num(q.directorLikes as real)]
  {
    Frame(
      [Duration, Budget, Gross, NumVotedUsers, MovieFacebookLikes, DirectorFacebookLikes],
      [[Num(q.duration as real), Num(q.budget as real * MILLION), Num(q.gross as real * MILLION),
        Num(q.votedUsers as real), Num(q.movieLikes as real), Num(q.directorLikes as real)]])
  }

  /** The query row has the training matrix's columns in the same order, and
      none of its cells is missing. */
  lemma QueryMatchesTraining(q: QueryInput, movies: seq<Movie>)
    ensures QueryFrame(q).columns == TrainingFeatures(movies).columns
    ensures forall k :: 0 <= k < |FEATURES| ==> QueryFrame(q).rows[0][k].Num?
  {
  }

  // ------------------------------------------------------ classifier output

  /** The largest class probability, which the "Confidence" metric shows as a percentage. */
  function Confidence(probabilities: seq<real>): (c: real)
    requires |probabilities| > 0
    ensures forall i :: 0 <= i < |probabilities| ==> probabilities[i] <= c
    ensures exists i :: 0 <= i < |probabilities| && probabilities[i] == c
  {
    if |probabilities| == 1 then probabilities[0]
    else
      var rest := Confidence(probabilities[1..]);
      assert forall i :: 1 <= i < |probabilities| ==> probabilities[i] == probabilities[1..][i - 1];
      if probabilities[0] >= rest then probabilities[0] else rest
  }

  datatype Importance = Importance(feature: Col, score: real)

  /** The (feature, importance) pairs in feature order, before sorting. */
  function ImportancePairs(scores: seq<real>): (pairs: seq<Importance>)
    requires |scores| == |FEATURES|
    ensures |pairs| == |FEATURES|
    ensures forall k :: 0 <= k < |FEATURES| ==> pairs[k] == Importance(FEATURES[k], scores[k])
  {
    seq(|FEATURES|, k requires 0 <= k < |FEATURES| => Importance(FEATURES[k], scores[k]))
  }

  function NegatedScore(p: Importance): real {
    -p.score
  }

  /** The "Top Success Factors" table: the pairs sorted by importance,
      largest first. */
  function ImportanceTable(scores: seq<real>): (table: seq<Importance>)
    requires |scores| == |FEATURES|
    ensures multiset(table) == multiset(ImportancePairs(scores))
    ensures forall i, j :: 0 <= i < j < |table| ==> table[i].score >= table[j].score
  {
    var table := SortBy(ImportancePairs(scores), NegatedScore);
    assert forall i, j :: 0 <= i < j < |table| ==> NegatedScore(table[i]) <= NegatedScore(table[j]);
    table
  }

  /** Each of the six features appears in the table exactly once, with its own
      importance. */
  lemma ImportanceTableRows(scores: seq<real>)
    requires |scores| == |FEATURES|
    ensures |ImportanceTable(scores)| == |FEATURES|
    ensures forall k :: 0 <= k < |FEATURES| ==> Importance(FEATURES[k], scores[k]) in ImportanceTable(scores)
    ensures forall i :: 0 <= i < |FEATURES| ==>
      exists k :: 0 <= k < |FEATURES| && ImportanceTable(scores)[i] == Importance(FEATURES[k], scores[k])
    ensures forall i, j :: 0 <= i < j < |FEATURES| ==>
      ImportanceTable(scores)[i].feature != ImportanceTable(scores)[j].feature
  {
    var pairs, table := ImportancePairs(scores), ImportanceTable(scores);
    assert |table| == |multiset(table)| == |multiset(pairs)| == |pairs|;
    forall k | 0 <= k < |FEATURES| ensures pairs[k] in table {
      assert pairs[k] in multiset(pairs);
    }
    forall i | 0 <= i < |FEATURES|
      ensures exists k :: 0 <= k < |FEATURES| && table[i] == pairs[k]
    {
      assert table[i] in multiset(pairs);
    }
    FeaturesDistinct();
    DistinctOccursOnce(pairs);
    forall i, j | 0 <= i < j < |FEATURES| ensures table[i].feature != table[j].feature {
      if table[i].feature == table[j].feature {
        var a :| 0 <= a < |FEATURES| && table[i] == pairs[a];
        var b :| 0 <= b < |FEATURES| && table[j] == pairs[b];
        assert FEATURES[a] == FEATURES[b];
        assert a == b;
        RepeatedOccursTwice(table, i, j);
        assert false;
      }
    }
  }
}
