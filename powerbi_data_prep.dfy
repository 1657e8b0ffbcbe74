/** The Power BI data preparation: the labelled table reduced to sixteen
    columns, then cleaned and extended column by column (missing budget and
    gross set to 0, missing duration set to the median duration, then
    profit, return on investment and the amounts in millions). */
module PowerBIPrep {
  import opened Wrappers
  import opened Bins
  import opened Columns
  import opened Frames
  import opened Movies
  import App

  /** Name of the label column this script adds. */
  const LABEL_COLUMN: Col := SuccessCategory

  const DASHBOARD_COLUMNS: seq<Col> := [
    MovieTitle, Duration, Budget, Gross,
    ImdbScore, SuccessCategory, NumVotedUsers,
    MovieFacebookLikes, DirectorFacebookLikes,
    TitleYear, Genres, Country, Language,
    ContentRating, AspectRatio, Color]

  /** The columns the script appends, in the order it appends them. */
  const DERIVED_COLUMNS: seq<Col> := [Profit, Roi, BudgetMillions, GrossMillions]

  // ------------------------------------------------- floating-point results

  /** The values a float column can hold once a division is involved. */
  datatype Float = Finite(v: real) | PosInf | NegInf | NaN

  /** IEEE division of two finite numbers: dividing by zero gives an infinity
      of the dividend's sign, and 0/0 is not a number. */
  function Divide(a: real, b: real): Float {
    if b != 0.0 then Finite(a / b)
    else if a > 0.0 then PosInf
    else if a < 0.0 then NegInf
    else NaN
  }

  /** Multiplication by a positive constant. */
  function Scale(x: Float, c: real): Float
    requires c > 0.0
  {
    match x
    case Finite(v) => Finite(v * c)
    case _ => x
  }

  /** `replace([np.inf, -np.inf], replacement)`: infinities become `replacement`, NaN is kept. */
  function ReplaceInfinities(x: Float, replacement: real): (r: Float)
    ensures r.Finite? || r.NaN?
    ensures x.Finite? || x.NaN? ==> r == x
    ensures x.PosInf? || x.NegInf? ==> r == Finite(replacement)
  {
    if x.PosInf? || x.NegInf? then Finite(replacement) else x
  }

  function FromFloat(x: Float): Cell
    requires x.Finite? || x.NaN?
  {
    if x.Finite? then Num(x.v) else NA
  }

  // ---------------------------------------------------------- column rules

  /** One cell of `a - b`: missing when either cell is. */
  function Subtract(a: Cell, b: Cell): Cell {
    if a.Num? && b.Num? then Num(a.x - b.x) else NA
  }

  /** `a - b` on two numeric columns, row by row. */
  function Difference(a: seq<Cell>, b: seq<Cell>): (r: seq<Cell>)
    requires |a| == |b|
    ensures |r| == |a|
    ensures forall i :: 0 <= i < |a| ==> r[i] == Subtract(a[i], b[i])
  {
    seq(|a|, i requires 0 <= i < |a| => Subtract(a[i], b[i]))
  }

  /** One roi cell: `profit / budget * 100` in floating point, then infinities
      replaced by 0. */
  function RoiCell(profit: Cell, budget: Cell): (r: Cell)
    ensures !(profit.Num? && budget.Num?) ==> r.NA?
    ensures profit.Num? && budget.Num? ==> r == RoiOf(profit.x, budget.x)
  {
    var quotient := if profit.Num? && budget.Num? then Divide(profit.x, budget.x) else NaN;
    FromFloat(ReplaceInfinities(Scale(quotient, 100.0), 0.0))
  }

  function RoiColumn(profit: seq<Cell>, budget: seq<Cell>): (r: seq<Cell>)
    requires |profit| == |budget|
    ensures |r| == |profit|
    ensures forall i :: 0 <= i < |profit| ==> r[i] == RoiCell(profit[i], budget[i])
  {
    seq(|profit|, i requires 0 <= i < |profit| => RoiCell(profit[i], budget[i]))
  }

  /** `col / 1e6`, row by row. */
  function InMillions(col: seq<Cell>): (r: seq<Cell>)
    ensures |r| == |col|
    ensures forall i :: 0 <= i < |col| ==> r[i] == if col[i].Num? then Num(col[i].x / MILLION) else NA
  {
    seq(|col|, i requires 0 <= i < |col| => if col[i].Num? then Num(col[i].x / MILLION) else NA)
  }

  // ----------------------------------------------------- the specification

  /** The median of the durations present in the table (missing if none is). */
  function DurationMedian(movies: seq<Movie>): Cell {
    MedianCell(Durations(movies))
  }

  /** The duration column as read, one cell per movie. */
  function Durations(movies: seq<Movie>): (col: seq<Cell>)
    ensures |col| == |movies|
    ensures forall i :: 0 <= i < |movies| ==> col[i] == NumCell(movies[i].duration)
  {
    seq(|movies|, i requires 0 <= i < |movies| => NumCell(movies[i].duration))
  }

  /** Return on investment, case by case: the percentage when the budget is
      non-zero; 0 when the budget is zero and the profit is not (the infinity
      is replaced); missing when both are zero (0/0 is NaN, which the
      replacement does not touch). */
  function RoiOf(profit: real, budget: real): Cell {
    if budget != 0.0 then Num(profit / budget * 100.0)
    else if profit != 0.0 then Num(0.0)
    else NA
  }

  /** The filled duration of a row: its own when present, else the median. */
  function FilledDuration(m: Movie, durationMedian: Cell): Cell {
    if m.duration.Some? then Num(m.duration.value) else durationMedian
  }

  /** One row of the sixteen selected columns after the three fill rules. */
  function FilledRow(m: Movie, durationMedian: Cell): seq<Cell> {
    [StrCell(m.title), FilledDuration(m, durationMedian), Num(m.budget.GetOr(0.0)), Num(m.gross.GetOr(0.0)),
     NumCell(m.imdbScore), CatCell(SuccessLabel(m.imdbScore)), NumCell(m.votedUsers),
     NumCell(m.movieLikes), NumCell(m.directorLikes),
     NumCell(m.titleYear), StrCell(m.genres), StrCell(m.country), StrCell(m.language),
     StrCell(m.contentRating), NumCell(m.aspectRatio), StrCell(m.color)]
  }

  /** One prepared row: the filled row followed by profit, roi, and budget and
      gross in millions, all computed from the filled amounts. */
  function PreparedRow(m: Movie, durationMedian: Cell): (r: seq<Cell>)
    ensures |r| == |DASHBOARD_COLUMNS| + |DERIVED_COLUMNS|
    ensures r[BUDGET].Num? && r[GROSS].Num? && r[PROFIT].Num?
    ensures r[BUDGET_MILLIONS].Num? && r[GROSS_MILLIONS].Num?
  {
    var budget := m.budget.GetOr(0.0);
    var gross := m.gross.GetOr(0.0);
    FilledRow(m, durationMedian) +
      [Num(gross - budget), RoiOf(gross - budget, budget), Num(budget / MILLION), Num(gross / MILLION)]
  }

  // ------------------------------------------------------------ the script

  /** A row of `df[dashboard_cols]`, before any cleaning. */
  function SelectedRow(m: Movie): seq<Cell> {
    [StrCell(m.title), NumCell(m.duration), NumCell(m.budget), NumCell(m.gross),
     NumCell(m.imdbScore), CatCell(SuccessLabel(m.imdbScore)), NumCell(m.votedUsers),
     NumCell(m.movieLikes), NumCell(m.directorLikes),
     NumCell(m.titleYear), StrCell(m.genres), StrCell(m.country), StrCell(m.language),
     StrCell(m.contentRating), NumCell(m.aspectRatio), StrCell(m.color)]
  }

  /** `f` has the given columns and one row per movie. */
  predicate Shaped(f: Frame, columns: seq<Col>, movies: seq<Movie>) {
    f.columns == columns && |f.rows| == |movies| && Rectangular(f)
  }

  /** The columns after each appended column. */
  const WITH_PROFIT: seq<Col> := DASHBOARD_COLUMNS + [Profit]
  const WITH_ROI: seq<Col> := WITH_PROFIT + [Roi]
  const WITH_BUDGET_MILLIONS: seq<Col> := WITH_ROI + [BudgetMillions]

  // A row after each step of the script, up to the last one (`PreparedRow`).

  function BudgetFilledRow(m: Movie): seq<Cell> {
    SelectedRow(m)[2 := Num(m.budget.GetOr(0.0))]
  }

  function AmountsFilledRow(m: Movie): seq<Cell> {
    BudgetFilledRow(m)[3 := Num(m.gross.GetOr(0.0))]
  }

  function ProfitRow(m: Movie, durationMedian: Cell): seq<Cell> {
    FilledRow(m, durationMedian) + [Num(m.gross.GetOr(0.0) - m.budget.GetOr(0.0))]
  }

  function RoiRow(m: Movie, durationMedian: Cell): seq<Cell> {
    var budget := m.budget.GetOr(0.0);
    ProfitRow(m, durationMedian) + [RoiOf(m.gross.GetOr(0.0) - budget, budget)]
  }

  function BudgetMillionsRow(m: Movie, durationMedian: Cell): seq<Cell> {
    RoiRow(m, durationMedian) + [Num(m.budget.GetOr(0.0) / MILLION)]
  }

  // ------------------------------------------- where the script reads columns

  /** Where the cleaned columns sit among the selected ones. */
  lemma DashboardPositions()
    ensures OnlyAt(DASHBOARD_COLUMNS, Duration, 1)
    ensures OnlyAt(DASHBOARD_COLUMNS, Budget, 2)
    ensures OnlyAt(DASHBOARD_COLUMNS, Gross, 3)
  {
  }

  lemma ProfitPositions()
    ensures Profit !in DASHBOARD_COLUMNS
    ensures OnlyAt(WITH_PROFIT, Profit, 16) && OnlyAt(WITH_PROFIT, Budget, 2)
  {
  }

  lemma MillionsPositions()
    ensures Roi !in WITH_PROFIT && BudgetMillions !in WITH_ROI && GrossMillions !in WITH_BUDGET_MILLIONS
    ensures OnlyAt(WITH_ROI, Budget, 2) && OnlyAt(WITH_BUDGET_MILLIONS, Gross, 3)
  {
  }

  /** Every column the script reads is there when it reads it. */
  lemma ScriptColumns()
    ensures Budget in DASHBOARD_COLUMNS && Gross in DASHBOARD_COLUMNS && Duration in DASHBOARD_COLUMNS
    ensures Profit in WITH_PROFIT && Budget in WITH_PROFIT
    ensures Budget in WITH_ROI && Gross in WITH_BUDGET_MILLIONS
  {
    assert DASHBOARD_COLUMNS[1] == Duration && DASHBOARD_COLUMNS[2] == Budget && DASHBOARD_COLUMNS[3] == Gross;
    assert WITH_PROFIT[16] == Profit;
  }

  /** Where the profit step reads its inputs, and that its column is new. */
  lemma ProfitInputs(f: Frame)
    requires Rectangular(f) && f.columns == DASHBOARD_COLUMNS
    ensures Column(f, Gross) == ColumnAt(f, 3) && Column(f, Budget) == ColumnAt(f, 2)
    ensures Profit !in f.columns
  {
    DashboardPositions();
    ProfitPositions();
    ColumnIsAt(f, Gross, 3);
    ColumnIsAt(f, Budget, 2);
  }

  /** Where the roi step reads its inputs, and that its column is new. */
  lemma RoiInputs(f: Frame)
    requires Rectangular(f) && f.columns == WITH_PROFIT
    ensures Column(f, Profit) == ColumnAt(f, 16) && Column(f, Budget) == ColumnAt(f, 2)
    ensures Roi !in f.columns
  {
    ProfitPositions();
    MillionsPositions();
    ColumnIsAt(f, Profit, 16);
    ColumnIsAt(f, Budget, 2);
  }

  // ------------------------------------------------- one row, stage by stage

  lemma SelectedCells(m: Movie)
    ensures seq(|DASHBOARD_COLUMNS|, k requires 0 <= k < |DASHBOARD_COLUMNS| =>
      CellOf(m, LABEL_COLUMN, DASHBOARD_COLUMNS[k])) == SelectedRow(m)
  {
  }

  lemma BudgetCellFilled(m: Movie)
    ensures var c := SelectedRow(m)[2];
      SelectedRow(m)[2 := if c.NA? then Num(0.0) else c] == BudgetFilledRow(m)
  {
  }

  lemma GrossCellFilled(m: Movie)
    ensures var c := BudgetFilledRow(m)[3];
      BudgetFilledRow(m)[3 := if c.NA? then Num(0.0) else c] == AmountsFilledRow(m)
  {
  }

  lemma FilledRowIs(m: Movie, durationMedian: Cell)
    ensures AmountsFilledRow(m)[1 := FilledDuration(m, durationMedian)] == FilledRow(m, durationMedian)
  {
  }

  /** The filled amounts sit at positions 2 and 3 of a filled row. */
  lemma FilledAmounts(m: Movie, med: Cell)
    ensures |FilledRow(m, med)| == 16
    ensures FilledRow(m, med)[2] == Num(m.budget.GetOr(0.0))
    ensures FilledRow(m, med)[3] == Num(m.gross.GetOr(0.0))
    ensures ProfitRow(m, med)[2] == Num(m.budget.GetOr(0.0))
    ensures ProfitRow(m, med)[16] == Num(m.gross.GetOr(0.0) - m.budget.GetOr(0.0))
    ensures RoiRow(m, med)[2] == Num(m.budget.GetOr(0.0))
    ensures BudgetMillionsRow(m, med)[3] == Num(m.gross.GetOr(0.0))
  {
  }

  lemma ProfitCell(m: Movie, med: Cell, row: seq<Cell>, d: Cell)
    requires row == FilledRow(m, med) && d == Subtract(row[3], row[2])
    ensures row + [d] == ProfitRow(m, med)
  {
  }

  lemma RoiCellOfRow(m: Movie, med: Cell, row: seq<Cell>)
    requires row == ProfitRow(m, med)
    ensures row + [RoiCell(row[16], row[2])] == RoiRow(m, med)
  {
    FilledAmounts(m, med);
  }

  lemma BudgetMillionsCell(m: Movie, med: Cell, row: seq<Cell>, c: Cell)
    requires row == RoiRow(m, med)
    requires c == if row[2].Num? then Num(row[2].x / MILLION) else NA
    ensures row + [c] == BudgetMillionsRow(m, med)
  {
    FilledAmounts(m, med);
  }

  lemma GrossMillionsCell(m: Movie, med: Cell, row: seq<Cell>, c: Cell)
    requires row == BudgetMillionsRow(m, med)
    requires c == if row[3].Num? then Num(row[3].x / MILLION) else NA
    ensures row + [c] == PreparedRow(m, med)
  {
    FilledAmounts(m, med);
  }


  // -------------------------------------------------- the frame, step by step

  /** Filling the missing cells of the k-th column with `v` changes that cell
      of each row and nothing else. */
  lemma FillStep(f: Frame, name: Col, k: nat, v: Cell, after: Frame)
    requires Rectangular(f) && OnlyAt(f.columns, name, k)
    requires after == SetColumn(f, name, FillNa(Column(f, name), v))
    ensures after.columns == f.columns && |after.rows| == |f.rows| && Rectangular(after)
    ensures forall i :: 0 <= i < |f.rows| ==>
      after.rows[i] == f.rows[i][k := if f.rows[i][k].NA? then v else f.rows[i][k]]
  {
    ColumnIsAt(f, name, k);
    SetColumnAt(f, name, FillNa(Column(f, name), v), k);
  }

  /** Appending a derived column whose name is new. */
  lemma AppendStep(f: Frame, name: Col, values: seq<Cell>, after: Frame)
    requires Rectangular(f) && name !in f.columns
    requires |values| == |f.rows| && after == SetColumn(f, name, values)
    ensures after.columns == f.columns + [name] && |after.rows| == |f.rows| && Rectangular(after)
    ensures forall i :: 0 <= i < |f.rows| ==> after.rows[i] == f.rows[i] + [values[i]]
  {
    AppendColumn(f, name, values);
  }

  lemma SelectStep(movies: seq<Movie>, after: Frame)
    requires after == Select(movies, LABEL_COLUMN, DASHBOARD_COLUMNS)
    ensures Shaped(after, DASHBOARD_COLUMNS, movies)
    ensures forall i :: 0 <= i < |movies| ==> after.rows[i] == SelectedRow(movies[i])
  {
    forall i | 0 <= i < |movies| ensures after.rows[i] == SelectedRow(movies[i]) {
      SelectedCells(movies[i]);
    }
  }

  lemma FillBudgetStep(movies: seq<Movie>, f0: Frame, f1: Frame)
    requires Shaped(f0, DASHBOARD_COLUMNS, movies)
    requires forall i :: 0 <= i < |movies| ==> f0.rows[i] == SelectedRow(movies[i])
    requires f1 == SetColumn(f0, Budget, FillNa(Column(f0, Budget), Num(0.0)))
    ensures Shaped(f1, DASHBOARD_COLUMNS, movies)
    ensures forall i :: 0 <= i < |movies| ==> f1.rows[i] == BudgetFilledRow(movies[i])
  {
    DashboardPositions();
    FillStep(f0, Budget, 2, Num(0.0), f1);
    forall i | 0 <= i < |movies| ensures f1.rows[i] == BudgetFilledRow(movies[i]) {
      BudgetCellFilled(movies[i]);
    }
  }

  lemma FillGrossStep(movies: seq<Movie>, f1: Frame, f2: Frame)
    requires Shaped(f1, DASHBOARD_COLUMNS, movies)
    requires forall i :: 0 <= i < |movies| ==> f1.rows[i] == BudgetFilledRow(movies[i])
    requires f2 == SetColumn(f1, Gross, FillNa(Column(f1, Gross), Num(0.0)))
    ensures Shaped(f2, DASHBOARD_COLUMNS, movies)
    ensures forall i :: 0 <= i < |movies| ==> f2.rows[i] == AmountsFilledRow(movies[i])
  {
    DashboardPositions();
    FillStep(f1, Gross, 3, Num(0.0), f2);
    forall i | 0 <= i < |movies| ensures f2.rows[i] == AmountsFilledRow(movies[i]) {
      GrossCellFilled(movies[i]);
    }
  }

  lemma FillDurationStep(movies: seq<Movie>, f2: Frame, f3: Frame)
    requires Shaped(f2, DASHBOARD_COLUMNS, movies)
    requires forall i :: 0 <= i < |movies| ==> f2.rows[i] == AmountsFilledRow(movies[i])
    requires f3 == SetColumn(f2, Duration, FillMedian(Column(f2, Duration)))
    ensures Shaped(f3, DASHBOARD_COLUMNS, movies)
    ensures forall i :: 0 <= i < |movies| ==> f3.rows[i] == FilledRow(movies[i], DurationMedian(movies))
  {
    DurationColumn(movies, f2);
    FillStep(f2, Duration, 1, DurationMedian(movies), f3);
    DurationRows(movies, DurationMedian(movies), f2, f3);
  }

  /** The duration column the script reads is the movies' durations. */
  lemma DurationColumn(movies: seq<Movie>, f2: Frame)
    requires Shaped(f2, DASHBOARD_COLUMNS, movies)
    requires forall i :: 0 <= i < |movies| ==> f2.rows[i] == AmountsFilledRow(movies[i])
    ensures OnlyAt(f2.columns, Duration, 1)
    ensures Column(f2, Duration) == Durations(movies)
  {
    DashboardPositions();
    ColumnIsAt(f2, Duration, 1);
  }

  lemma DurationRows(movies: seq<Movie>, med: Cell, f2: Frame, f3: Frame)
    requires |f2.rows| == |movies| && |f3.rows| == |movies|
    requires forall i :: 0 <= i < |movies| ==> f2.rows[i] == AmountsFilledRow(movies[i])
    requires forall i :: 0 <= i < |movies| ==>
      |f2.rows[i]| == 16 && f3.rows[i] == f2.rows[i][1 := if f2.rows[i][1].NA? then med else f2.rows[i][1]]
    ensures forall i :: 0 <= i < |movies| ==> f3.rows[i] == FilledRow(movies[i], med)
  {
    forall i | 0 <= i < |movies| ensures f3.rows[i] == FilledRow(movies[i], med) {
      FilledRowIs(movies[i], med);
    }
  }

  lemma ProfitStep(movies: seq<Movie>, med: Cell, f3: Frame, f4: Frame)
    requires Shaped(f3, DASHBOARD_COLUMNS, movies)
    requires forall i :: 0 <= i < |movies| ==> f3.rows[i] == FilledRow(movies[i], med)
    requires f4 == SetColumn(f3, Profit, Difference(Column(f3, Gross), Column(f3, Budget)))
    ensures Shaped(f4, WITH_PROFIT, movies)
    ensures forall i :: 0 <= i < |movies| ==> f4.rows[i] == ProfitRow(movies[i], med)
  {
    ProfitInputs(f3);
    var gross, budget := Column(f3, Gross), Column(f3, Budget);
    AppendStep(f3, Profit, Difference(gross, budget), f4);
    ProfitValues(f3);
    ProfitRows(movies, med, f3, Difference(gross, budget), f4);
  }

  lemma ProfitValues(f3: Frame)
    requires Rectangular(f3) && f3.columns == DASHBOARD_COLUMNS
    ensures forall i :: 0 <= i < |f3.rows| ==>
      Difference(Column(f3, Gross), Column(f3, Budget))[i] == Subtract(f3.rows[i][3], f3.rows[i][2])
  {
    ProfitInputs(f3);
  }

  lemma ProfitRows(movies: seq<Movie>, med: Cell, f3: Frame, values: seq<Cell>, f4: Frame)
    requires |f3.rows| == |movies| && |values| == |movies| && |f4.rows| == |movies|
    requires forall i :: 0 <= i < |movies| ==> f3.rows[i] == FilledRow(movies[i], med)
    requires forall i :: 0 <= i < |movies| ==> f4.rows[i] == f3.rows[i] + [values[i]]
    requires forall i :: 0 <= i < |movies| ==> |f3.rows[i]| == 16 && values[i] == Subtract(f3.rows[i][3], f3.rows[i][2])
    ensures forall i :: 0 <= i < |movies| ==> f4.rows[i] == ProfitRow(movies[i], med)
  {
    forall i | 0 <= i < |movies| ensures f4.rows[i] == ProfitRow(movies[i], med) {
      ProfitCell(movies[i], med, f3.rows[i], values[i]);
    }
  }

  lemma RoiStep(movies: seq<Movie>, med: Cell, f4: Frame, f5: Frame)
    requires Shaped(f4, WITH_PROFIT, movies)
    requires forall i :: 0 <= i < |movies| ==> f4.rows[i] == ProfitRow(movies[i], med)
    requires f5 == SetColumn(f4, Roi, RoiColumn(Column(f4, Profit), Column(f4, Budget)))
    ensures Shaped(f5, WITH_ROI, movies)
    ensures forall i :: 0 <= i < |movies| ==> f5.rows[i] == RoiRow(movies[i], med)
  {
    RoiInputs(f4);
    var profit, budget := Column(f4, Profit), Column(f4, Budget);
    AppendStep(f4, Roi, RoiColumn(profit, budget), f5);
    forall i | 0 <= i < |movies| ensures f5.rows[i] == RoiRow(movies[i], med) {
      assert f5.rows[i] == f4.rows[i] + [RoiColumn(profit, budget)[i]];
      RoiCellOfRow(movies[i], med, f4.rows[i]);
    }
  }

  lemma BudgetMillionsStep(movies: seq<Movie>, med: Cell, f5: Frame, f6: Frame)
    requires Shaped(f5, WITH_ROI, movies)
    requires forall i :: 0 <= i < |movies| ==> f5.rows[i] == RoiRow(movies[i], med)
    requires f6 == SetColumn(f5, BudgetMillions, InMillions(Column(f5, Budget)))
    ensures Shaped(f6, WITH_BUDGET_MILLIONS, movies)
    ensures forall i :: 0 <= i < |movies| ==> f6.rows[i] == BudgetMillionsRow(movies[i], med)
  {
    BudgetMillionsInputs(f5);
    var budget := Column(f5, Budget);
    AppendStep(f5, BudgetMillions, InMillions(budget), f6);
    forall i | 0 <= i < |movies| ensures f6.rows[i] == BudgetMillionsRow(movies[i], med) {
      assert budget[i] == f5.rows[i][2];
      BudgetMillionsCell(movies[i], med, f5.rows[i], InMillions(budget)[i]);
    }
  }


  lemma GrossMillionsStep(movies: seq<Movie>, med: Cell, f6: Frame, f7: Frame)
    requires Shaped(f6, WITH_BUDGET_MILLIONS, movies)
    requires forall i :: 0 <= i < |movies| ==> f6.rows[i] == BudgetMillionsRow(movies[i], med)
    requires f7 == SetColumn(f6, GrossMillions, InMillions(Column(f6, Gross)))
    ensures Shaped(f7, DASHBOARD_COLUMNS + DERIVED_COLUMNS, movies)
    ensures forall i :: 0 <= i < |movies| ==> f7.rows[i] == PreparedRow(movies[i], med)
  {
    GrossMillionsInputs(f6);
    var gross := Column(f6, Gross);
    AppendStep(f6, GrossMillions, InMillions(gross), f7);
    forall i | 0 <= i < |movies| ensures f7.rows[i] == PreparedRow(movies[i], med) {
      assert gross[i] == f6.rows[i][3];
      GrossMillionsCell(movies[i], med, f6.rows[i], InMillions(gross)[i]);
    }
  }

  /** Where the millions steps read their inputs, and that their columns are new. */
  lemma BudgetMillionsInputs(f: Frame)
    requires Rectangular(f) && f.columns == WITH_ROI
    ensures Column(f, Budget) == ColumnAt(f, 2) && BudgetMillions !in f.columns
  {
    MillionsPositions();
    ColumnIsAt(f, Budget, 2);
  }

  lemma GrossMillionsInputs(f: Frame)
    requires Rectangular(f) && f.columns == WITH_BUDGET_MILLIONS
    ensures Column(f, Gross) == ColumnAt(f, 3) && GrossMillions !in f.columns
    ensures f.columns + [GrossMillions] == DASHBOARD_COLUMNS + DERIVED_COLUMNS
  {
    MillionsPositions();
    ColumnIsAt(f, Gross, 3);
  }


  /** `powerbi_data_prep.py`: select the sixteen dashboard columns, clean
      them, then add the calculated columns. */
  method PrepareDashboard(movies: seq<Movie>) returns (dash: Frame)
    ensures dash.columns == DASHBOARD_COLUMNS + DERIVED_COLUMNS
    ensures |dash.rows| == |movies| && Rectangular(dash)
    ensures forall i :: 0 <= i < |movies| ==> dash.rows[i] == PreparedRow(movies[i], DurationMedian(movies))
  {
    dash := Select(movies, LABEL_COLUMN, DASHBOARD_COLUMNS);
    SelectStep(movies, dash);
    dash := CleanDashboard(movies, dash);
    dash := AddCalculatedColumns(movies, DurationMedian(movies), dash);
  }

  /** "Clean data": missing budgets and grosses become 0, missing durations
      the median duration. */
  method CleanDashboard(movies: seq<Movie>, selected: Frame) returns (dash: Frame)
    requires Shaped(selected, DASHBOARD_COLUMNS, movies)
    requires forall i :: 0 <= i < |movies| ==> selected.rows[i] == SelectedRow(movies[i])
    ensures Shaped(dash, DASHBOARD_COLUMNS, movies)
    ensures forall i :: 0 <= i < |movies| ==> dash.rows[i] == FilledRow(movies[i], DurationMedian(movies))
  {
    ScriptColumns();
    dash := SetColumn(selected, Budget, FillNa(Column(selected, Budget), Num(0.0)));
    FillBudgetStep(movies, selected, dash);
    ghost var prev := dash;
    dash := SetColumn(dash, Gross, FillNa(Column(dash, Gross), Num(0.0)));
    FillGrossStep(movies, prev, dash);
    prev := dash;
    dash := SetColumn(dash, Duration, FillMedian(Column(dash, Duration)));
    FillDurationStep(movies, prev, dash);
  }

  /** "Add calculated columns": profit, roi, and budget and gross in millions,
      appended in that order. */
  method AddCalculatedColumns(movies: seq<Movie>, med: Cell, cleaned: Frame) returns (dash: Frame)
    requires Shaped(cleaned, DASHBOARD_COLUMNS, movies)
    requires forall i :: 0 <= i < |movies| ==> cleaned.rows[i] == FilledRow(movies[i], med)
    ensures Shaped(dash, DASHBOARD_COLUMNS + DERIVED_COLUMNS, movies)
    ensures forall i :: 0 <= i < |movies| ==> dash.rows[i] == PreparedRow(movies[i], med)
  {
    ScriptColumns();
    dash := SetColumn(cleaned, Profit, Difference(Column(cleaned, Gross), Column(cleaned, Budget)));
    ProfitStep(movies, med, cleaned, dash);
    ghost var prev := dash;
    dash := SetColumn(dash, Roi, RoiColumn(Column(dash, Profit), Column(dash, Budget)));
    RoiStep(movies, med, prev, dash);
    prev := dash;
    dash := SetColumn(dash, BudgetMillions, InMillions(Column(dash, Budget)));
    BudgetMillionsStep(movies, med, prev, dash);
    prev := dash;
    dash := SetColumn(dash, GrossMillions, InMillions(Column(dash, Gross)));
    GrossMillionsStep(movies, med, prev, dash);
  }

  // ----------------------------------------------- properties of the result

  /** Positions of the cleaned and derived cells in a prepared row. */
  const DURATION := 1
  const BUDGET := 2
  const GROSS := 3
  const PROFIT := 16
  const ROI := 17
  const BUDGET_MILLIONS := 18
  const GROSS_MILLIONS := 19

  /** The thirteen columns the script does not clean are copied as they were selected. */
  lemma UncleanedColumnsKept(m: Movie, med: Cell)
    ensures |PreparedRow(m, med)| == |DASHBOARD_COLUMNS + DERIVED_COLUMNS| == 20
    ensures forall k :: 0 <= k < 16 && k !in {DURATION, BUDGET, GROSS} ==>
      PreparedRow(m, med)[k] == SelectedRow(m)[k]
  {
    var r, s := PreparedRow(m, med), SelectedRow(m);
    forall k | 0 <= k < 16 && k !in {DURATION, BUDGET, GROSS} ensures r[k] == s[k] {
      assert r[k] == FilledRow(m, med)[k];
    }
  }

  /** Budget and gross are never missing afterwards: a present amount is kept
      and a missing one becomes 0. */
  lemma AmountsFilled(m: Movie, med: Cell)
    ensures m.budget.Some? ==> PreparedRow(m, med)[BUDGET] == Num(m.budget.value)
    ensures m.budget.None? ==> PreparedRow(m, med)[BUDGET] == Num(0.0)
    ensures m.gross.Some? ==> PreparedRow(m, med)[GROSS] == Num(m.gross.value)
    ensures m.gross.None? ==> PreparedRow(m, med)[GROSS] == Num(0.0)
  {
  }

  /** Profit, budget in millions and gross in millions are never missing;
      profit plus budget gives the gross back, and each amount in millions
      times one million gives the amount back. */
  lemma DerivedAmounts(m: Movie, med: Cell)
    ensures var r := PreparedRow(m, med);
      r[BUDGET].Num? && r[GROSS].Num? && r[PROFIT].Num? &&
      r[BUDGET_MILLIONS].Num? && r[GROSS_MILLIONS].Num? &&
      r[PROFIT].x + r[BUDGET].x == r[GROSS].x &&
      r[BUDGET_MILLIONS].x * MILLION == r[BUDGET].x &&
      r[GROSS_MILLIONS].x * MILLION == r[GROSS].x
  {
  }

  /** Return on investment after the infinity replacement: missing exactly
      when budget and gross are both 0 (0/0), 0 when only the budget is 0,
      and otherwise the percentage of the budget the profit represents. */
  lemma RoiCases(m: Movie, med: Cell)
    ensures var r := PreparedRow(m, med);
      var budget, profit := r[BUDGET].x, r[PROFIT].x;
      (r[ROI].NA? <==> budget == 0.0 && r[GROSS].x == 0.0) &&
      (budget == 0.0 && r[GROSS].x != 0.0 ==> r[ROI] == Num(0.0)) &&
      (budget != 0.0 ==> r[ROI].Num? && r[ROI].x * budget == profit * 100.0)
  {
  }

  /** The duration is filled from the median of the durations present: a
      present duration is kept; a missing one becomes missing only when no
      movie has a duration, and otherwise a value between the shortest and
      the longest duration present. */
  lemma DurationFilled(movies: seq<Movie>, i: nat)
    requires i < |movies|
    ensures var d := PreparedRow(movies[i], DurationMedian(movies))[DURATION];
      (movies[i].duration.Some? ==> d == Num(movies[i].duration.value)) &&
      (d.NA? <==> forall j :: 0 <= j < |movies| ==> movies[j].duration.None?) &&
      (d.Num? ==> WithinRange(Durations(movies), d.x))
  {
    PreparedDuration(movies[i], DurationMedian(movies));
    var col := Durations(movies);
    MedianCellSpec(col);
    if forall j :: 0 <= j < |movies| ==> movies[j].duration.None? {
      assert !HasValue(col);
    } else {
      var j :| 0 <= j < |movies| && movies[j].duration.Some?;
      assert col[j].Num?;
      if movies[i].duration.Some? {
        assert WithinRange(col, movies[i].duration.value) by {
          assert col[i] == Num(movies[i].duration.value);
        }
      }
    }
  }

  lemma PreparedDuration(m: Movie, med: Cell)
    ensures PreparedRow(m, med)[DURATION] == FilledDuration(m, med)
  {
  }


  /** The label column holds the bin of the IMDB score, as in the export. */
  lemma CategoryIsScoreBin(m: Movie, med: Cell)
    ensures PreparedRow(m, med)[5] == CatCell(SuccessLabel(m.imdbScore))
  {
  }

  /** The millions columns undo the dashboard's conversion of its budget and
      gross inputs to dollars. */
  lemma MillionsUndoQueryScaling(q: App.QueryInput)
    ensures Budget in App.FEATURES && Gross in App.FEATURES
    ensures InMillions(Column(App.QueryFrame(q), Budget)) == [Num(q.budget as real)]
    ensures InMillions(Column(App.QueryFrame(q), Gross)) == [Num(q.gross as real)]
  {
    QueryAmounts(q);
  }

  /** The budget and gross columns of the dashboard's query frame. */
  lemma QueryAmounts(q: App.QueryInput)
    ensures Budget in App.FEATURES && Gross in App.FEATURES
    ensures Column(App.QueryFrame(q), Budget) == [Num(q.budget as real * MILLION)]
    ensures Column(App.QueryFrame(q), Gross) == [Num(q.gross as real * MILLION)]
  {
    var f := App.QueryFrame(q);
    assert App.FEATURES[1] == Budget && App.FEATURES[2] == Gross;
    assert IndexOf(f.columns, Budget) == 1 && IndexOf(f.columns, Gross) == 2;
  }
}
