/** The Power BI export: the labelled table reduced to twelve columns, with no
    cleaning at all. */
module PowerBIData {
  import opened Wrappers
  import opened Bins
  import opened Columns
  import opened Frames
  import opened Movies

  /** Name of the label column this export adds. */
  const LABEL_COLUMN: Col := Success

  const EXPORT_COLUMNS: seq<Col> := [
    MovieTitle, Duration, Budget, Gross,
    ImdbScore, Success, NumVotedUsers,
    MovieFacebookLikes, DirectorFacebookLikes,
    TitleYear, Genres, Country]

  /** One exported row, field by field: every value is copied as it is, a
      missing value stays missing, and the label is that of the IMDB score. */
  function ExportRow(m: Movie): (r: seq<Cell>)
    ensures |r| == |EXPORT_COLUMNS|
    ensures forall k :: 0 <= k < |r| && IsNumberColumn(EXPORT_COLUMNS[k]) ==>
      r[k] == NumCell(Number(m, EXPORT_COLUMNS[k]))
    ensures forall k :: 0 <= k < |r| && IsTextColumn(EXPORT_COLUMNS[k]) ==>
      r[k] == StrCell(Text(m, EXPORT_COLUMNS[k]))
    ensures forall k :: 0 <= k < |r| && EXPORT_COLUMNS[k] == LABEL_COLUMN ==>
      r[k] == CatCell(SuccessLabel(m.imdbScore))
  {
    [StrCell(m.title), NumCell(m.duration), NumCell(m.budget), NumCell(m.gross),
     NumCell(m.imdbScore), CatCell(SuccessLabel(m.imdbScore)), NumCell(m.votedUsers),
     NumCell(m.movieLikes), NumCell(m.directorLikes),
     NumCell(m.titleYear), StrCell(m.genres), StrCell(m.country)]
  }

  /** `dashboard_df`: exactly the twelve listed columns in the listed order,
      one row per movie in the table's order, each row as `ExportRow` gives it. */
  function DashboardData(movies: seq<Movie>): (f: Frame)
    ensures f.columns == EXPORT_COLUMNS
    ensures |f.rows| == |movies|
    ensures forall i :: 0 <= i < |movies| ==> f.rows[i] == ExportRow(movies[i])
  {
    var f := Select(movies, LABEL_COLUMN, EXPORT_COLUMNS);
    assert forall i :: 0 <= i < |movies| ==> f.rows[i] == ExportRow(movies[i]) by {
      forall i | 0 <= i < |movies| ensures f.rows[i] == ExportRow(movies[i]) {
        ExportCells(movies[i]);
      }
    }
    f
  }

  lemma ExportCells(m: Movie)
    ensures seq(|EXPORT_COLUMNS|, k requires 0 <= k < |EXPORT_COLUMNS| => CellOf(m, LABEL_COLUMN, EXPORT_COLUMNS[k]))
      == ExportRow(m)
  {
  }

  /** Nothing is cleaned: every number column of the export holds the movie's
      own value, and a missing value stays missing. */
  lemma ExportKeepsNumbers(movies: seq<Movie>, i: nat, k: nat)
    requires i < |movies| && k < |EXPORT_COLUMNS| && IsNumberColumn(EXPORT_COLUMNS[k])
    ensures DashboardData(movies).rows[i][k].NA? <==> Number(movies[i], EXPORT_COLUMNS[k]).None?
    ensures Number(movies[i], EXPORT_COLUMNS[k]).Some? ==>
      DashboardData(movies).rows[i][k] == Num(Number(movies[i], EXPORT_COLUMNS[k]).value)
  {
  }
}
