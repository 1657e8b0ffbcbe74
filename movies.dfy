/** The movie metadata table all three scripts start from, restricted to the
    columns they use, and `df[columns]` selection out of it. Each numeric
    field is missing (`None`) where the file has an empty cell. */
module Movies {
  import opened Wrappers
  import opened Bins
  import opened Columns
  import opened Frames

  datatype Movie = Movie(
    title: Option<string>,
    duration: Option<real>,
    budget: Option<real>,
    gross: Option<real>,
    imdbScore: Option<real>,
    votedUsers: Option<real>,
    movieLikes: Option<real>,
    directorLikes: Option<real>,
    titleYear: Option<real>,
    genres: Option<string>,
    country: Option<string>,
    language: Option<string>,
    contentRating: Option<string>,
    aspectRatio: Option<real>,
    color: Option<string>)

  /** A numeric column of the table. */
  function Number(m: Movie, c: Col): Option<real>
    requires IsNumberColumn(c)
  {
    match c
    case Duration => m.duration
    case Budget => m.budget
    case Gross => m.gross
    case ImdbScore => m.imdbScore
    case NumVotedUsers => m.votedUsers
    case MovieFacebookLikes => m.movieLikes
    case DirectorFacebookLikes => m.directorLikes
    case TitleYear => m.titleYear
    case AspectRatio => m.aspectRatio
  }

  /** A text column of the table. */
  function Text(m: Movie, c: Col): Option<string>
    requires IsTextColumn(c)
  {
    match c
    case MovieTitle => m.title
    case Genres => m.genres
    case Country => m.country
    case Language => m.language
    case ContentRating => m.contentRating
    case Color => m.color
  }

  /** A column of the table once the success label has been added to it as
      `labelColumn`. */
  predicate IsColumn(labelColumn: Col, c: Col) {
    c == labelColumn || IsNumberColumn(c) || IsTextColumn(c)
  }

  /** The cell of one row in the given column; the label column holds the
      success label of the row's IMDB score. */
  function CellOf(m: Movie, labelColumn: Col, c: Col): (cell: Cell)
    requires IsColumn(labelColumn, c)
    ensures IsNumberColumn(c) && c != labelColumn ==> IsNumeric(cell)
  {
    if c == labelColumn then CatCell(SuccessLabel(m.imdbScore))
    else if IsNumberColumn(c) then NumCell(Number(m, c))
    else StrCell(Text(m, c))
  }

  /** `df[names]` on the labelled table: one row per movie, in order, with the
      named columns in the order given. */
  function Select(movies: seq<Movie>, labelColumn: Col, names: seq<Col>): (f: Frame)
    requires forall k :: 0 <= k < |names| ==> IsColumn(labelColumn, names[k])
    ensures f.columns == names && |f.rows| == |movies| && Rectangular(f)
    ensures forall i, k :: 0 <= i < |movies| && 0 <= k < |names| ==>
      f.rows[i][k] == CellOf(movies[i], labelColumn, names[k])
  {
    Frame(names, seq(|movies|, i requires 0 <= i < |movies| =>
      seq(|names|, k requires 0 <= k < |names| => CellOf(movies[i], labelColumn, names[k]))))
  }

  /** The column of the labelled table holding the success labels. */
  function LabelColumn(movies: seq<Movie>): (labels: seq<Option<Label>>)
    ensures |labels| == |movies|
    ensures forall i :: 0 <= i < |movies| ==> labels[i] == SuccessLabel(movies[i].imdbScore)
  {
    seq(|movies|, i requires 0 <= i < |movies| => SuccessLabel(movies[i].imdbScore))
  }
}
