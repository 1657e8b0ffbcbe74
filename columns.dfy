/** The column vocabulary of the three scripts: the headers of the movie
    metadata file they read, the label columns they add ("success" in the
    dashboard and the Power BI export, "success_category" in the Power BI
    preparation) and the derived columns of the preparation. Each constructor
    is its header in camel case: `MovieTitle` is "movie_title", `Roi` is "roi". */
module Columns {

  datatype Col =
    | MovieTitle | Duration | Budget | Gross | ImdbScore | NumVotedUsers
    | MovieFacebookLikes | DirectorFacebookLikes | TitleYear | Genres | Country
    | Language | ContentRating | AspectRatio | Color
    | Success | SuccessCategory
    | Profit | Roi | BudgetMillions | GrossMillions

  /** A column read from the metadata file and holding numbers. */
  predicate IsNumberColumn(c: Col) {
    c in {Duration, Budget, Gross, ImdbScore, NumVotedUsers, MovieFacebookLikes,
          DirectorFacebookLikes, TitleYear, AspectRatio}
  }

  /** A column read from the metadata file and holding text. */
  predicate IsTextColumn(c: Col) {
    c in {MovieTitle, Genres, Country, Language, ContentRating, Color}
  }

  /** Dollars in a million: the dataset's amounts are in dollars, the query
      widgets and the dashboard's derived columns in millions. */
  const MILLION: real := 1000000.0
}
