# Movie success dashboard: the record-level core

The repository is a Streamlit dashboard that predicts whether a movie will be
a Hit, Average or Flop from the IMDB movie metadata file, together with two
scripts that export the same data for a Power BI dashboard. Under the user
interface and the classifier sits a small set of exact rules on tables of
movie records, and this project models and proves those rules:

- **Success labels.** The IMDB score is binned into Flop, Average or Hit.
  The bins are right-closed: (0,3], (3,6] and (6,10]. A score outside (0,10]
  and a missing score get no label. The dashboard uses this rule, and so do
  both export scripts (`Bins`).
- **Dashboard page logic** (`App`):
  - the home-page counts;
  - the six training features, with each missing value replaced by its
    column's median;
  - the query row built from the six input widgets, with budget and gross
    converted from millions to dollars;
  - the largest class probability behind the "Confidence" metric;
  - the ranked feature-importance table.
- **The twelve-column Power BI export** (`PowerBIData`). It selects columns
  and cleans nothing.
- **The Power BI preparation script** (`PowerBIPrep`). It selects sixteen
  columns, fills missing budgets and grosses with 0 and missing durations
  with the median duration. It then appends profit, return on investment
  (roi) and the two amounts in millions. The script updates one table
  column by column. `PrepareDashboard` is a method that selects the columns
  and then calls two helper methods, `CleanDashboard` and
  `AddCalculatedColumns`. The helpers have one statement per source line.
  They are proved against the per-row specifications `FilledRow` (after
  cleaning) and `PreparedRow` (the final row).

Supporting modules:

- `Frames` is a small model of a pandas table: named columns, rows of cells,
  and missing cells (`NA`). It provides `df[name]`, `df[name] = values`,
  `fillna` and `median`.
- `Movies` is the typed movie record and the column selection.
- `Stats` defines the median.
- `Sorting` is a sort specified by permutation and order.
- `Columns` is the column vocabulary.

The classifier is not modelled. Its class probabilities and feature
importances are inputs.

Three behaviours of the code are easy to expect otherwise, and the model
keeps the code's behaviour in each:

- **Out-of-range scores.** A score at or below 0 or above 10 is not clamped
  into the nearest bin. `pd.cut` leaves it unlabelled, and so does the model.
- **Query input.** Out-of-range query input raises no validation error. The
  code performs no check; the ranges exist only as widget bounds. The model
  therefore has no error case there.
- **Importance ties.** The order of equal importances is not guaranteed.
  The code calls `sort_values` with its default quicksort, which pandas does
  not document as stable. In practice it may keep ties in feature order. The
  model promises only a permutation in non-increasing order, which allows
  either order.

## Model

| member | source | states |
|---|---|---|
| Bins.SuccessLabel | Deployment/app.py:38-40 | A score in (0,3] is Flop, in (3,6] is Average and in (6,10] is Hit (each bin includes its upper bound, so 3 is Flop and 6 is Average); a missing score, a score at or below 0 or above 10 gets no label — nothing is clamped. This is `Cut` with the score bins and labels |
| Bins.BucketIn | Deployment/app.py:38-40 | For increasing bin edges, a value falls in bin k exactly when it is above edge k and at most edge k+1; `Cut` labels a present value with the label of this bin and leaves a missing value missing |
| Bins.BucketOutside | Deployment/app.py:38-40 | A value gets no bin exactly when there are fewer than two edges, it is at or below the first edge, or above the last |
| Bins.BucketMonotone | Deployment/app.py:38-40 | Binning is monotone: a larger value never lands in a lower bin |
| Bins.SuccessLabelMonotone | Deployment/app.py:38-40 | Of two labelled scores, the higher never gets the lower label in the order Flop, Average, Hit |
| Bins.Bucket | Deployment/app.py:38-40 | The bin index found is always that of an existing bin (below the number of edges minus one) |
| Bins.CountLabel | Deployment/app.py:67 | A label count is at most the number of rows, and zero exactly when no row carries that label |
| Bins.CountLabelIsMultiplicity | Deployment/app.py:67 | The count of a label is exactly the number of rows carrying it, as `value_counts` gives it |
| Bins.CountsPartition | Deployment/app.py:63-67 | The counts of the three labels and of unlabelled rows add up to the row count |
| App.HomeSummary | Deployment/app.py:63-67 | "Total Movies" is the row count; "Hit Movies" is the number of rows labelled Hit, at most the total, and zero exactly when no row has a score in (6,10] |
| App.HomeCountsPartition | Deployment/app.py:63-67 | Hit, Average, Flop and unlabelled rows together make up "Total Movies" |
| App.FeatureFrame | Deployment/app.py:101-103 | `df[features]` has the six features as columns, in order, and one row per movie |
| App.TrainingFeatures | Deployment/app.py:103 | The training matrix `X` has the six features as columns, in order, and one row per movie |
| App.FeatureColumn | Deployment/app.py:101-103 | Column k of `df[features]` holds each movie's own value of feature k, missing where the movie has none. This is `Select` of the six features |
| App.TrainingFeaturesImpute | Deployment/app.py:101-103 | A present feature value reaches the training matrix unchanged; a missing one becomes the median of that feature's present values, which lies between two present values. This is `FillMedians`, which fills each column of `df[features]` with its own median |
| App.TrainingFeaturesComplete | Deployment/app.py:103 | If every feature has a value somewhere, no training cell is missing; a feature missing everywhere stays missing in every row |
| App.QueryFrame | Deployment/app.py:91-98 | The query row has the six features in training order, budget and gross times one million, the other four copied |
| App.QueryMatchesTraining | Deployment/app.py:91-103 | The query row's columns are exactly the training matrix's columns, and none of its cells is missing |
| App.Confidence | Deployment/app.py:127 | The confidence is at least every class probability and equal to one of them |
| App.ImportanceTable | Deployment/app.py:140-143 | The table is a permutation of the (feature, importance) pairs, in non-increasing importance |
| App.ImportanceTableRows | Deployment/app.py:140-143 | The table has six rows, each feature's pair appears, every row is one of the pairs, and no feature appears twice |
| PowerBIData.ExportRow | Deployment/powerbi_data.py:11-16 | An exported row has twelve cells; each number or text column holds the movie's own value (missing stays missing) and the success column holds the score's bin |
| PowerBIData.DashboardData | Deployment/powerbi_data.py:7-16 | The export has exactly the twelve listed columns in order, one row per movie in the table's order, each row the movie's own values with its score label. This is `Select` of the twelve columns |
| PowerBIData.ExportKeepsNumbers | Deployment/powerbi_data.py:11-16 | Nothing is filled: a number cell of the export is missing exactly when the movie's value is, and otherwise equals it |
| PowerBIPrep.PrepareDashboard | Deployment/powerbi_data_prep.py:35-55 | The result has the sixteen selected columns then profit, roi, budget_millions, gross_millions; one row per movie in order; each row is `PreparedRow` of its movie with the median duration |
| PowerBIPrep.CleanDashboard | Deployment/powerbi_data_prep.py:46-49 | After the three fill statements the sixteen columns are unchanged and each row is the movie's filled row, with the median of the durations present |
| PowerBIPrep.AddCalculatedColumns | Deployment/powerbi_data_prep.py:51-55 | After the four assignments the columns are the sixteen followed by profit, roi, budget_millions, gross_millions, and each row is `PreparedRow` of its movie. It appends `Difference`, `RoiColumn` and two `InMillions` columns |
| PowerBIPrep.PreparedRow | Deployment/powerbi_data_prep.py:44-55 | A prepared row has twenty cells, and its budget, gross, profit and both millions cells are never missing |
| PowerBIPrep.UncleanedColumnsKept | Deployment/powerbi_data_prep.py:44-49 | A prepared row has twenty cells, and every selected column other than duration, budget and gross is copied unchanged. The selection is `Select` of the sixteen columns |
| PowerBIPrep.AmountsFilled | Deployment/powerbi_data_prep.py:47-48 | A present budget or gross is kept; a missing one becomes 0. This is `FillNa` with 0 |
| PowerBIPrep.DurationFilled | Deployment/powerbi_data_prep.py:49 | A present duration is kept; a missing one stays missing exactly when no movie has a duration, and otherwise lies between two present durations |
| PowerBIPrep.DerivedAmounts | Deployment/powerbi_data_prep.py:47-55 | Budget, gross, profit and both millions cells are never missing; profit plus budget is gross; each amount in millions times one million is the amount. These are the `Difference` and `InMillions` columns |
| PowerBIPrep.RoiCases | Deployment/powerbi_data_prep.py:53 | roi is missing exactly when filled budget and gross are both 0 (0/0); it is 0 when only the budget is 0 (the infinity is replaced); otherwise roi times budget is profit times 100. This is the `RoiColumn` cell |
| PowerBIPrep.RoiCell | Deployment/powerbi_data_prep.py:53 | The floating-point chain divide, scale by 100, replace infinities is missing when an amount is missing and otherwise agrees with the case-by-case roi (percentage, 0 for x/0, missing for 0/0) |
| PowerBIPrep.ReplaceInfinities | Deployment/powerbi_data_prep.py:53 | Each infinity becomes the replacement value, finite values and NaN are untouched, so no infinity is left |
| PowerBIPrep.CategoryIsScoreBin | Deployment/powerbi_data_prep.py:30-32 | The success_category cell is the score's bin, the same rule as the dashboard's |
| PowerBIPrep.MillionsUndoQueryScaling | Deployment/powerbi_data_prep.py:54-55 | Dividing the dashboard query's dollar budget and gross by one million gives back the widget values |
| Frames.MedianCell | Deployment/powerbi_data_prep.py:49 | The median of a column is a number or missing, never text |
| Frames.SetColumnThenColumn | Deployment/powerbi_data_prep.py:47-55 | Reading a column just assigned gives the assigned values, other columns are unchanged and names stay unique. This is `Column` (`df[name]`) read back after `SetColumn` (`df[name] = values`) |
| Frames.FillMedianSpec | Deployment/app.py:103 | Median filling keeps present cells and replaces each missing cell by the column median, which lies within the present values. This is `FillNa` with the column median |
| Frames.FillMedianComplete | Deployment/powerbi_data_prep.py:49 | After median filling of a numeric column with some value no cell is missing; a column with no value is left unchanged |
| Frames.MedianCellSpec | Deployment/app.py:103 | The median of a column is missing exactly when it has no number, and otherwise lies between two of its numbers |
| Stats.Median | Deployment/app.py:103 | The median of no values is absent; otherwise it lies between two of the values |
| Stats.SortedUnique | Deployment/app.py:103 | Two ascending orderings of the same values (repeats included) are equal, so the ordering the median reads is fixed by the values |
| Stats.MedianIsMiddle | Deployment/app.py:103 | The median of a non-empty list is the middle value of its ascending ordering, or the mean of the two middle values for an even count |
| Frames.PresentMultiplicity | Deployment/powerbi_data_prep.py:49 | The numbers the median reads are the column's numbers, each as often as the column holds it; missing cells are skipped |
| Frames.MedianCellIsMiddle | Deployment/powerbi_data_prep.py:49 | A column's median is the middle of its numbers (repeats included) in ascending order, or the mean of the two middle ones for an even count |
| Stats.MedianHalves | Deployment/app.py:103 | At least half of the values are at most the median and at least half are at least the median |
| Sorting.SortBy | Deployment/app.py:140-143 | The result is a permutation of the input, sorted by the key |

## Left out

- The Streamlit user interface: page set-up, navigation, widgets, metrics,
  charts, images and text. It is presentation only.
- The "Features" metric (`df.shape[1]`). It is the number of columns of the
  CSV file plus the `success` column that `load_data` adds. The model does
  not represent columns the scripts never read.
- The "Model Accuracy" metric and the insight texts. They are fixed text.
- The RandomForest classifier: training, prediction, class probabilities
  and importances. It is library code that cannot be seen. Probabilities
  and importances are inputs.
- CSV reading and writing, the fallback data path, `load_dotenv`, the
  `sys.path` change and all printed output. These are I/O and environment
  set-up.
- Widget bounds on the query inputs (duration 60-240, and so on). The code
  never checks them itself, so `QueryInput` takes any whole numbers.
- Floating-point rounding. Values are exact reals. Only the roi's
  infinities and NaN are modelled, with the `Float` datatype.
- App.Confidence: returns the largest probability as a fraction. The
  metric's scaling by 100 into a percentage and its `:.1f` formatting are
  display only, and neither is modelled.
- Columns of the metadata file that none of the scripts reads are not part
  of the movie record.
- Reading a column that does not exist, and values of the wrong type in a
  numeric column. Both raise pandas errors. The typed movie record rules
  them out, so they are not modelled.
- App.Confidence: requires at least one probability. Python's `max` of an
  empty list raises an error, and the classifier returns one probability
  per class, of which there are three.
- App.ImportanceTable: requires one importance per feature. pandas rejects
  columns of unequal length, and the classifier gives one importance per
  feature.
- App.ImportanceTable: does not promise an order among equal importances,
  because pandas does not guarantee a tie order for the default
  `sort_values` quicksort.
- PowerBIPrep.PrepareDashboard: the table is a value that each statement
  replaces, and the cleaning and the calculated columns are two helper
  methods following the script's two comment-headed blocks. pandas'
  in-place column assignment and any aliasing of the frame are not
  modelled.
