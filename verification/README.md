# financial-etl transform stage, modelled in Dafny

This project models the core of the financial ETL pipeline: the `transform`
stage. It takes an unordered table of daily OHLCV price records and sorts it
by date. It then derives five analytics columns from the ordered close
series:

- `daily_return`, via `pct_change`;
- `volatility_7d`, a 7-row rolling sample standard deviation of the returns;
- `mean_20d` and `mean_50d`, the 20- and 50-row simple moving averages of the close;
- `day_type`, a gain/loss/neutral label with thresholds of plus and minus 1 %.

It also models the pure step of `extract` that follows the HTTP call. That
step checks for the `"Time Series (Daily)"` key and turns the series into
one raw record per date.

Modules, one per file:

- `Wrappers` (`wrappers.dfy`): `Option` stands for pandas' NaN. `Result` stands for an operation that can raise.
- `Prices` (`prices.dfy`): the typed daily record `Row`, the `DayType` label, and the date and close columns.
- `Sorting` (`sorting.dfy`): the date sort, a functional insertion sort.
- `Stats` (`stats.dfy`): sum, mean, and sample variance with an n − 1 denominator.
- `Series` (`series.dfy`): the column operations `pct_change`, rolling mean, rolling variance and classification, with their lemmas.
- `Transform` (`transform.dfy`): the enriched record and the `transform` stage itself, with the per-column lemmas.
- `Extract` (`extract.dfy`): the payload key check and the conversion from dictionary to rows.

Prices are Dafny `real`s, and a missing cell is `None`. Rolling windows
follow pandas' default `min_periods`, which equals the window size. A
rolling value is therefore present only when its window is full and holds
no missing cell. Volatility is modelled as its square, the sample variance.

## Model

| member | source | states |
|---|---|---|
| Sorting.SortByDate | financial-etl/etl_pipeline.py:53 | the sorted table has the input's length, is non-decreasing by date, and is a permutation of the input rows, duplicate dates kept |
| Sorting.SortSortedIsIdentity | financial-etl/etl_pipeline.py:53 | a table already in date order comes out of the model's sort unchanged; same-dated rows keep their input order (see "## Left out") |
| Sorting.SortedDatesDetermined | financial-etl/etl_pipeline.py:53 | any two date-ordered permutations of the same rows have the same date column, so an unstable sort can only reorder rows that share a date |
| Sorting.DistinctDatesDetermineOrder | financial-etl/etl_pipeline.py:53 | when no date repeats, every date-ordered permutation of the rows equals the model's sorted table, so any sort, stable or not, gives that result |
| Stats.SampleVariance | financial-etl/etl_pipeline.py:57 | the sample variance exists exactly when the window has at least two values, and it is never negative |
| Stats.MeanWithinBounds | financial-etl/etl_pipeline.py:58-59 | a mean lies between any lower and upper bound that all its values obey |
| Stats.ConstantHasZeroVariance | financial-etl/etl_pipeline.py:57 | a constant window has that constant as its mean and zero sample variance |
| Series.PctChange | financial-etl/etl_pipeline.py:56 | the return column has one cell per price; it is missing on the first row and present on every later row |
| Series.ReturnsRebuildSeries | financial-etl/etl_pipeline.py:56 | compounding the returns from the first price rebuilds the whole price series, so `pct_change` loses only the first price |
| Series.RollingMean | financial-etl/etl_pipeline.py:58-59 | the rolling mean at row i is present exactly when the window of w cells ending at i is full and has no missing cell |
| Series.RollingVariance | financial-etl/etl_pipeline.py:57 | the rolling variance is present exactly when the window is full and w ≥ 2; a present value is never negative |
| Series.Classify | financial-etl/etl_pipeline.py:60-62 | Gain iff the return is present and above 0.01; Loss iff it is present and below −0.01; Neutral iff it is missing or within [−0.01, 0.01], so exactly 0.01 is Neutral |
| Series.ClassifyByPrice | financial-etl/etl_pipeline.py:56-62 | given a positive previous close, a day is Gain iff its close is above 1.01 times the previous close, and Loss iff it is below 0.99 times it |
| Series.ClassifyMonotone | financial-etl/etl_pipeline.py:60-62 | a larger return never receives a lower label in the order Loss < Neutral < Gain |
| Series.RollingMeanOfSeries | financial-etl/etl_pipeline.py:58-59 | over a column with no gaps, the rolling mean at i is missing iff i < w − 1; otherwise it equals the mean of values i − w + 1 to i |
| Series.RollingMeanSlides | financial-etl/etl_pipeline.py:58-59 | from one full window to the next, the moving average changes by (entering close − leaving close) / w |
| Series.RollingMeanWithinWindowRange | financial-etl/etl_pipeline.py:58-59 | a moving average stays within any bounds that its window's closes obey |
| Series.RollingVarianceOfReturns | financial-etl/etl_pipeline.py:56-57 | for a window w ≥ 2 over the returns, the rolling variance at i is present iff i ≥ w, and then equals the sample variance of returns i − w + 1 to i |
| Series.PrefixStable | financial-etl/etl_pipeline.py:56-59 | `pct_change`, the rolling mean and the rolling variance of the first n rows equal the first n cells of the full computation |
| Transform.Enrich | financial-etl/etl_pipeline.py:55-62 | deriving the analytics columns leaves each row's date, open, high, low, close and volume unchanged |
| Transform.Transform | financial-etl/etl_pipeline.py:40-64 | the output is date-ordered, has the input's length, its original columns are a permutation of the input rows, and every close is non-zero |
| Transform.TransformDailyReturn | financial-etl/etl_pipeline.py:53-56 | the first output row has no return; every later row's return is its close divided by the previous output row's close, minus one |
| Transform.TransformMovingAverages | financial-etl/etl_pipeline.py:58-59 | `mean_20d` is present iff i ≥ 19 and is then the mean of closes i − 19 to i; `mean_50d` likewise with 49 and 50 |
| Transform.TransformVolatility | financial-etl/etl_pipeline.py:56-57 | the 7-row variance is missing for i < 7 and present for i ≥ 7; it then equals the sample variance of returns i − 6 to i, all present, and is never negative |
| Transform.TransformDayType | financial-etl/etl_pipeline.py:60-62 | the first row is Neutral; Gain iff the return exceeds 0.01; Loss iff it is below −0.01; with a positive previous close, Gain and Loss are equivalent to moves of more than 1 % up and down |
| Transform.TransformIsCausal | financial-etl/etl_pipeline.py:53-62 | on a chronological table, transforming the first n days yields the first n output rows, so later days never change earlier analytics (tie order as in "## Left out") |
| Transform.TransformOfDistinctDates | financial-etl/etl_pipeline.py:53-62 | when no date repeats, the output is the enrichment of the one chronological arrangement of the input, whatever order the sort would give ties |
| Transform.TransformDatesDetermined | financial-etl/etl_pipeline.py:53 | the output's date column equals that of every chronological permutation of the input, whatever order the sort gives same-dated rows |
| Transform.TwentyRowsHaveOneShortMean | financial-etl/etl_pipeline.py:58-59 | a 20-row table has exactly one `mean_20d`, on its last row, and no `mean_50d` |
| Transform.ThreeDayScenario | financial-etl/etl_pipeline.py:53-62 | days dated 3, 1, 2 with closes 99, 100, 101 come out dated 1, 2, 3 with returns [none, 0.01, −2/101] and labels [Neutral, Neutral, Loss] |
| Extract.ExtractRows | financial-etl/etl_pipeline.py:32-37 | fails with the payload iff the series key is missing; fails as malformed when the series is not an object, or when its first entry is an object and then either a later entry is not one or some entry has a field named `date` (the date column `reset_index` adds would clash with it); otherwise one row per entry in the series' order, each carrying its date key and entry, with distinct dates when the keys are distinct; this matches pandas when every entry carries the same fields (see "## Left out") |

## Left out

- The HTTP request, the API endpoint and the loading of configuration and credentials (etl_pipeline.py:9-12, 23-30) are network and environment I/O. The model starts from the decoded payload.
- `load` (etl_pipeline.py:67-79) writes a CSV file, which is file I/O. The CSV round trip is therefore not modelled.
- `plot_data` (etl_pipeline.py:82-104) only calls the chart library.
- Parsing of dates and numbers (`pd.to_datetime`, `astype(float)`, etl_pipeline.py:49-51) is left out. `Row` holds typed fields, with the date as a day ordinal, so the error for a malformed record is not modelled. Raw rows from `Extract.ExtractRows` are not converted into `Row`s.
- The column renaming at etl_pipeline.py:52 is captured by the field names of `Row`.
- Floating-point arithmetic is modelled by exact `real` arithmetic. Rounding, NaN propagation beyond `Option`, and infinities are not modelled.
- Transform.Transform: requires every close to be non-zero. pandas gives inf or NaN for a return divided by a zero previous close, and that floating-point case is not modelled. The requirement also excludes a zero close on the latest-dated row, which is never a divisor. pandas would give that row a return of −1.0 and the label loss; the model does not cover that input.
- Transform.TransformVolatility: states the variance, which is the square of `volatility_7d`. The square root taken by `std()` is not modelled.
- Series.RollingVariance: computes the variance rather than the standard deviation, for the same reason.
- Sorting.SortByDate: fixes one tie order, insertion order, while pandas' default quicksort leaves the order of same-dated rows unspecified. Its contract promises only what every sort gives: date order plus permutation. `Sorting.SortedDatesDetermined` shows that the date column does not depend on tie order. When dates repeat, the close-based columns can depend on tie order, so the model's output is then one of the possible outputs. When no date repeats, `Sorting.DistinctDatesDetermineOrder` and `Transform.TransformOfDistinctDates` show that every sort agrees with the model. The series from the API has distinct dates, because they are keys of one JSON object.
- Sorting.SortSortedIsIdentity: with repeated dates, it states the model's own tie order, which keeps same-dated rows in input order; pandas' quicksort does not promise this. With distinct dates it holds for every sort, by `Sorting.DistinctDatesDetermineOrder`.
- Transform.TransformIsCausal: rests on the same tie order when dates repeat, so for the program it is promised only when no date repeats, where `Transform.TransformOfDistinctDates` makes the model's output the program's.
- Extract.ExtractRows: the decoded JSON is reduced to strings and objects, with each object's members kept in document order. When the first entry is not an object, pandas builds a one-column table instead of failing; the model then returns the rows, and what pandas does with the later entries is not modelled. When the first entry is an object, pandas builds one column per field; a field named `date` makes `reset_index` raise, and the model fails on it too. A date whose entry has no fields then lands in no column and gets no row, while the model still gives it one. When entries carry different fields, pandas orders rows by their first appearance across the columns, not by the series' order. The model's rows follow the series exactly only when every entry carries the same fields, as the API's daily entries do. The order does not reach the output when dates are distinct, because `transform` sorts by date (`Transform.TransformOfDistinctDates`).
- Dates are expected to be unique within a series, but the code never checks this, so the model keeps duplicate dates.
- Transform.ThreeDayScenario: day 2 is Neutral only in exact arithmetic. In doubles, 101.0 / 100.0 − 1 is 0.010000000000000009, which is above the double 0.01, so the program labels that day a gain.
- `transform` changes the caller's table in place: etl_pipeline.py:49 converts its `date` column and :51 its numeric columns, before the `rename` at :52 makes a new table. The pure `Transform.Transform` has no such effect. The pipeline never reads the raw table again after `transform`, so nothing downstream sees the difference.
