# Sales anomaly dashboard: a Dafny model of its local logic

The system is a small sales-anomaly dashboard (`app.py`) plus a batch script
(`anomaly_detection.py`). They load a sales table and aggregate it per entity
(`unique_id`) and calendar day (`ds`). They pad each entity's series to a regular
daily calendar, send the series to a remote anomaly and forecast service, and
join the answer back onto the series. The dashboard then shows the newest
flagged days as insight cards, each with a spike/dip reading and a business tip
from a keyword table. Both programs first read settings from a `.env` file.

The model covers the local logic around the remote service:

- `Series`, `Aggregation`: the sales table as rows `(id, day, y)`, and the
  `groupby(['unique_id', date]).sum()` table as a map from `(id, day)` to the
  group sum. `Fill` gives the value after `fillna(0)`.
- `Padding`: the dashboard's shared window and the script's own span.
  - The shared window is the 181 days ending on the latest day of all entities.
  - The own span runs from each entity's first day to its last day.
  - Both outputs are ordered by `(unique_id, ds)`.
  - Empty input is an error, as in pandas.
- `Regularity`: what the padded tables keep. Each padded day holds its raw daily
  total, gaps read 0, sales are conserved, stale entities are all-zero, and rows
  older than the window do not change the table for entities already present.
- `Timestamps`: the shared window when timestamps carry a time of day (see Findings).
- `Service`: the subset filter and the request sent to the service. The service
  itself is an unseen function parameter.
- `Join`: the left merge, the inner merge, the merged column names, and the
  `y_anomaly` to `y` rename.
- `Insights`: spike/dip classification, the first-match keyword tip table, and
  the panel. The panel shows the six newest flagged rows, the total, and the
  "top 6 of N" notice.
- `Env`: `.env` line parsing and the last-setting-wins fold onto the environment.
- `Text`: the Python string operations used above: code-point order, ASCII
  `lower()`, `in`, `strip()`, and the first `=` that `split('=', 1)` finds.

Days are integers and values are exact reals. Every timestamp outside
`Timestamps` is assumed to be a date with no time of day.

Three details of the code shape the model:

- An empty table makes both padding paths raise: `max()` of an empty column is NaT,
  which `date_range` refuses, and `pd.concat([])` raises. The model returns
  `Failure(EmptyInput)`.
- The electronics keyword is `electronic`, so it also matches `electronics`.
- Only the unmatched *spike* tip embeds the magnitude. The unmatched dip tip is fixed text.

## Model

| member | source | states |
|---|---|---|
| Text.Lower | app.py:127 | `lower()` keeps the length; A-Z map to a-z and every other character is unchanged |
| Text.LowerIdempotent | app.py:127 | lower-casing an already lower-cased category changes nothing |
| Text.ContainsIffOccurs | app.py:131 | Python's substring `in` holds exactly when the keyword occurs at some index of the category |
| Text.BelowTotal | app.py:222 | two different ids are always ordered one way or the other by Python's string order |
| Text.BelowTransitive | app.py:222 | Python's string order is transitive |
| Text.TrimStart | anomaly_detection.py:12 | `lstrip()` removes a whitespace prefix, and only that: the rest starts with a non-space |
| Text.TrimEnd | anomaly_detection.py:12 | `rstrip()` removes a whitespace suffix, and only that: the rest ends with a non-space |
| Text.Strip | anomaly_detection.py:12-13 | `strip()` returns a text with no whitespace at either end, no longer than the input |
| Text.StripSplits | anomaly_detection.py:12-13 | every text is its `strip()` with whitespace added on both sides: nothing else is cut |
| Text.StripPadded | anomaly_detection.py:12-13 | stripping a trimmed text padded with whitespace gives exactly that text back |
| Text.StripIgnoresLeading | anomaly_detection.py:12-13 | extra leading whitespace does not change `strip()` |
| Text.StripIgnoresTrailing | anomaly_detection.py:12-13 | extra trailing whitespace does not change `strip()` |
| Text.StripChars | anomaly_detection.py:12-13 | `strip()` keeps every non-space character and adds none |
| Text.FirstIndexOf | anomaly_detection.py:12 | the index `split('=', 1)` splits at holds `=` and no earlier character is `=` |
| Env.ParseLine | anomaly_detection.py:10-13 | a line yields a setting exactly when it contains `=`; the key holds no `=`, and key and value are both stripped |
| Env.ParseLineSplits | anomaly_detection.py:12-13 | a line holding `=` parses to the split of its stripped text at the first `=` |
| Env.SplitStripped | anomaly_detection.py:12-13 | the key is the stripped text before the first `=`, so it holds no `=` |
| Env.ParseSplitsRaw | anomaly_detection.py:12-13 | stripping the line first changes nothing: the setting is the stripped text before the first `=` and the stripped rest, which may itself hold `=` |
| Env.ParseRoundTrip | anomaly_detection.py:10-13 | a key and value written with any whitespace around them and around `=` parse back exactly |
| Env.LastSetting | anomaly_detection.py:10-13 | the reference for one key: empty exactly when no line sets it, otherwise a value some line sets |
| Env.LastSettingWins | anomaly_detection.py:10-13 | the setting that decides a key is the last line that sets it |
| Env.Apply | anomaly_detection.py:13 | `os.environ[key] = value` raises exactly for an empty name, a name holding `=`, or a NUL character; otherwise the setting changes its own key and leaves every other key alone |
| Env.ApplyAll | anomaly_detection.py:10-13 | settings applied in file order: completes exactly when every setting is accepted, each key then holding its last setting or its old value; otherwise stops at the first refused setting, with exactly the settings before it applied |
| Env.LoadEnv | app.py:70-77 | `load_env`: completes exactly when every line's setting is accepted, each key ending with the value of the last line that sets it and other keys unchanged; otherwise raises at the first refused line, with only the lines before it applied |
| Env.BlankKeyLine | anomaly_detection.py:12-13 | a line such as `=x`, blank before its first `=`, sets the empty name, which is refused |
| Env.EmptyKeyRefused | app.py:74-77 | such a line after accepted lines makes `load_env` raise at that line, leaving the environment as the earlier lines set it and applying no later line |
| Env.RefusedStops | anomaly_detection.py:10-13 | a refused setting ends the fold: the settings before it applied, none after it |
| Env.LaterLineOverrides | anomaly_detection.py:10-13 | a key set on line `i` and on no later line ends with line `i`'s value, whether the load completes or raises after line `i` |
| Env.LastSettingApplied | anomaly_detection.py:13 | the same on parsed settings: the last setting of a key is the value left in the environment |
| Env.UnmentionedKeyKept | anomaly_detection.py:10-13 | a key no line sets keeps its previous value, or stays unset, whether the load completes or raises |
| Env.UnsetKeyKept | anomaly_detection.py:13 | the same on parsed settings |
| Series.RowsOf | app.py:114 | `df[df['unique_id'] == uid]` holds exactly the rows of that entity, in table order |
| Series.RowsOfConcat | app.py:114 | filtering on one entity commutes with concatenating tables |
| Series.DaySumAbsent | app.py:106-119 | a day on which an entity has no row has daily total 0 |
| Series.DaySumConcat | app.py:106 | the daily total of two tables together is the sum of their daily totals |
| Series.OrderedKeysDistinct | app.py:123 | a table sorted strictly by `(unique_id, ds)` has no two rows with the same key |
| Series.OrderedConcat | app.py:123 | two ordered blocks, the first wholly before the second, concatenate to an ordered table |
| Aggregation.Accumulate | app.py:106 | folding rows into running group sums adds each row's `y` to the group of its key, and only there |
| Aggregation.Aggregate | app.py:106-107 | one group per `(unique_id, day)` present in the input, holding the sum of that group's `y` |
| Aggregation.FillAbsent | app.py:119 | a day on which the entity has no row reads 0 after `fillna(0)` |
| Padding.InsertId | app.py:110 | inserting an id keeps the ids strictly ascending and adds exactly that id |
| Padding.SortedIds | app.py:110 | the entities, each once, in ascending order |
| Padding.AscendingUnique | app.py:123 | two strictly ascending id lists with the same members are the same list |
| Padding.MaxDay | app.py:98 | `max()` of the day column: some row has that day and no row is later |
| Padding.FirstDay | anomaly_detection.py:41 | the first day of an entity's own span: one of its rows has that day and none is earlier |
| Padding.LastDay | anomaly_detection.py:41 | the last day of an entity's own span: one of its rows has that day and none is later |
| Padding.SpanLength | anomaly_detection.py:41 | the own span has last − first + 1 days, so a single-day entity has one row |
| Padding.DailySeries | app.py:117-119 | the reference series: one row per consecutive day, each holding the entity's raw daily total |
| Padding.Window | app.py:117-119 | the left merge onto a calendar sets `unique_id` on every day and fills days with no group with 0 |
| Padding.WindowOrdered | app.py:123 | one entity's window is ordered by day |
| Padding.WindowIsDailySeries | app.py:106-119 | the merged and filled window equals the reference series |
| Padding.Regularize | app.py:110-123 | the padded table is ordered, holds no foreign id, and each entity's rows are its reference series on its calendar |
| Padding.Pad | app.py:110-123 | the padded blocks of the listed entities in the order given; every row belongs to a listed entity |
| Padding.PadOrdered | app.py:123 | concatenating the padded blocks in ascending id order gives a table sorted by `(unique_id, ds)` |
| Padding.PadRowsOf | app.py:112-121 | an entity's rows in the padded table are exactly its own window |
| Padding.PreprocessData | app.py:91-123 | `preprocess_data`: fails exactly on empty input; otherwise each entity has exactly the 181 days ending on the global latest day, each holding its raw daily total, ordered by `(unique_id, ds)` |
| Padding.PreprocessIsPad | app.py:110-123 | the dashboard table is the padded blocks of the sorted entities on the shared window |
| Padding.DailySales | anomaly_detection.py:33-46 | the script's table: fails exactly on empty input; otherwise each entity covers its own first to last day, each holding its raw daily total, ordered |
| Regularity.RowsCarryDaySums | app.py:106-119 | every padded row belongs to an input entity and holds that entity's raw total for its day |
| Regularity.RowCarriesDaySum | app.py:106-119 | the same fact for one row taken from the padded table |
| Regularity.GapsAreZero | anomaly_detection.py:43 | a padded day with no raw row reads exactly 0 |
| Regularity.DailySeriesSum | app.py:117-119 | a reference series sums to the entity's raw total over its days |
| Regularity.RangeSumCovers | anomaly_detection.py:41 | a day range covering all of an entity's days sums to its whole raw total |
| Regularity.SpanCovers | anomaly_detection.py:41 | an entity's own span covers all its rows, so the span total is its whole raw total |
| Regularity.WindowConservesSales | app.py:98-123 | each entity's padded total is its raw total over the 181 window days |
| Regularity.SpanConservesSales | anomaly_detection.py:33-46 | each entity's padded total equals its whole raw total |
| Regularity.StaleEntityIsAllZero | app.py:110-121 | an entity whose sales all predate the window still appears, with 181 zero days |
| Regularity.DaySumIgnores | app.py:102-117 | rows dated before a day do not change that day's total |
| Regularity.PadAgrees | app.py:110-123 | two tables with the same entities and the same daily totals on the window pad to the same table |
| Regularity.WindowDeterminesOutput | app.py:102-123 | two inputs with the same ids, latest day and window totals give the same dashboard table |
| Regularity.OldRowsIgnored | app.py:102-103 | adding rows of known entities dated before the window leaves the dashboard table unchanged |
| Regularity.SingleEntity | anomaly_detection.py:37-46 | with one entity the padded table is exactly its reference series |
| Regularity.OwnSpanExample | anomaly_detection.py:33-46 | rows (A,1,10), (A,1,15), (A,3,5) regularize to (A,1,25), (A,2,0), (A,3,5) |
| Regularity.ExampleSeries | anomaly_detection.py:37-46 | the same rows give the series (A,1,25), (A,2,0), (A,3,5) on days 1 to 3 |
| Regularity.ExampleSums | app.py:106 | the same rows have daily totals 25, 0 and 5 on days 1, 2 and 3 |
| Regularity.ExampleSpan | anomaly_detection.py:41 | the same rows have the single entity A, whose own span runs from day 1 to day 3 |
| Timestamps.Dates | app.py:106 | grouping on `ds.dt.date` keeps id and value and drops the time of day |
| Timestamps.Latest | app.py:98 | `max()` of the timestamps: some sale has it and none is later |
| Timestamps.LatestDay | app.py:98 | the latest timestamp falls on the latest date |
| Timestamps.MasterStamps | app.py:99-102 | the master range is 181 stamps one day apart, ending at the latest timestamp and keeping its time of day |
| Timestamps.MergeCell | app.py:107-119 | a master stamp meets a group only at that group's midnight; otherwise it reads 0 |
| Timestamps.MergeWindow | app.py:102-119 | the merged window: stamp `i` is day `max − 180 + i` at the latest time of day, holding the merge cell there |
| Timestamps.WindowAsWritten | app.py:98-119 | the window as written has 181 rows |
| Timestamps.AsWrittenLosesSales | app.py:98-119 | as written, a latest timestamp past midnight zeroes the whole window |
| Timestamps.AsWrittenAtMidnight | app.py:98-119 | as written, a latest timestamp at midnight gives the daily totals |
| Timestamps.AsWrittenCounterexample | app.py:98-119 | one sale of 5 at 10:00 reads 0 on its own day in the window as written |
| Timestamps.PreprocessNormalized | app.py:98-123 | the intended window (latest timestamp cut to its date): fails exactly on empty input; otherwise each input entity holds the daily totals of the 181 days ending on the latest date, no other entity has rows, and the table is ordered |
| Timestamps.NormalizedKeepsSales | app.py:98-123 | in the intended window each entity's total is its raw total over the 181 days, whatever the time of day |
| Service.Subset | app.py:151 | `isin(selected)` keeps exactly the rows of the selected entities |
| Service.SubsetOfOne | app.py:151 | selecting one entity is filtering on that entity |
| Service.SubsetConcat | app.py:151 | the subset filter commutes with concatenation |
| Service.DetectAnomalies | app.py:147-161 | no call exactly when the subset is empty; otherwise one daily anomaly call at the given level, carrying exactly the subset |
| Service.GenerateForecast | app.py:163-176 | no call exactly when the subset is empty; otherwise one 7-day forecast with 80% and 90% intervals, carrying exactly the subset |
| Service.Detected | app.py:147-161 | the anomaly table: empty when nothing is selected, else the service's answer on the subset |
| Service.ServiceNotInvoked | app.py:153-154 | with an empty subset the answer does not depend on the service at all |
| Service.SelectionReachesService | app.py:218-242 | a non-empty selection of the table's entities always reaches the service, for both calls |
| Join.MatchesOf | anomaly_detection.py:65 | the service rows with a given `(unique_id, ds)`, and only those |
| Join.Pairs | anomaly_detection.py:65 | one merged row per matching service row, in service order |
| Join.UniqueMatch | anomaly_detection.py:65 | with unique service keys, a key matches at most one service row |
| Join.Matched | app.py:243 | the merged rows that found a service row, and only those |
| Join.JoinHead | anomaly_detection.py:65 | one base row gives at least one merged row, each carrying that base row |
| Join.LeftJoin | anomaly_detection.py:65 | `merge(how='left')`: whatever the service returns, at least one row per base row, every base row appears, and no row carries a base row that is not in the table |
| Join.InnerJoin | app.py:243 | `merge(how='inner')`: the left merge without its unmatched rows |
| Join.MatchedConcat | app.py:243 | keeping the matched rows commutes with concatenation |
| Join.LeftJoinKeepsRows | anomaly_detection.py:65 | with unique service keys the left merge keeps the base table row for row, `y` included, and attaches a service row exactly when one has the key |
| Join.HeadKeepsRow | anomaly_detection.py:65 | with unique service keys one base row gives exactly one merged row |
| Join.PairsAllMatched | app.py:243 | rows paired with a service row all count as matched |
| Join.MergedColumns | anomaly_detection.py:65 | base columns keep their names; a non-key service column that clashes gets `_anomaly`; nothing else appears |
| Join.Reconcile | anomaly_detection.py:68-69 | the rename yields `y` exactly when `y` or `y_anomaly` was there, removes `y_anomaly` when it renames it, and touches no other column |
| Join.BaseValueNeverRenamed | anomaly_detection.py:64-69 | with `y` on the base side the merged table already has `y`, so the rename never fires; a service `y` becomes `y_anomaly` |
| Insights.Classify | app.py:352-361 | spike exactly when actual > upper, by actual/upper (actual when upper ≤ 0); otherwise dip, by lower/actual (0 when actual ≤ 0) |
| Insights.FactorAboveOne | app.py:352-361 | with positive bounds and value, the factor exceeds 1 exactly when the value lies outside the interval |
| Insights.ClassifyExamples | app.py:352-361 | 150 over an upper bound of 100 is a 1.5x spike; 40 under a lower bound of 100 is a 2.5x dip |
| Insights.FirstMention | app.py:130-145 | the first theme the category mentions: none exactly when it mentions none |
| Insights.ThemesInOrder | app.py:130-145 | the themes are tried in the order beauty/cosmetic, electronic/tech, clothing/fashion |
| Insights.TipFor | app.py:130-145 | the first mentioned theme's fixed text for the direction, or the fallback |
| Insights.BusinessTip | app.py:125-145 | `get_business_tip`: the same lookup on the lower-cased category |
| Insights.TipIgnoresCase | app.py:127 | letter case in the category makes no difference to the tip |
| Insights.OnlyGrowthUsesMagnitude | app.py:137-145 | two magnitudes give different tips only for an unmatched category's spike |
| Insights.FirstMatchWins | app.py:130-145 | for any category, direction and magnitude: when the lower-cased category mentions a theme and no earlier theme in table order, that theme's fixed text is the tip |
| Insights.BeautyBeforeTech | app.py:131-133 | the category "Beauty & Tech" gets the beauty tip |
| Insights.Anomalous | app.py:333 | `anomaly == 1` keeps exactly the flagged merged rows |
| Insights.AnomalyCount | app.py:253 | `anomaly.sum()`: at most the number of rows, 0 exactly when no row is flagged, and the number of rows exactly when every row is flagged |
| Insights.CountIsAnomalous | app.py:253 | the summed flag equals the number of flagged rows the cards are drawn from |
| Insights.InsertByDay | app.py:333 | inserting a row keeps the list newest-first and adds exactly that row |
| Insights.NewestFirst | app.py:333 | `sort_values('ds', ascending=False)`: a newest-first permutation of the flagged rows |
| Insights.Describe | app.py:350-368 | a card carries the row's day, id and value, the classified reading (direction and magnitude) of the value against the row's interval, spike exactly above the upper bound, and the tip for that reading |
| Insights.DescribeAll | app.py:337 | one card per shown row, in order |
| Insights.Newest | app.py:333-337 | the first `n` of the newest-first ranking, none of the rest newer than any shown |
| Insights.RankedPrefix | app.py:333-337 | any prefix of a newest-first ranking holds the newest rows |
| Insights.ShownFlagged | app.py:333-337 | every row shown as a card is flagged and comes from the merged table |
| Insights.InsightPanel | app.py:331-386 | no cards exactly when nothing is flagged; otherwise min(N, 6) cards for flagged rows, none older than a row left out, total N, and the notice exactly when N > 6 |

## Left out

- The web page, widgets, CSS, KPI formatting, HTML card markup and charts
  (plotly and matplotlib). They are presentation only.
- The remote anomaly and forecast service. It is an unseen function parameter;
  only the request built for it is modelled.
- CSV loading, file existence checks and the `.env` file's line splitting. The
  file's lines are a parameter.
- The process environment itself. It is a map from names to values. An assignment
  is refused for an empty name, a name holding `=` or a NUL in the name or value;
  failures that depend on the platform or on the file system encoding are not
  modelled.
- Parsing of date strings by `pd.to_datetime`. Days are integers. A time of day
  appears only in `Timestamps`.
- Discovery of the upper and lower bound columns by substring (app.py:342-346)
  and the `continue` when none is found. The bounds are explicit fields of a
  service row.
- Sniffing exception messages for API-key errors (app.py:388-391). It only
  chooses which message to show.
- The API-key and empty-selection guards of `main` (app.py:231-237). They end the
  run before any service call. The model starts after them:
  `Service.SelectionReachesService` takes a non-empty selection.
- Case-insensitive environment names. On Windows `os.environ` upper-cases names,
  so `a=1` followed by `A=2` sets one variable there; the model's names are
  case-sensitive, as on POSIX systems.
- Non-string id columns. The id column can be any column the user picks, and pandas
  orders numeric ids numerically (9 before 10). The model's ids are strings in
  code-point order, where "10" comes before "9".
- Floating-point arithmetic, NaN, rounding, and the `:.1f` and `:,.2f` number
  formats. Values are exact reals, and the growth tip carries its magnitude
  rather than the printed text.
- `lower()` beyond ASCII letters. Non-ASCII case mapping is not modelled.
- The order of rows with equal days after `sort_values('ds', ascending=False)`.
  pandas' default sort is not stable.
  - Insights.NewestFirst: states a newest-first permutation only, not which of
    several equal-day rows comes first.
- The inner merge with the column-less empty frame that `detect_anomalies`
  returns for an empty subset. pandas raises there for the missing key columns.
  The dashboard cannot reach it, because its selection is taken from the
  table's own entities (`Service.SelectionReachesService`).
- The default selection of the first two entities (app.py:223), the forecast
  sum KPI and the card layout in two columns.

## Findings

| source | as written | input that shows it | evidently intended | confidence | as-written member | corrected member |
|---|---|---|---|---|---|---|
| app.py:98-117 | The master range keeps the time of day of the latest timestamp, but the grouped days are midnights. No master stamp then meets a group, and the whole window reads 0. | one sale of 5 at 10:00 on day 0: the window's day 0 reads 0 instead of 5 | the latest timestamp cut to its date (`normalize()`), so the window holds the daily totals of the 181 days ending on the latest date | not executed | Timestamps.AsWrittenCounterexample | Timestamps.NormalizedKeepsSales |
