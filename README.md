# Sales dashboard pipeline, modelled in Dafny

This project models the data pipeline behind a Streamlit sales dashboard (`app.py`). The
pipeline has four stages:

- It reads one CSV from each of two zip archives.
- It stacks them into one sales table. It drops the accidental `Unnamed: 0` index column,
  coerces `date`, `store_nbr`, `sales` and `onpromotion`, and derives `year`, `month` and the
  ISO `week` when the data lacks them.
- It builds a transactions table with one row per `(date, store_nbr)`, so that transaction
  sums are not multiplied by the number of product families sold that day.
- It filters both tables to the chosen days and computes the dashboard's figures:
  - the distinct counts;
  - the grouped sums with their rankings (top N by sales) and year orderings;
  - the store and state tabs;
  - the promotion share;
  - the daily series with its trailing mean over 14 daily rows.

Tables are values: a `Table` holds a column list and a sequence of `Record`s. A record has a
pandas index label and a map of cells. A missing cell (NaN, NaT, `<NA>`) is a name absent from
the map. Timestamps are a calendar date plus the nanoseconds since its midnight, the
resolution pandas stores.

The places where the program assigns columns in place are modelled as methods on the class
`Frames.Frame`:
- `df = df.drop(...)` and the `df[c] = ...` assignments of `load_data`;
- `base["transactions"] = ...`;
- `daily["rolling_14"] = ...`.

Each method is proved equal to the pure function that specifies it.

Modules (one file each):
- `Wrappers`: `Option` and `Result`.
- `Calendar`: the proleptic Gregorian calendar and ISO 8601 week numbering. Week 1 is the week
  holding the year's first Thursday (section 2.2.10 of ISO 8601:2004).
- `CalendarExamples`: the ISO weeks of three dates around the turn of a year.
- `Frames`: tables, masks, sums and the `Frame` class.
- `Archive`: `read_csv_from_zip`.
- `Loader`: `load_data`.
- `Transactions`: `build_transactions_table`.
- `DateFilter`: the sidebar's date range.
- `Aggregates`: `nunique`, `groupby().sum()`, `sort_values`, `head`, the promotion split and
  `rolling(14, min_periods=1).mean()`.
- `Dashboard`: the figures of the four tabs.

The failures that stop the dashboard become `LoadError` values:
- `st.error` followed by `st.stop`: `MissingFile`, `NoCsvEntry`, `EmptyCsv`;
- a `KeyError` on an absent column: `MissingColumn`;
- a failing `astype`: `CastError`.

## Model

| member | source | states |
|---|---|---|
| Archive.LowerChar | app.py:23 | str.lower on one character: an ASCII capital becomes its small letter, every other character is unchanged |
| Archive.CsvNameCaseInsensitive | app.py:23 | names ending in .csv, .CSV or .Csv are CSV entries; a name ending in .csv.zip is not |
| Archive.CsvPositions | app.py:23 | the positions kept are increasing and are exactly those of the entries whose lower-cased name ends in .csv |
| Archive.CsvEntries | app.py:23 | the list comprehension keeps the .csv entries in the archive's order, each as often as it occurs: entry j of the result is the archive's entry at the j-th .csv position |
| Archive.FirstMax | app.py:31 | max with key=file_size: the chosen position is at least as large as every entry and strictly larger than every entry before it, so it is the first largest |
| Archive.SelectEntry | app.py:17-35 | missing archive, no .csv entry and an empty largest .csv each fail with their own error, exactly in that case; otherwise the result is a .csv entry of positive size, no smaller than any other .csv entry, and it sits at a position of the archive before which every .csv entry is strictly smaller |
| Archive.LargestCsvPosition | app.py:31-35 | the archive position of the entry max(infos, key=file_size) returns: a .csv entry no smaller than any .csv entry, with every .csv entry before it in the archive strictly smaller |
| Archive.ReadCsvFromZip | app.py:17-39 | reading succeeds exactly when selection does, and then yields the parsed table of the selected entry; otherwise it yields the selection's error |
| Calendar.DaysInYear | app.py:74 | a year has 365 or 366 days |
| Calendar.MonthsTileYear | app.py:74 | the months follow one another without gap and end on the year's last day |
| Calendar.YearStartNext | app.py:74 | each year starts DaysInYear days after the previous one |
| Calendar.IsoWeek | app.py:74 | isocalendar().week lies in 1..53 |
| Calendar.IsoWeekMeansFirstThursdayRule | app.py:74 | the ISO year is the date's year or a neighbour; the date lies in the 7 days starting on the Monday (week - 1) weeks after the Monday of the week that holds its ISO year's first Thursday, and before the Monday of week 1 of the next ISO year, so no other (year, week) pair places it |
| CalendarExamples.IsoWeekOfJanuarySecond2023 | app.py:74 | 2023-01-02 is in week 1 of 2023 |
| CalendarExamples.IsoWeekOfJanuaryFirst2023 | app.py:74 | 2023-01-01 is in week 52 of 2022 |
| CalendarExamples.IsoWeekOfDecember30th2024 | app.py:74 | 2024-12-30 is in week 1 of 2025 |
| Calendar.InstantWithinDays | app.py:123-127 | an instant lies between the first day's midnight and the midnight after the last day exactly when its day lies between the two days |
| Frames.Concat | app.py:51 | pd.concat with ignore_index: the first table's rows then the second's, cells unchanged (no dtype unification, see "Left out"), labelled 0..n-1, the first table's columns then the second's new ones |
| Frames.DropColumn | app.py:59-60 | drop removes that one column and its cells; rows, labels and other cells stay |
| Frames.AssignColumn | app.py:62-74 | assigning a column replaces it, or appends it when new; every other cell and every label stays |
| Frames.Project | app.py:94-95 | the projection keeps the listed columns the table has, in list order, and every row with its label |
| Frames.WhereIndices | app.py:126-127 | the mask's positions are increasing and are exactly the rows on which the mask holds |
| Frames.Where | app.py:126-127 | a filtered table keeps the columns, and its rows are rows of the table |
| Frames.WhereKeeps | app.py:126-127 | a mask keeps the columns and, in order and with their labels, exactly the rows it holds on |
| Frames.SumSplits | app.py:412-424 | a mask and its negation split a column's sum into two parts that add up to the whole |
| Frames.SumOfPickAtMost | app.py:95 | keeping only some rows never raises the sum of a non-negative column |
| Frames.SumOfPickBelow | app.py:95 | leaving out a row with a positive value makes the sum strictly smaller |
| Frames.Frame.constructor | app.py:93-95 | a new frame holds the given table |
| Frames.Frame.Drop | app.py:59-60 | the frame now holds its old table without the column |
| Frames.Frame.Assign | app.py:62-74 | the frame now holds its old table with the column assigned |
| Loader.Truncate | app.py:67 | astype(int) cuts the fraction towards zero |
| Loader.Coerce | app.py:62 | to_datetime gives a timestamp or a missing value, never anything else |
| Loader.SalesDefault | app.py:66 | every sales cell becomes a number: the parsed value, or 0.0 when the input is missing or does not parse |
| Loader.PromotionDefault | app.py:67 | every onpromotion cell becomes an integer: 0 when missing or unparseable, otherwise the parsed value truncated (3.0 gives 3, 2.5 gives 2, -2.5 gives -2) |
| Loader.UnparseableBecomesMissing | app.py:62-65 | an unparseable store number or date becomes missing rather than failing |
| Loader.DerivedCalendarFields | app.py:69-74 | the derived year and month are the date's; week is its ISO week, in 1..53 (2023-01-02 gives 1) |
| Loader.CoerceColumn | app.py:62-67 | a column conversion applies the cell conversion to every cell, position by position |
| Loader.Retype | app.py:62-67 | converting column c changes only c's cells, each to its converted value; labels and other cells stay |
| Loader.Derive | app.py:69-74 | a calendar column is computed from the date only when the table lacks it; otherwise every cell stays |
| Loader.Dropped | app.py:59-60 | "Unnamed: 0" is removed; every other column, cell and label is untouched |
| Loader.WeekCheck | app.py:74 | deriving week fails exactly when some date is missing after parsing |
| Loader.NormalizeMeaning | app.py:59-74 | each statement group of load_data does what the reference description of the whole load says, from the first group on |
| Loader.NormalizeFailure | app.py:59-74 | the load fails exactly when one of its checks fails, with the error of the first check to fail in program order |
| Loader.NormalizedRows | app.py:59-74 | a successful load keeps every row and label; the columns are the input's without "Unnamed: 0" plus the calendar columns it lacked; every cell is the expected converted or derived value |
| Loader.ExpectedTypedCells | app.py:59-67 | the expected cells: no "Unnamed: 0", and date, store_nbr, sales and onpromotion converted each by its own rule |
| Loader.ExpectedCalendarCells | app.py:69-74 | year, month and week keep their source values when the columns exist, and are otherwise derived from the parsed date |
| Loader.ExpectedOtherCell | app.py:59-74 | every column that load_data does not name keeps its value |
| Loader.LoadedRows | app.py:47-77 | the loaded table has one row per row of the two tables, the first archive's first, labelled 0..n-1, each with the cells load_data makes from its source row |
| Loader.YearOnlyFromFirstArchive | app.py:49-70 | when only the first archive has a year column, the second archive's rows get no year |
| Loader.LoadData | app.py:47-77 | the in-place load computes the same result as the load function |
| Loader.NormalizeFrame | app.py:59-67 | updating the frame statement by statement yields the normalized table or its error; the frame stays well formed and, on success, holds exactly the returned table |
| Loader.AddCalendarFrame | app.py:69-74 | adding the calendar columns in place yields the table with those columns derived, or the week error; the frame stays well formed and, on success, holds exactly the returned table |
| Transactions.FirstIndices | app.py:95 | the kept positions are increasing, and a position is kept exactly when no earlier row has the same (date, store_nbr) key, a missing key equalling a missing key |
| Transactions.DropDuplicates | app.py:95 | drop_duplicates keeps the columns and picks, in table order, the rows at the positions that are the first of their (date, store_nbr) key |
| Transactions.DropDuplicatesKeeps | app.py:95 | keep="first" in full: at most as many rows as the table, row j is the table's row at the j-th first-of-its-key position, and every first row of a key is kept |
| Transactions.Base | app.py:93-95 | the base table has the listed columns that exist, one row per first occurrence of a key, projected |
| Transactions.TransactionsFailure | app.py:93-96 | building fails exactly when date, store_nbr or transactions is absent, with the error for the first missing one |
| Transactions.TransactionsRows | app.py:93-96 | each row of the table is the first input row of its key, keeping its label and key and only the listed columns, with transactions numeric (0.0 when missing or unparseable) |
| Transactions.KeysProjected | app.py:94-95 | projecting onto the listed columns changes no key, so it keeps the same first rows |
| Transactions.KeysDistinct | app.py:95 | no two rows of the table share a key |
| Transactions.KeyKept | app.py:95 | every input row's key is kept, at the first row that has that key |
| Transactions.KeptAreFirstRows | app.py:93-96 | the table's transactions sum equals the sum over the first rows of each key of the undeduplicated table |
| Transactions.DedupSumAtMost | app.py:93-96 | with non-negative transactions, the deduplicated sum is at most the undeduplicated one |
| Transactions.DedupSumBelow | app.py:93-96 | a repeated key whose later row has positive transactions makes the deduplicated sum strictly smaller, which is the double counting the table avoids |
| Transactions.DedupSumUnique | app.py:93-96 | with no repeated key the two sums are equal |
| Transactions.AllFirst | app.py:95 | with no repeated key every row is kept |
| Transactions.BuildTransactionsTable | app.py:92-97 | the in-place build computes the same result as the function |
| DateFilter.RangeEndAsWritten | app.py:124 | the program's upper bound is the last day's midnight plus 86399 seconds |
| DateFilter.RangeEnd | app.py:124 | the corrected upper bound is the last nanosecond before the midnight after the last day |
| DateFilter.WithinRange | app.py:123-127 | the corrected bounds admit a row exactly when it has a date on one of the chosen days |
| DateFilter.FilterByDateKeeps | app.py:126-127 | the filtered table is a subsequence of the base table holding exactly the rows dated on the chosen days |
| DateFilter.FilterByDateMembers | app.py:126-127 | a row is in the filtered table exactly when it is a row of the base table dated on the chosen days |
| DateFilter.MissingDateExcluded | app.py:126-127 | a row without a date is never kept, by either bound |
| DateFilter.SelectAgree | app.py:126-127 | two masks that agree on every row select the same rows |
| DateFilter.FiltersAgreeOnWholeSeconds | app.py:124-127 | when no timestamp has a fraction of a second, the program's filter and the corrected one give the same table |
| DateFilter.LastSecondDropped | app.py:124-126 | a row in the last second of the end day, after 23:59:59, is on the chosen days but the program's bound drops it |
| DateFilter.HalfSecondBeforeMidnight | app.py:124-126 | a one-row table dated 2017-08-15 23:59:59.5, filtered to that day: the program's filter keeps no row, the corrected one keeps it |
| Aggregates.DistinctValues | app.py:141-143 | the distinct non-missing values of a column, without repetition, exactly those that occur |
| Aggregates.NUnique | app.py:141-147 | nunique is the number of distinct non-missing values of the column |
| Aggregates.Grouped | app.py:166 | groupby(...).sum() has one group per distinct non-missing key, each holding that key's sum, with no group twice |
| Aggregates.GroupsAddUp | app.py:296 | the groups' totals add up to the sum over the rows whose key is present, so no row is lost or counted twice |
| Aggregates.GroupsTotalPermutation | app.py:296 | the sum of group totals does not depend on their order |
| Aggregates.ByKeyAddsUp | app.py:296 | the groups sorted by key still add up to the sum over the rows whose key is present |
| Aggregates.TextLeTotal | app.py:296 | string comparison orders any two strings |
| Aggregates.TextLeTransitive | app.py:296 | string comparison is transitive |
| Aggregates.BeforeTotal | app.py:166 | both sort orders relate any two groups |
| Aggregates.BeforeTransitive | app.py:166 | both sort orders are transitive |
| Aggregates.Insert | app.py:166 | inserting into a sorted sequence keeps it sorted and adds exactly that group |
| Aggregates.SortBy | app.py:166 | sort_values returns a sorted permutation of its input |
| Aggregates.Head | app.py:166 | head(n) is the first min(n, length) groups |
| Aggregates.ReorderedGroups | app.py:166 | any reordering of the groups has one group per distinct key, exactly the true groups, with distinct keys |
| Aggregates.TopNMeaning | app.py:166 | the top N has min(N, number of keys) groups, each a true group, with distinct keys and non-increasing totals |
| Aggregates.TopNKeepsLargest | app.py:166 | a key left out of the top N sums to no more than any kept group, and no key is left out when N covers them all |
| Aggregates.GroupIndex | app.py:166 | every occurring key has its group at some position of any reordering of the groups |
| Aggregates.DescendingMeaning | app.py:192 | sort_values(ascending=False) over all groups gives every true group once, totals non-increasing |
| Aggregates.TopNRanks | app.py:345 | the top N is a ranking of the N largest groups |
| Aggregates.DescendingRanks | app.py:192 | the full descending order is a ranking of all groups |
| Aggregates.ByKeyOrders | app.py:296 | the groups sorted by key are every true group, each once, in strictly increasing key order |
| Aggregates.Promotions | app.py:412-413 | the total is the sum of sales; the promoted part is the sum of sales over the rows with onpromotion > 0 |
| Aggregates.Share | app.py:414 | the share is part / whole * 100 when whole > 0, and 0.0 otherwise; it lies in 0..100 when 0 <= part <= whole |
| Aggregates.PromotionsMeaning | app.py:412-424 | the pie's non-promoted slice is the sum over the rows without a positive onpromotion; promoted plus non-promoted is the total; the share is guarded against total 0 |
| Aggregates.SumNonNegative | app.py:412 | a sum of non-negative values is non-negative |
| Aggregates.SelectNonNegative | app.py:413 | a filtered column of non-negative values stays non-negative |
| Aggregates.ShareBounds | app.py:412-414 | with non-negative sales, 0 <= promoted <= total and the share lies in 0..100 |
| Aggregates.Window | app.py:430 | the window at position i is the contiguous run of the min(w, i + 1) values ending with value i |
| Aggregates.WindowFromStart | app.py:430 | before w values exist the window holds every value so far (min_periods=1) |
| Aggregates.WindowGrows | app.py:430 | before the window is full each day adds its value to the window's total |
| Aggregates.WindowShifts | app.py:430 | once the window is full each day adds the new value and drops the one w days back |
| Aggregates.RollingMeanSlides | app.py:430 | past the first w days each trailing mean is the previous one plus (new value - dropped value) / w |
| Aggregates.RollingMean | app.py:430 | the trailing mean has one value per day |
| Aggregates.TotalBounds | app.py:430 | n values within [lo, hi] add up to between n * lo and n * hi |
| Aggregates.RollingMeanMeaning | app.py:430 | each value of the trailing mean times its window's length is the window's total; the first value is the first day's |
| Aggregates.RollingMeanBounds | app.py:430 | when every value lies within [lo, hi], so does every trailing mean |
| Aggregates.MeanWithin | app.py:430 | a mean of values within [lo, hi] lies within [lo, hi] |
| Dashboard.LoadedColumns | app.py:59-74 | a loaded table has date, store_nbr, sales, onpromotion, year, month and week |
| Dashboard.TransactionsOfLoaded | app.py:93-96 | the transactions table of a loaded table has date, year and transactions, and has state exactly when the loaded table does |
| Dashboard.Filtered | app.py:126-127 | both filtered tables keep their columns and hold exactly the base rows dated on the chosen days |
| Dashboard.FilterCommutesWithDedup | app.py:92-99 | cutting the transactions table to the chosen days (app.py:127) gives exactly the table build_transactions_table makes of the period's rows, because date is part of the deduplication key |
| Dashboard.PeriodDedupSumAtMost | app.py:127 | on the chosen days the transaction total of df_tx_f is at most the total of the period's rows before deduplication, when transactions are non-negative |
| Dashboard.Kpis | app.py:141-147 | the four counts are the numbers of distinct stores, families (0 without the column), states (0 without the column) and month texts |
| Dashboard.MonthsOfPeriod | app.py:146-147 | over the filtered period "NaT" is never counted, and a month counts exactly when a row of the base table is dated in it on the chosen days |
| Dashboard.MonthTextsMembers | app.py:146 | a month text is counted exactly when some row's date gives it |
| Dashboard.TopProducts | app.py:166 | over the whole table: the ten families with most sales, and a KeyError without a family column |
| Dashboard.StoreSales | app.py:192 | every store's total sales over the whole table, largest first |
| Dashboard.PromoStores | app.py:226 | the ten stores with most sales over the rows with onpromotion > 0 |
| Dashboard.StoreView | app.py:293-309 | for the chosen store: sales by year in year order; total sold; sold on promotion; distinct families; a KeyError without a family column |
| Dashboard.StoreYearsAddUp | app.py:296-301 | the yearly bars add up to the store's total sold, less the sales of its rows without a year |
| Dashboard.StateView | app.py:319-403 | for the chosen state: the error without a state column; transactions by year from the deduplicated table, in year order; the ten best stores; the best family exactly when the state has one, and then the ten best |
| Dashboard.StateRank | app.py:448-453 | the fifteen states with most sales, shown exactly when the table has a state column |
| Dashboard.DayRow | app.py:429 | a daily row holds that day's date and summed sales |
| Dashboard.DayTable | app.py:429 | the daily table has the columns date and sales and one row per group |
| Dashboard.Daily | app.py:429 | the daily table has one row per distinct date |
| Dashboard.DailyMeaning | app.py:429 | the daily rows are labelled 0..n-1, with strictly increasing dates, each holding that date's total sales; every date with data has a row |
| Dashboard.SalesSeries | app.py:430 | the series is the daily sales column, missing cells as 0 |
| Dashboard.RollingColumn | app.py:430 | the rolling column has one value per daily row, and cell i is the mean of the daily sales of the up to 14 daily rows ending at row i (fewer at the start); dates without rows have no daily row, so a window may span more than 14 calendar days |
| Dashboard.AddRolling | app.py:430 | the frame now holds the daily table with rolling_14 assigned from its own sales |
| Dashboard.DailyWithRolling | app.py:429-430 | the program's daily table is the key-ordered daily sums with the rolling_14 column added |
| Dashboard.RollingWithinDays | app.py:429-430 | when every day's sales lie within [lo, hi], so does every value of rolling_14 |

## Left out

- Streamlit layout is not modelled: page configuration, sidebar, tabs, metrics, captions and `st.info`. `st.error` followed by `st.stop` becomes an error result.
- Plotly figures and their axis, colour and category-order settings are presentation only. This includes the `astype(str)` of store numbers at app.py:195, 229 and 348.
- The archives are not read byte by byte. An archive is `None` when the path does not exist, and otherwise a sequence of `(name, size)` entries. `pd.read_csv` of the chosen entry is a function parameter, one per archive (`read1`, `read2`), so the two archives may hold different tables under the same member name and size. `pd.to_numeric` and `pd.to_datetime` are abstract parsers that return a value or missing.
- Two I/O failures are not modelled. `zipfile.ZipFile` raises when the path exists but is not a valid zip archive (app.py:22), and `pd.read_csv` raises on a member it cannot parse (app.py:39). In the model an existing archive is always a list of entries, and each parser is total.
- `@st.cache_data` memoization is left out: it does not change any result.
- Floating point is not modelled. Sums, means and the percentage are exact `real` arithmetic, not IEEE doubles.
- Frames.Concat: pandas gives each column one common dtype across the two tables. The model keeps each cell's kind, so an int `2017` from one archive and a float `2017.0` from the other stay two keys. This affects `year`, `month` and `week` when they come from the CSV: groupby and nunique would see one key where the model sees two.
- Loader.Coerce: the parsed numbers are assumed finite and within int64. `astype("Int64")` (app.py:65) and `astype(int)` (app.py:67) raise on infinite values such as `to_numeric("inf")`. `astype(int)` also wraps outside ±2^63, and `astype("Int64")` raises there. The model has unbounded integers and no infinity.
- Loader.Castable: accepts every integral value, because the int64 bound of `astype("Int64")` (app.py:65) is not modelled (see the Loader.Coerce line).
- PromotionDefault: yields an integer for every input. app.py:67's `astype(int)` raises on an infinite value and wraps outside int64; the model has neither, for the reason on the Loader.Coerce line.
- `to_period("M").astype(str)` is modelled as a year-month pair, or `NaT` for a missing date, rather than as the exact text.
- Archive.LowerChar: `str.lower` also lowercases non-ASCII letters; the model folds only `A`-`Z`.
- Aggregates.SortBy: pandas' default sort is not stable, so the contracts promise nothing about the order of ties. The model's insertion sort is one admissible order.
- Aggregates.ValueLe: comparing a string with a number raises `TypeError` in Python. The model orders values by kind first, so such a sort is not modelled as a failure.
- The week derivation at app.py:74 is modelled as the code runs it. `astype(int)` raises when a date is missing, so the model returns `CastError("week")`. A design that never stops on missing data would differ here.
- A `store_nbr` value with a fraction makes `astype("Int64")` raise. The model returns `CastError("store_nbr")`.
- The day-of-week, week and month means at app.py:258-282 are not modelled. They are charts outside the pipeline.
- The store and state selectbox options at app.py:290 and 322 are not modelled. The chosen store or state is a parameter.
- The default of the date input at app.py:112-121 is not modelled. The chosen first and last day are parameters. A half-chosen range, where the widget returns one date and `date_range[1]` fails, is not modelled.
- The `.copy()` calls are not modelled. Tables are values, so a filtered table never aliases its base table.
- Dashboard.StateView: it requires the transactions table to have `year` and `transactions`. Dashboard.TransactionsOfLoaded proves that the table built from a loaded table always has both.
- Dashboard.Filtered uses the corrected end-of-day bound (see Findings). The bound as written is modelled in DateFilter.FilterAsWritten, and DateFilter.FiltersAgreeOnWholeSeconds shows the two agree on timestamps of whole seconds.

## Findings

| source | as written | input that shows it | evidently intended | confidence | as-written member | corrected member |
|---|---|---|---|---|---|---|
| app.py:124-127 | the upper bound is the last day plus one day minus one second, compared at nanosecond resolution, so the last second of the end day is cut off after 23:59:59 | one row dated 2017-08-15 23:59:59.5, with the range 2017-08-15 to 2017-08-15: the row is dropped | every instant of the last chosen day is kept, as the comment on that line says | not executed; affects only timestamps with a fraction of a second | DateFilter.FilterAsWritten, DateFilter.HalfSecondBeforeMidnight | DateFilter.FilterByDate, DateFilter.FilterByDateKeeps |
