# Bike-sharing dashboard: the table aggregations

A model, in Dafny, of the data path of the bike-sharing Streamlit dashboard
(`dashboard/Dashboard.py`). The dashboard loads a table of rental records,
keeps the rows dated in a range chosen in its sidebar, and summarises them:

- per season, an RFM summary (`create_rfm_df`): recency in days, number of
  rows, total rentals; and the total rentals of each season and of season 3;
- per month, a second RFM summary (`create_rfm2_df`): recency, total of
  `registered` ("frequency") and total of `cnt` ("monetary"); the monthly
  totals of `registered`; a second month summary built by merging two
  group-by results; a per-row `recency` column added to the table in place;
- the five months with the smallest recency and with the largest
  frequency and monetary value, drawn in the last chart.

A row keeps the five columns these computations read: `dteday`, `season`,
`mnth`, `registered`, `cnt`. Dates are whole day numbers, so a difference of
dates in days is integer subtraction. A pandas group-by result is a `map`
from the group key to the aggregate. `reset_index()` lists a group-by
result as a sequence of (key, value) rows in ascending key order;
`sort_values` then puts those rows in order of the score it sorts on.

Modules:

- `GroupBy` (`group_by.dfy`): `groupby(...).sum()`, `.size()`, `.max()` and
  `.min()` as folds of (key, value) pairs into a map, each tied to a per-key
  definition; sums of a map's values; listing a map as a sorted frame.
- `Table` (`table.dfy`): the row, the projections the group-bys read, the
  latest and earliest date, and the inclusive date filter.
- `Ranking` (`ranking.dfy`): `sort_values(...).head(n)`.
- `SeasonRfm` (`season_rfm.dfy`): `create_rfm_df` and the season totals.
- `MonthRfm` (`month_rfm.dfy`): `create_rfm2_df`, the monthly totals, the
  merged month frame, the per-row recency and the three top-five selections.
- `Frames` (`frames.dfy`): the frame object that is filtered, relabelled in
  place by `create_day_df` and `create_hour_df` (which return the object they
  were given, so `day_df`, `hour_df` and `main_df` are one frame), and given a
  `recency` column; and the whole data path of the script as one method.

When the filtered table is empty every summary is empty: pandas groups
nothing, and the latest date is "not a time", which subtracted from an
empty column gives an empty column. The model follows that rather than
requiring a non-empty table.

## Model

| member | source | states |
|---|---|---|
| GroupBy.GroupSum | dashboard/Dashboard.py:105 | `groupby(key)[col].sum()` has one entry per key present, and each entry is the sum of the values of that key's rows |
| GroupBy.GroupSize | dashboard/Dashboard.py:30 | `groupby(key).size()` has one entry per key present, equal to that key's number of rows, so at least 1 |
| GroupBy.GroupMax | dashboard/Dashboard.py:27 | `groupby(key)[col].max()` has one entry per key present, the largest value of that key's rows |
| GroupBy.GroupMin | dashboard/Dashboard.py:308 | `groupby(key)[col].min()` has one entry per key present, the smallest value of that key's rows |
| GroupBy.GroupMinOfReflect | dashboard/Dashboard.py:279 | grouping `c - v` by key and taking the minimum gives `c` minus the per-key maximum of `v`, on the same keys |
| GroupBy.GroupSumTotal | dashboard/Dashboard.py:32 | the per-key sums add up to the sum of the whole value column |
| GroupBy.GroupSizeTotal | dashboard/Dashboard.py:30 | the per-key row counts add up to the number of rows |
| GroupBy.SumValuesAdd | dashboard/Dashboard.py:32 | adding `d` to one entry of a group-by result adds `d` to the sum of its values |
| GroupBy.ToFrame | dashboard/Dashboard.py:280 | `reset_index()` lists a group-by result as one row per key, keys strictly ascending, every entry present and nothing else |
| GroupBy.ToFrameLength | dashboard/Dashboard.py:280 | the listed frame has exactly as many rows as the group-by result has keys |
| Table.MaxDate | dashboard/Dashboard.py:68 | the latest date is the date of some row and no row is later |
| Table.MinDate | dashboard/Dashboard.py:67 | the earliest date is the date of some row and no row is earlier |
| Table.GroupLatestBounded | dashboard/Dashboard.py:27-28 | a group's latest date is no later than the table's latest date |
| Table.GroupOfLatestRow | dashboard/Dashboard.py:27-28 | the group holding a row dated on the table's latest date has that date as its own latest date |
| Table.FilterDates | dashboard/Dashboard.py:81-82 | the filter keeps exactly the rows dated from `start` to `end`, both inclusive, each as many times as it occurs |
| Table.FilterAppend | dashboard/Dashboard.py:81-82 | the filter works row by row, so it keeps the rows in their order |
| Table.FilterKeepsAll | dashboard/Dashboard.py:81-82 | a range covering every row's date keeps the table unchanged |
| Table.FilterDefaultRange | dashboard/Dashboard.py:67-82 | the sidebar's default range, earliest to latest date, keeps the table unchanged |
| Table.FilterDropsAll | dashboard/Dashboard.py:81-82 | a range no row's date falls in keeps nothing |
| Table.FilterOutsideSpan | dashboard/Dashboard.py:81-82 | a range entirely before or after the table's dates, or with `end < start`, keeps nothing |
| Ranking.SortBy | dashboard/Dashboard.py:315 | `sort_values` returns the rows in order of the score, ascending or descending, as a permutation of its input |
| Ranking.TopK | dashboard/Dashboard.py:308 | `sort_values(...).head(n)` keeps `min(n, len)` rows, all from the input, in order, and no row left out ranks strictly before a row kept |
| SeasonRfm.RentalsPerSeason | dashboard/Dashboard.py:105 | one total per season present, the sum of `cnt` over that season's rows |
| SeasonRfm.RentalsInSeason | dashboard/Dashboard.py:98 | the rentals of one season are that season's per-season total, and 0 when the season does not occur |
| SeasonRfm.DaysBefore | dashboard/Dashboard.py:28 | each season's latest date becomes the number of days from it to the given latest date, on the same seasons |
| SeasonRfm.Align | dashboard/Dashboard.py:35 | the frame built from three columns indexed by the same seasons has those seasons, each row holding that season's three values |
| SeasonRfm.CreateRfm | dashboard/Dashboard.py:25-37 | one entry per season present; `frequency` is the season's row count (at least 1), `monetary` its total `cnt`, `recency` the latest date minus the season's latest date (at least 0); empty table gives an empty summary |
| SeasonRfm.LatestSeasonIsMostRecent | dashboard/Dashboard.py:27-28 | the season holding the table's latest date has recency 0 |
| SeasonRfm.RentalsPerSeasonIsMonetary | dashboard/Dashboard.py:105 | the per-season totals equal the `monetary` column of `rfm_df`, season by season |
| SeasonRfm.MonetaryTotal | dashboard/Dashboard.py:32 | the `monetary` column adds up to the table's total `cnt` |
| SeasonRfm.FrequencyTotal | dashboard/Dashboard.py:30 | the `frequency` column adds up to the number of rows |
| MonthRfm.MonthRfmOf | dashboard/Dashboard.py:39-57 | the month summary by definition: one entry per month present, with a recency that is never negative |
| MonthRfm.Relabel | dashboard/Dashboard.py:41-48 | the three aggregate columns of the same months, side by side, become one row per month holding the three values under their new labels |
| MonthRfm.AggregateByMonth | dashboard/Dashboard.py:41-48 | one row per month present holding its latest date, its total `registered` and its total `cnt` |
| MonthRfm.AddRecency | dashboard/Dashboard.py:51-52 | every month keeps its columns and gains `recency`, the days from its latest date to the given date |
| MonthRfm.DropMaxOrderDate | dashboard/Dashboard.py:55 | dropping `max_order_date` keeps every month and its `frequency`, `monetary` and `recency` |
| MonthRfm.Rfm2At | dashboard/Dashboard.py:39-57 | on a non-empty table, each month present comes out of aggregating, adding recency and dropping the date column with exactly its summary row |
| MonthRfm.CreateRfm2 | dashboard/Dashboard.py:39-57 | aggregating, adding recency against the latest date and dropping the date column yields exactly the month summary |
| MonthRfm.MonthTotalsConserved | dashboard/Dashboard.py:41-48 | the `frequency` and `monetary` columns add up to the table's totals of `registered` and `cnt` |
| MonthRfm.LatestMonthIsMostRecent | dashboard/Dashboard.py:51-52 | the month holding the table's latest date has recency 0 |
| MonthRfm.RegisteredPerMonth | dashboard/Dashboard.py:216 | one total per month present, the sum of `registered` over that month's rows |
| MonthRfm.RentalsPerMonth | dashboard/Dashboard.py:282 | one total per month present, the sum of `cnt` over that month's rows |
| MonthRfm.RegisteredPerMonthTotal | dashboard/Dashboard.py:216 | the monthly totals of `registered` add up to the table's total |
| MonthRfm.RegisteredPerMonthIsFrequency | dashboard/Dashboard.py:216 | the monthly totals of `registered` are the `frequency` column of `create_rfm2_df` |
| MonthRfm.MergeOnMonth | dashboard/Dashboard.py:284 | the inner join keeps the months present in both columns, with both values |
| MonthRfm.MergedMonthTotals | dashboard/Dashboard.py:280-284 | the merged frame has a row for every month present |
| MonthRfm.MergedAgreesWithRfm2 | dashboard/Dashboard.py:280-284 | the merged frame has the months of `create_rfm2_df` and agrees with it on `frequency` and `monetary` |
| MonthRfm.DaysBeforeEach | dashboard/Dashboard.py:279 | one value per row, the days from that row's date to the given date |
| MonthRfm.RowRecency | dashboard/Dashboard.py:278-279 | one value per row, the days from its date to the latest date, never negative |
| MonthRfm.RecencyReflectsDates | dashboard/Dashboard.py:279 | the month and recency columns are the month and date columns with each date `d` replaced by `latest - d` |
| MonthRfm.MinRecencyIsReflectedMax | dashboard/Dashboard.py:308 | on a non-empty table, the per-month minimum of the row recency is the per-month minimum of `latest - dteday` |
| MonthRfm.MinRecencyAt | dashboard/Dashboard.py:308 | on a non-empty table, each month present has a minimum recency, and it equals that month's recency in `create_rfm2_df` |
| MonthRfm.MinRecencyByMonth | dashboard/Dashboard.py:308 | `groupby('mnth')['recency'].min()` has one entry per month present, the smallest of that month's recency values |
| MonthRfm.MinRecencyAgreesWithRfm2 | dashboard/Dashboard.py:308 | the per-month minimum of the row recency has the months of `create_rfm2_df` and equals its recency month by month |
| MonthRfm.TopOfFrame | dashboard/Dashboard.py:308-322 | `reset_index().sort_values(...).head(n)` on a group-by result keeps `min(n, len)` rows, each one of its (key, value) entries, no key twice, in order of the score, and no key left out ranks strictly before a key kept |
| MonthRfm.TopRecency | dashboard/Dashboard.py:308 | five months, or all if fewer, each listed once with its own value, in ascending order of recency, and no month left out has a smaller recency than a month shown |
| MonthRfm.TopFrequency | dashboard/Dashboard.py:315 | five months, or all if fewer, each listed once with its own row, in descending order of `frequency`, and no month left out has a larger `frequency` than a month shown |
| MonthRfm.TopMonetary | dashboard/Dashboard.py:322 | five months, or all if fewer, each listed once with its own row, in descending order of `monetary`, and no month left out has a larger `monetary` than a month shown |
| MonthRfm.TopRecencyIsTopFive | dashboard/Dashboard.py:308 | when the per-month minimum recency agrees with `create_rfm2_df`, the recency chart lists five of its months, or all if fewer, each once with its recency, in ascending order of recency, and no month left out has a smaller recency |
| MonthRfm.TopFrequencyIsTopFive | dashboard/Dashboard.py:315 | when the merged frame agrees with `create_rfm2_df`, the frequency chart lists five of its months, or all if fewer, each once with its totals, in descending order of `frequency`, and no month left out has a larger `frequency` |
| MonthRfm.TopMonetaryIsTopFive | dashboard/Dashboard.py:322 | when the merged frame agrees with `create_rfm2_df`, the monetary chart lists five of its months, or all if fewer, each once with its totals, in descending order of `monetary`, and no month left out has a larger `monetary` |
| Frames.Renamed | dashboard/Dashboard.py:12-14 | the relabelled list has the same length, each `from` label replaced by `to` and every other label kept in its place |
| Frames.RenamedRemovesLabel | dashboard/Dashboard.py:12-14 | after renaming `from` to a different label, `from` is no longer a label |
| Frames.RenamedAddsLabel | dashboard/Dashboard.py:12-14 | after the rename, `to` is a label exactly when `to` or `from` was one |
| Frames.RenamedAbsent | dashboard/Dashboard.py:12-14 | renaming a label that is missing leaves the labels unchanged |
| Frames.RenamedTwice | dashboard/Dashboard.py:11-23 | renaming twice with the same mapping is renaming once |
| Frames.Frame.constructor | dashboard/Dashboard.py:81-82 | a new frame holds the given labels and rows and no recency values |
| Frames.Frame.Rename | dashboard/Dashboard.py:12-14 | `rename(..., inplace=True)` replaces the labels by their renaming and changes nothing else |
| Frames.Frame.AddRecency | dashboard/Dashboard.py:278-279 | appends the `recency` label unless present, keeps the rows, and sets one non-negative recency per row |
| Frames.CreateDayDf | dashboard/Dashboard.py:11-16 | relabels `instant` as `no` in the frame it is given and returns that same frame |
| Frames.CreateHourDf | dashboard/Dashboard.py:18-23 | relabels `instant` as `no` in the frame it is given and returns that same frame |
| Frames.Summarise | dashboard/Dashboard.py:87-322 | from the filtered rows and their recency column: `rfm_df` and `rfm2_df` are the two summaries of those rows, the season-3 figure and per-season totals are `rfm_df`'s `monetary`, the monthly `registered` totals are `rfm2_df`'s `frequency`, the merged frame has `rfm2_df`'s months and totals, and the three lists passed to the charts are `rfm2_df`'s top five months by smallest recency and largest `frequency` and `monetary`, each month once with its own values, in the order `sort_values(...).head(5)` passes them to the chart |
| Frames.Dashboard | dashboard/Dashboard.py:81-88 | `day_df` and `hour_df` are one fresh frame holding exactly the rows in the date range, relabelled once and given its recency column, and everything drawn from it is consistent with the summaries of those rows, as `Frames.Summarise` states |

## Left out

- Loading the CSV file and parsing `dteday` with `pd.to_datetime` (dashboard/Dashboard.py:60-64) are file input and a date parser; dates are given as day numbers.
- The sidebar widgets, images, headers, metrics, `st.write` messages and every matplotlib and seaborn chart (dashboard/Dashboard.py:70-79 and 92-332) are display only; the model stops at the data each chart is given.
- `format_currency` (dashboard/Dashboard.py:176, 300) is a locale formatting library.
- The rounded averages of the summaries (dashboard/Dashboard.py:168, 172, 292, 296) and the pie-chart percentages (131, 244) are floating point, and undefined for an empty table.
- The filter at line 81 compares dates with the string form of the chosen dates; the model compares day numbers.
- The columns of the table other than `dteday`, `season`, `mnth`, `registered` and `cnt` are not modelled; `Frames.Frame` keeps every label but only those five values per row.
- pandas stores the sums in 64-bit integers; the model's sums are unbounded, since overflow would need more rentals than any real table holds.
- Ranking.TopK: which of several tied rows are kept at the cut is not fixed, because pandas' default sort is not stable; the model sorts stably and its contract holds for any tie order.
- SeasonRfm.Align requires its three columns to have the same seasons. `pd.DataFrame({...})` at line 35 would align differing indexes and fill the gaps with NaN, but its three columns are group-bys of the same table on `season`, so they always have the same keys.
- MonthRfm.Relabel requires its three columns to have the same months. It models the single `agg` call of lines 41-45, which yields all three columns for the same groups, so different keys cannot arise.
- Line 284 rebinds the name `rfm_df` to the merged month frame. The model keeps the season summary and the merged frame as two separate values, `rfm` and `merged` of `Frames.Views`.
- Frames.Dashboard: the row index labels of the filtered frame, and the fact that `main_df` is a slice of the loaded frame, are not modelled.
