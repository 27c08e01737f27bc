# Bike-sharing dashboard: the data-preparation layer

The dashboard reads the daily and the hourly tables of a bike-sharing
data set and turns them into the small tables and sentences it shows:

- the casual and registered rider totals;
- rides per month, per holiday flag, per working-day flag, per season and
  per weather situation, each split by year, with the year code rewritten
  to 2011/2012 and a label column mapped from the code;
- rides per hour of the day, filled in to all 24 hours, and the busiest
  hour;
- the mean rides per day type (holiday, working day, other day) and the
  verdict on whether holidays beat working days;
- the mean rides per season and the season with the highest mean;
- rides per weather condition over both years;
- the sidebar's inclusive date-range filter and the bounds it offers.

This project models those transformations as pure Dafny functions over
sequences of records, and proves what each one promises. Dates are day
ordinals. Counts are natural numbers. A code column is an arbitrary
integer, so codes outside the documented range are representable.

The model is organised as follows:

- `Keys` gives Python's tuple and string order on group keys.
- `GroupBy` holds one generic `groupby(...).sum()`, together with the
  group sizes that `mean()` needs. Its result is characterised by a
  reference predicate, `Aggregates`, and `GroupSumUnique` proves that the
  predicate determines the result.
- `Labels` holds the `replace`/`map` tables. A `map` miss is `None`.
- `DateFilter` holds the boolean-mask filter and `min`/`max`.
- `Aggregates` holds the seven `summarize_*`/`analyze_*` functions.
- `ArgMax` holds `idxmax`.
- `Means` holds the season means, the day-type means and the verdicts.
- `Hourly` holds the gap-fill and the busiest hour.
- `Weather` holds the weather regroup.

Each summary is proved against an independent statement on the input
table. That statement is one of:

- a recursive sum over the days or hours that match;
- a set of the keys present;
- a characterisation of the maximum.

## Model

| member | source | states |
|---|---|---|
| Keys.KeyLtIrreflexive | dashboard/dashboard.py:32 | no key sorts before itself |
| Keys.KeyLtTransitive | dashboard/dashboard.py:32 | the key order of `groupby(sort=True)` is transitive |
| Keys.KeyLtTotal | dashboard/dashboard.py:32 | any two distinct keys are ordered one way or the other |
| Keys.PairKeyLt | dashboard/dashboard.py:32 | on (code, yr) keys the order is lexicographic order on integer pairs |
| Keys.TextKeyLt | dashboard/dashboard.py:269 | on one-string keys the order is Python's string order |
| GroupBy.GroupSum | dashboard/dashboard.py:32 | `groupby(keys)[col].sum()` with group sizes: a sorted insert of each entry; its contract is `GroupBy.GroupSumCorrect` and `GroupBy.GroupSumUnique` |
| GroupBy.GroupSumCorrect | dashboard/dashboard.py:32 | groupby-sum gives one group per distinct key of the input, strictly ascending, each with the sum and row count of its rows; the grand total is kept; empty in iff empty out |
| GroupBy.GroupSumUnique | dashboard/dashboard.py:32 | any list meeting that description is the groupby-sum |
| GroupBy.GroupSumSumIf | dashboard/dashboard.py:269 | for any set of keys, the groups with those keys sum to the rows with those keys |
| GroupBy.GroupSizesPositive | dashboard/dashboard.py:204 | every group of a one-row-per-entry groupby has at least one row, so its mean is defined |
| Labels.YearRemap | dashboard/dashboard.py:33 | 0 becomes 2011, 1 becomes 2012, and any other value is unchanged |
| Labels.YearRemapProperties | dashboard/dashboard.py:33 | the remap is idempotent; on codes 0/1 it preserves equality and order |
| Labels.MonthName | dashboard/dashboard.py:34-38 | a month has a name exactly when it is 1..12; names have three letters |
| Labels.SeasonName | dashboard/dashboard.py:77-79 | a season has a name exactly when it is 1..4 |
| Labels.WeatherName | dashboard/dashboard.py:89-91 | a weather code has a condition exactly when it is 1..4 |
| Labels.HolidayName | dashboard/dashboard.py:57 | a holiday flag has a name exactly when it is 0 or 1 |
| Labels.WorkdayName | dashboard/dashboard.py:67 | a working-day flag has a name exactly when it is 0 or 1 |
| Labels.LabelsInjective | dashboard/dashboard.py:34-38 | distinct mapped codes get distinct labels, in all five tables |
| Labels.DayTypeLabel | dashboard/dashboard.py:205-209 | "Holiday" iff holiday = 1; "Working Day" iff not a holiday and workingday = 1; otherwise "Non-Working Day" |
| DateFilter.FilterByDate | dashboard/dashboard.py:122-127 | the boolean-mask filter on the date column; its contract is `DateFilter.FilterContents`, `FilterOrder`, `FilterInvertedRange` and `FilteredTables` |
| DateFilter.FilterContents | dashboard/dashboard.py:122-127 | a row is kept iff it is an input row with start <= date <= end, with its multiplicity |
| DateFilter.FilterOrder | dashboard/dashboard.py:122-127 | the kept rows are a subsequence of the input, in input order |
| DateFilter.FilterConcat | dashboard/dashboard.py:122-127 | filtering a concatenation is the concatenation of the filtered parts |
| DateFilter.FilterInvertedRange | dashboard/dashboard.py:122-127 | with start > end nothing is kept |
| DateFilter.DateBounds | dashboard/dashboard.py:103-104 | min and max of the date column: every date lies between them, both are attained, and an empty table has none |
| DateFilter.FilterFullRange | dashboard/dashboard.py:122-123 | a range that covers every date keeps the whole table |
| DateFilter.DefaultSelectionKeepsAll | dashboard/dashboard.py:103-104 | the default selection, the table's own bounds, keeps every row |
| DateFilter.FilteredTables | dashboard/dashboard.py:122-127 | on the daily and the hourly table, the filter keeps exactly the rows dated within [start, end], and never more rides than the table holds |
| Aggregates.SummarizeCasualRegistered | dashboard/dashboard.py:16-21 | two rows, "Casual" then "Registered", holding the sums of the two columns |
| Aggregates.CasualRegisteredCoverRides | dashboard/dashboard.py:16-21 | when every day's cnt is casual plus registered, the two totals add up to all rides |
| Aggregates.SummarizeByColumn | dashboard/dashboard.py:32-38 | the shared shape of the five (code, yr) summaries: groupby-sum, year remap, label column; its contract is `Aggregates.SummarizeByColumnSpec` and `SummarizeByColumnValidYears` |
| Aggregates.SummarizeByColumnSpec | dashboard/dashboard.py:32-38 | the (code, yr) rows are exactly the (code, remapped year) pairs of the days; they add up to all rides; empty iff no days; each label is the label of its code; codes non-decreasing |
| Aggregates.SummarizeByColumnValidYears | dashboard/dashboard.py:32-33 | with year codes 0/1, rows are strictly ascending by (code, year), one per distinct pair, each holding the rides of the days with its code and year |
| Aggregates.AnalyzeMonthlyUsage | dashboard/dashboard.py:28-39 | the monthly rows cover the (month, year) pairs of the days and all rides, and are named exactly for months 1..12 |
| Aggregates.SummarizeHolidayUsage | dashboard/dashboard.py:51-58 | the holiday rows cover the (holiday, year) pairs and all rides, and are named exactly for flags 0/1 |
| Aggregates.SummarizeWorkdayUsage | dashboard/dashboard.py:61-68 | the working-day rows cover the (workingday, year) pairs and all rides, and are named exactly for flags 0/1 |
| Aggregates.SummarizeSeasonUsage | dashboard/dashboard.py:71-80 | the season rows cover the (season, year) pairs and all rides, and are named exactly for seasons 1..4 |
| Aggregates.SummarizeWeatherUsage | dashboard/dashboard.py:83-92 | the weather rows cover the (weathersit, year) pairs and all rides, and are named exactly for codes 1..4 |
| Aggregates.SeasonUsageExample | dashboard/dashboard.py:75-79 | two spring days a year apart give one Spring row per year, each holding its day's rides |
| Aggregates.AnalyzeHourlyUsage | dashboard/dashboard.py:46 | `groupby("hr")["cnt"].sum().reset_index()`; its contract is `Aggregates.AnalyzeHourlyUsageSpec` |
| Aggregates.AnalyzeHourlyUsageSpec | dashboard/dashboard.py:42-47 | one row per hour present, strictly ascending, each with the rides of its hour; the hours are exactly those of the table; the rows add up to all rides; empty iff empty |
| Aggregates.HourlyHours | dashboard/dashboard.py:46 | the hours of the hourly summary are exactly the hours of the table |
| ArgMax.MaxIndexFrom | dashboard/dashboard.py:238 | the scan returns a maximal position that no earlier position ties |
| ArgMax.FirstMax | dashboard/dashboard.py:238 | the position of the first maximal element |
| ArgMax.IdxMax | dashboard/dashboard.py:238 | none iff empty; otherwise a maximal position and the first one |
| ArgMax.FirstMaxUnique | dashboard/dashboard.py:238 | a maximal position with no earlier tie is the one idxmax returns |
| Means.DayGroupsNonEmpty | dashboard/dashboard.py:204 | every group of a day-level groupby holds at least one day |
| Means.SeasonMeansByCode | dashboard/dashboard.py:227 | `groupby("season")["cnt"].mean().reset_index()`; its contract is `Means.SeasonUsageSpec` |
| Means.SeasonUsage | dashboard/dashboard.py:227-228 | the season means with the code mapped to its name; its contract is `Means.SeasonUsageSpec` |
| Means.SeasonUsageSpec | dashboard/dashboard.py:227-228 | one row per season present, strictly ascending by code, each holding the mean rides of its days; the codes are exactly those of the days; empty iff empty; the named table maps each code to its season name |
| Means.HighestSeason | dashboard/dashboard.py:238 | the row at `idxmax` of the season means; its contract is `Means.HighestSeasonSpec` and `Means.TopSeasonUnique` |
| Means.TopSeasonUnique | dashboard/dashboard.py:238 | at most one season has the highest mean with no earlier season tying it |
| Means.HighestSeasonSpec | dashboard/dashboard.py:238 | no highest season iff no days; otherwise the reported row is that season's name and mean |
| Means.HolidayWorkdayUsage | dashboard/dashboard.py:204-209 | the (holiday, workingday) means with the three-way label; its contract is `Means.HolidayWorkdayUsageSpec` and `Means.DayTypeRow` |
| Means.DayTypeRow | dashboard/dashboard.py:204-209 | each day-type row is a (holiday, workingday) pair of the days, holds the mean rides of those days, and carries the three-way label |
| Means.HolidayWorkdayUsageSpec | dashboard/dashboard.py:204-209 | rows strictly ascending by (holiday, workingday), one per flag pair of the days, each with its mean and label; empty iff empty |
| Means.FirstNamed | dashboard/dashboard.py:219-220 | the first row with the label, or none exactly when no row has it |
| Means.HolidayBeatsWorkingDay | dashboard/dashboard.py:219-221 | the comparison of the first Holiday and the first Working Day means; its contract is `Means.HolidayVerdictDefined` and `Means.HolidayVerdictValue` |
| Means.HolidayRowPresent | dashboard/dashboard.py:219 | a "Holiday" row exists iff some day is a holiday |
| Means.WorkingDayRowPresent | dashboard/dashboard.py:220 | a "Working Day" row exists iff some non-holiday is a working day |
| Means.HolidayVerdictDefined | dashboard/dashboard.py:219-221 | the verdict is defined exactly when the days include a holiday and a working day that is not a holiday |
| Means.HolidayVerdictValue | dashboard/dashboard.py:219-224 | with consistent flags, the verdict says whether the mean rides of holidays exceed those of working days |
| Hourly.LookupHour | dashboard/dashboard.py:248 | the merge finds a count for an hour exactly when the summary has that hour |
| Hourly.LookupAscending | dashboard/dashboard.py:248 | on a summary with strictly ascending hours, the lookup returns that hour's own row |
| Hourly.LeftJoin | dashboard/dashboard.py:248 | the left merge on `hr`: one row per hour of the left table, in its order; each row's count is stated by `Hourly.GapFillRow` |
| Hourly.FillNa | dashboard/dashboard.py:249 | `fillna(0)` on the count column, one row per row; each row's count is stated by `Hourly.GapFillRow` |
| Hourly.HourlyGapFill | dashboard/dashboard.py:247-249 | the gap-filled table always has 24 rows |
| Hourly.GapFillRow | dashboard/dashboard.py:247-249 | row h is hour h with all of its rides, and 0 for an hour the table lacks |
| Hourly.HourlyGapFillSpec | dashboard/dashboard.py:247-249 | 24 rows with hr = 0..23 in order, each holding the rides of its hour |
| Hourly.HourlyGapFillTotal | dashboard/dashboard.py:247-249 | the 24 rows hold the rides of hours 0..23, hence all rides when every hour is in 0..23 |
| Hourly.HighestUsageHour | dashboard/dashboard.py:252 | the row at `idxmax` of the gap-filled counts; its contract is `Hourly.HighestUsageHourSpec` and `Hourly.PeakHourUnique` |
| Hourly.HighestUsageHourSpec | dashboard/dashboard.py:252 | the reported hour is in 0..23; no hour has more rides; no earlier hour has as many; its count is its rides |
| Hourly.PeakHourUnique | dashboard/dashboard.py:252 | any hour with those properties is the reported hour |
| Weather.RegroupByCondition | dashboard/dashboard.py:269 | `groupby("weather_condition")["cnt"].sum().reset_index()`, dropping rows without a label; its contract is `Weather.WeatherSummarySpec` |
| Weather.WeatherSummary | dashboard/dashboard.py:268-269 | the regroup applied to the weather summary of the daily table; its contract is `Weather.WeatherSummarySpec` |
| Weather.WeatherOrder | dashboard/dashboard.py:269 | weather rows are strictly ascending by condition name |
| Weather.WeatherRow | dashboard/dashboard.py:269 | each weather row is a condition of the days and holds the rides of all days with that condition, over both years |
| Weather.WeatherConditions | dashboard/dashboard.py:268-269 | the conditions in the table are exactly the labelled conditions of the days |
| Weather.WeatherRowsCnt | dashboard/dashboard.py:268-269 | the per-year rows whose label meets a test add up to the days whose label meets it |
| Weather.WeatherSummarySpec | dashboard/dashboard.py:268-269 | ascending conditions, each with its rides; exactly the conditions of the days; the total is the labelled days' rides, hence all rides when every weather code is 1..4 |

## Left out

- Reading the two CSV files and `pd.to_datetime` (dashboard.py:95-100): file I/O and library date parsing. Dates are given as integer day ordinals.
- The Streamlit sidebar, widgets, text and tables, and all matplotlib/seaborn styling and plotting: these only render. The date range the picker returns is a parameter of the filter.
- Float formatting of the sentences (`:.2f`). Means are exact `real` quotients, not binary floating point, and the float dtype that `fillna` leaves is the `real` column `Hourly.CntColumn`.
- The wiring in `prepare_dataframes` (dashboard.py:130-175). Each aggregation is a function of its table. The script hands the unfiltered tables to every aggregation, so the filtered tables of lines 122-127 feed nothing that is displayed. The model makes no claim that the displayed results are date-filtered.
- The `hourly_df.replace({"yr": ...})` at dashboard.py:153: it changes nothing, because the hourly summary has only `hr` and `cnt` columns.
- Hourly.LookupHour: the left merge is modelled as a lookup of the first matching row. That is the merge itself only when the right table has at most one row per hour. `Hourly.LookupAscending` shows this holds for the hourly summary.
- ArgMax.IdxMax: on an empty column pandas raises an error; the model returns `None`. Means.HighestSeason reports `None` in that case.
- Means.HolidayBeatsWorkingDay: `.values[0]` on a missing label raises `IndexError`; the model returns `None`, and `Means.HolidayVerdictDefined` says exactly when that happens.
- Means.Mean: returns 0.0 for a group with no rows. `Means.DayGroupsNonEmpty` shows no such group arises.
- Aggregates.SummarizeByColumnSpec: states each row's own rides only under `ValidYears`, in `Aggregates.SummarizeByColumnValidYears`. The year remap can merge a raw year 0 with a raw year 2011 into one displayed year, and then the row holds the rides of its raw key only.
- Means.HolidayVerdictValue: stated only for days whose flags are 0/1 and where no holiday is a working day (`FlagsConsistent`). Without that, the "Working Day" row averages only the non-holiday working days, and that is all the model states about it (`Means.DayTypeRow`).
