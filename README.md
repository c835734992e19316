# CSV trend chart widget — Dafny model

This project models the core of the Polarion CSV trend chart widget
(`CSVBasedTrendChartWidgetRenderer`, `CSVData` and the parameter helpers
of `Utils`) and proves properties of it.

The widget reads one primary CSV data source and any number of named
additional ones. Each line of a source is split on a literal separator, and
row 0 is the header. Every later row whose first cell parses to a date
inside the configured window contributes `prefix + header[i] ↦ cell[i]` to
a date-ordered table, where the prefix is empty for the primary source and
`name.` otherwise. Each configured series takes one key out of that table.
The series is re-bucketed by a scale (day, week, month, year) and each
bucket is folded with an aggregation (sum, first, last, min, max). The
chart's y-axis starts at the minimum of 0 and every plotted value. The
texts above and below the chart are templates: `${_workingDays}`, the
column totals `${key}` and `${keyPerDay}`, and the source timestamps
`${_timestamp<name>}` are filled in, and any `${…}` left over becomes `0`.
A missing required parameter gives a warning page; any other failure
gives an error page.

Modules, one per file:

| module | file | what it holds |
|---|---|---|
| `Utils` | utils.dfy | `Option`/`Result`, the exceptions, string parameters, `Dates` |
| `JavaInt` | javaint.dfy | Java `int` and its wrap-around addition |
| `Ordered` | ordered.dfy | ascending enumeration of a set of instants (TreeMap order) |
| `Calendar` | calendar.dfy | proleptic Gregorian calendar on day numbers |
| `Strategies` | strategies.dfy | the `Scale` and `Aggregation` enums |
| `Text` | text.dfy | `String.replace`, `String.split` with a quoted pattern, `replaceAll("\\s+", "")`, the `\$\{.*?\}` catch-all, `int` to string |
| `CsvData` | csvdata.dfy | `CSVData`: rows, header, `visit`, `getAll` |
| `LoadData` | loaddata.dfy | both `loadData` overloads |
| `LoadEntries` | entries.dfy | the value `loadData` leaves under each date and key |
| `Series` | series.dfy | `filterDataByKey`, `scaleSerieRawData`, `plotScaledData` |
| `Statistics` | statistics.dfy | `computeStatistics` |
| `Template` | template.dfy | `processText` |
| `DateWindow` | window.dfy | the year window built by `initDates` with `Utils.date` |
| `Renderer` | renderer.dfy | the constructor, `initDates`, `processTexts`, `render`, `renderChart`, `buildSerie` |

Instants are `int` milliseconds of local wall-clock time. Their day number
is `t / 86400000`. The Java `int` is the subtype `Int32`, and the sum
aggregation and the statistics totals wrap around explicitly. Loops are
methods proved equal to a specification function, which folds over the
same sequence in the same order. The properties are lemmas about those
functions. `TrendChartRenderer` is a class because the Java constructor
fills the renderer's fields and `render` reads them. CSV tables,
statistics and parameters are immutable values, so they are datatypes.

Some inputs come from the platform. They are parameters of the model:
- the repository (`Loader`: a location's lines and last-changed instant);
- `Integer.parseInt`;
- the `yyyy-MM-dd` date parser;
- `SimpleDateFormat` validity and formatting;
- `String.format("%.1f")`;
- the working-day count;
- the locale's first day of the week;
- the iteration order of every `HashMap`.

These are collected in the `Services` datatype.

## Model

| member | source | states |
|---|---|---|
| Utils.GetStringParameterValue | src/com/polarion/alm/extensions/widgets/common/Utils.java:49-55 | absent exactly for a missing or whitespace-only value; otherwise the value itself, untrimmed, holding a non-space character |
| Utils.RequiredMessage | src/com/polarion/alm/extensions/widgets/common/Utils.java:95-97 | the message is `Parameter '<caption>' is required` |
| Utils.GetRequiredStringParameterValue | src/com/polarion/alm/extensions/widgets/common/Utils.java:57-63 | fails exactly when the optional lookup is absent, with RequiredParameterException naming the caption; otherwise returns that same non-blank value |
| Utils.AtLeastOneParameterIsSet | src/com/polarion/alm/extensions/widgets/common/Utils.java:82-90 | false for an empty id list |
| Utils.AtLeastOneParameterIsSetIff | src/com/polarion/alm/extensions/widgets/common/Utils.java:82-90 | true if and only if some listed id has a non-blank value |
| Utils.AtLeastOneParameterIsSetOrderFree | src/com/polarion/alm/extensions/widgets/common/Utils.java:82-90 | two id lists with the same members give the same answer |
| JavaInt.Wrap | src/com/polarion/alm/extensions/widgets/csv/CSVBasedTrendChartWidgetRenderer.java:248 | the Java `int` congruent to x modulo 2^32, and x itself when x is in range |
| JavaInt.Add | src/com/polarion/alm/extensions/widgets/csv/CSVBasedTrendChartWidgetRenderer.java:310 | Java `int` addition: congruent to the sum, and equal to it without overflow |
| JavaInt.WrapUnique | src/com/polarion/alm/extensions/widgets/csv/CSVBasedTrendChartWidgetRenderer.java:248 | the wrapped value is the only `int` congruent to x |
| JavaInt.WrapAdd | src/com/polarion/alm/extensions/widgets/csv/CSVBasedTrendChartWidgetRenderer.java:248 | wrapping after every step of a running sum equals wrapping once at the end |
| Ordered.Least | src/com/polarion/alm/extensions/widgets/csv/CSVBasedTrendChartWidgetRenderer.java:342 | the smallest element of a non-empty set of instants |
| Ordered.Ascending | src/com/polarion/alm/extensions/widgets/csv/CSVBasedTrendChartWidgetRenderer.java:254 | TreeMap iteration order: exactly the set's elements, strictly increasing |
| Ordered.IncreasingIsEnumeration | src/com/polarion/alm/extensions/widgets/csv/CSVBasedTrendChartWidgetRenderer.java:342 | the ascending order lists every key exactly once |
| Calendar.DayOf | src/com/polarion/alm/extensions/widgets/csv/CSVBasedTrendChartWidgetRenderer.java:295-298 | the day containing an instant: the instant lies in that day's 86400000 ms |
| Calendar.StartOfDay | src/com/polarion/alm/extensions/widgets/csv/CSVBasedTrendChartWidgetRenderer.java:295-298 | midnight of a day: in that day and a multiple of a day's length |
| Calendar.YearOf | src/com/polarion/alm/extensions/widgets/csv/CSVBasedTrendChartWidgetRenderer.java:288 | the year whose first and next year's first day enclose the day |
| Calendar.YearOfUnique | src/com/polarion/alm/extensions/widgets/csv/CSVBasedTrendChartWidgetRenderer.java:288 | that year is the only one enclosing the day |
| Calendar.MonthOf | src/com/polarion/alm/extensions/widgets/csv/CSVBasedTrendChartWidgetRenderer.java:282 | the month, 1 to 12, whose start and the next month's start enclose the day within its year |
| Calendar.MonthOfUnique | src/com/polarion/alm/extensions/widgets/csv/CSVBasedTrendChartWidgetRenderer.java:282 | that month is the only one enclosing the day |
| Calendar.FirstOfYearIsStart | src/com/polarion/alm/extensions/widgets/csv/CSVBasedTrendChartWidgetRenderer.java:288 | setting DAY_OF_YEAR to 1 gives a day not after d, in d's year, with day-of-year 1 |
| Calendar.FirstOfMonthIsStart | src/com/polarion/alm/extensions/widgets/csv/CSVBasedTrendChartWidgetRenderer.java:282 | setting DAY_OF_MONTH to 1 gives a day not after d, in d's year and month, with day-of-month 1 |
| Calendar.FirstOfWeekIsStart | src/com/polarion/alm/extensions/widgets/csv/CSVBasedTrendChartWidgetRenderer.java:276 | setting DAY_OF_WEEK to the first day of the week gives a day at most 6 days before d, on that weekday; doing it again changes nothing |
| Strategies.ParseScale | src/com/polarion/alm/extensions/widgets/csv/CSVBasedTrendChartWidgetRenderer.java:73 | Scale.valueOf: the constant with that exact name, or IllegalArgumentException when no constant has it |
| Strategies.ParseScaleName | src/com/polarion/alm/extensions/widgets/csv/CSVBasedTrendChartWidgetRenderer.java:266-290 | every constant is found again under its own name |
| Strategies.ScaleDate | src/com/polarion/alm/extensions/widgets/csv/CSVBasedTrendChartWidgetRenderer.java:292-301 | the result is a midnight and never after the input |
| Strategies.ScaleDateIsBucketStart | src/com/polarion/alm/extensions/widgets/csv/CSVBasedTrendChartWidgetRenderer.java:266-304 | day keeps the day; week moves to the first day of the same week; month to day 1 of the same month; year to day 1 of the same year |
| Strategies.ScaleDateIdempotent | src/com/polarion/alm/extensions/widgets/csv/CSVBasedTrendChartWidgetRenderer.java:292-301 | scaling twice equals scaling once |
| Strategies.MonthBucketsAreMonths | src/com/polarion/alm/extensions/widgets/csv/CSVBasedTrendChartWidgetRenderer.java:279-284 | for any first day of week, two instants share a month bucket if and only if they share year and month |
| Strategies.ParseAggregation | src/com/polarion/alm/extensions/widgets/csv/CSVBasedTrendChartWidgetRenderer.java:172 | Aggregation.valueOf: the constant with that exact name, or IllegalArgumentException when no constant has it |
| Strategies.ParseAggregationName | src/com/polarion/alm/extensions/widgets/csv/CSVBasedTrendChartWidgetRenderer.java:306-336 | every constant is found again under its own name |
| Strategies.Compute | src/com/polarion/alm/extensions/widgets/csv/CSVBasedTrendChartWidgetRenderer.java:306-338 | nothing stored gives current; otherwise sum is the wrapped sum, first the stored value, last the current one, min and max the smaller and larger of the two |
| Strategies.AggregateSum | src/com/polarion/alm/extensions/widgets/csv/CSVBasedTrendChartWidgetRenderer.java:307-312 | folding sum over a bucket gives its wrapped total |
| Strategies.AggregateFirst | src/com/polarion/alm/extensions/widgets/csv/CSVBasedTrendChartWidgetRenderer.java:313-318 | folding first gives the bucket's first value |
| Strategies.AggregateLast | src/com/polarion/alm/extensions/widgets/csv/CSVBasedTrendChartWidgetRenderer.java:319-324 | folding last gives the bucket's last value |
| Strategies.AggregateMin | src/com/polarion/alm/extensions/widgets/csv/CSVBasedTrendChartWidgetRenderer.java:325-330 | folding min gives a value of the bucket at or below all of them |
| Strategies.AggregateMax | src/com/polarion/alm/extensions/widgets/csv/CSVBasedTrendChartWidgetRenderer.java:331-336 | folding max gives a value of the bucket at or above all of them |
| Strategies.SeqSumPermutation | src/com/polarion/alm/extensions/widgets/csv/CSVBasedTrendChartWidgetRenderer.java:307-312 | a total does not depend on the order of its values |
| Strategies.AggregateOrderFree | src/com/polarion/alm/extensions/widgets/csv/CSVBasedTrendChartWidgetRenderer.java:306-338 | sum, min and max of a bucket do not depend on the order of its values |
| Text.IndexOf | src/com/polarion/alm/extensions/widgets/csv/CSVBasedTrendChartWidgetRenderer.java:219 | the first occurrence at or after a position, or none when there is none |
| Text.ReplaceFirst | src/com/polarion/alm/extensions/widgets/csv/CSVBasedTrendChartWidgetRenderer.java:219-233 | String.replace rewrites the first occurrence of the target and continues after it, so occurrences never overlap; with no occurrence the text is returned unchanged |
| Text.ReplaceWithoutOpen | src/com/polarion/alm/extensions/widgets/csv/CSVBasedTrendChartWidgetRenderer.java:219 | replacing a `${…}` target in text without `${` changes nothing |
| Text.Fields | src/com/polarion/alm/extensions/widgets/csv/CSVData.java:55 | splitting on a literal separator yields at least one field |
| Text.JoinFields | src/com/polarion/alm/extensions/widgets/csv/CSVData.java:55 | joining the fields with the separator gives back the line |
| Text.FieldsAvoidSeparator | src/com/polarion/alm/extensions/widgets/csv/CSVData.java:55 | no field contains the separator |
| Text.DropTrailingEmpty | src/com/polarion/alm/extensions/widgets/csv/CSVData.java:55 | a prefix of the fields that drops only empty fields and ends in a non-empty one |
| Text.SplitKeepsFields | src/com/polarion/alm/extensions/widgets/csv/CSVData.java:55 | String.split with a quoted pattern: the fields minus the trailing empty ones; a line without the separator is one field |
| Text.RemoveWhitespace | src/com/polarion/alm/extensions/widgets/csv/CSVBasedTrendChartWidgetRenderer.java:221 | the result holds no whitespace, and text without whitespace is kept |
| Text.RemoveWhitespaceConcat | src/com/polarion/alm/extensions/widgets/csv/CSVBasedTrendChartWidgetRenderer.java:221 | removing whitespace distributes over concatenation, drops a single whitespace character and keeps any other; together these fix the result |
| Text.CloseIndex | src/com/polarion/alm/extensions/widgets/csv/CSVBasedTrendChartWidgetRenderer.java:235 | the reluctant `.*?` match: the first `}`, with no `}` or line break before it |
| Text.ClosesOnLineOfOutput | src/com/polarion/alm/extensions/widgets/csv/CSVBasedTrendChartWidgetRenderer.java:235 | a `}` on the line after the catch-all was already there before it |
| Text.ReplaceSpansAt | src/com/polarion/alm/extensions/widgets/csv/CSVBasedTrendChartWidgetRenderer.java:235 | the catch-all keeps the text before the first `${`, turns a one-line span `${name}` there (up to its first `}`) into `0`, and carries on after it |
| Text.ReplaceSpansLeavesNoSpan | src/com/polarion/alm/extensions/widgets/csv/CSVBasedTrendChartWidgetRenderer.java:235 | after the catch-all no `${…}` span without a line break is left |
| Text.ReplaceSpansWithoutOpen | src/com/polarion/alm/extensions/widgets/csv/CSVBasedTrendChartWidgetRenderer.java:235 | text without `${` passes the catch-all unchanged |
| Text.Digits | src/com/polarion/alm/extensions/widgets/csv/CSVBasedTrendChartWidgetRenderer.java:219 | the decimal digits of a number are never empty |
| Text.DigitsSpell | src/com/polarion/alm/extensions/widgets/csv/CSVBasedTrendChartWidgetRenderer.java:219-223 | the digits are decimal digits that spell the number back, with no leading zero except for 0 |
| Text.IntToStringSpells | src/com/polarion/alm/extensions/widgets/csv/CSVBasedTrendChartWidgetRenderer.java:219-223 | Integer.toString: a `-` exactly for a negative number, then digits spelling its absolute value without a leading zero |
| CsvData.ParseRows | src/com/polarion/alm/extensions/widgets/csv/CSVData.java:54-57 | one row per line, in line order, each the line split on the separator |
| CsvData.Load | src/com/polarion/alm/extensions/widgets/csv/CSVData.java:48-60 | the constructor's loop builds exactly those rows and keeps the timestamp; the header (getHeader) is the first line split, or empty for no lines |
| CsvData.Visit | src/com/polarion/alm/extensions/widgets/csv/CSVData.java:78-82 | the loop threads the visitor over the rows in order |
| CsvData.VisitCallsEachRowOnce | src/com/polarion/alm/extensions/widgets/csv/CSVData.java:78-82 | the visitor is called once per row, with indices 0 to n-1 in increasing order |
| CsvData.Source | src/com/polarion/alm/extensions/widgets/csv/CSVData.java:62-64 | a source opens exactly when its location and separator are set and readable; a missing location, then a missing separator, raises RequiredParameterException naming it |
| CsvData.Open | src/com/polarion/alm/extensions/widgets/csv/CSVData.java:62-64 | the constructor from a parameter opens that source |
| CsvData.GetAll | src/com/polarion/alm/extensions/widgets/csv/CSVData.java:113-125 | the loop over the additional sources computes the source bag or the first exception |
| CsvData.AllSourcesFailurePersists | src/com/polarion/alm/extensions/widgets/csv/CSVData.java:118-123 | an exception from one source ends getAll with that exception |
| CsvData.AllSourcesSucceeds | src/com/polarion/alm/extensions/widgets/csv/CSVData.java:113-125 | getAll succeeds if and only if the primary opens and every configured additional source has a name and opens |
| CsvData.AllSourcesFailure | src/com/polarion/alm/extensions/widgets/csv/CSVData.java:113-125 | what getAll throws: the primary source's exception when it does not load; otherwise, at the first configured additional source that stops it, RequiredParameterException naming its name parameter when the name is blank, else that source's own exception |
| CsvData.AddSourceEffect | src/com/polarion/alm/extensions/widgets/csv/CSVData.java:119-122 | an unconfigured additional source is skipped; a configured one is put under its name |
| CsvData.AllSourcesPrimary | src/com/polarion/alm/extensions/widgets/csv/CSVData.java:115-116 | the primary source is always stored under the null key |
| CsvData.AllSourcesKeys | src/com/polarion/alm/extensions/widgets/csv/CSVData.java:113-125 | the keys are exactly null and the names of the configured additional sources |
| CsvData.AllSourcesLastWins | src/com/polarion/alm/extensions/widgets/csv/CSVData.java:119-122 | of several sources with one name, the last one is kept |
| LoadData.PutCellsOutcome | src/com/polarion/alm/extensions/widgets/csv/CSVBasedTrendChartWidgetRenderer.java:368-372 | the cell loop succeeds exactly when every cell has a header and parses; otherwise it throws at the first bad cell, out-of-bounds before parse failure |
| LoadData.PutCellsContents | src/com/polarion/alm/extensions/widgets/csv/CSVBasedTrendChartWidgetRenderer.java:368-372 | the keys become the old ones plus `prefix + header[i]`; other keys keep their values; each key holds its last column's parsed value |
| LoadData.LoadRowEffect | src/com/polarion/alm/extensions/widgets/csv/CSVBasedTrendChartWidgetRenderer.java:354-376 | the header row and empty rows are skipped; an unparseable date throws; a date outside the window is skipped; a date inside adds exactly that date, touches no other, and holds what the cell loop made of its earlier entry |
| LoadData.LoadRowKeeps | src/com/polarion/alm/extensions/widgets/csv/CSVBasedTrendChartWidgetRenderer.java:354-376 | a row keeps every date in the window, adds only header keys, keeps every date already there, and adds no date but its own |
| LoadData.VisitRowsKeeps | src/com/polarion/alm/extensions/widgets/csv/CSVBasedTrendChartWidgetRenderer.java:350-379 | loading one source keeps those invariants and adds exactly the dates of its contributing rows |
| LoadData.LoadAllFailurePersists | src/com/polarion/alm/extensions/widgets/csv/CSVBasedTrendChartWidgetRenderer.java:341-348 | an exception from one source ends loadData with that exception |
| LoadData.LoadData | src/com/polarion/alm/extensions/widgets/csv/CSVBasedTrendChartWidgetRenderer.java:341-348 | the loop over the sources computes the table, each source under its prefix |
| LoadData.LoadAllContents | src/com/polarion/alm/extensions/widgets/csv/CSVBasedTrendChartWidgetRenderer.java:341-379 | every date lies in the window; every key is a prefixed header column; the dates present are exactly those of contributing rows |
| LoadEntries.WritingColumn | src/com/polarion/alm/extensions/widgets/csv/CSVBasedTrendChartWidgetRenderer.java:366-372 | the rightmost column of a row below a bound whose prefixed header is the key, or none when no such column exists |
| LoadEntries.WritingCellSpec | src/com/polarion/alm/extensions/widgets/csv/CSVBasedTrendChartWidgetRenderer.java:354-376 | the reference cell of one source exists exactly when some cell of a contributing row stores under the date and key, and no such cell comes after it |
| LoadEntries.WritingSourceSpec | src/com/polarion/alm/extensions/widgets/csv/CSVBasedTrendChartWidgetRenderer.java:341-376 | the reference cell over all sources exists exactly when some cell stores under the date and key, and it is the last one in loading order |
| LoadEntries.PutCellsEntry | src/com/polarion/alm/extensions/widgets/csv/CSVBasedTrendChartWidgetRenderer.java:366-372 | after the cell loop a key holds the parsed value of its rightmost cell, or its earlier value when no cell stores there |
| LoadEntries.LoadRowEntry | src/com/polarion/alm/extensions/widgets/csv/CSVBasedTrendChartWidgetRenderer.java:354-376 | a row changes the value under a date and key only when it contributes that date and a cell stores under the key, and then to that cell's parsed value |
| LoadEntries.VisitRowsEntry | src/com/polarion/alm/extensions/widgets/csv/CSVBasedTrendChartWidgetRenderer.java:350-379 | after one source a date and key hold the parsed value of the source's last cell storing there, or the earlier value when there is none |
| LoadEntries.LoadAllEntry | src/com/polarion/alm/extensions/widgets/csv/CSVBasedTrendChartWidgetRenderer.java:341-348 | the loaded table holds under a date and key the parsed value of the last cell storing there, and nothing when there is none |
| LoadEntries.LoadAllEntryAt | src/com/polarion/alm/extensions/widgets/csv/CSVBasedTrendChartWidgetRenderer.java:341-376 | one date and key: a value exactly when some cell stores there, equal to the last such cell parsed |
| LoadEntries.LoadAllEntries | src/com/polarion/alm/extensions/widgets/csv/CSVBasedTrendChartWidgetRenderer.java:341-376 | a date has a value under a key exactly when some source cell stores there, and the value is the parsed last such cell (last source, then last row, then rightmost column) |
| Series.SelectSound | src/com/polarion/alm/extensions/widgets/csv/CSVBasedTrendChartWidgetRenderer.java:204-216 | the filtered series is in date order and holds only the key's values at their dates |
| Series.SelectComplete | src/com/polarion/alm/extensions/widgets/csv/CSVBasedTrendChartWidgetRenderer.java:204-216 | every date holding the key appears in the filtered series |
| Series.FilterDataByKey | src/com/polarion/alm/extensions/widgets/csv/CSVBasedTrendChartWidgetRenderer.java:204-216 | the loop keeps exactly the dates holding the key, in ascending order, with their values |
| Series.ScaleSerieRawData | src/com/polarion/alm/extensions/widgets/csv/CSVBasedTrendChartWidgetRenderer.java:253-262 | the loop folds each point into its bucket with compute |
| Series.BucketedKeys | src/com/polarion/alm/extensions/widgets/csv/CSVBasedTrendChartWidgetRenderer.java:253-262 | the buckets are exactly the images of the series' dates under the scale |
| Series.BucketedAggregates | src/com/polarion/alm/extensions/widgets/csv/CSVBasedTrendChartWidgetRenderer.java:253-262 | each bucket holds the fold of compute over its values in series order |
| Series.ScaledSumMinMax | src/com/polarion/alm/extensions/widgets/csv/CSVBasedTrendChartWidgetRenderer.java:253-262 | a bucket's sum is the wrapped total of its values; its min and max are values of it at or below and at or above all of them |
| Series.BucketValuesFirst | src/com/polarion/alm/extensions/widgets/csv/CSVBasedTrendChartWidgetRenderer.java:253-262 | a bucket's first value comes from its first point |
| Series.BucketValuesLast | src/com/polarion/alm/extensions/widgets/csv/CSVBasedTrendChartWidgetRenderer.java:253-262 | a bucket's last value comes from its last point |
| Series.BucketValuesHold | src/com/polarion/alm/extensions/widgets/csv/CSVBasedTrendChartWidgetRenderer.java:253-262 | a bucket that a point falls into has values |
| Series.ScaledFirst | src/com/polarion/alm/extensions/widgets/csv/CSVBasedTrendChartWidgetRenderer.java:253-262 | on a date-ordered series, first keeps the earliest-dated value of the bucket |
| Series.ScaledLast | src/com/polarion/alm/extensions/widgets/csv/CSVBasedTrendChartWidgetRenderer.java:253-262 | on a date-ordered series, last keeps the latest-dated value of the bucket |
| Series.PointsAt | src/com/polarion/alm/extensions/widgets/csv/CSVBasedTrendChartWidgetRenderer.java:192-199 | one point per given key, with that key's value |
| Series.PointsAreEntries | src/com/polarion/alm/extensions/widgets/csv/CSVBasedTrendChartWidgetRenderer.java:192-199 | the plotted points are the scaled entries, each once, in ascending date order |
| Series.PlottedAggregates | src/com/polarion/alm/extensions/widgets/csv/CSVBasedTrendChartWidgetRenderer.java:189-202 | each plotted point carries the aggregate of its bucket's values |
| Series.PlottedBuckets | src/com/polarion/alm/extensions/widgets/csv/CSVBasedTrendChartWidgetRenderer.java:189-216 | every date holding the key has its bucket plotted |
| Series.MinValue | src/com/polarion/alm/extensions/widgets/csv/CSVBasedTrendChartWidgetRenderer.java:190-201 | at or below every plotted value; Integer.MAX_VALUE for no points; otherwise one of the values |
| Series.MinValueStep | src/com/polarion/alm/extensions/widgets/csv/CSVBasedTrendChartWidgetRenderer.java:197 | one more point lowers the minimum to its value when smaller |
| Series.PlotPoints | src/com/polarion/alm/extensions/widgets/csv/CSVBasedTrendChartWidgetRenderer.java:190-202 | the loop plots one point per entry of the scaled TreeMap, in ascending date order, and returns the least plotted value (Integer.MAX_VALUE when there is none) |
| Series.PlotScaledData | src/com/polarion/alm/extensions/widgets/csv/CSVBasedTrendChartWidgetRenderer.java:189-202 | the loop plots the scaled entries in ascending order and returns their minimum |
| Statistics.PutEntryValid | src/com/polarion/alm/extensions/widgets/csv/CSVBasedTrendChartWidgetRenderer.java:248 | LinkedHashMap.put keeps the insertion order listing each key once |
| Statistics.ComputeStatistics | src/com/polarion/alm/extensions/widgets/csv/CSVBasedTrendChartWidgetRenderer.java:239-251 | the nested loops compute the statistics map over the dates in ascending order |
| Statistics.PutItemsValid | src/com/polarion/alm/extensions/widgets/csv/CSVBasedTrendChartWidgetRenderer.java:241-249 | the insertion order stays a list of the keys, each once |
| Statistics.PutItemsEffect | src/com/polarion/alm/extensions/widgets/csv/CSVBasedTrendChartWidgetRenderer.java:242-249 | one date's entries add each of its values to its key's wrapped total and touch no other key |
| Statistics.PutDateTotalStep | src/com/polarion/alm/extensions/widgets/csv/CSVBasedTrendChartWidgetRenderer.java:241-249 | one more date extends a key's presence by that date's map and adds its value to the wrapped total |
| Statistics.PutDatesValid | src/com/polarion/alm/extensions/widgets/csv/CSVBasedTrendChartWidgetRenderer.java:239-251 | the result lists each key once in insertion order |
| Statistics.PutDatesTotal | src/com/polarion/alm/extensions/widgets/csv/CSVBasedTrendChartWidgetRenderer.java:239-251 | a key has a total exactly when some date holds it, and the total is the wrapped column sum |
| Statistics.ValuesAtSelect | src/com/polarion/alm/extensions/widgets/csv/CSVBasedTrendChartWidgetRenderer.java:239-251 | the column sum over the dates equals the sum of the key's filtered series |
| Statistics.SeriesOfEmpty | src/com/polarion/alm/extensions/widgets/csv/CSVBasedTrendChartWidgetRenderer.java:204-216 | a key's series is empty exactly when no date holds it |
| Statistics.StatisticsTotals | src/com/polarion/alm/extensions/widgets/csv/CSVBasedTrendChartWidgetRenderer.java:239-251 | the keys are exactly those present at some date, each with the wrapped sum of its values over all dates |
| Statistics.StatisticsTotalsOrderFree | src/com/polarion/alm/extensions/widgets/csv/CSVBasedTrendChartWidgetRenderer.java:239-251 | the totals do not depend on the HashMap order of the entries |
| Template.Placeholder | src/com/polarion/alm/extensions/widgets/csv/CSVBasedTrendChartWidgetRenderer.java:223 | `${name}` starts with `${` and is three characters longer than the name |
| Template.StatEntries | src/com/polarion/alm/extensions/widgets/csv/CSVBasedTrendChartWidgetRenderer.java:221 | the statistics' entries, in insertion order |
| Template.StatEntriesListTotals | src/com/polarion/alm/extensions/widgets/csv/CSVBasedTrendChartWidgetRenderer.java:221 | the entry set lists every total once, with its value |
| Template.ProcessTextOf | src/com/polarion/alm/extensions/widgets/csv/CSVBasedTrendChartWidgetRenderer.java:218-237 | the output holds no `${…}` span without a line break |
| Template.ProcessText | src/com/polarion/alm/extensions/widgets/csv/CSVBasedTrendChartWidgetRenderer.java:218-237 | working days, then each statistic and its per-day value, then each timestamp, then the catch-all, leaving no one-line `${…}` |
| Template.ReplaceStatistics | src/com/polarion/alm/extensions/widgets/csv/CSVBasedTrendChartWidgetRenderer.java:220-226 | the statistics loop replaces each entry's `${key}` and then `${keyPerDay}`, entry after entry |
| Template.ReplaceTimestamps | src/com/polarion/alm/extensions/widgets/csv/CSVBasedTrendChartWidgetRenderer.java:227-234 | the timestamps loop replaces each source's `${_timestamp<name>}`, in the map's iteration order |
| Template.ReplaceWhole | src/com/polarion/alm/extensions/widgets/csv/CSVBasedTrendChartWidgetRenderer.java:219 | String.replace on the target alone gives the replacement |
| Template.IntToStringNoOpen | src/com/polarion/alm/extensions/widgets/csv/CSVBasedTrendChartWidgetRenderer.java:219 | a printed number holds no `${` |
| Template.PutStatisticsPlain | src/com/polarion/alm/extensions/widgets/csv/CSVBasedTrendChartWidgetRenderer.java:221-226 | the statistics loop leaves text without `${` unchanged |
| Template.PutTimestampsPlain | src/com/polarion/alm/extensions/widgets/csv/CSVBasedTrendChartWidgetRenderer.java:228-234 | the timestamps loop leaves text without `${` unchanged |
| Template.ProcessTextPlain | src/com/polarion/alm/extensions/widgets/csv/CSVBasedTrendChartWidgetRenderer.java:218-237 | text without `${` is returned unchanged |
| Template.ProcessTextWorkingDays | src/com/polarion/alm/extensions/widgets/csv/CSVBasedTrendChartWidgetRenderer.java:219 | `${_workingDays}` becomes the printed working-day count |
| Template.PutStatisticsUntouched | src/com/polarion/alm/extensions/widgets/csv/CSVBasedTrendChartWidgetRenderer.java:221-226 | statistics whose placeholders do not occur leave the text as it is |
| Template.PutStatisticsAppend | src/com/polarion/alm/extensions/widgets/csv/CSVBasedTrendChartWidgetRenderer.java:220-226 | the statistics loop over two runs of entries is the loop over the first followed by the loop over the second |
| Template.PutStatisticOwn | src/com/polarion/alm/extensions/widgets/csv/CSVBasedTrendChartWidgetRenderer.java:221-225 | the text `${key}` alone becomes the printed value, and the per-day replacement leaves it so |
| Template.PutStatisticsHit | src/com/polarion/alm/extensions/widgets/csv/CSVBasedTrendChartWidgetRenderer.java:220-226 | the placeholder of entry i, untouched before it, becomes its value and stays so through the later entries |
| Template.ProcessTextTotal | src/com/polarion/alm/extensions/widgets/csv/CSVBasedTrendChartWidgetRenderer.java:218-237 | `${key}` becomes the key's printed total when no earlier replacement touches it |
| DateWindow.DateOf | src/com/polarion/alm/extensions/widgets/common/Utils.java:43-47 | Utils.date lands on the requested day at the given time of day |
| DateWindow.YearWindowAsWrittenMissesNewYear | src/com/polarion/alm/extensions/widgets/common/Utils.java:43-47 | the window as written leaves out midnight of January 1 whenever the clock is past midnight |
| DateWindow.YearWindow | src/com/polarion/alm/extensions/widgets/csv/CSVBasedTrendChartWidgetRenderer.java:99-101 | the intended window runs from January 1 at 00:00 to December 31 at the last millisecond |
| DateWindow.YearWindowIsYear | src/com/polarion/alm/extensions/widgets/csv/CSVBasedTrendChartWidgetRenderer.java:99-101 | an instant lies in the year window if and only if its day belongs to that year |
| Renderer.InitDatesWindow | src/com/polarion/alm/extensions/widgets/csv/CSVBasedTrendChartWidgetRenderer.java:98-104 | without a year the window is from..to; a year that does not parse throws NumberFormatException; otherwise the corrected window holds exactly the instants of that year (see Findings) |
| Renderer.CollectTimestamps | src/com/polarion/alm/extensions/widgets/csv/CSVBasedTrendChartWidgetRenderer.java:84-86 | the loop maps every source name to that source's timestamp |
| Renderer.RunSetup | src/com/polarion/alm/extensions/widgets/csv/CSVBasedTrendChartWidgetRenderer.java:69-90 | the constructor's try block computes the setup or the first exception, in the source's order |
| Renderer.RenderSeriesFailurePersists | src/com/polarion/alm/extensions/widgets/csv/CSVBasedTrendChartWidgetRenderer.java:155-160 | an exception from one series ends renderChart with that exception |
| Renderer.ShownSeries | src/com/polarion/alm/extensions/widgets/csv/CSVBasedTrendChartWidgetRenderer.java:155-156 | the drawn series are exactly the series with a name, color or data key set |
| Renderer.RenderSeriesBuildsShown | src/com/polarion/alm/extensions/widgets/csv/CSVBasedTrendChartWidgetRenderer.java:155-160 | the chart has one view per drawn series, each built from that series, in order |
| Renderer.RenderSeriesFailure | src/com/polarion/alm/extensions/widgets/csv/CSVBasedTrendChartWidgetRenderer.java:155-160 | renderChart throws if and only if some drawn series fails to build, and throws the first such failure |
| Renderer.MinimumStep | src/com/polarion/alm/extensions/widgets/csv/CSVBasedTrendChartWidgetRenderer.java:157-158 | Math.min with one more series' minimum keeps the axis-minimum property |
| Renderer.RenderSeriesMinimum | src/com/polarion/alm/extensions/widgets/csv/CSVBasedTrendChartWidgetRenderer.java:153-162 | the y-axis minimum is at or below 0 and every plotted value, and is 0 or a plotted value |
| Renderer.KeyPointsPlot | src/com/polarion/alm/extensions/widgets/csv/CSVBasedTrendChartWidgetRenderer.java:180-186 | the key's scaled series is date-ordered, holds each bucket's aggregate, and covers every date holding the key |
| Renderer.BuildSeriePoints | src/com/polarion/alm/extensions/widgets/csv/CSVBasedTrendChartWidgetRenderer.java:168-187 | buildSerie with a data key and a known aggregation succeeds, plots the key, and returns a minimum at or below every point |
| Renderer.SetupDataWindow | src/com/polarion/alm/extensions/widgets/csv/CSVBasedTrendChartWidgetRenderer.java:80-83 | the loaded dates lie within the configured year or, without a year, between from and to |
| Renderer.SetupTexts | src/com/polarion/alm/extensions/widgets/csv/CSVBasedTrendChartWidgetRenderer.java:106-117 | the texts are absent when unset, free of placeholders when set, and unchanged when they hold no `${` |
| Renderer.SetupRequired | src/com/polarion/alm/extensions/widgets/csv/CSVBasedTrendChartWidgetRenderer.java:69-95 | a blank scale, type or date format yields the warning naming it; an unknown scale, a rejected date pattern or an unparsable year yields an error; on success, scale, type, date pattern and series are as configured |
| Renderer.TrendChartRenderer.constructor | src/com/polarion/alm/extensions/widgets/csv/CSVBasedTrendChartWidgetRenderer.java:67-96 | a RequiredParameterException becomes the warning, any other exception the error, and otherwise the fields hold the setup |
| Renderer.TrendChartRenderer.BuildSerie | src/com/polarion/alm/extensions/widgets/csv/CSVBasedTrendChartWidgetRenderer.java:168-187 | filters the data by the key and plots it scaled and aggregated, or throws for a missing key or aggregation |
| Renderer.TrendChartRenderer.RenderChart | src/com/polarion/alm/extensions/widgets/csv/CSVBasedTrendChartWidgetRenderer.java:142-166 | the loop builds every drawn series in order and lowers the minimum from 0 with Math.min |
| Renderer.TrendChartRenderer.Render | src/com/polarion/alm/extensions/widgets/csv/CSVBasedTrendChartWidgetRenderer.java:119-140 | the error comes first, then the warning, then the chart between the texts; a RequiredParameterException while charting gives a warning |

## Left out

- Repository access (`Utils.loadContent`, `getCurrentBaseline`): a location's lines and last-changed instant are a parameter (`Loader`). An unreadable location becomes the `Io` exception.
- UTF-8 decoding and `readLine` line-terminator handling: a source's content is already a sequence of lines.
- The working calendar (`getWorkingCalendar`, `Dates.calculateWorkingDaysBetween`): the working-day count of a window is a parameter.
- `SimpleDateFormat`: parsing `yyyy-MM-dd`, including its leniency, is a parameter (`DateParser`). So are the validity of the configured pattern and the formatting of timestamps.
- Time zones and daylight saving time: instants are local wall-clock milliseconds. The calendar is proleptic Gregorian, with no Julian cutover.
- The locale's first day of the week is a parameter.
- Floating point: the `float` per-day ratio and `String.format("%.1f")` are one parameter of (total, working days). Its `workingDays > 0` guard is modelled.
- `Integer.parseInt`: a parameter returning an `Int32` or nothing. Nothing becomes NumberFormatException.
- `HashMap` iteration order: the order of the source bag, of each date's entries and of the timestamps is a parameter. That order is also a parameter of the statistics insertion order (`LinkedHashMap`).
- Highcharts, `PolarionChartBuilder` and `HtmlFragmentBuilder` calls: the chart is a value holding the title, type, series views and y-axis minimum. The column width and the axis styling are not modelled.
- Widget metadata, parameter definitions and `CSVBasedTableWidget`: not part of this model.
- The messages of exceptions other than RequiredParameterException: the error page holds the exception itself, not `getLocalizedMessage()`. So a null message does not leave `error` unset.
- Renderer.TrendChartRenderer.constructor: after a caught exception, fields assigned before the throw are not modelled. `render` never reads them once the error or warning is set.
- Renderer.SetupOf: takes the corrected year window (`DateWindow.YearWindow`), not the clock-dependent one. See Findings.
- Renderer.InitDatesWindow: states the corrected year window (`DateWindow.YearWindow`), not the window from January 1 to December 31 at the current time of day that `Utils.date` builds; `DateWindow.YearWindowAsWrittenMissesNewYear` models that one. See Findings.
- Renderer.WellFormed: every parameter the renderer looks up is assumed to exist in its composite. The host's parameter definitions guarantee this, so a missing parameter object is not modelled.
- Renderer.OrdersListKeys: the source bag's iteration order is assumed to list each name once.
- Renderer.InitDates: the from and to date parameters are taken as set. Without a year and with either unset, `Dates` would hold null; the NullPointerException this causes at the window test in `loadData` (line 363, on the first dated row) or in the working-day count is not modelled.
- `Utils.date` month rollover beyond a month's length is modelled only through `DateWindow.DateOf`, for the two dates `initDates` uses.

## Findings

| source | as written | input that shows it | evidently intended | confidence | as-written member | corrected member |
|---|---|---|---|---|---|---|
| src/com/polarion/alm/extensions/widgets/common/Utils.java:43-47 with src/com/polarion/alm/extensions/widgets/csv/CSVBasedTrendChartWidgetRenderer.java:99-101 | `Utils.date` takes `Calendar.getInstance()` and sets only year, month and day. So both ends of the year window carry the current time of day. | Any year, the clock at 10:00, and a row dated January 1 of that year (parsed as midnight): the row lies before the window's start and is dropped. | The whole calendar year: from January 1 at 00:00 to the last millisecond of December 31. | medium; not executed | DateWindow.YearWindowAsWrittenMissesNewYear | DateWindow.YearWindowIsYear |
