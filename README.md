# SayBanana report generator: the statistics core in Dafny

SayBanana is a speech-practice game for children. Each of the child's attempts at a word
becomes one line of the `user_productions` log: `uid,word,grade,date time`, where the
grade is `1` (correct), `0` (incorrect) or `2` (skipped). The report generator reads that
log and builds the numbers the parent's report shows:

- the child's single uid;
- the attempts grouped by date and then by time;
- per day, the counts of correct, incorrect and skipped attempts;
- per day and per word, the same counts and an accuracy percentage;
- the word-by-date table;
- the attempt history;
- the 14-day bar chart.

This project models that core and proves what it computes.

- `errors.dfy`, module `Errors`: `Result` and `Option`, and the Python exceptions the core
  can raise, as values of `Error`.
- `pystr.dfy`, `pylist.dfy` and `pydict.dfy`, modules `PyStr`, `PyList` and `PyDict`: the
  Python built-ins the core relies on. These are `str.strip`, `str.split(sep)`, slicing,
  string order, `sorted`, reversal, and the insertion-ordered `dict`. The order of a
  dict's keys is visible in the history rows and in the table, so it is modelled.
- `calendar.dfy`, module `Calendar`: proleptic Gregorian dates as `datetime` counts them.
  This covers day ordinals, the previous day, and weekdays.
- `user_dates.dfy`, module `UserDates`: `src/SBReportGenerator/utils/user_dates.py`.
  `strptime`/`strftime` for the four date formats, `format_date` and its sentinel,
  `generate_date_array`, `get_from_date`, `sort_dates`, `get_most_recent_date`,
  `get_day_name` and `is_today`.
- `rounding.dfy`, module `Rounding`: `round(x / total, 2) * 100` as a whole percentage.
- `daily_stats.dfy`, module `DailyStats`: the data of `UserStats` as values. It holds the
  functions that specify each step of the class, and the lemmas about them.
- `user_stats.dfy`, module `Stats`: the class `UserStats` of `src/utils/user_stats.py`.
  Its fields are updated in place. Its methods loop as the source does and are proved
  against the functions of `DailyStats`. The same module models the attempt history and
  the data that `create_table` builds.
- `plotting.dfy`, module `Plotting`: the data preparation of the bar chart in
  `build/lib/utils/plotting.py`.

Exceptions become `Failure(e)` results. Where the source has already changed `self` when
it raises, the model returns an `Outcome`: the state at the moment of the exception,
together with the error.

Two inputs that the source reads from the environment are parameters here:

- "today", which the source gets from `datetime.today()`;
- the log lines, which the source reads from a file.

The model follows the code in these places:

- **Zero totals.** `get_daily_word_stats` divides by the day's total and by each word's
  `correct + incorrect`. A day with no graded attempt, or a word that was only skipped,
  therefore raises ZeroDivisionError. The model gives `ZeroDivision`; it does not default
  these percentages to 0.
- **Unparsable dates.** `format_date` returns the string `"Invalid date format"`; it does
  not raise. That string then becomes a key of `daily_data`. `sort_dates` fails on it
  inside the constructor, which the model gives as `InvalidDate`.
- **The header row.** `daily_word_attempt_history("word")` also returns the header row,
  because the header's second field is the string `"word"`.

## Model

| member | source | states |
|---|---|---|
| PyStr.Strip | src/utils/user_stats.py:38 | the result is empty exactly when the line is all whitespace; otherwise it neither starts nor ends with whitespace |
| PyStr.StripIsInfix | src/utils/user_stats.py:38 | what `strip` keeps is an infix of the line with only whitespace cut off on either side |
| PyStr.Split | src/utils/user_stats.py:66 | `split(sep)` gives at least one field, and no field contains the separator |
| PyStr.SplitJoin | src/utils/user_stats.py:66 | joining the fields of a split with the separator gives the string back |
| PyStr.JoinSplit | src/utils/user_stats.py:66 | splitting a join of separator-free fields gives the fields back |
| PyStr.SplitCount | src/utils/user_stats.py:66-67 | the number of fields is one more than the number of separators, so unpacking into four names needs exactly three commas |
| PyStr.Slice | build/lib/utils/plotting.py:85 | `s[lo:hi]` is the plain slice when in range, is cut at the end of `s` when `hi` is past it, and is empty when `lo` is past the end or `hi <= lo` |
| PyStr.LexTotal | src/utils/user_stats.py:149 | any two strings are comparable in Python's order |
| PyStr.LexTransitive | src/utils/user_stats.py:149 | Python's string order is transitive |
| PyStr.LexAntisymmetric | src/utils/user_stats.py:149 | two strings each `<=` the other are equal |
| PyList.Sort | src/utils/user_stats.py:149 | `sorted` gives an ordered permutation of its input |
| PyList.Reverse | src/SBReportGenerator/utils/user_dates.py:26 | the reversed list holds element `len-1-i` at position `i` |
| PyList.ReverseReverse | src/utils/user_stats.py:141 | reversing twice gives the list back |
| PyList.DistinctPermutation | src/utils/user_stats.py:149 | a permutation of a list without duplicates has none either |
| PyDict.Dict.Put | src/utils/user_stats.py:69-71 | assignment to a new key appends it to the key order; to an existing key it keeps the order |
| PyDict.Dict.PutKeepsValid | src/utils/user_stats.py:69-71 | assignment keeps each key listed once and exactly the mapped keys listed |
| PyDict.Dict.Get | build/lib/utils/plotting.py:59 | `d.get(k, default)` is the stored value when `k` is present and the default otherwise |
| PyDict.Dict.Values | src/utils/user_stats.py:89 | the values are listed in key order, one per key |
| Calendar.DaysBeforeYearClosedForm | src/SBReportGenerator/utils/user_dates.py:25 | the days before a year are 365 per year plus the Gregorian leap days, `365*(y-1) + (y-1)/4 - (y-1)/100 + (y-1)/400`, the count `datetime` works with |
| Calendar.DaysInMonth | src/SBReportGenerator/utils/user_dates.py:20 | every month has 28 to 31 days |
| Calendar.LeIsTotalOrder | src/SBReportGenerator/utils/user_dates.py:69 | the order `max` and `sort` use on dates is total, transitive and antisymmetric |
| Calendar.OrdinalPositive | src/SBReportGenerator/utils/user_dates.py:25 | day numbers start at 1 on 01-01-0001 and only there |
| Calendar.OrdinalMonotone | src/SBReportGenerator/utils/user_dates.py:69 | one date is earlier than another exactly when its day number is smaller |
| Calendar.OrdinalInjective | src/SBReportGenerator/utils/user_dates.py:25 | different dates have different day numbers |
| Calendar.PrevDay | src/SBReportGenerator/utils/user_dates.py:25 | `date - timedelta(days=1)` fails only on 01-01-0001; otherwise it is the valid date whose day number is one less |
| Calendar.PrevDayByOrdinal | src/SBReportGenerator/utils/user_dates.py:25 | a valid date whose day number is one more has it as its previous day |
| Calendar.SubtractDays | src/SBReportGenerator/utils/user_dates.py:23-25 | going back `k` days succeeds exactly when `k` is less than the day number, and lands `k` day numbers earlier |
| Calendar.SubtractOneMore | src/SBReportGenerator/utils/user_dates.py:25 | going back `k + 1` days is going back `k` days and then one more |
| Calendar.SameDayOtherYear | src/utils/user_stats.py:183 | the same day and month in a later year is at least 365 days per year later, less one |
| Calendar.Weekday | src/SBReportGenerator/utils/user_dates.py:83 | the weekday is one of seven |
| Calendar.WeekdayOfPrevDay | src/SBReportGenerator/utils/user_dates.py:83 | the day before has the previous weekday |
| Calendar.FirstDayIsMonday | src/SBReportGenerator/utils/user_dates.py:83 | 01-01-0001 is weekday 0, Monday, which anchors the numbering `%A` names |
| UserDates.DayToken | src/SBReportGenerator/utils/user_dates.py:20 | `%d` accepts only days 1 to 31 |
| UserDates.MonthToken | src/SBReportGenerator/utils/user_dates.py:20 | `%m` accepts only months 1 to 12 |
| UserDates.YearToken | src/SBReportGenerator/utils/user_dates.py:41 | `%Y` gives a year up to 9999, and `%y` a year from 1969 to 2068 |
| UserDates.Strptime | src/SBReportGenerator/utils/user_dates.py:20 | a successful parse is a real calendar date |
| UserDates.Pad2 | src/SBReportGenerator/utils/user_dates.py:24 | two digits that read back as the number |
| UserDates.Pad4 | src/SBReportGenerator/utils/user_dates.py:24 | four digits that read back as the year |
| UserDates.Strftime | src/SBReportGenerator/utils/user_dates.py:24 | a formatted date is ten characters with `%Y` or eight with `%y`, digits everywhere but the two separators at positions 2 and 5 |
| UserDates.Render | src/SBReportGenerator/utils/user_dates.py:24 | the normal form `DD-MM-YYYY` is ten characters with dashes at positions 2 and 5 |
| UserDates.YearField | src/utils/user_stats.py:183 | the `%Y`/`%y` field is all digits |
| UserDates.StrftimeFields | src/SBReportGenerator/utils/user_dates.py:24 | a formatted date splits at its separator into the padded day, month and year |
| UserDates.StrptimeStrftime | src/SBReportGenerator/utils/user_dates.py:20-24 | parsing a formatted date with the same format gives the date back (for `%y`, years 1969 to 2068) |
| UserDates.RenderIsNormalized | src/SBReportGenerator/utils/user_dates.py:24 | `%d-%m-%Y` output parses back to the same date |
| UserDates.RenderInjective | src/SBReportGenerator/utils/user_dates.py:24 | different dates are rendered differently |
| UserDates.FirstParse | src/SBReportGenerator/utils/user_dates.py:41-51 | no date exactly when none of the formats parses; otherwise the date one of them parses |
| UserDates.Normalize | src/SBReportGenerator/utils/user_dates.py:41-53 | `format_date` reads no date exactly when all four formats fail, and otherwise the date one of the four formats reads |
| UserDates.FormattedDate | src/SBReportGenerator/utils/user_dates.py:30-53 | `format_date` returns the sentinel exactly when no format parses; otherwise a normal-form date equal to the first successful parse |
| UserDates.FormatDate | src/SBReportGenerator/utils/user_dates.py:30-53 | the loop over the four formats computes `FormattedDate` |
| UserDates.SentinelIsNotADate | src/SBReportGenerator/utils/user_dates.py:53 | `"Invalid date format"` cannot be confused with a formatted date |
| UserDates.FormatDateIdempotent | src/SBReportGenerator/utils/user_dates.py:30-53 | a date already in normal form is returned unchanged |
| UserDates.StrftimeOtherSeparator | src/SBReportGenerator/utils/user_dates.py:41-51 | a date written with one separator is not parsed by the formats with the other one |
| UserDates.ShortNotFull | src/SBReportGenerator/utils/user_dates.py:41 | a two-digit year is not taken for `%Y`, so the order of the formats cannot misread `%y` dates |
| UserDates.NormalizeRoundTrip | src/SBReportGenerator/utils/user_dates.py:41-48 | a date written in any of the four formats is normalised to that same date |
| UserDates.FormatDates | src/SBReportGenerator/utils/user_dates.py:56-60 | `format_dates` maps `format_date` over the list |
| UserDates.Window | src/SBReportGenerator/utils/user_dates.py:22-26 | `n` valid dates with consecutive day numbers ending at the anchor |
| UserDates.WindowIsConsecutive | src/SBReportGenerator/utils/user_dates.py:22-26 | the window ends at the anchor, each day is the previous day of the next one, and it is strictly increasing |
| UserDates.BackwardIsWindow | src/SBReportGenerator/utils/user_dates.py:23-26 | the days collected backwards and then reversed are the window |
| UserDates.DateArray | src/SBReportGenerator/utils/user_dates.py:7-27 | `InvalidDate` exactly when `from_date` is not `DD-MM-YYYY`, `DateOutOfRange` as the only other error, and otherwise `num_days` dates (none when negative) |
| UserDates.GenerateDateArray | src/SBReportGenerator/utils/user_dates.py:7-27 | `generate_date_array` fails with `InvalidDate` on a bad anchor and with `DateOutOfRange` when it would step back past 01-01-0001; otherwise it gives the rendered window |
| UserDates.DateArrayEndsAtFromDate | src/SBReportGenerator/utils/user_dates.py:22-27 | `num_days` normal-form dates (none when negative), the last one `from_date`'s date in normal form |
| UserDates.DateArrayConsecutive | src/SBReportGenerator/utils/user_dates.py:22-27 | each listed date is the day after the one before it |
| UserDates.DateArrayAscending | src/SBReportGenerator/utils/user_dates.py:22-27 | the list is strictly chronological |
| UserDates.DaysUpTo | src/SBReportGenerator/utils/user_dates.py:22-26 | the append-then-decrement loop gives the rendered window, or `DateOutOfRange` when the last decrement would fail |
| UserDates.ParseAll | src/SBReportGenerator/utils/user_dates.py:68 | parsing a list succeeds exactly when each date parses, and gives their dates in order |
| UserDates.Latest | src/SBReportGenerator/utils/user_dates.py:69 | `max` is a member that no other date comes after |
| UserDates.GetFromDate | src/SBReportGenerator/utils/user_dates.py:63-65 | with `from_today` or no list, the anchor is today |
| UserDates.GetFromDateFailures | src/SBReportGenerator/utils/user_dates.py:68-69 | an unparsable date gives `InvalidDate` and an empty list `EmptyDateList` |
| UserDates.GetFromDateLatest | src/SBReportGenerator/utils/user_dates.py:63-70 | otherwise the anchor is the normal form of the latest listed date, which is one of the dates and no earlier than any other |
| UserDates.SortedDates | src/SBReportGenerator/utils/user_dates.py:75 | `sort` gives a chronological permutation |
| UserDates.SortDates | src/SBReportGenerator/utils/user_dates.py:73-77 | `sort_dates` fails with `InvalidDate` exactly when a date does not parse, and otherwise keeps the length |
| UserDates.SortDatesChronological | src/SBReportGenerator/utils/user_dates.py:73-77 | the sorted dates are in normal form and in chronological order |
| UserDates.SortDatesPermutation | src/SBReportGenerator/utils/user_dates.py:73-77 | they are the input re-rendered and permuted; for normal-form input, a permutation of the input |
| UserDates.GetMostRecentDate | src/SBReportGenerator/utils/user_dates.py:90-94 | an empty list gives `None` |
| UserDates.ParseFormatted | src/SBReportGenerator/utils/user_dates.py:88-89 | the formatted list parses exactly when every date was recognised, and parses to the recognised dates |
| UserDates.SentinelDoesNotParse | src/SBReportGenerator/utils/user_dates.py:89 | the sentinel is rejected by `%d-%m-%Y` |
| UserDates.MostRecentDate | src/SBReportGenerator/utils/user_dates.py:87-94 | `get_most_recent_date` fails exactly when some date is unrecognised, and otherwise gives the latest date |
| UserDates.GetDayName | src/SBReportGenerator/utils/user_dates.py:80-84 | a parsable date gets the English name of its weekday; anything else fails |
| UserDates.IsToday | src/SBReportGenerator/utils/user_dates.py:97-102 | a date string is today exactly when it parses to today; a non-parsing string fails |
| Rounding.RoundHalfEven | src/utils/user_stats.py:111 | within half of the exact quotient, with ties going to the even integer |
| Rounding.RoundUnique | src/utils/user_stats.py:111 | only one integer has that property |
| Rounding.Pc | src/utils/user_stats.py:111 | the percentage is within half a point of `100 * x / total` |
| Rounding.PcBounds | src/utils/user_stats.py:110-112 | a part of a total is 0 to 100 percent of it, within half a point |
| Rounding.PcComplement | build/lib/utils/plotting.py:70-71 | the percentages of the two parts of a total add up to 100 |
| Rounding.PcMonotone | src/utils/user_stats.py:117-119 | a larger part never gets a smaller percentage |
| Rounding.PcExact | src/utils/user_stats.py:111 | an exact percentage is not rounded |
| Rounding.Percent | src/utils/user_stats.py:110-119 | a zero total fails with `ZeroDivision`; otherwise the rounded percentage. The day's and each word's accuracy are computed through it |
| DailyStats.NonBlank | src/utils/user_stats.py:38 | no kept line is blank |
| DailyStats.Kept | src/utils/user_stats.py:38 | a line is kept exactly when it is not all whitespace |
| DailyStats.NonBlankMembers | src/utils/user_stats.py:38 | a line is kept exactly when it is in the log and not blank |
| DailyStats.NonBlankAppend | src/utils/user_stats.py:38 | filtering distributes over concatenation |
| DailyStats.NonBlankKeepsAll | src/utils/user_stats.py:38 | filtering keeps a log without blank lines whole |
| DailyStats.UidSetMembers | src/utils/user_stats.py:50-53 | a uid is collected exactly when some non-empty line starts with it |
| DailyStats.Uid | src/utils/user_stats.py:50-57 | the uid is returned exactly when there is one distinct uid; several or none fail (the process exits) |
| DailyStats.ParseLine | src/utils/user_stats.py:66-68 | a line with the wrong number of fields fails with `WrongFieldCount` |
| DailyStats.ParseLineShape | src/utils/user_stats.py:66-67 | a line parses exactly when it has three commas and its last field one space |
| DailyStats.ParseLineFields | src/utils/user_stats.py:66-68 | a well-formed line gives its word, grade, time and formatted date |
| DailyStats.ParseLines | src/utils/user_stats.py:65-68 | parsing the lines succeeds exactly when each line parses, giving the entries in order |
| DailyStats.DailyDataOf | src/utils/user_stats.py:59-72 | `get_daily_data` gives a well-formed nested dict, or fails with `WrongFieldCount` |
| DailyStats.Record | src/utils/user_stats.py:69-71 | after filing, the entry's date and time hold its attempt, and no date is lost |
| DailyStats.Group | src/utils/user_stats.py:64-72 | every line's date is a key, and the last line's attempt is the one stored under its date and time |
| DailyStats.RecordKeys | src/utils/user_stats.py:69-71 | filing an entry adds its date and its time and removes nothing |
| DailyStats.GroupDates | src/utils/user_stats.py:64-72 | a date is a key exactly when some line is on that date |
| DailyStats.GroupTimes | src/utils/user_stats.py:64-72 | a time is under a date exactly when some line has that date and time |
| DailyStats.GroupValid | src/utils/user_stats.py:64-72 | the grouping is a well-formed nested dict |
| DailyStats.GroupLastWins | src/utils/user_stats.py:71 | when two lines share date and time, the later line's attempt is kept |
| DailyStats.GroupDatesFormatted | src/utils/user_stats.py:68 | every date key is either in normal form or the sentinel |
| DailyStats.Bump | src/utils/user_stats.py:94-104 | an attempt adds one to the counter of its grade and changes nothing else; an unknown grade adds nothing |
| DailyStats.CountsPartition | src/utils/user_stats.py:94-104 | correct, incorrect, skipped and unknown grades together count every attempt |
| DailyStats.Tally | src/utils/user_stats.py:90-104 | the attempt's word gets an entry, whatever its grade; no word is lost and other words are untouched |
| DailyStats.TallyAll | src/utils/user_stats.py:89-104 | every word that was there stays, and every attempted word has an entry |
| DailyStats.TallyAllValid | src/utils/user_stats.py:89-104 | tallying keeps the per-word dict well formed |
| DailyStats.TallyAllWordCounts | src/utils/user_stats.py:89-104 | each word's counter grows by the number of that word's attempts with that grade |
| DailyStats.TallyAllHasWord | src/utils/user_stats.py:90-93 | every attempted word gets an entry |
| DailyStats.TallyAllGrows | src/utils/user_stats.py:90-93 | no word is removed |
| DailyStats.TallyAllWordAttempted | src/utils/user_stats.py:90-93 | a new word was attempted that day |
| DailyStats.TallySum | src/utils/user_stats.py:94-104 | one attempt adds one to the sum over words of its grade's counter |
| DailyStats.TallyAllSum | src/utils/user_stats.py:89-109 | the day's totals equal the sums of the per-word counters |
| DailyStats.Scored | src/utils/user_stats.py:114-119 | scoring keeps the counts and sets a 0 to 100 accuracy of correct over graded |
| DailyStats.ScoredIdempotent | src/utils/user_stats.py:114-119 | scoring twice is scoring once |
| DailyStats.ScoreFrom | src/utils/user_stats.py:114-119 | the scoring loop keeps the same words and their three counters, and its only possible error is `ZeroDivision` |
| DailyStats.ScoreWords | src/utils/user_stats.py:114-119 | scoring keeps the key order and the words, and can only raise `ZeroDivision` |
| DailyStats.ScoreFromKeeps | src/utils/user_stats.py:114-119 | the scoring loop keeps the words and their counts, and its only error is `ZeroDivision` |
| DailyStats.ScoreFromDone | src/utils/user_stats.py:114-119 | when the loop finishes, every word it visited was graded and is scored |
| DailyStats.ScoreFromRaises | src/utils/user_stats.py:118 | a word with no graded attempt raises `ZeroDivision` |
| DailyStats.ScoreFromCause | src/utils/user_stats.py:118 | and an error has such a word as its cause |
| DailyStats.ScoreAll | src/utils/user_stats.py:114-119 | scoring all words keeps the key order, fails exactly when some word has no graded attempt, and otherwise scores each |
| DailyStats.ScoreAllSums | src/utils/user_stats.py:114-119 | scoring does not change the sums of the counters |
| DailyStats.DayWordStats | src/utils/user_stats.py:86-119 | a day's update keeps its per-word dict well formed and fails only with `ZeroDivision` |
| DailyStats.DayCounts | src/utils/user_stats.py:87-109 | the day's counters are the counts of its attempts per grade, the total is correct plus incorrect, and the word counters add up to them |
| DailyStats.DayWords | src/utils/user_stats.py:89-93 | a word is listed for the day exactly when it was listed before or attempted that day |
| DailyStats.DayAccuracies | src/utils/user_stats.py:110-119 | the day succeeds exactly when it has a graded attempt and every word has one; then the day's and each word's accuracies are the rounded percentages |
| DailyStats.DayGraded | src/utils/user_stats.py:110-119 | the day's update raises unless the day and each of its words have a graded attempt |
| DailyStats.DayScores | src/utils/user_stats.py:110-119 | a day that does not raise holds the rounded percentage of the day, from 0 to 100, and each word its own |
| DailyStats.FreshDay | src/utils/user_stats.py:86-119 | from the template, each word's counters are exactly its attempts per grade, and the words are exactly those attempted |
| DailyStats.InitialStats | src/utils/user_stats.py:74-80 | `init_daily_stats` gives one template per day, in the same key order |
| DailyStats.DayUpdate | src/utils/user_stats.py:86-119 | updating a day keeps the keys and every other day; it fails with `MissingKey` exactly when the day is unknown, and otherwise the day gets its recomputed statistics and their error |
| DailyStats.UpdateDays | src/utils/user_stats.py:82-84 | the dict stays well formed with the same days in the same order, and the only errors are `MissingKey` and `ZeroDivision` |
| DailyStats.UpdateDaysFrame | src/utils/user_stats.py:82-84 | updating a list of days keeps the key order and leaves days not in the list untouched |
| DailyStats.UpdateDaysDone | src/utils/user_stats.py:82-84 | when no error occurs, every listed day has its recomputed statistics |
| DailyStats.UpdateDaysCause | src/utils/user_stats.py:82-84 | an error comes from a listed day that is missing or cannot be scored |
| DailyStats.UpdateDaysResult | src/utils/user_stats.py:82-84 | the days succeed exactly when each listed day exists and scores, and then each has its recomputed statistics |
| DailyStats.SortKeys | src/utils/user_stats.py:137-139 | sorting the date keys fails exactly when the sentinel is among them, and otherwise lists every key once |
| DailyStats.OrderedDays | src/utils/user_stats.py:137-139 | `get_ordered_dates` on the log's data fails exactly on an unrecognised date, and otherwise lists each date once |
| DailyStats.FreshDays | src/utils/user_stats.py:41-42 | the constructor's pass over all days succeeds exactly when every day scores from the template |
| DailyStats.Build | src/utils/user_stats.py:37-42 | a constructed object holds the non-blank lines, the one uid they name, their grouped data, and statistics for exactly the grouped days, in the same order |
| DailyStats.BuildFailures | src/utils/user_stats.py:37-42 | the constructor fails with `MultipleUids`, else `WrongFieldCount`, else `InvalidDate` for an unrecognised date; after that it fails, with `ZeroDivision`, exactly when some day cannot be scored |
| DailyStats.BuildReport | src/utils/user_stats.py:37-42 | a constructed object has non-blank lines, its one uid, the grouped data, and per-day statistics computed from it |
| Stats.DayRowsMembers | src/utils/user_stats.py:154-157 | a day's history rows are exactly one row per word of that day |
| Stats.HistoryRowCame | src/utils/user_stats.py:153-157 | every history row comes from a word of a day |
| Stats.HistoryHasRow | src/utils/user_stats.py:153-157 | every word of every day has its row |
| Stats.History | src/utils/user_stats.py:151-158 | the header row comes first, every other row is a word row, and there are as many word rows as words summed over the days, so each day's word appears once |
| Stats.HistoryMembers | src/utils/user_stats.py:151-158 | the history holds the header and, for each day and word, that word's row with its counts, and no other row |
| Stats.FilterWordMembers | src/utils/user_stats.py:162-166 | the filter keeps exactly the rows whose word is the target |
| Stats.FilterWord | src/utils/user_stats.py:160-166 | no more rows than were given, each with the target word |
| Stats.WordHistory | src/utils/user_stats.py:160-166 | a word's history is its rows on each day it was attempted, plus the header when the target is `"word"` |
| Stats.LogWordsMembers | src/utils/user_stats.py:147-148 | a day contributes exactly the words of its attempts |
| Stats.DataWordCame | src/utils/user_stats.py:145-148 | every collected word was attempted at some date and time |
| Stats.DataHasWord | src/utils/user_stats.py:145-148 | every attempted word is collected |
| Stats.AllWordsMembers | src/utils/user_stats.py:144-149 | the collected words are exactly the attempted words |
| Stats.WordCellsKeys | src/utils/user_stats.py:190-196 | a table column lists the day's words in the day's order |
| Stats.WordCellsHas | src/utils/user_stats.py:191-196 | each word of the column holds its correct, incorrect and skipped counts and its accuracy |
| Stats.ShortDates | src/utils/user_stats.py:182-185 | the headers exist exactly when every date parses, one `%d/%m/%y` header per date, and otherwise `InvalidDate` |
| Stats.HeadersDiffer | src/utils/user_stats.py:183 | dates differing in day, month or two-digit year have different headers |
| Stats.HeadersApart | src/utils/user_stats.py:183 | dates fewer than 36499 days apart have different headers |
| Stats.WindowHeaders | src/utils/user_stats.py:181-185 | the headers of a window exist, and for windows of at most 36499 days they are all different |
| Stats.ColumnsKeys | src/utils/user_stats.py:186-198 | the table has one column per date, in window order |
| Stats.ColumnsAt | src/utils/user_stats.py:186-198 | each column is the one its date calls for |
| Stats.ColumnsFail | src/utils/user_stats.py:188-190 | filling the table fails exactly when some listed date has no statistics, with `MissingKey` |
| Stats.TableOf | src/utils/user_stats.py:178-198 | the table's only errors are `InvalidDate` and `EmptyDateList` from the anchor, `DateOutOfRange` from the window and `MissingKey` from a column |
| Stats.TableFailures | src/utils/user_stats.py:179-198 | the table fails with the error of `get_from_date`, else of `generate_date_array`; after that it fails exactly when a listed day of the window has no statistics, with `MissingKey` |
| Stats.ColumnShape | src/utils/user_stats.py:187-198 | a day the child was not active on has an empty column; an active day has its words in order with their counts and accuracy |
| Stats.TableShape | src/utils/user_stats.py:179-198 | one column per day of the window ending at the anchor, in window order, headed by its `%d/%m/%y` date and holding that day's column |
| Stats.TableWithStats | src/utils/user_stats.py:188-190 | when every listed day has statistics, no column fails |
| Stats.BuiltTable | src/utils/user_stats.py:179-190 | on a constructed object, sorting the dates succeeds and the table never raises KeyError |
| Stats.LatestFirst | src/utils/user_stats.py:140-141 | the reversed order lists each date on or after every date that follows it |
| Stats.LexIsTotalPreorder | src/utils/user_stats.py:149 | Python's string order is a total preorder, as `sorted` needs |
| Stats.UserStats.constructor | src/utils/user_stats.py:37-38 | a new object holds the non-blank lines and empty data |
| Stats.UserStats.Create | src/utils/user_stats.py:37-42 | construction fails exactly as `Build` does; otherwise the new object's state is `Build`'s |
| Stats.UserStats.LoadDays | src/utils/user_stats.py:40-42 | the data is the grouped log or its error; then the statistics are the templates updated in chronological order, or the error of sorting or of the first day that raises |
| Stats.UserStats.GetUid | src/utils/user_stats.py:44-57 | the loop over the lines computes `Uid` |
| Stats.UserStats.GetDailyData | src/utils/user_stats.py:59-72 | the loop over the lines computes `DailyDataOf` |
| Stats.UserStats.ReadLine | src/utils/user_stats.py:66-68 | the unpacking of one line computes `ParseLine` |
| Stats.UserStats.Store | src/utils/user_stats.py:69-71 | filing one entry computes `Record` |
| Stats.UserStats.InitDailyStats | src/utils/user_stats.py:74-80 | the loop over the days computes `InitialStats` |
| Stats.UserStats.Templates | src/utils/user_stats.py:76-78 | one template per day, in the days' order |
| Stats.UserStats.GetDailyWordStats | src/utils/user_stats.py:86-119 | only `daily_stats` changes, to the day's update, and the error is the update's |
| Stats.UserStats.ComputeDay | src/utils/user_stats.py:86-119 | the three loops of `get_daily_word_stats` compute `DayUpdate` |
| Stats.UserStats.CountAttempts | src/utils/user_stats.py:89-104 | the tally loop gives the per-word tally and the counts of each grade |
| Stats.UserStats.CountOne | src/utils/user_stats.py:90-104 | one turn of the tally loop computes `Tally` and adds one to the day's count of the attempt's grade |
| Stats.UserStats.ScoreEachWord | src/utils/user_stats.py:114-119 | the scoring loop computes `ScoreWords`, stopping at the first unscorable word |
| Stats.UserStats.GetDailyStats | src/utils/user_stats.py:82-84 | an unsortable date leaves the statistics unchanged with `InvalidDate`; otherwise the days are updated in chronological order |
| Stats.UserStats.UpdateDaysInOrder | src/utils/user_stats.py:83-84 | the loop over the days computes `UpdateDays` and changes only the statistics |
| Stats.UserStats.GetOrderedDates | src/utils/user_stats.py:137-142 | the sorted dates, reversed on request, or `InvalidDate` exactly when sorting fails |
| Stats.UserStats.GetAllWordsList | src/utils/user_stats.py:144-149 | a sorted list without duplicates of exactly the attempted words |
| Stats.UserStats.AllWordsOf | src/utils/user_stats.py:145-149 | on any well-formed data, a sorted list without duplicates of exactly the attempted words |
| Stats.UserStats.CollectWords | src/utils/user_stats.py:145-148 | the outer loop collects the words of every date |
| Stats.UserStats.AddDayWords | src/utils/user_stats.py:147-148 | the inner loop adds the words of one date's attempts |
| Stats.UserStats.SortedWords | src/utils/user_stats.py:149 | `sorted(set)` is sorted, has no duplicates, and holds exactly the set's members |
| Stats.UserStats.DailyWordsAttemptHistory | src/utils/user_stats.py:151-158 | the nested loop computes `History` of the statistics |
| Stats.UserStats.DailyWordAttemptHistory | src/utils/user_stats.py:160-166 | the filtering loop computes the target's rows of the history |
| Stats.UserStats.CreateTable | src/utils/user_stats.py:178-198 | the table data of the window, or the error of sorting the dates or of `TableOf` |
| Stats.UserStats.BuildTable | src/utils/user_stats.py:180-198 | the header and column loops compute `TableOf` |
| Stats.UserStats.FillColumn | src/utils/user_stats.py:188-198 | the column loop computes `Column` |
| Plotting.BuildStacks | build/lib/utils/plotting.py:53-62 | the 14-day window ending at the anchor, with each day's correct and incorrect counts and zeros for inactive days, or the anchor's or window's error |
| Plotting.CountsOn | build/lib/utils/plotting.py:58-61 | one pair of counts per listed day, zeros when the day is absent |
| Plotting.CorrectOn | build/lib/utils/plotting.py:59-60 | `active_dates.get(date, default)["words_correct"]` with a default of zero counts: the day's count, or 0 for an absent day |
| Plotting.IncorrectOn | build/lib/utils/plotting.py:59-61 | the same for `words_incorrect` |
| Plotting.GetWordsPc | build/lib/utils/plotting.py:65-78 | one pair per day of the shorter list: 0 and 0 for an empty day, otherwise the rounded percentages, each 0 to 100 and together 100 |
| Plotting.FormatDateListForPlotting | build/lib/utils/plotting.py:81-86 | fails with `WrongFieldCount` exactly when a date has not three fields; otherwise a label per date, in order |
| Plotting.PlotLabel | build/lib/utils/plotting.py:84-85 | the label is the day, the month, two slashes and at most two year characters long, and splits at `/` back into day, month and the year's characters 2 to 3 |
| Plotting.PlotLabelIsShortDate | build/lib/utils/plotting.py:84-85 | the label of a normal-form date is its `%d/%m/%y` rendering |
| Plotting.WindowLabels | build/lib/utils/plotting.py:81-86 | the chart's labels for a window are the word table's headers for it |

## Left out

- Reading the log file, writing PNG and PDF files, and all plotting and table drawing are
  not modelled. This covers matplotlib, reportlab, `make_word_table`, `save_png`, the end
  of `create_table` (src/utils/user_stats.py:199-200), `create_pdf_report`,
  `get_percentage_of_word_accuracy_img` and the rest of
  `plot_percentage_of_words_accuracy_bar_chart`. Each is a call into a library.
- `__str__`, `get_daily_stat_str` and `daily_word_attempts_str` only build text for
  printing and are not modelled.
- The `print` to stderr and `sys.exit(1)` of `get_uid` are not modelled as such;
  `get_uid` returns the error `MultipleUids` instead.
- `datetime.today()` is not read: "today" is a parameter of `GetFromDate`, `IsToday`,
  `CreateTable` and `BuildStacks`. The module constants `TODAY_STR` and `TODAY_DATETIME`
  are therefore not modelled.
- Rounding.Percent, Stats.UserStats.GetDailyWordStats and Plotting.GetWordsPc: the
  percentage is the whole number nearest to `100 * x / total`, with ties going to the
  even number. The source computes `round(x / total, 2) * 100` in binary floating point.
  Its value is within rounding error of a whole number, and can differ from this one on
  a tie such as 1/200, whose binary value is not an exact half.
- Plotting.GetWordsPc: two complementary percentages add up to exactly 100 here. In
  the source the sum can be a whole point off. For counts 31 and 169, `round(0.155, 2)`
  and `round(0.845, 2)` give 15.0 and 84.0, which sum to 99; the model gives 16 and 84.
- UserDates.Pad4, UserDates.Render: the model follows CPython builds whose `strftime`
  writes `%Y` as four zero-padded digits. On platforms whose C `strftime` does not pad
  years below 1000, `format_date("05-03-0999")` gives `"05-03-999"`. `sort_dates` cannot
  parse that back, because `%Y` needs four digits, so the constructor raises ValueError
  where the model accepts the date.
- UserDates.Strptime: only ASCII digits are recognised, and `%d` also accepts a space
  before a single digit, as CPython's `_strptime` does. Other Unicode digits, which
  CPython's regular expressions also accept, are not modelled.
- UserDates.GetDayName: the weekday names are the English ones of the C locale. Other
  locales are not modelled.
- Stats.TableShape: it is stated for windows of at most 36499 days. Over a century
  (36524 days or more), two dates can share a `%d/%m/%y` header. The later column then
  overwrites the earlier one. `Columns` models that overwrite, but the lemma does not
  describe its outcome.
- The iteration order of the Python sets in `get_uid` and `get_all_words_list` is not
  modelled. Only a single element or the sorted list is ever used, so the order cannot
  be observed.
- `build_stacks` passes no `num_days` to `generate_date_array`, so the window is always
  the default 14 days (`StackDays`).
- The module imports of `plotting.py` name `utils.user_dates`. The copy used here is
  `src/SBReportGenerator/utils/user_dates.py`; `build/lib/utils/user_dates.py` is not
  part of this model.
