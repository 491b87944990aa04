# Bikeshare explorer, modelled in Dafny

`bikeshare.py` is an interactive script. It asks for a city, a month and a
day of the week, loads that city's trip file, filters it, and optionally
shows the raw rows five at a time. It then prints four reports:
- popular times;
- popular stations and trip;
- total and mean trip duration;
- user types, gender and birth years.

It repeats while the user answers "yes" to the restart prompt.

In this model:
- A loaded frame is a `Trips.Table`: a sequence of `Trips.Trip` records plus two flags saying whether the Gender and Birth Year columns exist. Each record carries the derived month, weekday (Monday = 0) and hour, the start and end timestamps in seconds, the two stations, the user type, and an optional gender and birth year.
- Everything the script reads from standard input is one sequence of answer lines. `get_filters`, `display_data` and the restart prompt consume it in turn. Running out of lines is `Abort.EndOfInput`, where `input()` raises EOFError.
- Each report returns what it prints instead of printing it.
- The city files are a map from file name to parsed table.

Modules, following the script:
- **Text**: ASCII `str.lower` and `str.title`.
- **Vocabulary**: `CITY_DATA`, the answer lists and the weekday lists, and `list.index`.
- **Input**: the "first answer that passes" search that every prompt loop performs.
- **Filters**: `get_filters`, with each `while` loop as a method proved against a function.
- **Trips**: the record type and `df.loc[mask]`.
- **Loader**: `load_data`.
- **Viewer**: `display_data`.
- **Stats**: mode, value counts, min, max, sum and mean over columns.
- **Reports**: the four reporters.
- **Restart**: the `while True … break` loop of `main`, generic in what one pass does.
- **Session**: `main`, with one pass of its body.

The weekday list of `load_data` (`bikeshare.py:77`) holds `' Thursday'` with a leading space. The list was evidently meant to hold `'Thursday'`: `get_filters` accepts the answer "thursday" (`bikeshare.py:37`), and `load_data` looks up its title-cased form, `'Thursday'` (`bikeshare.py:78`). The model follows the code:
- `Loader.FilterAsWritten` is the filter as written, and `Loader.ThursdayFailsAsWritten` proves that the answer "thursday" makes it raise.
- `Loader.Filter` is the evidently intended filter.
- `Loader.LoadData` is `load_data` as written. `Loader.LoadDataWith` takes the weekday list as a parameter, and so does the session: `Session.Play(files, input, DayLabels)` is `main` as written, where the answer "thursday" ends the script on ValueError (`Session.AsWrittenThursdayRaises`), and `Session.Play(files, input, WeekdayTitles)` is the evidently intended script (see Findings).
- The label that `time_stats` prints for weekday 3 keeps the leading space (`Reports.ThursdayLabel`), since there it only affects the text.

An empty line is not accepted by any of the three prompts of `get_filters`, so the prompt asks again, as in the code. At the `display_data` prompt and the restart prompt an empty line is simply an answer other than "yes", so it ends the paging or the script. A closed input stream ends the script with EOFError rather than looping.

## Model

| member | source | states |
|---|---|---|
| Text.Lower | bikeshare.py:22 | lower-casing keeps the length, turns each upper-case letter into the letter 32 code points above it (its lower-case form), leaves no upper-case letter and changes no other character |
| Text.Title | bikeshare.py:78 | a cased character at the start or after an uncased one becomes upper case, one after a cased one lower case; uncased characters and the length are kept |
| Text.TitleSameLetters | bikeshare.py:78 | title-casing changes only the case of a letter: each character of the result lower-cases to what the original lower-cases to |
| Text.LowerIdempotent | bikeshare.py:92-95 | lower-casing an answer that was already lowered changes nothing |
| Vocabulary.IndexOf | bikeshare.py:73 | `list.index`: the first position holding the value; None (ValueError) exactly when the value is absent |
| Vocabulary.WeekdayTitlesIndexed | bikeshare.py:77-78 | each intended weekday name is found at its own index |
| Vocabulary.DayLabelsIndexed | bikeshare.py:77-78 | in the list as written, every weekday label except Thursday's is found at its own index |
| Vocabulary.NoEmptyChoice | bikeshare.py:19-44 | the empty answer, used as the "not chosen yet" sentinel, is in none of the three vocabularies |
| Vocabulary.MonthChoiceIndexed | bikeshare.py:71-74 | every accepted month other than "all" is among the six month names, so the month filtered on lies in 1..6 |
| Vocabulary.DayListsDifferAtThursday | bikeshare.py:77 | the written and the intended weekday lists agree everywhere except at index 3, and the written one does not hold "Thursday" |
| Input.FirstPassing | bikeshare.py:21-26 | the first answer from a position that passes the test, with every earlier one failing; None when the input ends first |
| Input.FirstPassingSkip | bikeshare.py:21-26 | an answer that fails the test can be skipped without changing where the search stops |
| Filters.CityNamesAreKeys | bikeshare.py:19 | the accepted cities are exactly the keys of `CITY_DATA` |
| Filters.Rejection | bikeshare.py:26 | the rejection line is the field name, a space, the lower-cased answer and " not available in data set", in that order |
| Filters.RejectionNamesAnswer | bikeshare.py:26 | two answers draw the same rejection line exactly when they agree once lower-cased |
| Filters.RejectionsSplit | bikeshare.py:19-44 | the rejection lines of consecutive stretches of answers follow one another, in input order |
| Filters.Accept | bikeshare.py:21-26 | an accepted answer is in the vocabulary and lies strictly after the start position; it fails, on end of input, exactly when no answer from the start position lower-cases to a choice |
| Filters.Ask | bikeshare.py:19-44 | each prompt loop yields exactly `Accept`: the first answer whose lower-cased form is a choice, and the rejection lines of all earlier answers |
| Filters.Select | bikeshare.py:9-48 | the triple has a city among the accepted cities, a month among the seven and a day among the eight choices, and at least three answers were read |
| Filters.GetFilters | bikeshare.py:9-48 | `get_filters` yields `Select`, and its city is a key of `CITY_DATA` |
| Filters.FieldIsFirstAccepted | bikeshare.py:19-44 | each field is the lower-cased form of the first acceptable answer, every earlier answer is rejected, and there is one rejection line per rejected answer |
| Filters.NoCityNoMonth | bikeshare.py:21-30 | without an acceptable city before the input ends, the month is never asked and the script ends on EOFError |
| Trips.Where | bikeshare.py:71-79 | `df.loc[mask]` keeps only rows of the frame that satisfy the mask and never lengthens it |
| Trips.WhereMember | bikeshare.py:71-79 | a row is kept exactly when it is in the frame and satisfies the mask |
| Trips.WhereAppend | bikeshare.py:71-79 | the selection distributes over concatenation, so the order of rows is kept |
| Trips.WhereSingle | bikeshare.py:71-79 | a single row is kept exactly when it satisfies the mask |
| Trips.WhereCount | bikeshare.py:71-79 | each satisfying row is kept as often as it occurs, every other row never |
| Trips.WhereAllHold | bikeshare.py:71-79 | a mask every row satisfies removes and reorders nothing |
| Trips.WhereIdempotent | bikeshare.py:71-79 | applying the same mask twice is applying it once |
| Loader.FilterWith | bikeshare.py:71-79 | a successful filtering keeps the optional-column flags and only rows of the loaded frame |
| Loader.FilterAsWritten | bikeshare.py:71-79 | the filtering against the written weekday list keeps only rows of the loaded frame |
| Loader.Filter | bikeshare.py:71-79 | the filtering against the title-cased weekday names keeps only rows of the loaded frame |
| Loader.LoadDataWith | bikeshare.py:51-81 | with the weekday list as a parameter: an unknown city or a missing file is an error naming it; otherwise the result is the filtering of that city's file with that list |
| Loader.LoadData | bikeshare.py:51-81 | `load_data` as written: an unknown city or a missing file is an error naming it; otherwise the result is the filtering of that city's file against the written weekday list |
| Loader.TitleOfLowerWord | bikeshare.py:78 | title-casing a lower-case word capitalises its first letter only |
| Loader.TitleOfDayChoice | bikeshare.py:76-78 | each accepted weekday answer title-cases to its intended name |
| Loader.LoadAll | bikeshare.py:71-81 | with "all" for both filters, every loaded row is returned, none removed or reordered, by both filterings |
| Loader.FilterMonth | bikeshare.py:71-74 | a month filter keeps exactly the rows whose month is the name's index among the six month names plus one, which lies in 1..6 |
| Loader.DayFound | bikeshare.py:76-79 | where the title-cased day is found at j, the day filter keeps exactly the rows of the month step whose weekday is j |
| Loader.DayMissing | bikeshare.py:78 | where the title-cased day is not in the list, the filtering raises ValueError naming it |
| Loader.FilterDay | bikeshare.py:76-79 | with the intended list, each accepted weekday keeps exactly the month step's rows whose weekday is its index, Monday = 0 |
| Loader.FilterAccepted | bikeshare.py:71-79 | with the intended list, no answer that get_filters accepts makes the filtering fail |
| Loader.ThursdayFailsAsWritten | bikeshare.py:77-78 | as written, "thursday" is accepted but the lookup of "Thursday" raises ValueError, whatever the month |
| Loader.LoadThursdayRaises | bikeshare.py:76-78 | as written, load_data with any known city whose file is present, any accepted month and the day "thursday" raises ValueError for "Thursday" |
| Loader.SameLookupSameFilter | bikeshare.py:76-79 | the filtering depends on the weekday list only through the index the day's lookup returns |
| Loader.WrittenLookupAgrees | bikeshare.py:77-78 | for every weekday but Thursday, the written and the intended lists return the same index |
| Loader.OtherDaysAsWritten | bikeshare.py:76-79 | as written, every weekday other than Thursday is filtered exactly as intended |
| Viewer.Slice | bikeshare.py:93 | `iloc[lo:hi]` clamps at the end: at most hi - lo rows, the exact slice when in range, the rest of the frame when hi runs past the end, empty past the end |
| Viewer.Page | bikeshare.py:93 | page k is at most five rows: the rows 5k to 5k+5 when all exist, the rest of the frame when fewer remain, nothing past the end |
| Viewer.PagesNext | bikeshare.py:92-94 | each further "yes" adds the next page after the ones already shown |
| Viewer.View | bikeshare.py:86-95 | the pages shown are one per leading "yes" answer, start_loc is five times their number, and the loop stops at the first other answer; it fails, on end of input, exactly when every answer from the start position is "yes" |
| Viewer.DisplayData | bikeshare.py:84-95 | `display_data` yields `View` |
| Viewer.PagesCover | bikeshare.py:92-94 | the first n pages put together are the first 5n rows, or all of them |
| Viewer.ExhaustsRows | bikeshare.py:92-94 | answering "yes" ceil(N/5) times shows every row once, in order |
| Stats.Count | bikeshare.py:105 | the count of a value is positive exactly when it occurs, and is at most the column's length |
| Stats.CountAppend | bikeshare.py:166-180 | the count of a value in two columns put together is the sum of its counts in each |
| Stats.RemoveAll | bikeshare.py:164 | dropping a value never lengthens the column, and shortens it when the value occurs |
| Stats.RemoveAllCount | bikeshare.py:164 | dropping a value leaves every other value's count unchanged, and shortens the column by its occurrences |
| Stats.RemoveAllKeys | bikeshare.py:164 | dropping a value keeps exactly the other values |
| Stats.MostFrequentAmong | bikeshare.py:105 | the value chosen is one of the candidates |
| Stats.MostFrequentIsMost | bikeshare.py:105 | no candidate occurs more often than the one chosen |
| Stats.Mode | bikeshare.py:105 | `mode()[0]` (also at lines 109, 113, 127, 130 and 180): None exactly for an empty column; otherwise a value of the column that no value outnumbers |
| Stats.RankingKeys | bikeshare.py:164 | the ranking lists exactly the values of the column |
| Stats.RankingDistinct | bikeshare.py:164 | no value is ranked twice |
| Stats.RankedFirstIsMost | bikeshare.py:164 | no value is ranked above the first |
| Stats.RankingDescending | bikeshare.py:164 | counts never increase down the ranking |
| Stats.Tally | bikeshare.py:164 | each listed value is paired with its number of occurrences |
| Stats.ValueCounts | bikeshare.py:164 | each entry of `value_counts()` pairs its value with the number of times the value occurs in the column |
| Stats.ValueCountsCounts | bikeshare.py:163-170 | each entry of `value_counts()` carries the positive count of its value |
| Stats.ValueCountsKeys | bikeshare.py:163-170 | `value_counts()` lists exactly the values of the column |
| Stats.ValueCountsDistinct | bikeshare.py:163-170 | `value_counts()` lists no value twice |
| Stats.ValueCountsDescending | bikeshare.py:163-170 | `value_counts()` is sorted by count, descending |
| Stats.TallyOfRanking | bikeshare.py:163-170 | counting the ranked values of a column in any column where they are as frequent adds up to its length |
| Stats.ValueCountsTotal | bikeshare.py:163-170 | the counts of `value_counts()` add up to the number of values |
| Stats.Present | bikeshare.py:166-180 | the values of a column with empty cells skipped, exactly those present, never more than the cells |
| Stats.PresentCount | bikeshare.py:166-180 | skipping empty cells keeps each present value as many times as it occurs |
| Stats.Min | bikeshare.py:176 | `min()` of a non-empty column is a value of it that no value undercuts |
| Stats.Max | bikeshare.py:178 | `max()` of a non-empty column is a value of it that no value exceeds |
| Stats.SumNonNegative | bikeshare.py:147 | `sum()` of values none of which is negative is not negative |
| Stats.Mean | bikeshare.py:150 | `mean()`: None (NaT) exactly for no rows; otherwise the mean times the count is the sum |
| Stats.SumAppend | bikeshare.py:147 | the sum is additive over concatenation |
| Stats.SumAtLeast | bikeshare.py:147 | a sum of values all at least lo is at least n times lo |
| Stats.SumAtMost | bikeshare.py:147 | a sum of values all at most hi is at most n times hi |
| Stats.MeanAtLeast | bikeshare.py:150 | the mean is at least any lower bound of the values |
| Stats.MeanAtMost | bikeshare.py:150 | the mean is at most any upper bound of the values |
| Stats.MeanBounds | bikeshare.py:150 | the mean lies between the minimum and the maximum |
| Reports.TimeStats | bikeshare.py:97-117 | fails exactly on an empty frame; otherwise month, weekday and hour each occur in their column at least as often as any other value, and the day label is the written list's entry for the weekday |
| Reports.ThursdayLabel | bikeshare.py:107-109 | a most common weekday of 3 is printed as " Thursday", with the written list's leading space |
| Reports.StationStats | bikeshare.py:120-137 | fails exactly on an empty frame; otherwise the start and end stations are most frequent in their columns, and the (start, end) trip is most frequent with its count as reported size |
| Reports.TripGroup | bikeshare.py:134 | the rows of one (start, end) group are rows of the frame, all carrying that pair |
| Reports.GroupSize | bikeshare.py:134 | a group's size is the number of occurrences of its pair |
| Reports.TripCountIsGroupSize | bikeshare.py:134 | the reported count is the size of the reported group |
| Reports.DurationStats | bikeshare.py:140-154 | the mean is NaT exactly for no rows; otherwise the mean times the row count is the total |
| Reports.DurationColumn | bikeshare.py:145 | one duration per row, never negative for a trip that ends no earlier than it starts |
| Reports.TotalAdditive | bikeshare.py:145-147 | the total travel time of a frame split in two is the sum of the two totals |
| Reports.TotalOfOne | bikeshare.py:145-147 | one row contributes its end time minus its start time |
| Reports.MeanBetweenTrips | bikeshare.py:150 | the mean trip duration lies between the shortest and the longest trip |
| Reports.UserStats | bikeshare.py:157-186 | user-type counts are `value_counts()`. Without the Gender column no gender counts, otherwise the counts of the present genders. Without the Birth Year column no birth-year figures; otherwise earliest <= latest, all present birth years between them, each figure a present year, and the common one most frequent. It fails exactly when the Birth Year column exists but is empty |
| Reports.GenderCountsCountRows | bikeshare.py:166-170 | each reported gender count is the number of rows with that gender, empty cells left out |
| Reports.CommonBirthYearCountsRows | bikeshare.py:172-180 | no birth year occurs in more rows than the reported most common one |
| Restart.Loop | bikeshare.py:190-201 | the loop of `main`: a pass that raises ends the run, a pass whose answer is not "yes" is the last, otherwise the next pass starts where it stopped |
| Restart.LoopBounded | bikeshare.py:190-201 | a run has at most one pass per answer left, since every pass reads at least one |
| Restart.RestartsOnlyOnYes | bikeshare.py:199-201 | every pass but the last was answered "yes"; a run that ends normally ends on another answer; one cut short answered "yes" every time before |
| Restart.PassAt | bikeshare.py:190-201 | the i-th pass is what one pass computes from where the previous pass stopped |
| Restart.PassesFollowSteps | bikeshare.py:190-201 | every pass is what one pass computes from where the previous one stopped |
| Restart.AbortFollowsSteps | bikeshare.py:190-201 | a run cut short ends on a pass that raised, started where the last completed pass stopped |
| Restart.StartsIncrease | bikeshare.py:190-201 | each pass starts reading strictly after the previous one |
| Session.Summarize | bikeshare.py:194-197 | the four reports fail exactly on an empty frame (in time_stats) or on an existing but empty Birth Year column (in user_stats) |
| Session.Report | bikeshare.py:194-197 | the four report calls, in order, yield `Summarize` |
| Session.Prepare | bikeshare.py:191-193 | a successful get_filters, load_data (with the given weekday list) and display_data reads at least one answer and stays within the input |
| Session.PlayRound | bikeshare.py:191-200 | a completed pass starts at its position, reads the restart answer right after display_data, and the next pass starts after it |
| Session.Gather | bikeshare.py:191-193 | get_filters, load_data and display_data, in order, yield `Prepare` |
| Session.RunRound | bikeshare.py:191-200 | one pass of the loop body yields `PlayRound` |
| Session.StepsOfSession | bikeshare.py:190-201 | a pass is defined from every position and reads at least one answer within the input |
| Session.Play | bikeshare.py:189-201 | the restart loop over passes of the body, with at most one pass per answer, so main ends on any finite input |
| Session.RunSession | bikeshare.py:189-201 | `main` yields `Play`, the restart loop over passes of the body; with the written weekday list this is the script as written |
| Session.SessionRuns | bikeshare.py:189-201 | the session repeats exactly while the lower-cased restart answer is "yes"; every pass is what one pass computes from where the previous one stopped; a session cut short ends on the pass that raised, started where the last one stopped |
| Session.LoadNeverRejectsSelection | bikeshare.py:191-192 | with the intended weekday list and the city's file present, load_data accepts every triple get_filters returns |
| Session.AsWrittenThursdayRaises | bikeshare.py:189-201 | as written, a pass whose get_filters returns the day "thursday" for a city whose file is present ends the script on ValueError for "Thursday" |

## Left out

- CSV reading (`pd.read_csv`) and timestamp parsing (`pd.to_datetime`): they are file I/O and library code, so the tables arrive parsed, with month, weekday, hour and integer timestamps already in each row.
- The `print` and `input` calls themselves, and the prompt texts: answers are a sequence of lines, and each report returns what it would print. The greeting, the separator and the rejection lines of get_filters are kept.
- The pandas display options of display_data and the string formatting of Series, frames and timedeltas.
- Wall-clock timing with `time.time()`: it is non-deterministic and floating point.
- `str.lower` and `str.title` beyond ASCII: Unicode case mapping is not modelled.
- The columns the script adds to the frame in place ('month', 'day of week', 'Travel Time', 'travel time'): nothing later reads them except through the values each row already carries.
- NaN: user types are never missing in this model. Gender and birth year use Option, whose empty cells `value_counts`, `min`, `max` and `mode` skip. The float-to-int conversion of birth years is not modelled, because years are integers.
- Stats.Mode: pandas returns the smallest of tied modes. The model picks the first in row order, so the contract states only that no value is more frequent.
- Stats.ValueCounts: the order that pandas gives equally frequent values is not fixed by the source. The model lists them first-in-row-order, and the lemmas state only the descending counts.
- Reports.StationStats: the source does not fix which tied (start, end) group `sort_values` puts first. The contract states only that no group is larger.
- Output printed before an exception is not kept. The reports and passes are results, so a pass that raises yields only its `Abort`. Lost this way are the greeting and rejection lines printed before an EOFError in get_filters, the pages shown before an EOFError in display_data, and the user-type and gender counts printed before the birth-year figures raise on an empty column. `Restart.Run` and `Session.PlayRound` keep the exception only.
- Raising for an empty frame is modelled as `Abort.EmptyColumn`, and the exact exception type is not kept.

## Findings

| source | as written | input that shows it | evidently intended | confidence | as-written member | corrected member |
|---|---|---|---|---|---|---|
| bikeshare.py:77-78 | the weekday list holds `' Thursday'`, so `days.index('Thursday')` raises ValueError | any city and month, day answer "thursday" (which get_filters accepts) | the list holds "Thursday", and the day filter keeps the rows with dayofweek 3 | not executed | Loader.ThursdayFailsAsWritten | Loader.FilterDay |
