# pygce in Dafny

pygce collects Garmin Connect data. A Selenium bot (`GarminConnectBot`) logs in and finds the
user id. It then opens the daily-summary page of every day in a date range. Each page becomes a
`GCDayTimeline` with six sections: summary, steps, step details, sleep, activities and breakdown.
Every section parses its own HTML fragment. The timelines are saved as a JSON document or a CSV
table, and the GPX file of each activity can be downloaded too. A second part of the
repository reads such CSV files back for analysis. It strips the cells, turns the time columns
into seconds and repairs malformed floats before the statistics run.

This project models that core and proves properties of the model:

- `wrappers.dfy`, `text.dfy`, `pydatetime.dfy`, `py_values.dfy` model the parts of Python the
  core relies on:
  - Python exceptions;
  - `str.strip`, `split`, `find`, `replace`, `count`;
  - `strptime` with the formats the core uses, `date + timedelta`, `strftime`;
  - `str()` of the values the sections hold;
  - dicts as ordered association lists, with `d[k] = v`, `update` and `json.loads(json.dumps(..))`.
- `garmin_utils.dfy` models `parse_num`, `parse_hh_mm_ss` and `parse_hh_mm`.
- `timeline_parsers.dfy` holds what each section reads from its page, as pure functions:
  - every field;
  - the activity rows and their totals;
  - the 15-minute step bins.
- `timeline_sections.dfy` has one class per section. Each has its fields, its `parse` methods with
  their `try` blocks, and its `to_dict`, `to_json` and `to_csv_dict`.
- `timeline_day.dfy` models `GCDayTimeline`: the day's sections, `parse`, `to_csv_dict` and
  `to_json`.
- `bot.dfy` models `GarminConnectBot`:
  - the region and login URL;
  - the user-id search;
  - the day URL and the day range;
  - the JSON and CSV saves and the GPX downloads.
- `analysis_table.dfy` holds the table of CSV rows and the column-conversion loops that both
  analysis modules share.
- `models_analysis.dfy`, `analysis_models.dfy` and `analysis_script.dfy` model
  `pygce/models/analysis.py`, `pygce/analysis/models.py` and `pygce/analysis.py` respectively.

Conventions:

- What the code calls but does not contain is a parameter of the model. This covers the browser's
  answers, what `get_day` finds on a page, and how Python writes a float (`floatStr`).
- A Python exception is an `Err`/`Fail` value carrying its class.
- Page contents are the texts the HTML lookups would return. A lookup that finds nothing is `None`.

## Model

| member | source | states |
|---|---|---|
| GarminUtils.NormaliseCountsAndDigits | pygce/models/garmin/utils.py:32 | the text `parse_num` hands to `float()` has exactly one `.` per `,` of the input and keeps its digits, in order |
| GarminUtils.PyFloatManyPoints | pygce/models/garmin/utils.py:33 | `float()` raises on any text with two or more points |
| GarminUtils.ParseNumManyCommas | pygce/models/garmin/utils.py:32-33 | `parse_num` raises on any input with two or more commas |
| GarminUtils.ParseNumLocale | pygce/models/garmin/utils.py:24-33 | an integer part whose digits may be grouped by `.`, then `,` and fraction digits, is read as the decimal number of the ungrouped digits and that fraction |
| GarminUtils.ParseNumDigits | pygce/models/garmin/utils.py:24-33 | a plain digit string is read as the whole number it denotes |
| GarminUtils.NormaliseCommaDot | pygce/models/garmin/utils.py:32 | `a,b.c` (digits) becomes `a.bc`: the point is taken for a group separator and the comma for the decimal mark |
| GarminUtils.PyFloatPlain | pygce/models/garmin/utils.py:33 | `float()` of an unsigned, unpadded digit string is its value |
| GarminUtils.ParseHhMmSs | pygce/models/garmin/utils.py:36-51 | whenever `parse_hh_mm_ss` returns, the result is a valid `time` (hour < 24, minute < 60, second < 60) |
| GarminUtils.ParseHhMm | pygce/models/garmin/utils.py:54-67 | whenever `parse_hh_mm` returns, the result is a valid `time` with second 0 |
| GarminUtils.ParseHhMmSsFormats | pygce/models/garmin/utils.py:45-51 | the colon count of the stripped text picks the format: one colon gives hour 0; any count other than 1 and 2 gives hour and minute 0; more than two colons raise |
| GarminUtils.ParseHhMmFormats | pygce/models/garmin/utils.py:63-67 | without exactly one colon the hour is 0; two or more colons raise |
| GarminUtils.ParseHhMmSsRoundTrip | pygce/models/garmin/utils.py:46-47 | every valid time written `HH:MM:SS` is parsed back to itself |
| GarminUtils.ParseHhMmSsMinutes | pygce/models/garmin/utils.py:48-49 | every `MM:SS` with minute and second below 60 is that minute and second past hour 0 |
| GarminUtils.ParseHhMmSsSeconds | pygce/models/garmin/utils.py:50-51 | every two-digit `SS` below 60 is that second past midnight |
| GarminUtils.ParseHhMmSsZero | pygce/models/garmin/utils.py:48-49 | `"00:00"`, the duration fallback of an activity, is 00:00:00 |
| GarminUtils.ParseHhMmRoundTrip | pygce/models/garmin/utils.py:64-65 | every valid `HH:MM` is parsed back to that hour and minute |
| GarminUtilsExamples.ParseNumLocaleExample | pygce/models/garmin/utils.py:32-33 | `parse_num("1.234,56")` is 1234.56 |
| GarminUtilsExamples.NormaliseDocExample | pygce/models/garmin/utils.py:29-32 | the documented input `123,949.99` is normalised to `123.94999` |
| GarminUtilsExamples.ParseNumDocExample | pygce/models/garmin/utils.py:29-33 | the documented input `123,949.99` is read as 123.94999, not 123949.99 |
| GarminUtilsExamples.ParseHhMmSsHours | pygce/models/garmin/utils.py:46-47 | `"01:02:03"` is 1 h 2 min 3 s, 3723 seconds |
| GarminUtilsExamples.ParseHhMmSsMinutesExample | pygce/models/garmin/utils.py:48-49 | `"02:03"` is 2 min 3 s, 123 seconds |
| GarminUtilsExamples.ParseHhMmSsSecondsExample | pygce/models/garmin/utils.py:50-51 | `"45"` is 45 seconds |
| GarminUtilsExamples.Strptime12hAfternoon | pygce/models/garmin/timeline.py:409-410 | `"01:30 PM"` under `%I:%M %p` is 13:30 |
| GarminUtilsExamples.Strptime12hMidnight | pygce/models/garmin/timeline.py:409-410 | `"12:00 AM"` under `%I:%M %p` is midnight |
| PyDateTime.StrptimeHMS | pygce/models/garmin/utils.py:47 | a text accepted by `%H:%M:%S` gives a valid time |
| PyDateTime.StrptimeHMSRoundTrip | pygce/models/analysis.py:36 | every valid time as `str()` writes it is read back by `%H:%M:%S` |
| PyDateTime.StrptimeMS | pygce/models/garmin/utils.py:49 | a text accepted by `%M:%S` gives a valid time |
| PyDateTime.StrptimeS | pygce/models/garmin/utils.py:51 | a text accepted by `%S` gives a valid time |
| PyDateTime.StrptimeHM | pygce/models/garmin/utils.py:65 | a text accepted by `%H:%M` gives a valid time |
| PyDateTime.StrptimeM | pygce/models/garmin/utils.py:67 | a text accepted by `%M` gives a valid time |
| PyDateTime.Strptime12h | pygce/models/garmin/timeline.py:327-330 | a text accepted by `%I:%M %p` gives a valid time with second 0 |
| PyDateTime.Strptime12hParts | pygce/models/garmin/timeline.py:409-410 | hour, `:`, minute, blanks, meridiem: accepted exactly when the hour is 1-12, the minute is a valid `%M` and the meridiem is `am`/`pm` in any case; the hour is then converted to 24-hour time |
| PyDateTime.Hour24Bijective | pygce/models/garmin/timeline.py:327-330 | distinct 12-hour readings (hour, AM/PM) denote distinct hours, and every hour of the day has a reading |
| PyDateTime.Strptime12hRoundTrip | pygce/models/garmin/timeline.py:327-330 | a 12-hour time written `%I:%M %p` is read back as the hour it denotes |
| PyDateTime.NextDay | pygce/models/bot.py:209 | the day after a valid date is a valid date whose day number is one more |
| PyDateTime.AddDays | pygce/models/bot.py:209 | `date + timedelta(days=n)` is a valid date `n` day numbers later |
| PyDateTime.OrdinalInjective | pygce/models/bot.py:205-206 | distinct valid dates have distinct day numbers |
| PyDateTime.PlusDays | pygce/models/bot.py:209 | `datetime + timedelta(days=n)` is a valid datetime exactly `n * 86400` seconds later |
| PyDateTime.StrptimeIso | pygce/models/garmin/timeline.py:248 | a text accepted by `%Y-%m-%dT%H:%M:%S` gives a valid date and time |
| PyDateTime.StrptimeIsoRoundTrip | pygce/models/garmin/timeline.py:248 | a valid date with a four-digit year and a valid time, joined by `T`, are read back |
| PyDateTime.StrftimeDateIso | pygce/models/bot.py:149-150 | from the year 1000 on, `strftime('%Y-%m-%d')` writes a date as `str(date)` does |
| Text.StripEnds | pygce/models/garmin/utils.py:44 | a stripped text neither starts nor ends with whitespace |
| Text.StripKeepsCount | pygce/models/garmin/utils.py:44 | stripping removes only whitespace: every other character keeps its count |
| Text.IndexOfSpec | pygce/models/bot.py:64 | `find` returns the first occurrence of the pattern, and none exactly when it does not occur |
| Text.SplitCount | pygce/models/garmin/utils.py:45 | splitting on one character gives one more piece than its count |
| PyValues.Put | pygce/models/garmin/timeline.py:68 | `d[k] = v`: `k` maps to `v`; an existing key keeps its place and a new key goes last; every other key keeps its value |
| PyValues.UpdateDisjoint | pygce/models/garmin/timeline.py:634 | `d.update(e)` with new and distinct keys appends `e` |
| PyValues.CsvEntries | pygce/models/garmin/timeline.py:64-69 | one entry per field, in order, under `tag + ":" + key` with `str()` of the value |
| PyValues.CsvKeyInjective | pygce/models/garmin/timeline.py:67 | two fields of one section never get the same CSV key |
| PyValues.CsvEntriesDistinct | pygce/models/garmin/timeline.py:64-69 | a section dict with distinct keys gives a CSV dict with distinct keys, so no field overwrites another |
| PyValues.SectionCsvDict | pygce/models/garmin/timeline.py:58-69 | the loop of `GCDaySection.to_csv_dict` builds exactly those entries |
| PyValues.Stringified | pygce/models/garmin/timeline.py:53-54 | every entry keeps its key, and its value becomes the text of `str()` of the old value |
| PyValues.StringifiedTwice | pygce/models/garmin/timeline.py:446-448 | stringifying keeps the keys, and a second pass changes nothing |
| PyValues.StringifyDict | pygce/models/garmin/timeline.py:447-448 | the in-place loop `d[k] = str(d[k])` leaves the stringified dict |
| PyValues.SectionJson | pygce/models/garmin/timeline.py:46-56 | `json.loads(section.to_json())` is the object of `to_dict()`'s keys with `str()` of each value |
| PyValues.DictsJson | pygce/models/garmin/timeline.py:450 | the JSON list holds one object per dict, in order |
| PyValues.CsvKeyTag | pygce/models/garmin/timeline.py:67 | the section of a CSV key is recovered from its text before the first colon |
| PyValues.UpdateTagged | pygce/models/garmin/timeline.py:634 | updating with a section whose tag is new overwrites nothing and appends its entries |
| PyValues.MergeCsv | pygce/models/garmin/timeline.py:633-634 | the loop of `d.update(...)` calls is the fold of `update` over the section dicts |
| PyValues.UpdateAllTagged | pygce/models/garmin/timeline.py:633-634 | merging dicts of distinct new sections is their concatenation after `d`, with distinct keys |
| PyValues.UpdateAllCsv | pygce/models/garmin/timeline.py:630-636 | merging the CSV dicts of sections with distinct colon-free tags is their concatenation, with distinct keys |
| PyValues.CsvAllKeys | pygce/models/garmin/timeline.py:633-634 | the merged keys are each section's CSV keys, section after section |
| TimelineParsers.Found | pygce/models/garmin/timeline.py:112-113 | `find_all(...)[0]` succeeds exactly when the lookup found something |
| TimelineParsers.Index | pygce/models/garmin/timeline.py:313-315 | `s[i]` succeeds exactly when `i < len(s)`, with `s[i]` |
| TimelineParsers.StripAll | pygce/models/garmin/timeline.py:312 | one stripped text per text, in order |
| TimelineParsers.NumField | pygce/models/garmin/timeline.py:117 | a `parse_num` field is set exactly when `parse_num` succeeds, to its float |
| TimelineParsers.TimeField | pygce/models/garmin/timeline.py:313 | a time field is set exactly when the parse succeeds, to its time |
| TimelineParsers.NumFieldDigits | pygce/models/garmin/timeline.py:117 | a digit string is stored as its whole number |
| TimelineParsers.LikesCounter | pygce/models/garmin/timeline.py:106-117 | a like counter reading `"<n> likes"` gives the number `n` |
| TimelineParsers.StepsGoalHeading | pygce/models/garmin/timeline.py:193-197 | a goal heading `"... <n>"` gives the number `n` |
| TimelineParsers.BreakdownTokens | pygce/models/garmin/timeline.py:529-531 | one token per `tspan`, stripped and with every `%` removed |
| TimelineParsers.Share | pygce/models/garmin/timeline.py:534 | share `i` exists exactly when there is a token `i` and `parse_num` reads it |
| TimelineParsers.SharePercent | pygce/models/garmin/timeline.py:529-534 | a `tspan` reading `"<n>%"` gives the share `n` |
| TimelineParsers.ShareMissing | pygce/models/garmin/timeline.py:533-535 | a missing token raises `IndexError` |
| TimelineParsers.TimeOfDay | pygce/models/garmin/timeline.py:407-412 | the time of day is the `%I:%M %p` reading of the stripped cell, or that stripped text when it does not parse |
| TimelineParsers.ActivityDict | pygce/models/garmin/timeline.py:428-437 | an activity dict has the eight keys of the source's literal, in its order |
| TimelineParsers.ParseActivityKept | pygce/models/garmin/timeline.py:405-437 | a row parses exactly when it has six cells, an anchor in the sixth, and a readable kcal and distance |
| TimelineParsers.DurationValue | pygce/models/garmin/timeline.py:414-418 | the duration is the `parse_hh_mm_ss` of the third cell, or 00:00:00 when that raises |
| TimelineParsers.ParseActivityFields | pygce/models/garmin/timeline.py:405-437 | a parsed row holds each field as the source computes it: time of day and duration with their fallbacks, kcal and distance, type and name, the activity URL and the GPX URL of the last `/`-piece of the link |
| TimelineParsers.ActivityResultsAt | pygce/models/garmin/timeline.py:389-391 | result `i` of the row loop is `parse_activity` of row `i` |
| TimelineParsers.ParsedRowsConcat | pygce/models/garmin/timeline.py:389-394 | rows are independent: the dicts kept from `a + b` are those of `a` then those of `b` |
| TimelineParsers.ParsedRowsFrom | pygce/models/garmin/timeline.py:389-394 | each kept dict is the dict of some row, and no row is dropped exactly when every row parses |
| TimelineParsers.ParsedRowsWellTyped | pygce/models/garmin/timeline.py:428-437 | every kept dict has the activity keys, float kcal and distance, and a `time` duration |
| TimelineParsers.ParseActivityWellTyped | pygce/models/garmin/timeline.py:428-437 | a parsed row gives such a well-typed dict |
| TimelineParsers.Lookup | pygce/models/garmin/timeline.py:471 | `a[key]` succeeds exactly when the key is present |
| TimelineParsers.SumFieldFloats | pygce/models/garmin/timeline.py:465-471 | `sum()` of float fields is their exact total, and the int 0 when there is no activity |
| TimelineParsers.SumFieldText | pygce/models/garmin/timeline.py:471 | once the first entry holds a text, `sum()` raises |
| TimelineParsers.FieldValues | pygce/models/garmin/timeline.py:479-480 | one value per activity when every lookup succeeds |
| TimelineParsers.DurationOfWellTyped | pygce/models/garmin/timeline.py:473-486 | the durations of well-typed dicts can all be read, and their seconds sum to the total duration |
| TimelineParsers.DurationSecondsSnoc | pygce/models/garmin/timeline.py:482-485 | adding one more `time` adds its seconds to the total |
| TimelineParsers.DurationSecondsPrefix | pygce/models/garmin/timeline.py:482-485 | a failure among the first durations is the failure of the whole sum |
| TimelineParsers.TotalsDict | pygce/models/garmin/timeline.py:496-506 | the totals dict has the keys `kcal`, `duration`, `distance`, in that order |
| TimelineParsers.TotalsOfWellTyped | pygce/models/garmin/timeline.py:465-506 | the totals of parsed activities always exist: exact kcal and distance sums (0 for none) and `str()` of the summed duration |
| TimelineParsers.TotalsDictParts | pygce/models/garmin/timeline.py:496-506 | the totals dict is made of the kcal sum, the text of the total duration and the distance sum |
| TimelineParsers.TotalsEmpty | pygce/models/garmin/timeline.py:496-506 | with no activity the totals are 0, `0:00:00` and 0 |
| TimelineParsers.StringifiedAll | pygce/models/garmin/timeline.py:444-448 | every activity dict is stringified, in order |
| TimelineParsers.StringifiedGet | pygce/models/garmin/timeline.py:448 | after `to_json` a present field holds the text of its old value |
| TimelineParsers.TotalsAfterJson | pygce/models/garmin/timeline.py:444-471 | once `to_json` has turned the activities into texts, the totals raise on any day that has an activity |
| TimelineParsers.PyIntOfString | pygce/models/garmin/timeline.py:243 | `int(str(n))` is `n` for every integer |
| TimelineParsers.PyIntSigned | pygce/models/garmin/timeline.py:251 | `int()` of an optional minus sign and digits is that signed number |
| TimelineParsers.IntStringClean | pygce/models/garmin/timeline.py:237-241 | `str()` of an integer ends with no `.0` and holds no point, so the cleaning changes nothing |
| TimelineParsers.ParseStepsCountIdentity | pygce/models/garmin/timeline.py:236-243 | on the integers `parse` gives it, `parse_steps_count` is the identity |
| TimelineParsers.BinTimeRoundTrip | pygce/models/garmin/timeline.py:247-250 | a `startGMT` of `date T time` plus two characters gives the date as `strftime('%Y-%m-%d')` writes it, a space and the time |
| TimelineParsers.ParseBinRoundTrip | pygce/models/garmin/timeline.py:246-256 | such a bin with an integer step count is kept with its time and count |
| TimelineParsers.BinResultsAt | pygce/models/garmin/timeline.py:246-256 | result `i` of the bin loop is the bin of element `i` |
| TimelineParsers.ParsedBinsPrefix | pygce/models/garmin/timeline.py:245-256 | `parse` keeps the bins of the longest prefix that parses; it passes exactly when every element parses, and otherwise ends with the error of the first that does not |
| TimelineSections.SummaryFields.ToDict | pygce/models/garmin/timeline.py:142-147 | the dict has the keys `likes`, `comment`, `kcal_count`, distinct, with the three fields |
| TimelineSections.SummaryFresh | pygce/models/garmin/timeline.py:90-104 | on a fresh summary a field stays `None` exactly when its block raised |
| TimelineSections.SummaryParsedTwice | pygce/models/garmin/timeline.py:90-104 | parsing a second time changes nothing |
| TimelineSections.DaySummary.constructor | pygce/models/garmin/timeline.py:78-88 | every field starts as `None` |
| TimelineSections.DaySummary.ParseLikes | pygce/models/garmin/timeline.py:106-117 | `likes` is assigned only when the read succeeds, and the outcome is the read's |
| TimelineSections.DaySummary.ParseComment | pygce/models/garmin/timeline.py:119-128 | `comment` is assigned only when the read succeeds |
| TimelineSections.DaySummary.ParseKcalCount | pygce/models/garmin/timeline.py:130-140 | `kcal_count` is assigned only when the read succeeds |
| TimelineSections.DaySummary.Parse | pygce/models/garmin/timeline.py:90-104 | every block runs whatever the earlier ones raised; the fields are those of the three `try` blocks |
| TimelineSections.StepsFields.ToDict | pygce/models/garmin/timeline.py:213-219 | the dict has the keys `total`, `goal`, `avg`, `distance`, distinct, with the four fields |
| TimelineSections.StepsGroups | pygce/models/garmin/timeline.py:169-211 | the stats block runs whatever the count block did; inside a block the second field is assigned only after the first succeeded |
| TimelineSections.StepsFresh | pygce/models/garmin/timeline.py:169-211 | on a fresh section a field is `None` exactly when it was not reached or its read raised |
| TimelineSections.StepsParsedTwice | pygce/models/garmin/timeline.py:169-178 | parsing a second time changes nothing |
| TimelineSections.DaySteps.constructor | pygce/models/garmin/timeline.py:156-167 | every field starts as `None` |
| TimelineSections.DaySteps.ParseStepsCount | pygce/models/garmin/timeline.py:180-197 | the block passes exactly when total and goal both read; the total is kept when the goal raises |
| TimelineSections.DaySteps.ParseStepsStats | pygce/models/garmin/timeline.py:199-211 | the block passes exactly when distance and average both read |
| TimelineSections.DaySteps.Parse | pygce/models/garmin/timeline.py:169-178 | the fields after the two `try` blocks, in order |
| TimelineSections.DetailsDict | pygce/models/garmin/timeline.py:258-261 | one key, `15-min bins`, holding the bins |
| TimelineSections.DetailsSteps.constructor | pygce/models/garmin/timeline.py:228-233 | the decoded items and the date are kept, and there is no bin yet |
| TimelineSections.DetailsSteps.Parse | pygce/models/garmin/timeline.py:245-256 | the bins of the longest prefix of items that parses are appended to the ones already there; the outcome is the first item's exception |
| TimelineSections.DetailsSteps.ParseItem | pygce/models/garmin/timeline.py:247-256 | the bin of item `i`, or its exception |
| TimelineSections.SleepFields.ToDict | pygce/models/garmin/timeline.py:357-367 | the eight sleep keys, distinct, with the eight fields in order |
| TimelineSections.SleepKeysDistinct | pygce/models/garmin/timeline.py:357-367 | the eight sleep keys are distinct |
| TimelineSections.SleepReadsOf | pygce/models/garmin/timeline.py:303-355 | what each of the eight assignments evaluates to |
| TimelineSections.SleepFresh | pygce/models/garmin/timeline.py:287-355 | on a fresh section a field stays `None` exactly when its own read or an earlier read of its block raised |
| TimelineSections.SleepParsedTwice | pygce/models/garmin/timeline.py:287-301 | parsing a second time changes nothing |
| TimelineSections.DaySleep.constructor | pygce/models/garmin/timeline.py:270-285 | every field starts as `None` |
| TimelineSections.DaySleep.ParseSleepTotals | pygce/models/garmin/timeline.py:303-315 | passes exactly when night, nap and total sleep all read; fields are set up to the first that raises |
| TimelineSections.DaySleep.ParseBedTime | pygce/models/garmin/timeline.py:317-330 | passes exactly when bed and wake time both read |
| TimelineSections.DaySleep.ParseSleepTimes | pygce/models/garmin/timeline.py:332-355 | passes exactly when the deep, light and awake charts all read |
| TimelineSections.DaySleep.Parse | pygce/models/garmin/timeline.py:287-301 | the fields after the three `try` blocks, in order |
| TimelineSections.DataRows | pygce/models/garmin/timeline.py:389 | `rows[1:]`, empty for no rows |
| TimelineSections.ActivitiesCsv | pygce/models/garmin/timeline.py:452-463 | the CSV dict exists exactly when the totals do, with the keys `ACTIVITIES:kcal`, `ACTIVITIES:duration`, `ACTIVITIES:distance`, distinct |
| TimelineSections.TotalsKeysDistinct | pygce/models/garmin/timeline.py:502-506 | the totals keys are distinct |
| TimelineSections.ActivitiesParsedTwice | pygce/models/garmin/timeline.py:387-394 | a second `parse` appends the kept rows once more |
| TimelineSections.ActivitiesFreshTotals | pygce/models/garmin/timeline.py:387-506 | freshly parsed activities always have totals: the float sums and the summed durations |
| TimelineSections.DayActivities.constructor | pygce/models/garmin/timeline.py:378-385 | no activity yet |
| TimelineSections.DayActivities.Parse | pygce/models/garmin/timeline.py:387-394 | the dicts of the rows after the header that parse are appended, in row order |
| TimelineSections.DayActivities.ParseRow | pygce/models/garmin/timeline.py:390-394 | row `i`'s dict is appended unless parsing it raises |
| TimelineSections.DayActivities.ToJson | pygce/models/garmin/timeline.py:444-450 | every value of every activity is replaced, in place, by its `str()`; the document is the list of stringified dicts |
| TimelineSections.DayActivities.GetTotalDuration | pygce/models/garmin/timeline.py:473-486 | every duration is looked up first; the total is the sum of their seconds, or the first exception |
| TimelineSections.DayActivities.GetTotalsDict | pygce/models/garmin/timeline.py:496-506 | the totals dict of the activities |
| TimelineSections.DayActivities.ToCsvDict | pygce/models/garmin/timeline.py:452-463 | the tagged CSV dict of the totals |
| TimelineSections.BreakdownFields.ToDict | pygce/models/garmin/timeline.py:553-559 | the four breakdown keys, distinct, with the four fields |
| TimelineSections.BreakdownFresh | pygce/models/garmin/timeline.py:528-551 | on a fresh section field `i` is `None` exactly when token `i` is missing or unreadable, and otherwise its float |
| TimelineSections.ShareFresh | pygce/models/garmin/timeline.py:533-536 | one share assigned over `None`: the same, for one field |
| TimelineSections.BreakdownParsedTwice | pygce/models/garmin/timeline.py:528-551 | parsing a second time changes nothing |
| TimelineSections.DayBreakdown.constructor | pygce/models/garmin/timeline.py:515-526 | every field starts as `None` |
| TimelineSections.DayBreakdown.Parse | pygce/models/garmin/timeline.py:528-551 | the fields are the shares of the cleaned tokens, each in its own `try` |
| TimelineSections.DayBreakdown.AssignShares | pygce/models/garmin/timeline.py:533-551 | each field is assigned exactly when its share was read |
| TimelineDay.SectionDicts | pygce/models/garmin/timeline.py:624-636 | six dicts, one per section, with the activity totals in fifth place |
| TimelineDay.TagsColonFree | pygce/models/garmin/timeline.py:84-521 | no section tag, and not the key `date`, holds a colon |
| TimelineDay.SectionTagsDistinct | pygce/models/garmin/timeline.py:84-521 | the six tags are distinct and none is `date` |
| TimelineDay.SectionDictsKeys | pygce/models/garmin/timeline.py:624-636 | each section dict has its section's keys, distinct |
| TimelineDay.SectionDictsDistinct | pygce/models/garmin/timeline.py:624-636 | the dicts of the sections other than activities have distinct keys |
| TimelineDay.TimelineCsvErr | pygce/models/garmin/timeline.py:633-634 | when the activity totals raise, the row raises with the same exception |
| TimelineDay.TimelineCsvEntries | pygce/models/garmin/timeline.py:624-636 | otherwise the row is `date` updated with the six CSV dicts in section order |
| TimelineDay.TimelineCsvFlat | pygce/models/garmin/timeline.py:624-636 | the row exists exactly when the totals do; no section overwrites another's key, so the row is `date` followed by every section's entries, with distinct keys |
| TimelineDay.TimelineCsvKeys | pygce/models/garmin/timeline.py:624-636 | the keys of the row are the CSV header, in order |
| TimelineDay.TimelineCsvFresh | pygce/models/garmin/timeline.py:604-636 | a day's own parse always leaves activities with totals, so its CSV row exists |
| TimelineDay.SectionDocs | pygce/models/garmin/timeline.py:645-647 | one document per section |
| TimelineDay.SectionDocsAt | pygce/models/garmin/timeline.py:645-647 | document `i` belongs to section `i` |
| TimelineDay.Stringify | pygce/models/garmin/timeline.py:638-653 | after `to_json` only the activity dicts have changed |
| TimelineDay.TimelineJsonShape | pygce/models/garmin/timeline.py:638-653 | the document has the date as its only key, and the six section names under it |
| TimelineDay.DictsJsonStringified | pygce/models/garmin/timeline.py:444-450 | stringifying the activities in place does not change the document they give |
| TimelineDay.TimelineJsonTwice | pygce/models/garmin/timeline.py:638-653 | a second `to_json` gives the same document |
| TimelineDay.TimelineCsvAfterJson | pygce/models/garmin/timeline.py:624-636 | after `to_json`, `to_csv_dict` raises on any day that has an activity |
| TimelineDay.DayParsedTwice | pygce/models/garmin/timeline.py:604-611 | a second `parse` passes and keeps every field the first set, while the bins and activities are appended a second time |
| TimelineDay.DayParsedCsv | pygce/models/garmin/timeline.py:604-636 | a freshly built day that parses has a CSV row, whatever its page held |
| TimelineDay.DayTimeline.constructor | pygce/models/garmin/timeline.py:573-602 | the date of `date_time`; six fresh sections, each built from its own part of the page and none parsed |
| TimelineDay.DayTimeline.Parse | pygce/models/garmin/timeline.py:604-611 | summary and steps are parsed, then the step details; if these raise, sleep, activities and breakdown are not parsed |
| TimelineDay.DayTimeline.ToCsvDict | pygce/models/garmin/timeline.py:624-636 | the day's CSV row, or the exception of the totals |
| TimelineDay.DayTimeline.ToJson | pygce/models/garmin/timeline.py:638-653 | the day's document; the activities are left stringified and nothing else changes |
| Bot.UserUrlPieces | pygce/models/bot.py:63-64 | a user URL always has a third `/`-piece, so `split("/")[2]` does not raise |
| Bot.RegionIsAfterLast | pygce/models/bot.py:64 | the region is the text of the host after its last `connect.`; it holds no `connect.`, and it is the whole host when there is none |
| Bot.HostOf | pygce/models/bot.py:63-64 | the host piece of `<scheme>//<host>` is `host` |
| Bot.RegionOfConnectHost | pygce/models/bot.py:64 | for `<scheme>//connect.<r>` the region is `r` |
| Bot.DefaultLoginUrl | pygce/models/bot.py:63-68 | the default URL gives the region `garmin.com`, whose login URL is the module's `BASE_LOGIN_URL` |
| Bot.LongestIndex | pygce/models/bot.py:118-119 | `max(tokens, key=len)` picks a longest token, the first of them |
| Bot.LongestIndexUnique | pygce/models/bot.py:118-119 | only one index is a first longest token |
| Bot.FirstHref | pygce/models/bot.py:110-123 | the id comes from the first widget whose lookup succeeds, and is absent exactly when none does |
| Bot.DayUrlPieces | pygce/models/bot.py:149-152 | the last two `/`-pieces of a day URL are the user id and the date as `strftime('%Y-%m-%d')` writes it |
| Bot.DayCountRange | pygce/models/bot.py:205-211 | the days fetched are exactly `min + i days` up to `max`; none when `max` is before `min` |
| Bot.LastDayIsMax | pygce/models/bot.py:205-211 | with equal times of day, the last day fetched is `max`'s date |
| Bot.DaysDeltaSameTime | pygce/models/bot.py:205-206 | at equal times of day `(max - min).days` is the difference of the day numbers |
| Bot.Pages | pygce/models/bot.py:208-210 | one `get_day` answer per day of the range, in order |
| Bot.ParseResults | pygce/models/bot.py:226-228 | one parse result per fetched day |
| Bot.ParseResultsAt | pygce/models/bot.py:226-228 | step `i` of the parse loop is day `i`'s own parse; a missing day raises `AttributeError` |
| Bot.CsvResults | pygce/models/bot.py:254 | `to_csv_dict` of every day, in order |
| Bot.RangeDates | pygce/models/bot.py:209 | the valid dates of the first `n` days of the range |
| Bot.JsonDocsOf | pygce/models/bot.py:230-231 | each day's document, in order |
| Bot.ParseLoop | pygce/models/bot.py:226-228 | the loop parses days until the first that raises; it passes exactly when every day parses, and otherwise fails with that day's exception |
| Bot.ParsedRangePass | pygce/models/bot.py:225-228 | the same for a fetched range: it passes exactly when every day of the range was found and parsed |
| Bot.ParsedRangeCount | pygce/models/bot.py:225-228 | a range that parses yields one state per day |
| Bot.ParsedRangeEmpty | pygce/models/bot.py:208-228 | an empty range parses nothing and passes |
| Bot.PageCsv | pygce/models/bot.py:250-254 | a page that parses gives a day whose CSV dict exists and has the header's columns |
| Bot.CsvLoop | pygce/models/bot.py:254 | when every day's dict exists the list comprehension passes and keeps them in order |
| Bot.RangeCsvs | pygce/models/bot.py:249-254 | every day of a range that parses has a CSV row with the header's columns |
| Bot.CsvDumpWritten | pygce/models/bot.py:249-259 | the CSV file is written exactly when the range is non-empty and every day was found and parsed; an empty range raises `IndexError` at `data[0]` |
| Bot.CsvDumpRows | pygce/models/bot.py:254-259 | the file has one row per day of the range, that day's `to_csv_dict`, all with the header's columns |
| Bot.JsonDumpShape | pygce/models/bot.py:225-233 | the JSON file exists exactly when the range parses, and holds each day's document keyed by its date, in order |
| Bot.JsonDumpEmpty | pygce/models/bot.py:225-233 | an empty range writes an empty JSON list |
| Bot.VisitKeyed | pygce/models/bot.py:274-277 | a dict with all activity keys has its `gpx` URL visited and raises nothing |
| Bot.DayGpx | pygce/models/bot.py:275 | the `gpx` values of one day's activities |
| Bot.DayVisitsPass | pygce/models/bot.py:274-277 | dicts whose visits all pass: the URLs visited are their `gpx` values, in order |
| Bot.DayVisitsKeyed | pygce/models/bot.py:274-277 | dicts with all their keys: every `gpx` URL is visited, in order, and nothing raises |
| Bot.RangeVisitsKeyed | pygce/models/bot.py:272-277 | every day's dicts with all their keys: the visits pass and follow the days in order |
| Bot.RangeActivities | pygce/models/bot.py:272 | the activity dicts of each parsed day |
| Bot.RangeStringified | pygce/models/bot.py:230-235 | the same after `to_json` stringified them |
| Bot.PageKeyed | pygce/models/bot.py:272-277 | a page that parses gives activity dicts with all their keys, stringified or not |
| Bot.ParsedRangeVisits | pygce/models/bot.py:263-277 | once a range parsed, visiting its activities raises nothing, whether stringified or not |
| Bot.ParsedRangeKeyed | pygce/models/bot.py:263-277 | a parsed range's days hold activity dicts with all their keys, stringified or not |
| Bot.RangeVisitsStop | pygce/models/bot.py:273-277 | after a visit that raised no later day is visited |
| Bot.DayVisitsStop | pygce/models/bot.py:274-277 | after a visit that raised no later activity of that day is visited |
| Bot.SeparateSnoc | pygce/models/bot.py:210 | a new day whose sections are apart from the earlier days' keeps the range free of sharing |
| Bot.MakeDay | pygce/models/bot.py:183-193 | `get_day`: `None` exactly when the page was not found, otherwise a fresh timeline built from that page, sharing nothing with the days before |
| Bot.InitLoginUrl | pygce/models/bot.py:63-68 | the end of `__init__`: the login URL of the region when `log_message` is a name the module has, and `NameError` otherwise |
| Bot.InitAsWrittenRaises | pygce/models/bot.py:5-68 | as written, `log_message` is not imported, so every construction raises `NameError` |
| Bot.InitWithLogger | pygce/models/bot.py:63-68 | with `log_message` imported, construction reaches the login URL of the region |
| Bot.GarminConnectBot.constructor | pygce/models/bot.py:39-68 | not logged in and no id yet; the user URL is `url + /modern/`, and the login URL points at the region of `url` |
| Bot.GarminConnectBot.Login | pygce/models/bot.py:70-96 | the result, and `user_logged_in`, are whether the login form went through; the id is unchanged |
| Bot.GarminConnectBot.GoToDashboard | pygce/models/bot.py:125-138 | logs in first when not logged in yet; afterwards logged in when it was before or when the login succeeded |
| Bot.GarminConnectBot.FindUserId | pygce/models/bot.py:98-123 | with an id already set nothing changes; otherwise the dashboard is opened and the id comes from the first widget that has one, stripped from its longest `/`-token |
| Bot.GarminConnectBot.GoToDay | pygce/models/bot.py:140-157 | finds the id when it is missing, then opens the daily-summary URL of that id and the date |
| Bot.GarminConnectBot.GetDays | pygce/models/bot.py:195-211 | one `get_day` per day from `min` on, `(max - min).days + 1` of them; a day is `None` exactly when its page was not found, and otherwise a fresh timeline built from it |
| Bot.GarminConnectBot.ParseDay | pygce/models/bot.py:228 | `d.parse()` on a day: its new sections, or the exception it raised |
| Bot.GarminConnectBot.ParseAt | pygce/models/bot.py:226-228 | parsing day `i` leaves every other day's sections alone |
| Bot.GarminConnectBot.ParseDays | pygce/models/bot.py:226-228 | the parse loop: the outcome of parsing the days in order up to the first exception; a missing day raises `AttributeError` |
| Bot.GarminConnectBot.CsvRows | pygce/models/bot.py:254 | the CSV rows of the days in order, or the first exception |
| Bot.GarminConnectBot.JsonOne | pygce/models/bot.py:230 | `d.to_json()` on day `i`: its document, its activities stringified, the other days unchanged |
| Bot.GarminConnectBot.JsonAt | pygce/models/bot.py:230-231 | the same within the loop: the days up to `i` stringified, the later ones not yet |
| Bot.GarminConnectBot.JsonStep | pygce/models/bot.py:230-231 | the documents of days `0..i`, each its day's |
| Bot.GarminConnectBot.JsonDocs | pygce/models/bot.py:230-231 | each day's document, in order; every day's activities are left stringified |
| Bot.GarminConnectBot.VisitDay | pygce/models/bot.py:274-277 | the visits of one day's activities, in order, up to the first that raises |
| Bot.GarminConnectBot.SaveGpx | pygce/models/bot.py:263-277 | with downloads off nothing happens; with a missing day `AttributeError`; otherwise the visits of every day's activities in order |
| Bot.GarminConnectBot.FetchAndParse | pygce/models/bot.py:225-252 | the outcome of fetching and parsing the range; on success one parsed day per date of the range |
| Bot.GarminConnectBot.DumpCsv | pygce/models/bot.py:249-259 | the CSV file of the range, or the exception that prevents it |
| Bot.GarminConnectBot.SaveCsvDays | pygce/models/bot.py:237-261 | as written: the file as above, and after it `save_gpx` raises `AttributeError` whenever downloads are on |
| Bot.GarminConnectBot.SaveCsvDaysCorrected | pygce/models/bot.py:237-277 | with the timelines handed to `save_gpx`: the file as above, then every activity's `gpx` URL visited in order, and nothing raises |
| Bot.GarminConnectBot.SaveJsonDays | pygce/models/bot.py:213-235 | the JSON file of the range, then, when downloads are on, the visits of the stringified activities; nothing raises once the file is written |
| Bot.GarminConnectBot.DumpJson | pygce/models/bot.py:225-233 | the JSON file of the range, or the exception that prevents it; the activities are left stringified |
| AnalysisTable.CellAt | pygce/models/analysis.py:59 | `row[i]` exists exactly when `i < len(row)` |
| AnalysisTable.ParseNumCell | pygce/analysis/models.py:76 | `parse_num(data[row][i])`: a missing cell raises `IndexError`; otherwise a number |
| AnalysisTable.Selection | pygce/models/analysis.py:57 | one flag per header: whether it is listed |
| AnalysisTable.ColumnConvertedPass | pygce/models/analysis.py:58-59 | the row loop of one column passes exactly when every row's cell converts |
| AnalysisTable.ColumnConvertedFail | pygce/models/analysis.py:58-59 | a failure of the row loop is the exception of one of its cells |
| AnalysisTable.ColumnConvertedStop | pygce/models/analysis.py:58-59 | after a failing row the later rows are left as they were |
| AnalysisTable.ColumnConvertedAt | pygce/models/analysis.py:58-59 | row `r` is rewritten exactly when it and every earlier row converted |
| AnalysisTable.ColumnConvertedShape | pygce/models/analysis.py:58-59 | converting a column keeps the shape of the table |
| AnalysisTable.ColumnConvertedOther | pygce/models/analysis.py:58-59 | converting column `i` leaves every other column alone |
| AnalysisTable.ColumnConvertedValues | pygce/models/analysis.py:58-59 | when the row loop passes, each row's cell is the converted old cell |
| AnalysisTable.ColumnsConvertedFrame | pygce/models/analysis.py:55-60 | only cells of listed columns can change; the table keeps its shape |
| AnalysisTable.ColumnsConvertedNone | pygce/models/analysis.py:55-60 | nothing listed leaves the table as it is |
| AnalysisTable.ColumnsConvertedPass | pygce/models/analysis.py:55-60 | the outer loop passes exactly when every listed column converts in every row |
| AnalysisTable.ColumnsConvertedStop | pygce/models/analysis.py:55-60 | after a failure the outer loop changes nothing more |
| AnalysisTable.ColumnsConvertedValues | pygce/models/analysis.py:55-60 | when it passes, every cell of a listed column is the converted original cell |
| AnalysisTable.Table.constructor | pygce/models/analysis.py:145-148 | the table holds the given rows |
| AnalysisTable.ConvertColumn | pygce/models/analysis.py:58-59 | the row loop on column `i` of the table, in place |
| AnalysisTable.ConvertColumns | pygce/models/analysis.py:55-60 | the loop over header positions, in place; the table returned is the one given |
| AnalysisTable.StripAll | pygce/models/analysis.py:142 | one stripped header per header |
| AnalysisTable.LongCellsShape | pygce/models/analysis.py:147 | every cell kept is text longer than the bound, one per such input cell |
| AnalysisTable.LongCellsConcat | pygce/models/analysis.py:147 | the filter keeps the order of the cells |
| AnalysisTable.LongCellsAll | pygce/models/analysis.py:147 | a line whose cells are all long enough keeps every cell in place |
| AnalysisTable.DataRows | pygce/models/analysis.py:146-148 | one data row per line |
| AnalysisTable.DataRowsAt | pygce/models/analysis.py:147 | data row `r` comes from line `r` alone |
| AnalysisTable.ParseRows | pygce/models/analysis.py:141-148 | an empty file raises `IndexError`; otherwise the headers are the stripped first line without its first cell, and the rows are the kept cells of every later line |
| ModelsAnalysis.GetSeconds | pygce/models/analysis.py:28-40 | a successful result lies in `[0, 86400)` |
| ModelsAnalysis.GetSecondsRoundTrip | pygce/models/analysis.py:28-40 | a time as `str()` writes it is read back as its `h*3600 + m*60 + s` seconds |
| ModelsAnalysis.TimeCell | pygce/models/analysis.py:59 | a missing cell raises `IndexError`; otherwise a number of seconds in `[0, 86400)` |
| ModelsAnalysis.TimeConverter | pygce/models/analysis.py:59 | the converter never accepts a missing cell |
| ModelsAnalysis.ConvertTimeColumns | pygce/models/analysis.py:43-60 | the table, rewritten in place, is the column conversion with `get_seconds` |
| ModelsAnalysis.TimeConverterOf | pygce/models/analysis.py:59 | a cell converts exactly when `get_seconds` reads its text, and becomes that number |
| ModelsAnalysis.TimeColumnsFrame | pygce/models/analysis.py:55-60 | the table keeps its shape, and no cell outside a listed column changes |
| ModelsAnalysis.TimeColumnsPass | pygce/models/analysis.py:55-60 | the conversion passes exactly when every listed column's cell exists and reads as a time in every row |
| ModelsAnalysis.TimeColumnsValues | pygce/models/analysis.py:55-60 | when it passes, each listed cell holds `get_seconds` of its old text |
| ModelsAnalysis.TimeColumnsNone | pygce/models/analysis.py:55-60 | an empty list of columns leaves the table as it is |
| ModelsAnalysis.ParseCsv | pygce/models/analysis.py:132-151 | an empty file raises `IndexError`; otherwise the headers, and the rows of cells longer than one character with the seven time columns converted |
| AnalysisModels.MissingGetSeconds | pygce/analysis/models.py:56 | `utils.get_seconds` raises `AttributeError` on every cell, since the module has no such name |
| AnalysisModels.ConvertTimeColumnsAsWritten | pygce/analysis/models.py:39-57 | the table, rewritten in place, is the column conversion with that failing lookup |
| AnalysisModels.MissingColumn | pygce/analysis/models.py:55-56 | as written, one column's loop raises at its first row and changes nothing |
| AnalysisModels.MissingColumns | pygce/analysis/models.py:52-56 | as written, the outer loop raises as soon as a listed column meets a row |
| AnalysisModels.ConvertTimeColumnsAsWrittenFails | pygce/analysis/models.py:39-57 | as written, the table is never changed, and the call raises `AttributeError` exactly when there is a row and a listed column |
| AnalysisModels.ConvertTimeColumns | pygce/analysis/models.py:39-57 | corrected with the `get_seconds` of `pygce/models/analysis.py`: the table is the time conversion of its listed columns |
| AnalysisModels.FixFloats | pygce/analysis/models.py:60-77 | the table, rewritten in place, is the column conversion with `parse_num` |
| AnalysisModels.FloatFixerOf | pygce/analysis/models.py:76 | a cell converts exactly when `parse_num` reads its text, and becomes that number |
| AnalysisModels.FixFloatsFrame | pygce/analysis/models.py:72-77 | the table keeps its shape, and no cell outside a listed column changes |
| AnalysisModels.FixFloatsPass | pygce/analysis/models.py:72-77 | `fix_floats` passes exactly when every listed column's cell exists and is a locale number in every row |
| AnalysisModels.FixFloatsValues | pygce/analysis/models.py:72-77 | when it passes, each listed cell holds `parse_num` of its old text |
| AnalysisModels.TimelineParseCsv | pygce/analysis/models.py:162-171 | the rows are the time conversion of the seven timeline time columns |
| AnalysisModels.ActivitiesListsDisjoint | pygce/analysis/models.py:370-378 | no column is both a time column and a malformed-float column |
| AnalysisModels.ActivitiesParseCsv | pygce/analysis/models.py:388-399 | the time columns are converted, then the malformed floats fixed if that passed |
| AnalysisModels.ActivitiesUntouched | pygce/analysis/models.py:394-399 | a column in neither list keeps every cell through both conversions |
| AnalysisModels.ActivitiesValues | pygce/analysis/models.py:394-399 | when both pass, a time column holds the seconds of its old text and a float column the `parse_num` of its old text |
| AnalysisModels.RemoveFirst | pygce/analysis/models.py:194-196 | `remove(x)` on a copy succeeds exactly when `x` is present, raising `ValueError` otherwise; the result has one element less, one `x` fewer in its multiset |
| AnalysisModels.RemoveFirstAt | pygce/analysis/models.py:195-196 | the element removed is the first `x`; the elements before and after it stay, in order |
| AnalysisModels.RemoveFirstDistinct | pygce/analysis/models.py:331-333 | in a list without repeats, removing `x` leaves exactly the other elements, in order |
| AnalysisModels.TimelineHeadersDistinct | pygce/analysis/models.py:126-143 | the sixteen analysed timeline headers are distinct |
| AnalysisModels.InputFeatures | pygce/analysis/models.py:194-196 | the input features exist exactly when the feature is one of the analysed headers, raising `ValueError` otherwise; there are fifteen |
| AnalysisModels.InputFeaturesExclude | pygce/analysis/models.py:194-196 | the input features are the analysed headers without the predicted one, in their order |
| AnalysisScript.ParseCsv | pygce/analysis.py:42-58 | an empty file raises `IndexError`; otherwise the stripped headers and the non-empty stripped cells of every later line |
| AnalysisScript.SingleCharacterCell | pygce/analysis.py:55 | a one-character cell is kept by this script's filter and dropped by the `> 1` filter of `pygce/models/analysis.py` |
| AnalysisScript.ConvertTimeColumnsAsWritten | pygce/analysis.py:61-78 | as written, the conversion with the missing `utils.get_seconds` |
| AnalysisScript.ConvertTimeColumns | pygce/analysis.py:61-78 | corrected: the time conversion of the listed columns |
| AnalysisScript.FixFloats | pygce/analysis.py:81-98 | the `parse_num` conversion of the listed columns |
| AnalysisScript.TimelineParseCsv | pygce/analysis.py:176-184 | an empty file raises `IndexError`; otherwise the rows of the script's filter with the seven time columns converted |
| AnalysisScript.ActivitiesParseCsv | pygce/analysis.py:230-239 | an empty file raises `IndexError`; otherwise the time columns converted, then the malformed floats fixed |

## Left out

- Browser automation is not modelled: Selenium, chromedriver, `WebDriverWait` and its 25-second
  timeout, and the login form. Each browser answer the bot depends on is a parameter of the
  model: whether the login succeeded, the widget `href`s of the dashboard, and what `get_day`
  found on a page.
- HTML is not parsed. BeautifulSoup lookups become the texts they would return, or `None` when
  nothing is found.
- Console output is not modelled: every `print` and the `log_message` call.
- Writing files is not modelled. The JSON encoder, `csv.DictWriter`, and the text of the files are
  left out. The model states which rows and documents the saves would write.
- `hal.ml.data.parser` (`CSVParser`, `parse_csv_file`) is not part of this model. The analysis
  methods start from the list of lines it returns, or from its headers and rows.
- The statistics and plots are not modelled: correlation matrices, regression, clustering, k-best
  selection and the charts. They are numpy, sklearn, matplotlib and `hal` calls. Only the
  feature list that `predict_feature` and `select_k_best` build is modelled.
- The command-line front ends, the logger module, `setup.py` and the documentation are not part of
  this model.
- Floats are exact reals, not IEEE doubles, so there is no rounding.
  - `GarminUtils.PyFloat` and `GarminUtils.UnsignedValue` accept only plain decimal literals: a sign,
    digits and at most one point. Exponents, `inf`, `nan` and `_` digit separators give `Err` in
    the model, where Python's `float()` would accept them.
  - `TimelineParsers.PyInt` likewise refuses `_` separators.
- Digits are ASCII only. `Text.IsDigit`, and through it the `strptime` field parsers of
  `pydatetime.dfy` and the `int()`/`float()` models, accept `0`-`9`. Python's `\d`, `int()` and
  `float()` also accept other Unicode decimal digits.
- `PyValues.Show` does not fix how Python writes a float. `str(float)` (shortest round-tripping
  digits) is the `floatStr` parameter, so every statement about texts holds for any rendering.
- `TimelineSections.DetailsSteps.constructor` starts from the decoded items. The `json.loads(self.html)` of
  `GCDetailsSteps.__init__` (pygce/models/garmin/timeline.py:232) is skipped, together with its
  `JSONDecodeError`. A decoded field is an integer, a real, a text or `null`
  (`TimelineParsers.JsonScalar`). JSON booleans and nested values cannot occur there.
- `Bot.MakeDay` builds a timeline from all seven inputs. As written, `get_day`
  (pygce/models/bot.py:183-190) passes six arguments to the seven-parameter `GCDayTimeline`
  constructor (pygce/models/garmin/timeline.py:573-576). That call raises `TypeError`, which the
  `except` of `get_day` turns into `None`. So, as written:
  - every day of `get_days` is `None`;
  - every save over a non-empty range raises `AttributeError` at `d.date` (pygce/models/bot.py:227, :251).

  The model follows the evident intent instead: the page's seven parts build the day. Which pages
  are found is the `getDay` parameter.
- `Bot.GarminConnectBot.GetDays` does not change the bot. In the source, each `get_day` goes
  through `go_to_day` and `_find_user_id`, which can set `user_id` and `user_logged_in` during the
  range loop. The model keeps that effect to `FindUserId` and `GoToDay`, and leaves the day URLs
  out of `GetDays`.
- Python's `MAXYEAR` is not modelled. `PyDateTime.ValidDate` has no upper bound, so the
  `OverflowError` that `min + timedelta(days=i)` raises past the year 9999 does not occur.
- `Bot.DayUrl` and `TimelineSections.DetailsSteps.Parse` (through `TimelineParsers.BinTime`) write
  the year the way glibc's `strftime('%Y')` does, without padding. Other C libraries pad years below
  1000 to four digits. `PyDateTime.StrftimeDateIso` shows that the two agree from the year 1000 on.
  The day's own `date` key is `str(date)`, which always pads.
- The analysis table's rows are values (`seq`), updated in place through the `Table` object. Two
  rows that are the same Python list, so that writing one writes the other, are not modelled.
- `AnalysisModels.RemoveFirst` models `HEADERS_TO_ANALYZE.copy().remove(feature)` on the value of
  the list. The class constant itself is a Dafny `const`, so the copy trivially leaves it unchanged.
- Concurrency and timing are not modelled. The bot is sequential, and the waits only delay it.

## Findings

| source | as written | input that shows it | evidently intended | confidence | as-written member | corrected member |
|---|---|---|---|---|---|---|
| pygce/models/bot.py:254-272 | `save_csv_days` rebinds `data` to the list of CSV dicts, then calls `save_gpx(data)`, which evaluates `timeline.activities` on a dict and raises `AttributeError` | any range whose days are all found and parsed, with `download_gpx` on | hand the timelines to `save_gpx`, as `save_json_days` does | not executed | Bot.GarminConnectBot.SaveCsvDays | Bot.GarminConnectBot.SaveCsvDaysCorrected |
| pygce/analysis/models.py:56 | `convert_time_columns` (and its copy at `pygce/analysis.py:77`) calls `utils.get_seconds`, which `pygce/models/garmin/utils.py` does not define, so the lookup raises `AttributeError` | any table with one row and a listed time column, such as the timeline CSV's `SLEEP:nap_time` | the time-to-seconds conversion of `get_seconds` in `pygce/models/analysis.py:28-40` | not executed | AnalysisModels.ConvertTimeColumnsAsWrittenFails | AnalysisModels.ConvertTimeColumns |
| pygce/models/bot.py:65 | `__init__` calls `log_message`, which `bot.py` never imports (it is defined in `pygce/models/logger.py`), so construction raises `NameError` after the browser has started | any construction of `GarminConnectBot` | import `log_message` from the logger module, then compute the login URL | not executed | Bot.InitAsWrittenRaises | Bot.GarminConnectBot.constructor |
