/**
  The extractors of `pygce/models/garmin/timeline.py` as pure functions. Each is fed the texts
  the HTML lookups would hand it and yields the field value or the exception it raises.
 */
module TimelineParsers {
  import opened Wrappers
  import opened Text
  import opened PyDateTime
  import opened GarminUtils
  import opened PyValues

  // ----- lookups that may raise -----

  /** `soup.find_all(...)[0].text`: `None` stands for a lookup that found nothing. */
  function Found(text: Option<string>): (r: Result<string>)
    ensures r.Ok? <==> text.Some?
  {
    if text.Some? then Ok(text.value) else Err(IndexError)
  }

  /** `s[i]` for a non-negative index. */
  function Index(s: seq<string>, i: nat): (r: Result<string>)
    ensures r.Ok? <==> i < |s|
    ensures r.Ok? ==> r.value == s[i]
  {
    if i < |s| then Ok(s[i]) else Err(IndexError)
  }

  /** `[str(t.text).strip() for t in texts]`. */
  function StripAll(texts: seq<string>): (r: seq<string>)
    ensures |r| == |texts|
    ensures forall i :: 0 <= i < |texts| ==> r[i] == Strip(texts[i])
  {
    if texts == [] then [] else [Strip(texts[0])] + StripAll(texts[1..])
  }

  /** `utils.parse_num(n)` stored in a field: a float. */
  function NumField(n: string): (r: Result<Value>)
    ensures r.Ok? <==> ParseNum(n).Ok?
    ensures r.Ok? ==> r.value == FloatValue(ParseNum(n).value)
  {
    var x :- ParseNum(n);
    Ok(FloatValue(x))
  }

  /** A `time` stored in a field. */
  function TimeField(r: Result<ClockTime>): (v: Result<Value>)
    ensures v.Ok? <==> r.Ok?
    ensures v.Ok? ==> v.value == TimeValue(r.value)
  {
    var t :- r;
    Ok(TimeValue(t))
  }

  /** A whole number is read back by `parse_num` as itself. */
  lemma {:induction false} NumFieldDigits(n: string)
    requires |n| > 0 && AllDigits(n)
    ensures NumField(n) == Ok(FloatValue(DigitsValue(n) as real))
  {
    ParseNumDigits(n);
  }

  // ----- GCDaySummary -----

  /** The texts of the like counter, the note and the first calorie figure. */
  datatype SummaryInput = SummaryInput(likes: Option<string>, comment: Option<string>, kcal: Option<string>)

  /** `parse_likes`: the first blank-separated word of the stripped like counter, as a number. */
  function Likes(input: SummaryInput): Result<Value> {
    var t :- Found(input.likes);
    NumField(Before(Strip(t), " "))
  }

  /** `parse_comment`: the stripped note text. */
  function Comment(input: SummaryInput): Result<Value> {
    var t :- Found(input.comment);
    Ok(StrValue(Strip(t)))
  }

  /** `parse_kcal_count`. */
  function KcalCount(input: SummaryInput): Result<Value> {
    var t :- Found(input.kcal);
    NumField(t)
  }

  /** A counter reading `"<n> likes"` gives the number `n`. */
  lemma {:induction false} LikesCounter(n: string, word: string)
    requires |n| > 0 && AllDigits(n)
    requires |word| > 0 && !IsSpace(word[|word| - 1])
    ensures Likes(SummaryInput(Some(n + " " + word), None, None)) == Ok(FloatValue(DigitsValue(n) as real))
  {
    var t := n + " " + word;
    assert t == n + [' '] + word;
    assert !IsSpace(t[0]) && !IsSpace(t[|t| - 1]);
    StripNoSpace(t);
    DigitsCount(n, ' ');
    SplitFirst(n, ' ', word);
    NumFieldDigits(n);
  }

  // ----- GCDaySteps -----

  /** The total-steps figure, the goal heading and the texts of the daily statistics. */
  datatype StepsInput = StepsInput(total: Option<string>, goalHeading: Option<string>, stats: seq<string>)

  /** `parse_steps_count`, first assignment: the total steps. */
  function StepsTotal(input: StepsInput): Result<Value> {
    var t :- Found(input.total);
    NumField(t)
  }

  /** `parse_steps_count`, second assignment: the last blank-separated word of the goal heading. */
  function StepsGoal(input: StepsInput): Result<Value> {
    var h :- Found(input.goalHeading);
    NumField(Strip(After(Strip(h), " ")))
  }

  /** `parse_steps_stats`, first assignment: the second statistic, cut at `km`. */
  function StepsDistance(input: StepsInput): Result<Value> {
    var t :- Index(input.stats, 1);
    NumField(Before(t, "km"))
  }

  /** `parse_steps_stats`, second assignment: the third statistic. */
  function StepsAvg(input: StepsInput): Result<Value> {
    var t :- Index(input.stats, 2);
    NumField(t)
  }

  /** A goal heading `"... <n>"` gives the number `n`. */
  lemma {:induction false} StepsGoalHeading(words: string, n: string)
    requires |n| > 0 && AllDigits(n)
    requires |words| > 0 && !IsSpace(words[0])
    ensures StepsGoal(StepsInput(None, Some(words + " " + n), [])) == Ok(FloatValue(DigitsValue(n) as real))
  {
    var h := words + " " + n;
    assert h == words + [' '] + n;
    assert !IsSpace(h[0]) && !IsSpace(h[|h| - 1]);
    StripNoSpace(h);
    DigitsCount(n, ' ');
    AfterLastPiece(words, ' ', n);
    StripNoSpace(n);
    NumFieldDigits(n);
  }

  // ----- GCDaySleep -----

  /** The sleep totals, the bed and wake readings, and the deep, light and awake chart labels. */
  datatype SleepInput = SleepInput(
    totals: seq<string>, clock: seq<string>, deep: Option<string>, light: Option<string>, awake: Option<string>)

  /** `parse_sleep_totals`, first assignment. */
  function NightSleep(input: SleepInput): Result<Value> {
    var t :- Index(StripAll(input.totals), 0);
    TimeField(ParseHhMm(t))
  }

  /** `parse_sleep_totals`, second assignment. */
  function NapTime(input: SleepInput): Result<Value> {
    var t :- Index(StripAll(input.totals), 1);
    TimeField(ParseHhMm(t))
  }

  /** `parse_sleep_totals`, third assignment: the first blank-separated word. */
  function TotalSleep(input: SleepInput): Result<Value> {
    var t :- Index(StripAll(input.totals), 2);
    TimeField(ParseHhMm(Before(t, " ")))
  }

  /** `parse_bed_time`, first assignment: `%I:%M %p`. */
  function BedTime(input: SleepInput): Result<Value> {
    var t :- Index(StripAll(input.clock), 0);
    TimeField(Strptime12h(t))
  }

  /** `parse_bed_time`, second assignment. */
  function WakeTime(input: SleepInput): Result<Value> {
    var t :- Index(StripAll(input.clock), 1);
    TimeField(Strptime12h(t))
  }

  /** `parse_sleep_times`: one chart label, cut at `hrs`. */
  function ChartTime(text: Option<string>): Result<Value> {
    var t :- Found(text);
    TimeField(ParseHhMm(Before(t, "hrs")))
  }

  // ----- GCDayBreakdown -----

  /** The `tspan` texts, stripped and with every `%` removed. */
  function BreakdownTokens(tspans: seq<string>): (r: seq<string>)
    ensures |r| == |tspans|
    ensures forall i :: 0 <= i < |tspans| ==> r[i] == DeleteChar(Strip(tspans[i]), '%')
  {
    if tspans == [] then [] else [DeleteChar(Strip(tspans[0]), '%')] + BreakdownTokens(tspans[1..])
  }

  /** `utils.parse_num(values[i])`: the share at position `i` of the cleaned tokens. */
  function Share(values: seq<string>, i: nat): (r: Result<Value>)
    ensures r.Ok? <==> i < |values| && ParseNum(values[i]).Ok?
  {
    var t :- Index(values, i);
    NumField(t)
  }

  /** A share written `"<n>%"` gives the number `n`. */
  lemma {:induction false} SharePercent(tspans: seq<string>, i: nat, n: string)
    requires i < |tspans| && tspans[i] == n + "%"
    requires |n| > 0 && AllDigits(n)
    ensures Share(BreakdownTokens(tspans), i) == Ok(FloatValue(DigitsValue(n) as real))
  {
    PercentToken(n);
    assert BreakdownTokens(tspans)[i] == n;
    NumFieldDigits(n);
  }

  lemma {:induction false} PercentToken(n: string)
    requires |n| > 0 && AllDigits(n)
    ensures DeleteChar(Strip(n + "%"), '%') == n
  {
    var t := n + "%";
    assert !IsSpace(t[0]) && !IsSpace(t[|t| - 1]);
    StripNoSpace(t);
    DeleteCharConcat(n, "%", '%');
    DigitsCount(n, '%');
    DeleteCharAbsent(n, '%');
    assert DeleteChar("%", '%') == [];
  }

  /** A missing token raises `IndexError`. */
  lemma {:induction false} ShareMissing(tspans: seq<string>, i: nat)
    requires i >= |tspans|
    ensures Share(BreakdownTokens(tspans), i) == Err(IndexError)
  {
  }

  // ----- GCDayActivities -----

  const GPX_DOWNLOAD_URL: string := "https://connect.garmin.com/modern/proxy/download-service/export/gpx/activity/"

  /** The keys of an activity dict, in the order the dict literal gives them. */
  const ACTIVITY_KEYS: seq<string> := ["time_day", "kcal", "duration", "distance", "type", "name", "url", "gpx"]

  /** One table row: the texts of its cells and the `href` of the anchor in its sixth cell. */
  datatype ActivityRow = ActivityRow(cells: seq<string>, href: Option<string>)

  /** The `time_day` field: the 12-hour reading, or the stripped text when it does not parse. */
  function TimeOfDay(text: string): (v: Value)
    ensures Strptime12h(Strip(text)).Ok? ==> v == TimeValue(Strptime12h(Strip(text)).value)
    ensures Strptime12h(Strip(text)).Err? ==> v == StrValue(Strip(text))
  {
    var t := Strip(text);
    var r := Strptime12h(t);
    if r.Ok? then TimeValue(r.value) else StrValue(t)
  }

  /** The `duration` field: `parse_hh_mm_ss` of the third cell, or of `"00:00"` when that raises. */
  function Duration(cells: seq<string>): Result<Value> {
    var r := if |cells| >= 3 then ParseHhMmSs(Strip(cells[2])) else Err(IndexError);
    if r.Ok? then Ok(TimeValue(r.value)) else TimeField(ParseHhMmSs("00:00"))
  }

  /** `parse_activity`: the dict of one row, in the order of the source's dict literal. */
  function ParseActivity(row: ActivityRow): Result<seq<(string, Value)>> {
    var c := row.cells;
    var first :- Index(c, 0);
    var timeDay := TimeOfDay(first);
    var duration :- Duration(c);
    var nameCell :- Index(c, 5);
    var href :- if row.href.Some? then Ok(row.href.value) else Err(TypeError);
    var link := Strip(href);
    var idRef := After(link, "/");
    var url := GARMIN_CONNECT_URL + link;
    var kcal :- NumField(c[1]);
    var distance :- NumField(Before(c[3], "km"));
    Ok(ActivityDict(timeDay, kcal, duration, distance, Strip(c[4]), Strip(nameCell), url, GPX_DOWNLOAD_URL + idRef))
  }

  /** The dict literal of `parse_activity`. */
  function ActivityDict(timeDay: Value, kcal: Value, duration: Value, distance: Value,
                        kind: string, name: string, url: string, gpx: string): (a: seq<(string, Value)>)
    ensures Keys(a) == ACTIVITY_KEYS
  {
    [("time_day", timeDay), ("kcal", kcal), ("duration", duration), ("distance", distance),
     ("type", StrValue(kind)), ("name", StrValue(name)), ("url", StrValue(url)), ("gpx", StrValue(gpx))]
  }

  /** A row is kept exactly when it has six cells, an anchor, and a readable kcal and distance. */
  lemma {:induction false} ParseActivityKept(row: ActivityRow)
    ensures ParseActivity(row).Ok? <==>
      |row.cells| >= 6 && row.href.Some? &&
      ParseNum(row.cells[1]).Ok? && ParseNum(Before(row.cells[3], "km")).Ok?
  {
    DurationValue(row.cells);
  }

  /** The duration of a row: its reading, or midnight when the text cannot be read. */
  lemma {:induction false} DurationValue(cells: seq<string>)
    ensures var d := if |cells| >= 3 then ParseHhMmSs(Strip(cells[2])) else Err(IndexError);
      Duration(cells) == Ok(TimeValue(if d.Ok? then d.value else ClockTime(0, 0, 0)))
  {
    ParseHhMmSsZero("00:00");
  }

  /**
    The fields of a kept row: the time of day and the duration with their fallbacks, the
    activity page under the Garmin Connect address, and the GPX export of the last path segment.
   */
  lemma {:induction false} ParseActivityFields(row: ActivityRow)
    requires |row.cells| >= 6 && row.href.Some?
    requires ParseNum(row.cells[1]).Ok? && ParseNum(Before(row.cells[3], "km")).Ok?
    ensures var link := Strip(row.href.value);
      var d := ParseHhMmSs(Strip(row.cells[2]));
      ParseActivity(row) == Ok(ActivityDict(
        TimeOfDay(row.cells[0]),
        FloatValue(ParseNum(row.cells[1]).value),
        TimeValue(if d.Ok? then d.value else ClockTime(0, 0, 0)),
        FloatValue(ParseNum(Before(row.cells[3], "km")).value),
        Strip(row.cells[4]), Strip(row.cells[5]),
        GARMIN_CONNECT_URL + link, GPX_DOWNLOAD_URL + After(link, "/")))
  {
    DurationValue(row.cells);
  }

  /** `parse_activity` of every row. */
  function ActivityResults(rows: seq<ActivityRow>): (rs: seq<Result<seq<(string, Value)>>>)
    ensures |rs| == |rows|
  {
    if rows == [] then [] else [ParseActivity(rows[0])] + ActivityResults(rows[1..])
  }

  /** Result `i` is the one of row `i`. */
  lemma {:induction false} ActivityResultsAt(rows: seq<ActivityRow>, i: nat)
    requires i < |rows|
    ensures ActivityResults(rows)[i] == ParseActivity(rows[i])
  {
    if i > 0 {
      ActivityResultsAt(rows[1..], i - 1);
    }
  }

  /** The results of two runs of rows, one after the other. */
  lemma {:induction false} ActivityResultsConcat(a: seq<ActivityRow>, b: seq<ActivityRow>)
    ensures ActivityResults(a + b) == ActivityResults(a) + ActivityResults(b)
  {
    if a == [] {
      assert a + b == b;
    } else {
      assert (a + b)[0] == a[0];
      assert (a + b)[1..] == a[1..] + b;
      ActivityResultsConcat(a[1..], b);
    }
  }

  /** The dicts of the rows `parse_activity` accepts, in row order. */
  function ParsedRows(rows: seq<ActivityRow>): seq<seq<(string, Value)>> {
    Kept(ActivityResults(rows))
  }

  /** Rows are independent: a failing row drops only itself. */
  lemma {:induction false} ParsedRowsConcat(a: seq<ActivityRow>, b: seq<ActivityRow>)
    ensures ParsedRows(a + b) == ParsedRows(a) + ParsedRows(b)
  {
    ActivityResultsConcat(a, b);
    KeptConcat(ActivityResults(a), ActivityResults(b));
  }

  /** Every kept dict is the dict of one row, and no row is dropped exactly when every row parses. */
  lemma {:induction false} ParsedRowsFrom(rows: seq<ActivityRow>)
    ensures forall i :: 0 <= i < |ParsedRows(rows)| ==>
      exists j :: 0 <= j < |rows| && ParseActivity(rows[j]) == Ok(ParsedRows(rows)[i])
    ensures |ParsedRows(rows)| == |rows| <==> forall j :: 0 <= j < |rows| ==> ParseActivity(rows[j]).Ok?
  {
    KeptFrom(ActivityResults(rows));
    KeptAll(ActivityResults(rows));
    forall j | 0 <= j < |rows| ensures ActivityResults(rows)[j] == ParseActivity(rows[j]) {
      ActivityResultsAt(rows, j);
    }
  }

  /** An activity dict as `parse_activity` builds it: its keys, a float kcal and distance, and a `time` duration. */
  predicate WellTyped(a: seq<(string, Value)>) {
    Keys(a) == ACTIVITY_KEYS && a[1].1.FloatValue? && a[2].1.TimeValue? && a[3].1.FloatValue?
  }

  lemma {:induction false} ParsedRowsWellTyped(rows: seq<ActivityRow>)
    ensures forall i :: 0 <= i < |ParsedRows(rows)| ==> WellTyped(ParsedRows(rows)[i])
  {
    ParsedRowsFrom(rows);
    forall i | 0 <= i < |ParsedRows(rows)| ensures WellTyped(ParsedRows(rows)[i]) {
      var j :| 0 <= j < |rows| && ParseActivity(rows[j]) == Ok(ParsedRows(rows)[i]);
      ParseActivityWellTyped(rows[j]);
    }
  }

  /** A kept row gives a well-typed dict. */
  lemma {:induction false} ParseActivityWellTyped(row: ActivityRow)
    requires ParseActivity(row).Ok?
    ensures WellTyped(ParseActivity(row).value)
  {
    ParseActivityKept(row);
    ParseActivityFields(row);
    var link := Strip(row.href.value);
    var d := ParseHhMmSs(Strip(row.cells[2]));
    ActivityDictWellTyped(TimeOfDay(row.cells[0]), FloatValue(ParseNum(row.cells[1]).value),
      TimeValue(if d.Ok? then d.value else ClockTime(0, 0, 0)),
      FloatValue(ParseNum(Before(row.cells[3], "km")).value),
      Strip(row.cells[4]), Strip(row.cells[5]), GARMIN_CONNECT_URL + link, GPX_DOWNLOAD_URL + After(link, "/"));
  }

  /** The dict literal with a float kcal and distance and a `time` duration is well typed. */
  lemma {:induction false} ActivityDictWellTyped(timeDay: Value, kcal: Value, duration: Value, distance: Value,
                              kind: string, name: string, url: string, gpx: string)
    requires kcal.FloatValue? && duration.TimeValue? && distance.FloatValue?
    ensures WellTyped(ActivityDict(timeDay, kcal, duration, distance, kind, name, url, gpx))
  {
  }


  // ----- activity totals -----

  /** `a + b` for the values `sum()` meets; anything but numbers raises `TypeError`. */
  function PyAdd(a: Value, b: Value): Result<Value> {
    match (a, b)
    case (IntValue(i), IntValue(j)) => Ok(IntValue(i + j))
    case (IntValue(i), FloatValue(y)) => Ok(FloatValue(i as real + y))
    case (FloatValue(x), IntValue(j)) => Ok(FloatValue(x + j as real))
    case (FloatValue(x), FloatValue(y)) => Ok(FloatValue(x + y))
    case _ => Err(TypeError)
  }

  /** `a[key]`. */
  function Lookup(a: seq<(string, Value)>, key: string): (r: Result<Value>)
    ensures r.Ok? <==> key in Keys(a)
  {
    var v := Get(a, key);
    if v.Some? then Ok(v.value) else Err(KeyError)
  }

  /** `sum(a[key] for a in acts)`: from the int 0, adding left to right. */
  function SumField(acts: seq<seq<(string, Value)>>, key: string): Result<Value> {
    if acts == [] then Ok(IntValue(0))
    else
      var acc :- SumField(acts[..|acts| - 1], key);
      var v :- Lookup(acts[|acts| - 1], key);
      PyAdd(acc, v)
  }

  /** The field `key` holds a float. */
  predicate FloatAt(a: seq<(string, Value)>, key: string) {
    Get(a, key).Some? && Get(a, key).value.FloatValue?
  }

  /** The exact sum of the float fields `key`. */
  function FloatTotal(acts: seq<seq<(string, Value)>>, key: string): real
    requires forall i :: 0 <= i < |acts| ==> FloatAt(acts[i], key)
  {
    if acts == [] then 0.0
    else
      assert FloatAt(acts[|acts| - 1], key);
      FloatTotal(acts[..|acts| - 1], key) + Get(acts[|acts| - 1], key).value.x
  }

  /** Summing float fields gives their exact total, and the int 0 when there is nothing to add. */
  lemma {:induction false} SumFieldFloats(acts: seq<seq<(string, Value)>>, key: string)
    requires forall i :: 0 <= i < |acts| ==> FloatAt(acts[i], key)
    ensures SumField(acts, key) == Ok(if acts == [] then IntValue(0) else FloatValue(FloatTotal(acts, key)))
  {
    if acts != [] {
      var init := acts[..|acts| - 1];
      assert forall i :: 0 <= i < |init| ==> init[i] == acts[i];
      SumFieldFloats(init, key);
    }
  }

  /** Once the first entry holds a text in field `key` (after `to_json`), the sum raises. */
  lemma {:induction false} SumFieldText(acts: seq<seq<(string, Value)>>, key: string)
    requires acts != [] && Get(acts[0], key).Some? && Get(acts[0], key).value.StrValue?
    ensures SumField(acts, key).Err?
  {
    if |acts| > 1 {
      var init := acts[..|acts| - 1];
      assert init[0] == acts[0];
      SumFieldText(init, key);
    } else {
      assert acts[..0] == [];
    }
  }

  /** `[a[key] for a in acts]`. */
  function FieldValues(acts: seq<seq<(string, Value)>>, key: string): (r: Result<seq<Value>>)
    ensures r.Ok? ==> |r.value| == |acts|
  {
    if acts == [] then Ok([])
    else
      var init :- FieldValues(acts[..|acts| - 1], key);
      var v :- Lookup(acts[|acts| - 1], key);
      Ok(init + [v])
  }

  /** The sum of `timedelta(hours=d.hour, minutes=d.minute, seconds=d.second)`, in seconds. */
  function DurationSeconds(ds: seq<Value>): Result<nat> {
    if ds == [] then Ok(0)
    else
      var acc :- DurationSeconds(ds[..|ds| - 1]);
      var d := ds[|ds| - 1];
      if d.TimeValue? then Ok(acc + SecondsOf(d.t)) else Err(AttributeError)
  }

  /** The kcal and distance fields of a well-typed dict hold floats. */
  lemma {:induction false} WellTypedFloats(a: seq<(string, Value)>)
    requires WellTyped(a)
    ensures FloatAt(a, "kcal") && FloatAt(a, "distance")
  {
    KeyAt(a, 1);
    KeyAt(a, 3);
  }

  /** In a dict with the activity keys, the key at position `j` finds position `j`. */
  lemma {:induction false} KeyAt(a: seq<(string, Value)>, j: nat)
    requires Keys(a) == ACTIVITY_KEYS && j < 8
    ensures Get(a, ACTIVITY_KEYS[j]) == Some(a[j].1)
  {
    assert forall i :: 0 <= i < |a| ==> a[i].0 == ACTIVITY_KEYS[i];
    ActivityKeysDistinct();
    KeyIndexFirst(a, ACTIVITY_KEYS[j], j);
  }

  lemma {:induction false} ActivityKeysDistinct()
    ensures forall i, j :: 0 <= i < j < |ACTIVITY_KEYS| ==> ACTIVITY_KEYS[i] != ACTIVITY_KEYS[j]
  {
  }

  /** The seconds of the `duration` field of a well-typed activity dict (0 for any other dict). */
  function DurationOf(a: seq<(string, Value)>): nat {
    if |a| > 2 && a[2].1.TimeValue? then SecondsOf(a[2].1.t) else 0
  }

  /** The total duration, in seconds, of activity dicts. */
  function DurationTotal(acts: seq<seq<(string, Value)>>): nat {
    if acts == [] then 0 else DurationTotal(acts[..|acts| - 1]) + DurationOf(acts[|acts| - 1])
  }

  /** Appending one `time` value adds its seconds to the sum. */
  lemma {:induction false} DurationSecondsSnoc(vs: seq<Value>, v: Value, n: nat)
    requires DurationSeconds(vs) == Ok(n) && v.TimeValue?
    ensures DurationSeconds(vs + [v]) == Ok(n + SecondsOf(v.t))
  {
    var w := vs + [v];
    assert w[..|w| - 1] == vs;
  }

  /** An error in the durations read so far is the error of the whole sum. */
  lemma {:induction false} DurationSecondsPrefix(ds: seq<Value>, k: nat)
    requires k <= |ds| && DurationSeconds(ds[..k]).Err?
    ensures DurationSeconds(ds) == DurationSeconds(ds[..k])
    decreases |ds|
  {
    if k < |ds| {
      var init := ds[..|ds| - 1];
      assert init[..k] == ds[..k];
      DurationSecondsPrefix(init, k);
    } else {
      assert ds[..k] == ds;
    }
  }

  /** The durations of well-typed dicts can all be read, and their seconds sum to the total. */
  lemma {:induction false} DurationOfWellTyped(acts: seq<seq<(string, Value)>>)
    requires forall i :: 0 <= i < |acts| ==> WellTyped(acts[i])
    ensures FieldValues(acts, "duration").Ok?
    ensures DurationSeconds(FieldValues(acts, "duration").value) == Ok(DurationTotal(acts))
  {
    if acts != [] {
      var init := acts[..|acts| - 1];
      assert forall i :: 0 <= i < |init| ==> init[i] == acts[i];
      DurationOfWellTyped(init);
      WellTypedDuration(acts[|acts| - 1]);
      DurationStep(acts, "duration");
    } else {
      assert FieldValues(acts, "duration") == Ok([]);
    }
  }

  /** The `duration` of a well-typed dict is its third field, a `time`. */
  lemma {:induction false} WellTypedDuration(a: seq<(string, Value)>)
    requires WellTyped(a)
    ensures |a| > 2 && a[2].1.TimeValue? && Lookup(a, "duration") == Ok(a[2].1)
  {
    KeyAt(a, 2);
    assert ACTIVITY_KEYS[2] == "duration";
  }

  /** A last dict whose `key` field is a `time` adds its seconds to both the sum read and the total. */
  lemma {:induction false} DurationStep(acts: seq<seq<(string, Value)>>, key: string)
    requires |acts| > 0 && |acts[|acts| - 1]| > 2
    requires FieldValues(acts[..|acts| - 1], key).Ok?
    requires DurationSeconds(FieldValues(acts[..|acts| - 1], key).value) == Ok(DurationTotal(acts[..|acts| - 1]))
    requires acts[|acts| - 1][2].1.TimeValue? && Lookup(acts[|acts| - 1], key) == Ok(acts[|acts| - 1][2].1)
    ensures FieldValues(acts, key).Ok?
    ensures DurationSeconds(FieldValues(acts, key).value) == Ok(DurationTotal(acts))
  {
    var init, v := acts[..|acts| - 1], acts[|acts| - 1][2].1;
    var vs := FieldValues(init, key).value;
    assert FieldValues(acts, key) == Ok(vs + [v]);
    DurationSecondsSnoc(vs, v, DurationTotal(init));
  }


  const TOTALS_KEYS: seq<string> := ["kcal", "duration", "distance"]

  /** `get_totals_dict`: the kcal sum, `str()` of the total duration and the distance sum, in that order. */
  function TotalsDict(acts: seq<seq<(string, Value)>>): (r: Result<seq<(string, Value)>>)
    ensures r.Ok? ==> Keys(r.value) == TOTALS_KEYS
  {
    var kcal :- SumField(acts, "kcal");
    var durations :- FieldValues(acts, "duration");
    var seconds :- DurationSeconds(durations);
    var distance :- SumField(acts, "distance");
    Ok([("kcal", kcal), ("duration", StrValue(DeltaStr(seconds))), ("distance", distance)])
  }

  /**
    The totals of parsed activities always exist: kcal and distance are the exact sums (the int 0
    for no activity) and the duration is the sum of hour*3600 + minute*60 + second.
   */
  lemma {:induction false} TotalsOfWellTyped(acts: seq<seq<(string, Value)>>)
    requires forall i :: 0 <= i < |acts| ==> WellTyped(acts[i])
    ensures forall i :: 0 <= i < |acts| ==> FloatAt(acts[i], "kcal") && FloatAt(acts[i], "distance")
    ensures TotalsDict(acts) == Ok([
      ("kcal", if acts == [] then IntValue(0) else FloatValue(FloatTotal(acts, "kcal"))),
      ("duration", StrValue(DeltaStr(DurationTotal(acts)))),
      ("distance", if acts == [] then IntValue(0) else FloatValue(FloatTotal(acts, "distance")))])
  {
    forall i | 0 <= i < |acts| ensures FloatAt(acts[i], "kcal") && FloatAt(acts[i], "distance") {
      WellTypedFloats(acts[i]);
    }
    SumFieldFloats(acts, "kcal");
    SumFieldFloats(acts, "distance");
    DurationOfWellTyped(acts);
    TotalsDictParts(acts, SumField(acts, "kcal").value, FieldValues(acts, "duration").value,
      DurationTotal(acts), SumField(acts, "distance").value);
  }

  /** `get_totals_dict` from its three parts. */
  lemma {:induction false} TotalsDictParts(acts: seq<seq<(string, Value)>>, kcal: Value, durations: seq<Value>, seconds: nat, distance: Value)
    requires SumField(acts, "kcal") == Ok(kcal) && FieldValues(acts, "duration") == Ok(durations)
    requires DurationSeconds(durations) == Ok(seconds) && SumField(acts, "distance") == Ok(distance)
    ensures TotalsDict(acts) == Ok([("kcal", kcal), ("duration", StrValue(DeltaStr(seconds))), ("distance", distance)])
  {
  }

  /** With no activity the totals are 0, `0:00:00` and 0. */
  lemma {:induction false} TotalsEmpty()
    ensures TotalsDict([]) == Ok([("kcal", IntValue(0)), ("duration", StrValue("0:00:00")), ("distance", IntValue(0))])
  {
    assert DeltaStr(0) == "0:00:00" by {
      assert NatToString(0) == "0";
      assert TwoDigits(0) == "00";
    }
  }

  /** `to_json` of every activity dict. */
  function StringifiedAll(acts: seq<seq<(string, Value)>>, floatStr: real -> string): (r: seq<seq<(string, Value)>>)
    ensures |r| == |acts|
    ensures forall i :: 0 <= i < |acts| ==> r[i] == Stringified(acts[i], floatStr)
  {
    if acts == [] then [] else [Stringified(acts[0], floatStr)] + StringifiedAll(acts[1..], floatStr)
  }

  /** After `to_json` a present field holds the text of its old value. */
  lemma {:induction false} StringifiedGet(a: seq<(string, Value)>, key: string, floatStr: real -> string)
    requires Get(a, key).Some?
    ensures Get(Stringified(a, floatStr), key) == Some(StrValue(Show(Get(a, key).value, floatStr)))
  {
    var j := KeyIndex(a, key).value;
    KeyIndexFirst(Stringified(a, floatStr), key, j);
  }

  /** Once `to_json` has turned the activities into texts, the totals, and so `to_csv_dict`, raise. */
  lemma {:induction false} TotalsAfterJson(acts: seq<seq<(string, Value)>>, floatStr: real -> string)
    requires acts != [] && WellTyped(acts[0])
    ensures TotalsDict(StringifiedAll(acts, floatStr)).Err?
  {
    var strs := StringifiedAll(acts, floatStr);
    WellTypedFloats(acts[0]);
    StringifiedGet(acts[0], "kcal", floatStr);
    assert strs[0] == Stringified(acts[0], floatStr);
    SumFieldText(strs, "kcal");
  }

  // ----- GCDetailsSteps -----

  /** A JSON scalar as `json.loads` decodes it; booleans are not modelled. */
  datatype JsonScalar = JsonInt(i: int) | JsonReal(x: real) | JsonText(s: string) | JsonNull

  /** One element of the step-details list: its `startGMT` and `steps` members, if present. */
  datatype BinInput = BinInput(startGMT: Option<JsonScalar>, steps: Option<JsonScalar>)

  /**
    The bin time: `startGMT` without its last two characters, read with `%Y-%m-%dT%H:%M:%S`
    and written back with `%Y-%m-%d %H:%M:%S`.
   */
  function BinTime(start: Option<JsonScalar>): Result<string> {
    match start
    case None => Err(KeyError)
    case Some(JsonText(s)) =>
      var t := if |s| >= 2 then s[..|s| - 2] else [];
      var dt :- StrptimeIso(t);
      Ok(IsoDateTimeStr(dt.0, dt.1))
    case Some(_) => Err(TypeError)
  }

  /** `int(x)` of a real: truncation towards zero. */
  function Truncate(x: real): int {
    if x >= 0.0 then x.Floor else -((-x).Floor)
  }

  /** `int(s)` of a text: surrounding whitespace, an optional sign and at least one digit. */
  function PyInt(s: string): Result<int> {
    var sign := SplitSign(Strip(s));
    PyIntBody(sign.0, sign.1)
  }

  /** The value of the digits after the sign. */
  function PyIntBody(negative: bool, body: string): Result<int> {
    if |body| > 0 && AllDigits(body)
    then Ok(if negative then -(DigitsValue(body) as int) else DigitsValue(body) as int)
    else Err(ValueError)
  }

  /** `int(data['steps'])`. */
  function StepsMember(steps: Option<JsonScalar>): Result<int> {
    match steps
    case None => Err(KeyError)
    case Some(JsonInt(i)) => Ok(i)
    case Some(JsonReal(x)) => Ok(Truncate(x))
    case Some(JsonText(s)) => PyInt(s)
    case Some(JsonNull) => Err(TypeError)
  }

  /** `parse_steps_count(raw)`: `str(raw)`, a trailing `.0` cut, every `.` removed, then `int()`. */
  function ParseStepsCount(raw: int): Result<int> {
    var s := IntToString(raw);
    var t := if EndsWith(s, ".0") then s[..|s| - 2] else s;
    PyInt(DeleteChar(t, '.'))
  }

  /** One bin of `GCDetailsSteps.parse`, in the order the source evaluates it. */
  function ParseBin(b: BinInput): Result<Bin> {
    var time :- BinTime(b.startGMT);
    var n :- StepsMember(b.steps);
    var steps :- ParseStepsCount(n);
    Ok(Bin(time, steps))
  }

  /** `str()` of an integer is read back by `int()`. */
  lemma {:induction false} PyIntOfString(n: int)
    ensures PyInt(IntToString(n)) == Ok(n)
  {
    var m: nat := if n < 0 then -n else n;
    NatToStringValue(m);
    PyIntSigned(n < 0, NatToString(m));
  }

  /** `int()` of an optional minus sign followed by digits. */
  lemma {:induction false} PyIntSigned(negative: bool, d: string)
    requires |d| > 0 && AllDigits(d)
    ensures PyInt((if negative then "-" else "") + d)
         == Ok(if negative then -(DigitsValue(d) as int) else DigitsValue(d) as int)
  {
    var s := (if negative then "-" else "") + d;
    assert s[|s| - 1] == d[|d| - 1];
    assert !IsSpace(s[0]) && !IsSpace(s[|s| - 1]);
    StripNoSpace(s);
    SignedText(negative, d);
    assert SplitSign(Strip(s)) == (negative, d);
    assert PyInt(s) == PyIntBody(negative, d);
    var v := DigitsValue(d) as int;
    assert PyIntBody(negative, d) == Ok(if negative then -v else v);
  }

  lemma {:induction false} SignedText(negative: bool, d: string)
    requires |d| > 0 && AllDigits(d)
    ensures SplitSign((if negative then "-" else "") + d) == (negative, d)
  {
    var s := (if negative then "-" else "") + d;
    if negative {
      assert s[1..] == d;
    } else {
      assert s == d;
    }
  }

  /** `str()` of an integer holds no point, so the two cleaning steps change nothing. */
  lemma {:induction false} IntStringClean(n: int)
    ensures var s := IntToString(n); !EndsWith(s, ".0") && DeleteChar(s, '.') == s
  {
    var m: nat := if n < 0 then -n else n;
    var d, s := NatToString(m), IntToString(n);
    DigitsCount(d, '.');
    if n < 0 {
      assert s == ['-'] + d;
      DeleteCharConcat(['-'], d, '.');
      DeleteCharAbsent(d, '.');
      assert DeleteChar(['-'], '.') == ['-'];
    } else {
      DeleteCharAbsent(s, '.');
    }
    if |s| >= 2 {
      assert s[|s| - 2] != '.' by {
        if |d| >= 2 { assert s[|s| - 2] == d[|d| - 2]; } else { assert s[0] == '-'; }
      }
      assert s[|s| - 2..][0] == s[|s| - 2];
    }
  }

  /** On the integers it is given, `parse_steps_count` is the identity. */
  lemma {:induction false} ParseStepsCountIdentity(n: int)
    ensures ParseStepsCount(n) == Ok(n)
  {
    IntStringClean(n);
    PyIntOfString(n);
  }

  /** A `startGMT` of the form `date T time` plus two trailing characters gives `date time`. */
  lemma {:induction false} BinTimeRoundTrip(d: Date, t: ClockTime, trailer: string)
    requires ValidDate(d) && d.year <= 9999 && ValidTime(t) && |trailer| == 2
    ensures BinTime(Some(JsonText(IsoDate(d) + "T" + TimeStr(t) + trailer))) == Ok(IsoDateTimeStr(d, t))
  {
    var core := IsoDate(d) + "T" + TimeStr(t);
    var s := core + trailer;
    assert s[..|s| - 2] == core;
    StrptimeIsoRoundTrip(d, t);
  }

  /** A bin with such a `startGMT` and an integer step count is kept as is. */
  lemma {:induction false} ParseBinRoundTrip(d: Date, t: ClockTime, trailer: string, steps: int)
    requires ValidDate(d) && d.year <= 9999 && ValidTime(t) && |trailer| == 2
    ensures ParseBin(BinInput(Some(JsonText(IsoDate(d) + "T" + TimeStr(t) + trailer)), Some(JsonInt(steps))))
         == Ok(Bin(IsoDateTimeStr(d, t), steps))
  {
    BinTimeRoundTrip(d, t, trailer);
    ParseStepsCountIdentity(steps);
  }

  /** `ParseBin` of every element. */
  function BinResults(items: seq<BinInput>): (rs: seq<Result<Bin>>)
    ensures |rs| == |items|
  {
    if items == [] then [] else [ParseBin(items[0])] + BinResults(items[1..])
  }

  /** Result `i` is the one of element `i`. */
  lemma {:induction false} BinResultsAt(items: seq<BinInput>, i: nat)
    requires i < |items|
    ensures BinResults(items)[i] == ParseBin(items[i])
  {
    if i > 0 {
      BinResultsAt(items[1..], i - 1);
    }
  }

  /** The bins appended before the first element that raises, and that exception. */
  function ParsedBins(items: seq<BinInput>): (seq<Bin>, Outcome) {
    UntilFailure(BinResults(items))
  }

  /**
    `parse` keeps the bins of the longest prefix that parses: it passes exactly when every
    element parses, and otherwise stops at the first element that raises, with its exception.
   */
  lemma {:induction false} ParsedBinsPrefix(items: seq<BinInput>)
    ensures var (bins, outcome) := ParsedBins(items);
      (forall i :: 0 <= i < |bins| ==> ParseBin(items[i]) == Ok(bins[i])) &&
      (outcome.Pass? <==> |bins| == |items|) &&
      (outcome.Fail? ==> ParseBin(items[|bins|]) == Err(outcome.error))
  {
    UntilFailurePrefix(BinResults(items));
    forall i | 0 <= i < |items| ensures BinResults(items)[i] == ParseBin(items[i]) {
      BinResultsAt(items, i);
    }
  }
}
