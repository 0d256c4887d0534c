/**
  The day sections of `pygce/models/garmin/timeline.py` as objects. Each holds the texts its HTML
  lookups would find (fixed at construction) and the fields its `parse()` assigns, which start
  as `None`. Every `try` block of the source is one sub-parse method: it assigns its fields in
  order and stops at the first exception, which `parse()` then swallows.
 */
module TimelineSections {
  import opened Wrappers
  import opened PyDateTime
  import opened GarminUtils
  import opened PyValues
  import opened TimelineParsers

  // ----- GCDaySummary -----

  const SUMMARY_TAG: string := "SUMMARY"
  const SUMMARY_KEYS: seq<string> := ["likes", "comment", "kcal_count"]

  datatype SummaryFields = SummaryFields(likes: Value, comment: Value, kcalCount: Value) {
    /** `to_dict`: the three fields under fixed keys. */
    function ToDict(): (d: seq<(string, Value)>)
      ensures Keys(d) == SUMMARY_KEYS && DistinctKeys(d)
      ensures d[0].1 == likes && d[1].1 == comment && d[2].1 == kcalCount
    {
      [("likes", likes), ("comment", comment), ("kcal_count", kcalCount)]
    }
  }

  /** The fields after `parse()`: three `try` blocks of one assignment each. */
  function SummaryParsed(input: SummaryInput, f: SummaryFields): SummaryFields {
    SummaryFields(Assigned(Likes(input), f.likes), Assigned(Comment(input), f.comment),
                  Assigned(KcalCount(input), f.kcalCount))
  }

  /** On a fresh section a field stays `None` exactly when its block raised. */
  lemma {:induction false} SummaryFresh(input: SummaryInput)
    ensures var g := SummaryParsed(input, SummaryFields(NoneValue, NoneValue, NoneValue));
      (g.likes == NoneValue <==> Likes(input).Err?) &&
      (g.comment == NoneValue <==> Comment(input).Err?) &&
      (g.kcalCount == NoneValue <==> KcalCount(input).Err?)
  {
  }

  /** Parsing a second time changes nothing. */
  lemma {:induction false} SummaryParsedTwice(input: SummaryInput, f: SummaryFields)
    ensures SummaryParsed(input, SummaryParsed(input, f)) == SummaryParsed(input, f)
  {
  }

  class DaySummary {
    const input: SummaryInput
    var likes: Value
    var comment: Value
    var kcalCount: Value

    constructor (input: SummaryInput)
      ensures this.input == input && Fields() == SummaryFields(NoneValue, NoneValue, NoneValue)
    {
      this.input := input;
      likes, comment, kcalCount := NoneValue, NoneValue, NoneValue;
    }

    function Fields(): SummaryFields
      reads this
    {
      SummaryFields(likes, comment, kcalCount)
    }

    method ParseLikes() returns (o: Outcome)
      modifies this
      ensures o == OutcomeOf(Likes(input))
      ensures Fields() == old(Fields()).(likes := Assigned(Likes(input), old(likes)))
    {
      var r := Likes(input);
      if r.Err? { return Fail(r.error); }
      likes := r.value;
      return Pass;
    }

    method ParseComment() returns (o: Outcome)
      modifies this
      ensures o == OutcomeOf(Comment(input))
      ensures Fields() == old(Fields()).(comment := Assigned(Comment(input), old(comment)))
    {
      var r := Comment(input);
      if r.Err? { return Fail(r.error); }
      comment := r.value;
      return Pass;
    }

    method ParseKcalCount() returns (o: Outcome)
      modifies this
      ensures o == OutcomeOf(KcalCount(input))
      ensures Fields() == old(Fields()).(kcalCount := Assigned(KcalCount(input), old(kcalCount)))
    {
      var r := KcalCount(input);
      if r.Err? { return Fail(r.error); }
      kcalCount := r.value;
      return Pass;
    }

    /** `parse`: every block runs, whatever the ones before it raised. */
    method Parse()
      modifies this
      ensures Fields() == SummaryParsed(input, old(Fields()))
    {
      var o1 := ParseLikes();
      var o2 := ParseComment();
      var o3 := ParseKcalCount();
    }
  }

  // ----- GCDaySteps -----

  const STEPS_TAG: string := "STEPS"
  const STEPS_KEYS: seq<string> := ["total", "goal", "avg", "distance"]

  datatype StepsFields = StepsFields(total: Value, goal: Value, avg: Value, distance: Value) {
    /** `to_dict`. */
    function ToDict(): (d: seq<(string, Value)>)
      ensures Keys(d) == STEPS_KEYS && DistinctKeys(d)
      ensures d[0].1 == total && d[1].1 == goal && d[2].1 == avg && d[3].1 == distance
    {
      [("total", total), ("goal", goal), ("avg", avg), ("distance", distance)]
    }
  }

  /** The `parse_steps_count` block: the total, then the goal. */
  function StepsCountParsed(input: StepsInput, f: StepsFields): StepsFields {
    var total := StepsTotal(input);
    if total.Err? then f else f.(total := total.value, goal := Assigned(StepsGoal(input), f.goal))
  }

  /** The `parse_steps_stats` block: the distance, then the average. */
  function StepsStatsParsed(input: StepsInput, f: StepsFields): StepsFields {
    var distance := StepsDistance(input);
    if distance.Err? then f else f.(distance := distance.value, avg := Assigned(StepsAvg(input), f.avg))
  }

  /** The fields after `parse()`: the two blocks in order. */
  function StepsParsed(input: StepsInput, f: StepsFields): StepsFields {
    StepsStatsParsed(input, StepsCountParsed(input, f))
  }

  /**
    Group isolation: the stats block runs whatever the count block did; a field assigned before
    the exception of its block keeps its value; a field after it keeps the old one.
   */
  lemma {:induction false} StepsGroups(input: StepsInput, f: StepsFields)
    ensures var g := StepsParsed(input, f);
      g.total == Assigned(StepsTotal(input), f.total) &&
      g.goal == (if StepsTotal(input).Ok? then Assigned(StepsGoal(input), f.goal) else f.goal) &&
      g.distance == Assigned(StepsDistance(input), f.distance) &&
      g.avg == (if StepsDistance(input).Ok? then Assigned(StepsAvg(input), f.avg) else f.avg)
  {
  }

  /** On a fresh section: a field is `None` exactly when it was not reached or raised. */
  lemma {:induction false} StepsFresh(input: StepsInput)
    ensures var g := StepsParsed(input, StepsFields(NoneValue, NoneValue, NoneValue, NoneValue));
      (g.total == NoneValue <==> StepsTotal(input).Err?) &&
      (g.goal == NoneValue <==> StepsTotal(input).Err? || StepsGoal(input).Err?) &&
      (g.distance == NoneValue <==> StepsDistance(input).Err?) &&
      (g.avg == NoneValue <==> StepsDistance(input).Err? || StepsAvg(input).Err?)
  {
  }

  lemma {:induction false} StepsParsedTwice(input: StepsInput, f: StepsFields)
    ensures StepsParsed(input, StepsParsed(input, f)) == StepsParsed(input, f)
  {
  }

  class DaySteps {
    const input: StepsInput
    var total: Value
    var goal: Value
    var avg: Value
    var distance: Value

    constructor (input: StepsInput)
      ensures this.input == input && Fields() == StepsFields(NoneValue, NoneValue, NoneValue, NoneValue)
    {
      this.input := input;
      total, goal, avg, distance := NoneValue, NoneValue, NoneValue, NoneValue;
    }

    function Fields(): StepsFields
      reads this
    {
      StepsFields(total, goal, avg, distance)
    }

    /** `parse_steps_count`: the total is kept when reading the goal raises. */
    method ParseStepsCount() returns (o: Outcome)
      modifies this
      ensures o.Pass? <==> StepsTotal(input).Ok? && StepsGoal(input).Ok?
      ensures Fields() == StepsCountParsed(input, old(Fields()))
    {
      var r := StepsTotal(input);
      if r.Err? { return Fail(r.error); }
      total := r.value;
      r := StepsGoal(input);
      if r.Err? { return Fail(r.error); }
      goal := r.value;
      return Pass;
    }

    /** `parse_steps_stats`. */
    method ParseStepsStats() returns (o: Outcome)
      modifies this
      ensures o.Pass? <==> StepsDistance(input).Ok? && StepsAvg(input).Ok?
      ensures Fields() == StepsStatsParsed(input, old(Fields()))
    {
      var r := StepsDistance(input);
      if r.Err? { return Fail(r.error); }
      distance := r.value;
      r := StepsAvg(input);
      if r.Err? { return Fail(r.error); }
      avg := r.value;
      return Pass;
    }

    method Parse()
      modifies this
      ensures Fields() == StepsParsed(input, old(Fields()))
    {
      var o1 := ParseStepsCount();
      var o2 := ParseStepsStats();
    }
  }

  // ----- GCDetailsSteps -----

  const DETAILS_TAG: string := "STEPS DETAILS"
  const DETAILS_KEYS: seq<string> := ["15-min bins"]

  /** `to_dict`: the list of bins under one key. */
  function DetailsDict(bins: seq<Bin>): (d: seq<(string, Value)>)
    ensures Keys(d) == DETAILS_KEYS && DistinctKeys(d) && d[0].1 == BinsValue(bins)
  {
    [("15-min bins", BinsValue(bins))]
  }

  class DetailsSteps {
    const dateTime: DateTime
    /** The decoded JSON list of the section. */
    const items: seq<BinInput>
    var bins: seq<Bin>

    constructor (dateTime: DateTime, items: seq<BinInput>)
      ensures this.dateTime == dateTime && this.items == items && bins == []
    {
      this.dateTime := dateTime;
      this.items := items;
      bins := [];
    }

    /**
      `parse`: one bin appended per element, in order, to the bins already there. There is no
      `try`: the first element that raises ends the loop, and its exception is the outcome.
     */
    method Parse() returns (o: Outcome)
      modifies this
      ensures bins == old(bins) + ParsedBins(items).0
      ensures o == ParsedBins(items).1
    {
      ghost var rs := BinResults(items);
      var i := 0;
      while i < |items|
        invariant 0 <= i <= |items|
        invariant UntilFailure(rs[..i]).1 == Pass
        invariant bins == old(bins) + UntilFailure(rs[..i]).0
      {
        var b := ParseItem(i);
        if b.Err? {
          UntilFailureErrAt(rs, i);
          return Fail(b.error);
        }
        UntilFailureOkAt(rs, i);
        bins := bins + [b.value];
        i := i + 1;
      }
      assert rs[..i] == rs;
      return Pass;
    }

    /** The bin of element `i`, or the exception it raises. */
    method ParseItem(i: nat) returns (b: Result<Bin>)
      requires i < |items|
      ensures b == BinResults(items)[i]
    {
      b := ParseBin(items[i]);
      BinResultsAt(items, i);
    }
  }

  // ----- GCDaySleep -----

  const SLEEP_TAG: string := "SLEEP"
  const SLEEP_KEYS: seq<string> := ["night_sleep_time", "nap_time", "total_sleep_time", "bed_time",
                                    "wake_time", "deep_sleep_time", "light_sleep_time", "awake_sleep_time"]

  datatype SleepFields = SleepFields(
    nightSleep: Value, nap: Value, totalSleep: Value, bedTime: Value, wakeTime: Value,
    deepSleep: Value, lightSleep: Value, awakeSleep: Value)
  {
    /** `to_dict`. */
    function ToDict(): (d: seq<(string, Value)>)
      ensures Keys(d) == SLEEP_KEYS && DistinctKeys(d)
      ensures d[0].1 == nightSleep && d[1].1 == nap && d[2].1 == totalSleep && d[3].1 == bedTime
      ensures d[4].1 == wakeTime && d[5].1 == deepSleep && d[6].1 == lightSleep && d[7].1 == awakeSleep
    {
      var d := [("night_sleep_time", nightSleep), ("nap_time", nap), ("total_sleep_time", totalSleep),
                ("bed_time", bedTime), ("wake_time", wakeTime), ("deep_sleep_time", deepSleep),
                ("light_sleep_time", lightSleep), ("awake_sleep_time", awakeSleep)];
      SleepKeysDistinct();
      DistinctKeysOf(d, SLEEP_KEYS);
      d
    }
  }

  lemma {:induction false} SleepKeysDistinct()
    ensures forall i, j :: 0 <= i < j < |SLEEP_KEYS| ==> SLEEP_KEYS[i] != SLEEP_KEYS[j]
  {
  }

  /** What each assignment of the sleep section evaluates to, in source order. */
  datatype SleepReads = SleepReads(
    night: Result<Value>, nap: Result<Value>, total: Result<Value>, bed: Result<Value>, wake: Result<Value>,
    deep: Result<Value>, light: Result<Value>, awake: Result<Value>)

  function SleepReadsOf(input: SleepInput): (r: SleepReads)
    ensures r.night == NightSleep(input) && r.nap == NapTime(input) && r.total == TotalSleep(input)
    ensures r.bed == BedTime(input) && r.wake == WakeTime(input)
    ensures r.deep == ChartTime(input.deep) && r.light == ChartTime(input.light) && r.awake == ChartTime(input.awake)
  {
    SleepReads(NightSleep(input), NapTime(input), TotalSleep(input), BedTime(input), WakeTime(input),
               ChartTime(input.deep), ChartTime(input.light), ChartTime(input.awake))
  }

  /** The `parse_sleep_totals` block: night, nap and total sleep, stopping at the first exception. */
  function SleepTotalsParsed(r: SleepReads, f: SleepFields): SleepFields {
    if r.night.Err? then f
    else if r.nap.Err? then f.(nightSleep := r.night.value)
    else f.(nightSleep := r.night.value, nap := r.nap.value, totalSleep := Assigned(r.total, f.totalSleep))
  }

  /** The `parse_bed_time` block: bed time, then wake time. */
  function SleepBedParsed(r: SleepReads, f: SleepFields): SleepFields {
    if r.bed.Err? then f else f.(bedTime := r.bed.value, wakeTime := Assigned(r.wake, f.wakeTime))
  }

  /** The `parse_sleep_times` block: deep, light and awake time, stopping at the first exception. */
  function SleepTimesParsed(r: SleepReads, f: SleepFields): SleepFields {
    if r.deep.Err? then f
    else if r.light.Err? then f.(deepSleep := r.deep.value)
    else f.(deepSleep := r.deep.value, lightSleep := r.light.value, awakeSleep := Assigned(r.awake, f.awakeSleep))
  }

  /** The fields after `parse()`: the three blocks in order. */
  function SleepParsed(r: SleepReads, f: SleepFields): SleepFields {
    SleepTimesParsed(r, SleepBedParsed(r, SleepTotalsParsed(r, f)))
  }

  /**
    On a fresh section: a field stays `None` exactly when its own read or an earlier one of its
    block raised, and otherwise holds the value read.
   */
  lemma {:induction false} SleepFresh(r: SleepReads)
    ensures var n := NoneValue;
      var g := SleepParsed(r, SleepFields(n, n, n, n, n, n, n, n));
      (g.nightSleep == n <==> r.night.Err? || r.night.value == n) &&
      (r.night.Ok? ==> g.nightSleep == r.night.value) &&
      (r.night.Ok? && r.nap.Ok? ==> g.nap == r.nap.value) &&
      (r.night.Err? || r.nap.Err? ==> g.nap == n) &&
      (r.night.Ok? && r.nap.Ok? && r.total.Ok? ==> g.totalSleep == r.total.value) &&
      (r.night.Err? || r.nap.Err? || r.total.Err? ==> g.totalSleep == n) &&
      (g.bedTime == Assigned(r.bed, n)) &&
      (g.wakeTime == if r.bed.Ok? then Assigned(r.wake, n) else n) &&
      (g.deepSleep == Assigned(r.deep, n)) &&
      (r.deep.Ok? && r.light.Ok? ==> g.lightSleep == r.light.value) &&
      (r.deep.Err? || r.light.Err? ==> g.lightSleep == n) &&
      (r.deep.Ok? && r.light.Ok? && r.awake.Ok? ==> g.awakeSleep == r.awake.value) &&
      (r.deep.Err? || r.light.Err? || r.awake.Err? ==> g.awakeSleep == n)
  {
  }

  /** Parsing a second time, over the same texts, changes nothing. */
  lemma {:induction false} SleepParsedTwice(r: SleepReads, f: SleepFields)
    ensures SleepParsed(r, SleepParsed(r, f)) == SleepParsed(r, f)
  {
  }

  class DaySleep {
    const input: SleepInput
    var nightSleep: Value
    var nap: Value
    var totalSleep: Value
    var bedTime: Value
    var wakeTime: Value
    var deepSleep: Value
    var lightSleep: Value
    var awakeSleep: Value

    constructor (input: SleepInput)
      ensures this.input == input
      ensures Fields() == SleepFields(NoneValue, NoneValue, NoneValue, NoneValue, NoneValue, NoneValue, NoneValue, NoneValue)
    {
      this.input := input;
      nightSleep, nap, totalSleep, bedTime := NoneValue, NoneValue, NoneValue, NoneValue;
      wakeTime, deepSleep, lightSleep, awakeSleep := NoneValue, NoneValue, NoneValue, NoneValue;
    }

    function Fields(): SleepFields
      reads this
    {
      SleepFields(nightSleep, nap, totalSleep, bedTime, wakeTime, deepSleep, lightSleep, awakeSleep)
    }

    method ParseSleepTotals() returns (o: Outcome)
      modifies this
      ensures o.Pass? <==> NightSleep(input).Ok? && NapTime(input).Ok? && TotalSleep(input).Ok?
      ensures Fields() == SleepTotalsParsed(SleepReadsOf(input), old(Fields()))
    {
      var r := NightSleep(input);
      if r.Err? { return Fail(r.error); }
      nightSleep := r.value;
      r := NapTime(input);
      if r.Err? { return Fail(r.error); }
      nap := r.value;
      r := TotalSleep(input);
      if r.Err? { return Fail(r.error); }
      totalSleep := r.value;
      return Pass;
    }

    method ParseBedTime() returns (o: Outcome)
      modifies this
      ensures o.Pass? <==> BedTime(input).Ok? && WakeTime(input).Ok?
      ensures Fields() == SleepBedParsed(SleepReadsOf(input), old(Fields()))
    {
      var r := BedTime(input);
      if r.Err? { return Fail(r.error); }
      bedTime := r.value;
      r := WakeTime(input);
      if r.Err? { return Fail(r.error); }
      wakeTime := r.value;
      return Pass;
    }

    method ParseSleepTimes() returns (o: Outcome)
      modifies this
      ensures o.Pass? <==> ChartTime(input.deep).Ok? && ChartTime(input.light).Ok? && ChartTime(input.awake).Ok?
      ensures Fields() == SleepTimesParsed(SleepReadsOf(input), old(Fields()))
    {
      var r := ChartTime(input.deep);
      if r.Err? { return Fail(r.error); }
      deepSleep := r.value;
      r := ChartTime(input.light);
      if r.Err? { return Fail(r.error); }
      lightSleep := r.value;
      r := ChartTime(input.awake);
      if r.Err? { return Fail(r.error); }
      awakeSleep := r.value;
      return Pass;
    }

    method Parse()
      modifies this
      ensures Fields() == SleepParsed(SleepReadsOf(input), old(Fields()))
    {
      var o1 := ParseSleepTotals();
      var o2 := ParseBedTime();
      var o3 := ParseSleepTimes();
    }
  }

  // ----- GCDayActivities -----

  const ACTIVITIES_TAG: string := "ACTIVITIES"

  /** `rows[1:]`: the table rows after the header row. */
  function DataRows(rows: seq<ActivityRow>): (r: seq<ActivityRow>)
    ensures |rows| > 0 ==> r == rows[1..]
    ensures |rows| == 0 ==> r == []
  {
    if |rows| > 0 then rows[1..] else []
  }

  /** `to_csv_dict` of the activities: the totals under `ACTIVITIES:<key>`, raising when they do. */
  function ActivitiesCsv(acts: seq<seq<(string, Value)>>, floatStr: real -> string): (r: Result<seq<(string, string)>>)
    ensures r.Ok? <==> TotalsDict(acts).Ok?
    ensures r.Ok? ==> Keys(r.value) == CsvKeys(ACTIVITIES_TAG, TOTALS_KEYS) && DistinctKeys(r.value)
  {
    var totals :- TotalsDict(acts);
    CsvEntriesKeys(ACTIVITIES_TAG, totals, floatStr);
    TotalsKeysDistinct(totals);
    CsvEntriesDistinct(ACTIVITIES_TAG, totals, floatStr);
    Ok(CsvEntries(ACTIVITIES_TAG, totals, floatStr))
  }

  lemma {:induction false} TotalsKeysDistinct(d: seq<(string, Value)>)
    requires Keys(d) == TOTALS_KEYS
    ensures DistinctKeys(d)
  {
    assert d[0].0 == "kcal" && d[1].0 == "duration" && d[2].0 == "distance";
  }

  /** A second `parse()` appends the kept rows once more. */
  lemma {:induction false} ActivitiesParsedTwice(rows: seq<ActivityRow>, before: seq<seq<(string, Value)>>)
    ensures var once := before + ParsedRows(DataRows(rows));
      once + ParsedRows(DataRows(rows)) == before + ParsedRows(DataRows(rows) + DataRows(rows))
  {
    ParsedRowsConcat(DataRows(rows), DataRows(rows));
  }

  /** Freshly parsed activities always have totals: the float sums and the summed durations. */
  lemma {:induction false} ActivitiesFreshTotals(rows: seq<ActivityRow>)
    ensures var acts := ParsedRows(DataRows(rows));
      (forall i :: 0 <= i < |acts| ==> FloatAt(acts[i], "kcal") && FloatAt(acts[i], "distance")) &&
      TotalsDict(acts) == Ok([
        ("kcal", if acts == [] then IntValue(0) else FloatValue(FloatTotal(acts, "kcal"))),
        ("duration", StrValue(DeltaStr(DurationTotal(acts)))),
        ("distance", if acts == [] then IntValue(0) else FloatValue(FloatTotal(acts, "distance")))])
  {
    ParsedRowsWellTyped(DataRows(rows));
    TotalsOfWellTyped(ParsedRows(DataRows(rows)));
  }

  class DayActivities {
    const rows: seq<ActivityRow>
    var activities: seq<seq<(string, Value)>>

    constructor (rows: seq<ActivityRow>)
      ensures this.rows == rows && activities == []
    {
      this.rows := rows;
      activities := [];
    }

    /**
      `parse`: the header row is skipped and the dict of every other row that parses is
      appended, in row order, to the activities already there; a row that raises is dropped.
     */
    method Parse()
      modifies this
      ensures activities == old(activities) + ParsedRows(DataRows(rows))
    {
      var data := DataRows(rows);
      ghost var rs := ActivityResults(data);
      var i := 0;
      while i < |data|
        invariant 0 <= i <= |data|
        invariant activities == old(activities) + Kept(rs[..i])
      {
        ParseRow(data, i);
        KeptAt(rs, i);
        i := i + 1;
      }
      assert rs[..i] == rs;
    }

    /** One pass of the loop of `parse`: the dict of row `i` is appended unless parsing it raises. */
    method ParseRow(data: seq<ActivityRow>, i: nat)
      requires i < |data|
      modifies this
      ensures var r := ActivityResults(data)[i];
        activities == if r.Ok? then old(activities) + [r.value] else old(activities)
    {
      var a := ParseActivity(data[i]);
      ActivityResultsAt(data, i);
      if a.Ok? {
        activities := activities + [a.value];
      }
    }

    /**
      `to_json`: every value of every activity dict is replaced, in place, by its `str()`; the
      document is the list of those dicts.
     */
    method ToJson(floatStr: real -> string) returns (j: Json)
      modifies this
      ensures activities == StringifiedAll(old(activities), floatStr)
      ensures j == DictsJson(activities, floatStr)
    {
      ghost var spec := StringifiedAll(activities, floatStr);
      ghost var before := activities;
      var i := 0;
      while i < |activities|
        invariant 0 <= i <= |before| && |activities| == |before|
        invariant activities[..i] == spec[..i] && activities[i..] == before[i..]
      {
        var a := StringifyDict(activities[i], floatStr);
        activities := activities[i := a];
        i := i + 1;
      }
      assert activities == spec;
      j := DictsJson(activities, floatStr);
    }

    /**
      `get_total_duration`: the duration of every dict is read first, then their hours,
      minutes and seconds are added up, in seconds.
     */
    method GetTotalDuration() returns (r: Result<nat>)
      ensures var ds := FieldValues(activities, "duration");
        r == if ds.Err? then Err(ds.error) else DurationSeconds(ds.value)
    {
      var ds := FieldValues(activities, "duration");
      if ds.Err? { return Err(ds.error); }
      var all := ds.value;
      var total := 0;
      var i := 0;
      while i < |all|
        invariant 0 <= i <= |all|
        invariant DurationSeconds(all[..i]) == Ok(total)
      {
        var d := all[i];
        assert all[..i + 1] == all[..i] + [d];
        if !d.TimeValue? {
          assert all[..i + 1][..i] == all[..i];
          assert DurationSeconds(all[..i + 1]) == Err(AttributeError);
          DurationSecondsPrefix(all, i + 1);
          return Err(AttributeError);
        }
        DurationSecondsSnoc(all[..i], d, total);
        total := total + SecondsOf(d.t);
        i := i + 1;
      }
      assert all[..i] == all;
      return Ok(total);
    }

    /** `get_totals_dict`: total kcal, then the total duration as `str()`, then total distance. */
    method GetTotalsDict() returns (r: Result<seq<(string, Value)>>)
      ensures r == TotalsDict(activities)
    {
      var kcal := SumField(activities, "kcal");
      if kcal.Err? { return Err(kcal.error); }
      var duration := GetTotalDuration();
      if duration.Err? { return Err(duration.error); }
      var distance := SumField(activities, "distance");
      if distance.Err? { return Err(distance.error); }
      return Ok([("kcal", kcal.value), ("duration", StrValue(DeltaStr(duration.value))), ("distance", distance.value)]);
    }

    /** `to_csv_dict`: the totals, not the activities, under tagged keys. */
    method ToCsvDict(floatStr: real -> string) returns (r: Result<seq<(string, string)>>)
      ensures r == ActivitiesCsv(activities, floatStr)
    {
      var totals := GetTotalsDict();
      if totals.Err? { return Err(totals.error); }
      TotalsKeysDistinct(totals.value);
      var csv := SectionCsvDict(ACTIVITIES_TAG, totals.value, floatStr);
      return Ok(csv);
    }
  }

  // ----- GCDayBreakdown -----

  const BREAKDOWN_TAG: string := "BREAKDOWN"
  const BREAKDOWN_KEYS: seq<string> := ["highly_active", "active", "sedentary", "sleeping"]

  datatype BreakdownFields = BreakdownFields(highlyActive: Value, active: Value, sedentary: Value, sleeping: Value) {
    /** `to_dict`. */
    function ToDict(): (d: seq<(string, Value)>)
      ensures Keys(d) == BREAKDOWN_KEYS && DistinctKeys(d)
      ensures d[0].1 == highlyActive && d[1].1 == active && d[2].1 == sedentary && d[3].1 == sleeping
    {
      [("highly_active", highlyActive), ("active", active), ("sedentary", sedentary), ("sleeping", sleeping)]
    }
  }

  /** The fields after `parse()`: share `i` of the cleaned tokens goes to field `i`, each in its own `try`. */
  function BreakdownParsed(values: seq<string>, f: BreakdownFields): BreakdownFields {
    BreakdownFields(Assigned(Share(values, 0), f.highlyActive), Assigned(Share(values, 1), f.active),
                    Assigned(Share(values, 2), f.sedentary), Assigned(Share(values, 3), f.sleeping))
  }

  /**
    On a fresh section the fields are the shares in order: with fewer than four tokens the
    missing ones stay `None`, and so does each share that does not read as a number.
   */
  lemma {:induction false} BreakdownFresh(values: seq<string>)
    ensures var n := NoneValue;
      var g := BreakdownParsed(values, BreakdownFields(n, n, n, n));
      var fields := [g.highlyActive, g.active, g.sedentary, g.sleeping];
      forall i :: 0 <= i < 4 ==>
        (fields[i] == n <==> i >= |values| || ParseNum(values[i]).Err?) &&
        (fields[i] != n ==> fields[i] == FloatValue(ParseNum(values[i]).value))
  {
    var n := NoneValue;
    var g := BreakdownParsed(values, BreakdownFields(n, n, n, n));
    var fields := [g.highlyActive, g.active, g.sedentary, g.sleeping];
    forall i | 0 <= i < 4
      ensures fields[i] == Assigned(Share(values, i), n)
    {
    }
    forall i | 0 <= i < 4
      ensures (fields[i] == n <==> i >= |values| || ParseNum(values[i]).Err?) &&
        (fields[i] != n ==> fields[i] == FloatValue(ParseNum(values[i]).value))
    {
      ShareFresh(values, i);
    }
  }

  /** One share assigned over `None`: it stays `None` exactly when there is no such token or it is not a number. */
  lemma {:induction false} ShareFresh(values: seq<string>, i: nat)
    ensures var v := Assigned(Share(values, i), NoneValue);
      (v == NoneValue <==> i >= |values| || ParseNum(values[i]).Err?) &&
      (v != NoneValue ==> v == FloatValue(ParseNum(values[i]).value))
  {
  }

  lemma {:induction false} BreakdownParsedTwice(values: seq<string>, f: BreakdownFields)
    ensures BreakdownParsed(values, BreakdownParsed(values, f)) == BreakdownParsed(values, f)
  {
  }

  class DayBreakdown {
    /** The `tspan` texts of the section. */
    const tspans: seq<string>
    var highlyActive: Value
    var active: Value
    var sedentary: Value
    var sleeping: Value

    constructor (tspans: seq<string>)
      ensures this.tspans == tspans && Fields() == BreakdownFields(NoneValue, NoneValue, NoneValue, NoneValue)
    {
      this.tspans := tspans;
      highlyActive, active, sedentary, sleeping := NoneValue, NoneValue, NoneValue, NoneValue;
    }

    function Fields(): BreakdownFields
      reads this
    {
      BreakdownFields(highlyActive, active, sedentary, sleeping)
    }

    /** `parse`: the `tspan` texts are cleaned first, then each share is read in its own `try`. */
    method Parse()
      modifies this
      ensures Fields() == BreakdownParsed(BreakdownTokens(tspans), old(Fields()))
    {
      var values := BreakdownTokens(tspans);
      AssignShares(Share(values, 0), Share(values, 1), Share(values, 2), Share(values, 3));
    }

    /** The four `try` blocks, given what each share expression evaluates to. */
    method AssignShares(r0: Result<Value>, r1: Result<Value>, r2: Result<Value>, r3: Result<Value>)
      modifies this
      ensures Fields() == BreakdownFields(Assigned(r0, old(highlyActive)), Assigned(r1, old(active)),
                                          Assigned(r2, old(sedentary)), Assigned(r3, old(sleeping)))
    {
      if r0.Ok? { highlyActive := r0.value; }
      if r1.Ok? { active := r1.value; }
      if r2.Ok? { sedentary := r2.value; }
      if r3.Ok? { sleeping := r3.value; }
    }
  }
}
