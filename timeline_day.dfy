/**
  `GCDayTimeline` of `pygce/models/garmin/timeline.py`: the six sections of one day, parsed in
  order, flattened into one CSV row or nested into one JSON document.
 */
module TimelineDay {
  import opened Wrappers
  import opened Text
  import opened PyDateTime
  import opened PyValues
  import opened TimelineParsers
  import opened TimelineSections

  /** What the six sections hold, in the order of the `sections` dict. */
  datatype DayState = DayState(
    summary: SummaryFields, steps: StepsFields, bins: seq<Bin>, sleep: SleepFields,
    activities: seq<seq<(string, Value)>>, breakdown: BreakdownFields)

  /** The sections as a freshly constructed day holds them: every field `None`, no bin, no activity. */
  function FreshState(): DayState {
    var n := NoneValue;
    DayState(SummaryFields(n, n, n), StepsFields(n, n, n, n), [], SleepFields(n, n, n, n, n, n, n, n),
             [], BreakdownFields(n, n, n, n))
  }

  // ----- `to_csv_dict` -----

  /** The section tags in the order of the `sections` dict. */
  const SECTION_TAGS: seq<string> := [SUMMARY_TAG, STEPS_TAG, DETAILS_TAG, SLEEP_TAG, ACTIVITIES_TAG, BREAKDOWN_TAG]

  /** The field names of each section's CSV dict, in the same order. */
  const SECTION_KEYS: seq<seq<string>> := [SUMMARY_KEYS, STEPS_KEYS, DETAILS_KEYS, SLEEP_KEYS, TOTALS_KEYS, BREAKDOWN_KEYS]

  /** The column names of a day's CSV row, in order. */
  function CsvHeader(): seq<string> {
    ["date"] + CsvKeysAll(SECTION_TAGS, SECTION_KEYS)
  }

  /** Each section's `to_dict()`, in order; the activities give `totals`, their totals dict. */
  function SectionDicts(s: DayState, totals: seq<(string, Value)>): (ds: seq<seq<(string, Value)>>)
    ensures |ds| == 6 && ds[4] == totals
  {
    [s.summary.ToDict(), s.steps.ToDict(), DetailsDict(s.bins), s.sleep.ToDict(), totals, s.breakdown.ToDict()]
  }

  /**
    `to_csv_dict`: `{"date": str(date)}` updated with every section's CSV dict in section
    order; the activities give the CSV dict of their totals, and when those raise so does the whole.
   */
  function TimelineCsv(date: Date, s: DayState, floatStr: real -> string): Result<seq<(string, string)>>
    requires ValidDate(date)
  {
    var totals :- TotalsDict(s.activities);
    Ok(UpdateAll([("date", IsoDate(date))], CsvAll(SECTION_TAGS, SectionDicts(s, totals), floatStr)))
  }

  /** The section tags, and the plain key `date`, hold no colon. */
  lemma {:induction false} TagsColonFree()
    ensures forall i :: 0 <= i < |SECTION_TAGS| ==> Count(SECTION_TAGS[i], ':') == 0
    ensures Count("date", ':') == 0
  {
    forall i | 0 <= i < |SECTION_TAGS| ensures Count(SECTION_TAGS[i], ':') == 0 {
      CountNone(SECTION_TAGS[i], ':');
    }
    CountNone("date", ':');
  }

  /** No two sections share a tag, and none is tagged `date`. */
  lemma {:induction false} SectionTagsDistinct()
    ensures forall i, k :: 0 <= i < k < |SECTION_TAGS| ==> SECTION_TAGS[i] != SECTION_TAGS[k]
    ensures forall i :: 0 <= i < |SECTION_TAGS| ==> SECTION_TAGS[i] != "date"
  {
  }

  lemma {:induction false} CsvAllSix(tags: seq<string>, ds: seq<seq<(string, Value)>>, floatStr: real -> string)
    requires |tags| == |ds| == 6
    ensures CsvAll(tags, ds, floatStr) == [CsvEntries(tags[0], ds[0], floatStr), CsvEntries(tags[1], ds[1], floatStr),
      CsvEntries(tags[2], ds[2], floatStr), CsvEntries(tags[3], ds[3], floatStr), CsvEntries(tags[4], ds[4], floatStr),
      CsvEntries(tags[5], ds[5], floatStr)]
  {
    CsvAllAt(tags, ds, floatStr);
  }

  /** Every section dict has the fields of its section, under distinct keys. */
  lemma {:induction false} SectionDictsKeys(s: DayState, totals: seq<(string, Value)>)
    requires Keys(totals) == TOTALS_KEYS
    ensures forall i :: 0 <= i < 6 ==> Keys(SectionDicts(s, totals)[i]) == SECTION_KEYS[i]
    ensures forall i :: 0 <= i < 6 ==> DistinctKeys(SectionDicts(s, totals)[i])
  {
    TotalsKeysDistinct(totals);
  }

  /** The dicts of the sections other than the activities have distinct keys. */
  lemma {:induction false} SectionDictsDistinct(s: DayState)
    ensures DistinctKeys(s.summary.ToDict()) && DistinctKeys(s.steps.ToDict()) && DistinctKeys(DetailsDict(s.bins))
    ensures DistinctKeys(s.sleep.ToDict()) && DistinctKeys(s.breakdown.ToDict())
  {
    var totals := [("kcal", NoneValue), ("duration", NoneValue), ("distance", NoneValue)];
    SectionDictsKeys(s, totals);
    assert SectionDicts(s, totals)[0] == s.summary.ToDict();
    assert SectionDicts(s, totals)[1] == s.steps.ToDict();
    assert SectionDicts(s, totals)[2] == DetailsDict(s.bins);
    assert SectionDicts(s, totals)[3] == s.sleep.ToDict();
    assert SectionDicts(s, totals)[5] == s.breakdown.ToDict();
  }

  /** When the activity totals raise, so does the row, with the same exception. */
  lemma {:induction false} TimelineCsvErr(date: Date, s: DayState, floatStr: real -> string)
    requires ValidDate(date) && ActivitiesCsv(s.activities, floatStr).Err?
    ensures TimelineCsv(date, s, floatStr) == Err(ActivitiesCsv(s.activities, floatStr).error)
  {
  }

  /** Otherwise the row is the date updated with the six CSV dicts in section order. */
  lemma {:induction false} TimelineCsvEntries(date: Date, s: DayState, floatStr: real -> string)
    requires ValidDate(date) && ActivitiesCsv(s.activities, floatStr).Ok?
    ensures TimelineCsv(date, s, floatStr) == Ok(UpdateAll([("date", IsoDate(date))], [
      CsvEntries(SUMMARY_TAG, s.summary.ToDict(), floatStr), CsvEntries(STEPS_TAG, s.steps.ToDict(), floatStr),
      CsvEntries(DETAILS_TAG, DetailsDict(s.bins), floatStr), CsvEntries(SLEEP_TAG, s.sleep.ToDict(), floatStr),
      ActivitiesCsv(s.activities, floatStr).value, CsvEntries(BREAKDOWN_TAG, s.breakdown.ToDict(), floatStr)]))
  {
    CsvAllSix(SECTION_TAGS, SectionDicts(s, TotalsDict(s.activities).value), floatStr);
  }

  /**
    No section overwrites a key of another: the row is the date followed by every section's
    CSV entries in order, and its keys are distinct.
   */
  lemma {:induction false} TimelineCsvFlat(date: Date, s: DayState, floatStr: real -> string)
    requires ValidDate(date)
    ensures TimelineCsv(date, s, floatStr).Ok? <==> TotalsDict(s.activities).Ok?
    ensures TimelineCsv(date, s, floatStr).Ok? ==>
      var row := TimelineCsv(date, s, floatStr).value;
      var es := CsvAll(SECTION_TAGS, SectionDicts(s, TotalsDict(s.activities).value), floatStr);
      row == [("date", IsoDate(date))] + Concat(es) && DistinctKeys(row) && es[4] == ActivitiesCsv(s.activities, floatStr).value
  {
    var totals := TotalsDict(s.activities);
    if totals.Ok? {
      var d: seq<(string, string)> := [("date", IsoDate(date))];
      TagsColonFree();
      SectionTagsDistinct();
      PlainKeyTag("date");
      SectionDictsKeys(s, totals.value);
      UpdateAllCsv(d, {"date"}, SECTION_TAGS, SectionDicts(s, totals.value), floatStr);
      CsvAllAt(SECTION_TAGS, SectionDicts(s, totals.value), floatStr);
    }
  }

  /** The keys of the row are the header's columns, in order. */
  lemma {:induction false} TimelineCsvKeys(date: Date, s: DayState, floatStr: real -> string)
    requires ValidDate(date) && TimelineCsv(date, s, floatStr).Ok?
    ensures Keys(TimelineCsv(date, s, floatStr).value) == CsvHeader()
  {
    TimelineCsvFlat(date, s, floatStr);
    var totals := TotalsDict(s.activities).value;
    SectionDictsKeys(s, totals);
    var es := CsvAll(SECTION_TAGS, SectionDicts(s, totals), floatStr);
    CsvAllKeys(SECTION_TAGS, SectionDicts(s, totals), SECTION_KEYS, floatStr);
    KeysConcat([("date", IsoDate(date))], Concat(es));
  }

  /** A day's own parse always leaves activities that have totals, so its CSV row exists. */
  lemma {:induction false} TimelineCsvFresh(date: Date, s: DayState, rows: seq<ActivityRow>, floatStr: real -> string)
    requires ValidDate(date) && s.activities == ParsedRows(DataRows(rows))
    ensures TimelineCsv(date, s, floatStr).Ok?
  {
    ActivitiesFreshTotals(rows);
    TimelineCsvFlat(date, s, floatStr);
  }

  // ----- `to_json` -----

  /** `json.loads(section.to_json())` of a section that uses `GCDaySection.to_json`. */
  function SectionDoc(d: seq<(string, Value)>, floatStr: real -> string): Json {
    JObject(StringifiedEntries(d, floatStr))
  }

  /** The documents of several sections, in order. */
  function SectionDocs(ds: seq<seq<(string, Value)>>, floatStr: real -> string): (r: seq<Json>)
    ensures |r| == |ds|
  {
    if ds == [] then [] else [SectionDoc(ds[0], floatStr)] + SectionDocs(ds[1..], floatStr)
  }

  lemma {:induction false} SectionDocsAt(ds: seq<seq<(string, Value)>>, floatStr: real -> string)
    ensures forall i :: 0 <= i < |ds| ==> SectionDocs(ds, floatStr)[i] == SectionDoc(ds[i], floatStr)
  {
    if ds != [] {
      SectionDocsAt(ds[1..], floatStr);
    }
  }

  /** The decoded `to_json` document: `{str(date): {section name: section document}}`. */
  function TimelineJson(date: Date, s: DayState, floatStr: real -> string): Json
    requires ValidDate(date)
  {
    var docs := SectionDocs([s.summary.ToDict(), s.steps.ToDict(), DetailsDict(s.bins), s.sleep.ToDict(),
                             s.breakdown.ToDict()], floatStr);
    JObject([(IsoDate(date), JObject([
      ("summary", docs[0]), ("steps", docs[1]), ("steps details", docs[2]), ("sleep", docs[3]),
      ("activities", DictsJson(s.activities, floatStr)), ("breakdown", docs[4])]))])
  }

  /** A day's sections after `to_json`: only the activity dicts have changed, to texts. */
  function Stringify(s: DayState, floatStr: real -> string): (r: DayState)
    ensures r.(activities := s.activities) == s
  {
    s.(activities := StringifiedAll(s.activities, floatStr))
  }

  /** The document has the day's date as its only key, and the six sections under it. */
  lemma {:induction false} TimelineJsonShape(date: Date, s: DayState, floatStr: real -> string)
    requires ValidDate(date)
    ensures var j := TimelineJson(date, s, floatStr);
      j.JObject? && |j.members| == 1 && j.members[0].0 == IsoDate(date) && j.members[0].1.JObject? &&
      Keys(j.members[0].1.members) == ["summary", "steps", "steps details", "sleep", "activities", "breakdown"]
  {
  }

  /** Stringifying the activities in place does not change the document they give. */
  lemma {:induction false} DictsJsonStringified(acts: seq<seq<(string, Value)>>, floatStr: real -> string)
    ensures DictsJson(StringifiedAll(acts, floatStr), floatStr) == DictsJson(acts, floatStr)
  {
    var a, b := DictsJson(StringifiedAll(acts, floatStr), floatStr), DictsJson(acts, floatStr);
    forall i | 0 <= i < |acts| ensures a.items[i] == b.items[i] {
      StringifiedTwice(acts[i], floatStr);
    }
  }

  /** `to_json` a second time gives the same document, although the first one changed the activities. */
  lemma {:induction false} TimelineJsonTwice(date: Date, s: DayState, floatStr: real -> string)
    requires ValidDate(date)
    ensures TimelineJson(date, s.(activities := StringifiedAll(s.activities, floatStr)), floatStr) == TimelineJson(date, s, floatStr)
  {
    DictsJsonStringified(s.activities, floatStr);
  }

  /**
    `to_json` leaves texts in the activity dicts, so a later `to_csv_dict` raises on any day
    that had an activity.
   */
  lemma {:induction false} TimelineCsvAfterJson(date: Date, s: DayState, floatStr: real -> string)
    requires ValidDate(date) && s.activities != [] && WellTyped(s.activities[0])
    ensures TimelineCsv(date, s.(activities := StringifiedAll(s.activities, floatStr)), floatStr).Err?
  {
    TotalsAfterJson(s.activities, floatStr);
  }

  // ----- `parse` -----

  /** What one day's page hands to the six sections: the texts each extractor reads. */
  datatype DayPage = DayPage(summary: SummaryInput, steps: StepsInput, details: seq<BinInput>, sleep: SleepInput,
                             activities: seq<ActivityRow>, breakdown: seq<string>)

  /**
    The sections after `parse()` from state `s`, and how `parse` ended: summary and steps, then
    the step details, whose first failing element ends the whole parse; only when they all
    succeed do sleep, activities and breakdown follow.
   */
  function DayParsed(p: DayPage, s: DayState): (DayState, Outcome) {
    var summary := SummaryParsed(p.summary, s.summary);
    var steps := StepsParsed(p.steps, s.steps);
    var (bins, o) := ParsedBins(p.details);
    if o.Fail? then (s.(summary := summary, steps := steps, bins := s.bins + bins), o)
    else (DayState(summary, steps, s.bins + bins, SleepParsed(SleepReadsOf(p.sleep), s.sleep),
                   s.activities + ParsedRows(DataRows(p.activities)),
                   BreakdownParsed(BreakdownTokens(p.breakdown), s.breakdown)), Pass)
  }

  /**
    A second `parse()` that succeeds again leaves every field as the first one set it, but the
    step bins and the activity dicts appear twice.
   */
  lemma {:induction false} DayParsedTwice(p: DayPage, s: DayState)
    requires DayParsed(p, s).1.Pass?
    ensures var once := DayParsed(p, s).0;
      var twice := DayParsed(p, once).0;
      DayParsed(p, once).1.Pass? &&
      twice.summary == once.summary && twice.steps == once.steps && twice.sleep == once.sleep &&
      twice.breakdown == once.breakdown &&
      twice.bins == s.bins + ParsedBins(p.details).0 + ParsedBins(p.details).0 &&
      twice.activities == s.activities + ParsedRows(DataRows(p.activities) + DataRows(p.activities))
  {
    SummaryParsedTwice(p.summary, s.summary);
    StepsParsedTwice(p.steps, s.steps);
    SleepParsedTwice(SleepReadsOf(p.sleep), s.sleep);
    BreakdownParsedTwice(BreakdownTokens(p.breakdown), s.breakdown);
    ActivitiesParsedTwice(p.activities, s.activities);
  }

  /** A freshly built day that parses has a CSV row, whatever its page held. */
  lemma {:induction false} DayParsedCsv(date: Date, p: DayPage, floatStr: real -> string)
    requires ValidDate(date) && DayParsed(p, FreshState()).1.Pass?
    ensures TimelineCsv(date, DayParsed(p, FreshState()).0, floatStr).Ok?
  {
    TimelineCsvFresh(date, DayParsed(p, FreshState()).0, p.activities, floatStr);
  }

  class DayTimeline {
    /** `date_time.date()`. */
    const date: Date
    const summary: DaySummary
    const steps: DaySteps
    const details: DetailsSteps
    const sleep: DaySleep
    const activities: DayActivities
    const breakdown: DayBreakdown

    /** Each section is built from its own part of the page; none is parsed yet. */
    constructor (dateTime: DateTime, summaryInput: SummaryInput, stepsInput: StepsInput, detailItems: seq<BinInput>,
                 sleepInput: SleepInput, activityRows: seq<ActivityRow>, breakdownTspans: seq<string>)
      requires ValidDateTime(dateTime)
      ensures date == dateTime.date && ValidDate(date)
      ensures fresh(summary) && fresh(steps) && fresh(details) && fresh(sleep) && fresh(activities) && fresh(breakdown)
      ensures summary.input == summaryInput && steps.input == stepsInput && details.items == detailItems
      ensures details.dateTime == dateTime && sleep.input == sleepInput && activities.rows == activityRows
      ensures breakdown.tspans == breakdownTspans
      ensures State() == FreshState()
    {
      date := dateTime.date;
      summary := new DaySummary(summaryInput);
      steps := new DaySteps(stepsInput);
      details := new DetailsSteps(dateTime, detailItems);
      sleep := new DaySleep(sleepInput);
      activities := new DayActivities(activityRows);
      breakdown := new DayBreakdown(breakdownTspans);
    }

    /** The texts the sections were built from. */
    function Page(): DayPage {
      DayPage(summary.input, steps.input, details.items, sleep.input, activities.rows, breakdown.tspans)
    }

    /** The section objects, which hold all of the day's state. */
    ghost function Repr(): set<object> {
      {summary, steps, details, sleep, activities, breakdown}
    }

    function State(): DayState
      reads this, summary, steps, details, sleep, activities, breakdown
    {
      DayState(summary.Fields(), steps.Fields(), details.bins, sleep.Fields(), activities.activities, breakdown.Fields())
    }

    /**
      `parse`: every section in order. The step details have no `try`, so when one of their
      elements raises, the exception leaves `parse` and the sections after it stay as they were.
     */
    method Parse() returns (o: Outcome)
      modifies summary, steps, details, sleep, activities, breakdown
      ensures summary.Fields() == SummaryParsed(summary.input, old(summary.Fields()))
      ensures steps.Fields() == StepsParsed(steps.input, old(steps.Fields()))
      ensures details.bins == old(details.bins) + ParsedBins(details.items).0 && o == ParsedBins(details.items).1
      ensures sleep.Fields() == if o.Pass? then SleepParsed(SleepReadsOf(sleep.input), old(sleep.Fields())) else old(sleep.Fields())
      ensures activities.activities ==
        if o.Pass? then old(activities.activities) + ParsedRows(DataRows(activities.rows)) else old(activities.activities)
      ensures breakdown.Fields() ==
        if o.Pass? then BreakdownParsed(BreakdownTokens(breakdown.tspans), old(breakdown.Fields())) else old(breakdown.Fields())
      ensures (State(), o) == DayParsed(Page(), old(State()))
    {
      summary.Parse();
      steps.Parse();
      o := details.Parse();
      if o.Fail? {
        return;
      }
      sleep.Parse();
      activities.Parse();
      breakdown.Parse();
    }

    /**
      `to_csv_dict`: the date, then the sections' CSV dicts merged in, one `update` per section.
      Computing a section's CSV dict changes nothing, so they are all computed first.
     */
    method ToCsvDict(floatStr: real -> string) returns (r: Result<seq<(string, string)>>)
      requires ValidDate(date)
      ensures r == TimelineCsv(date, State(), floatStr)
    {
      ghost var s := State();
      var acts := activities.ToCsvDict(floatStr);
      if acts.Err? {
        TimelineCsvErr(date, s, floatStr);
        return Err(acts.error);
      }
      SectionDictsDistinct(s);
      var e0 := SectionCsvDict(SUMMARY_TAG, summary.Fields().ToDict(), floatStr);
      var e1 := SectionCsvDict(STEPS_TAG, steps.Fields().ToDict(), floatStr);
      var e2 := SectionCsvDict(DETAILS_TAG, DetailsDict(details.bins), floatStr);
      var e3 := SectionCsvDict(SLEEP_TAG, sleep.Fields().ToDict(), floatStr);
      var e5 := SectionCsvDict(BREAKDOWN_TAG, breakdown.Fields().ToDict(), floatStr);
      TimelineCsvEntries(date, s, floatStr);
      var d := MergeCsv([("date", IsoDate(date))], [e0, e1, e2, e3, acts.value, e5]);
      return Ok(d);
    }

    /**
      `to_json`: each section's document under its name and the whole under the date; on the
      way, the activity dicts are stringified in place.
     */
    method ToJson(floatStr: real -> string) returns (j: Json)
      requires ValidDate(date)
      modifies activities
      ensures State() == Stringify(old(State()), floatStr)
      ensures j == TimelineJson(date, old(State()), floatStr)
    {
      ghost var s := State();
      var summaryDict, stepsDict, detailsDict, sleepDict, breakdownDict :=
        summary.Fields().ToDict(), steps.Fields().ToDict(), DetailsDict(details.bins), sleep.Fields().ToDict(),
        breakdown.Fields().ToDict();
      SectionDocsAt([summaryDict, stepsDict, detailsDict, sleepDict, breakdownDict], floatStr);
      var summaryDoc := SectionJson(summaryDict, floatStr);
      var stepsDoc := SectionJson(stepsDict, floatStr);
      var detailsDoc := SectionJson(detailsDict, floatStr);
      var sleepDoc := SectionJson(sleepDict, floatStr);
      var activitiesDoc := activities.ToJson(floatStr);
      DictsJsonStringified(s.activities, floatStr);
      var breakdownDoc := SectionJson(breakdownDict, floatStr);
      j := JObject([(IsoDate(date), JObject([
        ("summary", summaryDoc), ("steps", stepsDoc), ("steps details", detailsDoc), ("sleep", sleepDoc),
        ("activities", activitiesDoc), ("breakdown", breakdownDoc)]))]);
    }
  }

  /** A day whose section objects were left alone still holds the same sections. */
  twostate lemma StateUnchanged(t: DayTimeline)
    requires unchanged(t.summary, t.steps, t.details, t.sleep, t.activities, t.breakdown)
    ensures t.State() == old(t.State())
  {
  }
}
