/**
  `GarminConnectBot` of `pygce/models/bot.py`: the strings it derives (region, login URL, day
  URL, user id) and the loops that fetch, parse and dump a range of days. The browser is an
  oracle: whatever a page would yield is handed in as a parameter.
 */
module Bot {
  import opened Wrappers
  import opened Text
  import opened PyDateTime
  import opened PyValues
  import opened TimelineParsers
  import opened TimelineSections
  import opened TimelineDay

  const USER_PATH: string := "/modern/"
  /** `https://connect.garmin.com`, written in the pieces the region derivation looks at. */
  const BASE_URL: string := "https:" + "//" + "connect." + "garmin.com"
  const BASE_LOGIN_URL: string :=
    "https://sso.garmin.com/sso/login?service=https%3A%2F%2Fconnect.garmin.com%2Fmodern%2F&webhost=olaxpw"
    + "-conctmodern005.garmin.com&source=https%3A%2F%2Fconnect.garmin.com%2Fen-US%2Fsignin"
    + "&redirectAfterAccountLoginUrl=https%3A%2F%2Fconnect.garmin.com%2Fmodern%2F"
    + "&redirectAfterAccountCreationUrl=https%3A%2F%2Fconnect.garmin.com%2Fmodern%2F&gauthHost=https%3A%2F"
    + "%2Fsso.garmin.com%2Fsso&locale=en_US&id=gauth-widget&clientId=GarminConnect&initialFocus=true"
    + "&embedWidget=false&mobile=false# "
  /** The daily-summary page of a user, without the separator before the user id. */
  const DAILY_SUMMARY_URL: string := "https://connect.garmin.com/modern/daily-summary"

  // ----- region and login URL -----

  /** A user URL ends with the user path, so it always has a host piece after `scheme:` and `""`. */
  lemma {:induction false} UserUrlPieces(url: string)
    ensures |Split(url + USER_PATH, "/")| >= 3
  {
    CountConcat(url, USER_PATH, '/');
    assert USER_PATH == [] + ['/'] + "modern/";
    CountConcat(['/'], "modern/", '/');
    SplitCount(url + USER_PATH, '/');
  }

  /** `user_url.split("/")[2]` for `user_url = url + USER_PATH`: the host of `url`. */
  function Host(url: string): string {
    UserUrlPieces(url);
    Split(url + USER_PATH, "/")[2]
  }

  /** `user_url.split("/")[2].split("connect.")[-1]`. */
  function Region(url: string): string {
    After(Host(url), "connect.")
  }

  /** `BASE_LOGIN_URL.replace("garmin.com", region)`. */
  function LoginUrl(region: string): string {
    ReplaceAll(BASE_LOGIN_URL, "garmin.com", region)
  }

  /**
    The region is the text after the last `connect.` of the host piece: it holds no `connect.`,
    it ends the host, and it is the whole host when the host has no `connect.`.
   */
  lemma {:induction false} RegionIsAfterLast(url: string)
    ensures var host := Host(url);
      var r := Region(url);
      IndexOf(r, "connect.").None? && |r| <= |host| && host[|host| - |r|..] == r &&
      (IndexOf(host, "connect.").Some? ==> EndsWith(host[..|host| - |r|], "connect.")) &&
      (IndexOf(host, "connect.").None? ==> r == host)
  {
    AfterLast(Host(url), "connect.");
  }

  /** The host of `<scheme>//<host>` is `host` when neither holds a `/`. */
  lemma {:induction false} HostOf(scheme: string, host: string)
    requires Count(scheme, '/') == 0 && Count(host, '/') == 0
    ensures Host(scheme + "//" + host) == host
  {
    assert scheme + "//" + host + USER_PATH == scheme + ['/'] + [] + ['/'] + host + ['/'] + "modern/";
    SplitFirstThree(scheme, [], host, "modern/", '/');
  }

  /** For `<scheme>//connect.<r>` with a plain `r`, the region is `r`. */
  lemma {:induction false} RegionOfConnectHost(scheme: string, r: string)
    requires Count(scheme, '/') == 0 && Count(r, '/') == 0 && IndexOf(r, "connect.").None?
    ensures Region(scheme + "//" + "connect." + r) == r
  {
    var host := "connect." + r;
    CountNone("connect.", '/');
    CountConcat("connect.", r, '/');
    assert scheme + "//" + "connect." + r == scheme + "//" + host;
    HostOf(scheme, host);
    AfterConnect(r);
  }

  /** `("connect." + r).split("connect.")[-1]` is `r` when `r` holds no `connect.`. */
  lemma {:induction false} AfterConnect(r: string)
    requires IndexOf(r, "connect.").None?
    ensures After("connect." + r, "connect.") == r
  {
    var sep := "connect.";
    var host := sep + r;
    assert host[..|sep|] == sep;
    assert IndexOf(host, sep) == Some(0);
    assert host[|sep|..] == r;
    var pieces := Split(host, sep);
    assert pieces == [host[..0]] + Split(r, sep);
    assert Split(r, sep) == [r];
  }

  /** The default URL gives the region `garmin.com`, which leaves the login URL as it is. */
  lemma {:induction false} DefaultLoginUrl()
    ensures Region(BASE_URL) == "garmin.com"
    ensures LoginUrl(Region(BASE_URL)) == BASE_LOGIN_URL
  {
    DefaultRegion();
    ReplaceAllSelf(BASE_LOGIN_URL, "garmin.com");
  }

  lemma {:induction false} DefaultRegion()
    ensures Region(BASE_URL) == "garmin.com"
  {
    DefaultPiecesPlain();
    RegionOfConnectHost("https:", "garmin.com");
  }

  /** Neither the scheme nor the default host holds a `/`, and the host holds no `connect.`. */
  lemma {:induction false} DefaultPiecesPlain()
    ensures Count("https:", '/') == 0 && Count("garmin.com", '/') == 0 && IndexOf("garmin.com", "connect.").None?
  {
    SchemeNoSlash();
    HostNoSlash();
    HostNoConnect();
  }

  lemma {:induction false} SchemeNoSlash()
    ensures Count("https:", '/') == 0
  {
    CountNone("https:", '/');
  }

  lemma {:induction false} HostNoSlash()
    ensures Count("garmin.com", '/') == 0
  {
    CountNone("garmin.com", '/');
  }

  lemma {:induction false} HostNoConnect()
    ensures IndexOf("garmin.com", "connect.").None?
  {
    IndexOfNoStart("garmin.com", "connect.");
  }

  // ----- user id -----

  /** The index `max(tokens, key=len)` picks: a longest token, the first of them. */
  function LongestIndex(tokens: seq<string>): (k: nat)
    requires |tokens| > 0
    ensures k < |tokens|
    ensures forall j :: 0 <= j < |tokens| ==> |tokens[j]| <= |tokens[k]|
    ensures forall j :: 0 <= j < k ==> |tokens[j]| < |tokens[k]|
  {
    if |tokens| == 1 then 0
    else
      var k := LongestIndex(tokens[..|tokens| - 1]);
      assert forall j :: 0 <= j < |tokens| - 1 ==> tokens[..|tokens| - 1][j] == tokens[j];
      if |tokens[|tokens| - 1]| > |tokens[k]| then |tokens| - 1 else k
  }

  /** Only one index is a first longest token. */
  lemma {:induction false} LongestIndexUnique(tokens: seq<string>, k: nat)
    requires k < |tokens|
    requires forall j :: 0 <= j < |tokens| ==> |tokens[j]| <= |tokens[k]|
    requires forall j :: 0 <= j < k ==> |tokens[j]| < |tokens[k]|
    ensures LongestIndex(tokens) == k
  {
  }

  /** The user id a widget's `href` yields: its longest `/`-token, stripped. */
  function UserIdOf(href: string): string {
    var tokens := Split(href, "/");
    Strip(tokens[LongestIndex(tokens)])
  }

  /** The `href` of the first widget whose extraction succeeds, if any. */
  function FirstHref(widgets: seq<Option<string>>): (h: Option<string>)
    ensures h.None? <==> forall j :: 0 <= j < |widgets| ==> widgets[j].None?
    ensures h.Some? ==> exists k :: 0 <= k < |widgets| && widgets[k] == h && forall j :: 0 <= j < k ==> widgets[j].None?
  {
    if widgets == [] then None
    else
      var init := widgets[..|widgets| - 1];
      var h := FirstHref(init);
      assert forall j :: 0 <= j < |init| ==> init[j] == widgets[j];
      if h.Some? then h else widgets[|widgets| - 1]
  }

  /** `not self.user_id`: no id yet, or the empty one. */
  predicate IdUnset(id: Option<string>) {
    id.None? || id.value == ""
  }

  /** `str(self.user_id)`. */
  function IdText(id: Option<string>): string {
    if id.None? then "None" else id.value
  }

  // ----- day URL and day range -----

  /**
    The daily-summary URL of `go_to_day`: the prefix, the user id, then the date as `strftime`
    writes `%Y-%m-%d`.
   */
  function DayUrl(id: Option<string>, d: Date): string
    requires ValidDate(d)
  {
    DAILY_SUMMARY_URL + "/" + IdText(id) + "/" + StrftimeDate(d)
  }

  /** A date rendered by `strftime('%Y-%m-%d')` holds digits and dashes only. */
  lemma {:induction false} StrftimeDateNoSlash(d: Date)
    requires ValidDate(d)
    ensures Count(StrftimeDate(d), '/') == 0
  {
    var y := NatToString(d.year as nat);
    var m, dd := TwoDigits(d.month as nat), TwoDigits(d.day as nat);
    assert StrftimeDate(d) == y + "-" + m + "-" + dd;
    CountNone(StrftimeDate(d), '/');
  }

  /** The last two path pieces of a day URL give back the user id and the date. */
  lemma {:induction false} DayUrlPieces(id: Option<string>, d: Date)
    requires ValidDate(d) && Count(IdText(id), '/') == 0
    ensures Split(DayUrl(id, d), "/") == Split(DAILY_SUMMARY_URL, "/") + [IdText(id), StrftimeDate(d)]
  {
    StrftimeDateNoSlash(d);
    assert DayUrl(id, d) == DAILY_SUMMARY_URL + ['/'] + IdText(id) + ['/'] + StrftimeDate(d);
    SplitLastTwo(DAILY_SUMMARY_URL, IdText(id), StrftimeDate(d), '/');
  }

  /** `range((max - min).days + 1)`: how many days `get_days` fetches. */
  function DayCount(minDt: DateTime, maxDt: DateTime): nat
    requires ValidDateTime(minDt) && ValidDateTime(maxDt)
  {
    var delta := DaysDelta(maxDt, minDt);
    if delta + 1 > 0 then delta + 1 else 0
  }

  /**
    The days fetched are exactly the ones `min + i days` that are not later than `max`; there
    are none when `max` comes before `min`.
   */
  lemma {:induction false} DayCountRange(minDt: DateTime, maxDt: DateTime)
    requires ValidDateTime(minDt) && ValidDateTime(maxDt)
    ensures var n := DayCount(minDt, maxDt);
      (forall i: nat :: i < n ==> Timestamp(PlusDays(minDt, i)) <= Timestamp(maxDt)) &&
      Timestamp(PlusDays(minDt, n)) > Timestamp(maxDt) &&
      (n == 0 <==> Timestamp(maxDt) < Timestamp(minDt))
  {
    var n := DayCount(minDt, maxDt);
    var gap := Timestamp(maxDt) - Timestamp(minDt);
    assert gap / 86400 * 86400 <= gap < gap / 86400 * 86400 + 86400;
    forall i: nat | i < n ensures Timestamp(PlusDays(minDt, i)) <= Timestamp(maxDt) {
      assert i * 86400 <= (n - 1) * 86400;
    }
    assert Timestamp(PlusDays(minDt, n)) == Timestamp(minDt) + n * 86400;
  }

  /** When both ends have the same time of day, the last day fetched is `max`'s own date. */
  lemma {:induction false} LastDayIsMax(minDt: DateTime, maxDt: DateTime)
    requires ValidDateTime(minDt) && ValidDateTime(maxDt)
    requires minDt.secondOfDay == maxDt.secondOfDay && Ordinal(minDt.date) <= Ordinal(maxDt.date)
    ensures DayCount(minDt, maxDt) == Ordinal(maxDt.date) - Ordinal(minDt.date) + 1
    ensures PlusDays(minDt, DayCount(minDt, maxDt) - 1).date == maxDt.date
  {
    var diff := Ordinal(maxDt.date) - Ordinal(minDt.date);
    DaysDeltaSameTime(minDt, maxDt);
    assert DayCount(minDt, maxDt) - 1 == diff;
    LastSameDate(minDt, maxDt, diff);
  }

  /** `diff` days after `min`, at its time of day, is `max` when `max`'s date is `diff` days later. */
  lemma {:induction false} LastSameDate(minDt: DateTime, maxDt: DateTime, diff: nat)
    requires ValidDateTime(minDt) && ValidDateTime(maxDt) && minDt.secondOfDay == maxDt.secondOfDay
    requires diff == Ordinal(maxDt.date) - Ordinal(minDt.date)
    ensures PlusDays(minDt, diff).date == maxDt.date
  {
    var last := PlusDays(minDt, diff);
    SameTimeOrdinal(last, maxDt);
    OrdinalInjective(last.date, maxDt.date);
  }

  /** Between two instants at the same time of day, `timedelta.days` is the difference of their dates. */
  lemma {:induction false} DaysDeltaSameTime(minDt: DateTime, maxDt: DateTime)
    requires ValidDateTime(minDt) && ValidDateTime(maxDt) && minDt.secondOfDay == maxDt.secondOfDay
    ensures DaysDelta(maxDt, minDt) == Ordinal(maxDt.date) - Ordinal(minDt.date)
  {
    var diff := Ordinal(maxDt.date) - Ordinal(minDt.date);
    assert Timestamp(maxDt) - Timestamp(minDt) == diff * 86400;
  }

  /** Two instants with the same timestamp and time of day fall on the same day number. */
  lemma {:induction false} SameTimeOrdinal(a: DateTime, b: DateTime)
    requires ValidDateTime(a) && ValidDateTime(b) && Timestamp(a) == Timestamp(b) && a.secondOfDay == b.secondOfDay
    ensures Ordinal(a.date) == Ordinal(b.date)
  {
  }

  // ----- dumping a range of days -----

  /** What `get_day` returned for each day of the range: the page of `min + i days`, if any. */
  function Pages(minDt: DateTime, n: nat, getDay: DateTime -> Option<DayPage>): (ps: seq<Option<DayPage>>)
    requires ValidDateTime(minDt)
    ensures |ps| == n && forall i :: 0 <= i < n ==> ps[i] == getDay(PlusDays(minDt, i))
  {
    seq(n, i requires 0 <= i < n => getDay(PlusDays(minDt, i)))
  }

  /** `d.parse()` on a day in state `s`: its new sections, or the exception that left it. */
  function DayResult(p: DayPage, s: DayState): Result<DayState> {
    var (t, o) := DayParsed(p, s);
    if o.Pass? then Ok(t) else Err(o.error)
  }

  /** `d.parse()` on what `get_day` returned: a missing day has no `parse`, so `AttributeError`. */
  function PageResult(page: Option<DayPage>): Result<DayState> {
    if page.None? then Err(AttributeError) else DayResult(page.value, FreshState())
  }

  /** The parse loop of the save methods, day by day. */
  function ParseResults(pages: seq<Option<DayPage>>): (rs: seq<Result<DayState>>)
    ensures |rs| == |pages|
  {
    if pages == [] then [] else ParseResults(pages[..|pages| - 1]) + [PageResult(pages[|pages| - 1])]
  }

  /** The `i`-th step of the parse loop is the `i`-th day's own parse. */
  lemma {:induction false} ParseResultsAt(pages: seq<Option<DayPage>>, i: nat)
    requires i < |pages|
    ensures ParseResults(pages)[i] == PageResult(pages[i])
    decreases |pages|
  {
    if i < |pages| - 1 {
      ParseResultsAt(pages[..|pages| - 1], i);
    }
  }

  /** The parsed sections of every day of the range, or the first exception of the parse loop. */
  function ParsedRange(minDt: DateTime, maxDt: DateTime, getDay: DateTime -> Option<DayPage>): (seq<DayState>, Outcome)
    requires ValidDateTime(minDt) && ValidDateTime(maxDt)
  {
    UntilFailure(ParseResults(Pages(minDt, DayCount(minDt, maxDt), getDay)))
  }

  /** `[d.to_csv_dict() for d in data]` over days of the given dates and sections. */
  function CsvResults(dates: seq<Date>, states: seq<DayState>, floatStr: real -> string): (rs: seq<Result<seq<(string, string)>>>)
    requires |dates| == |states| && forall i :: 0 <= i < |dates| ==> ValidDate(dates[i])
    ensures |rs| == |states| && forall i :: 0 <= i < |states| ==> rs[i] == TimelineCsv(dates[i], states[i], floatStr)
  {
    seq(|states|, i requires 0 <= i < |states| && ValidDate(dates[i]) => TimelineCsv(dates[i], states[i], floatStr))
  }

  /** The calendar dates of the range's first `n` days. */
  function RangeDates(minDt: DateTime, n: nat): (ds: seq<Date>)
    requires ValidDateTime(minDt)
    ensures |ds| == n && forall i :: 0 <= i < n ==> ds[i] == PlusDays(minDt, i).date && ValidDate(ds[i])
  {
    seq(n, i requires 0 <= i < n => PlusDays(minDt, i).date)
  }

  /** A CSV file as `DictWriter` writes it: the header, then one row per day. */
  datatype CsvDump = CsvDump(header: seq<string>, rows: seq<seq<(string, string)>>)

  /**
    What `save_csv_days` writes, or the exception raised before the file is written: the
    parse loop first, then the CSV dicts, then the header taken from the first of them.
   */
  function CsvDumpOf(minDt: DateTime, maxDt: DateTime, getDay: DateTime -> Option<DayPage>, floatStr: real -> string): Result<CsvDump>
    requires ValidDateTime(minDt) && ValidDateTime(maxDt)
  {
    var (states, o) := ParsedRange(minDt, maxDt, getDay);
    if o.Fail? then Err(o.error)
    else
      var (rows, o2) := UntilFailure(CsvResults(RangeDates(minDt, |states|), states, floatStr));
      if o2.Fail? then Err(o2.error)
      else if rows == [] then Err(IndexError)
      else Ok(CsvDump(Keys(rows[0]), rows))
  }

  /** One more day's document after the documents of the days before it. */
  lemma {:induction false} DocsSnoc(dates: seq<Date>, states: seq<DayState>, docs: seq<Json>, doc: Json, floatStr: real -> string)
    requires |docs| < |dates| == |states| && forall i :: 0 <= i < |dates| ==> ValidDate(dates[i])
    requires forall i :: 0 <= i < |docs| ==> docs[i] == TimelineJson(dates[i], states[i], floatStr)
    requires doc == TimelineJson(dates[|docs|], states[|docs|], floatStr)
    ensures forall i :: 0 <= i < |docs| + 1 ==> (docs + [doc])[i] == TimelineJson(dates[i], states[i], floatStr)
  {
  }

  /** `[d.to_json() for d in data]` over days of the given dates and sections. */
  function JsonDocsOf(dates: seq<Date>, states: seq<DayState>, floatStr: real -> string): (docs: seq<Json>)
    requires |dates| == |states| && forall i :: 0 <= i < |dates| ==> ValidDate(dates[i])
    ensures |docs| == |states| && forall i :: 0 <= i < |states| ==> docs[i] == TimelineJson(dates[i], states[i], floatStr)
  {
    seq(|states|, i requires 0 <= i < |states| && ValidDate(dates[i]) => TimelineJson(dates[i], states[i], floatStr))
  }

  /** Documents that agree with `JsonDocsOf` index by index are `JsonDocsOf`. */
  lemma {:induction false} JsonDocsOfEq(dates: seq<Date>, states: seq<DayState>, docs: seq<Json>, floatStr: real -> string)
    requires |dates| == |states| && forall i :: 0 <= i < |dates| ==> ValidDate(dates[i])
    requires |docs| == |states| && forall i :: 0 <= i < |states| ==> docs[i] == TimelineJson(dates[i], states[i], floatStr)
    ensures docs == JsonDocsOf(dates, states, floatStr)
  {
  }

  /** What `save_json_days` writes, or the exception raised before the file is written. */
  function JsonDumpOf(minDt: DateTime, maxDt: DateTime, getDay: DateTime -> Option<DayPage>, floatStr: real -> string): Result<seq<Json>>
    requires ValidDateTime(minDt) && ValidDateTime(maxDt)
  {
    var (states, o) := ParsedRange(minDt, maxDt, getDay);
    if o.Fail? then Err(o.error)
    else
      Ok(JsonDocsOf(RangeDates(minDt, |states|), states, floatStr))
  }

  /**
    The parse loop over any pages: the days parsed before it stops are those pages' own parses,
    it passes exactly when every page is there and parses, and otherwise it raises the error of
    the first page that does not.
   */
  lemma {:induction false} ParseLoop(pages: seq<Option<DayPage>>)
    ensures var (states, o) := UntilFailure(ParseResults(pages));
      |states| <= |pages| &&
      (forall i :: 0 <= i < |states| ==> PageResult(pages[i]) == Ok(states[i])) &&
      (o.Pass? <==> |states| == |pages|) &&
      (o.Pass? <==> forall i :: 0 <= i < |pages| ==> PageResult(pages[i]).Ok?) &&
      (o.Fail? ==> |states| < |pages| && PageResult(pages[|states|]) == Err(o.error))
  {
    var rs := ParseResults(pages);
    forall i | 0 <= i < |pages| ensures rs[i] == PageResult(pages[i]) {
      ParseResultsAt(pages, i);
    }
    UntilFailurePrefix(rs);
  }

  /** Every day of the range was found and parsed: the parse loop passes exactly then. */
  lemma {:induction false} ParsedRangePass(minDt: DateTime, maxDt: DateTime, getDay: DateTime -> Option<DayPage>)
    requires ValidDateTime(minDt) && ValidDateTime(maxDt)
    ensures var (states, o) := ParsedRange(minDt, maxDt, getDay);
      var n := DayCount(minDt, maxDt);
      |states| <= n &&
      (forall i :: 0 <= i < |states| ==> PageResult(getDay(PlusDays(minDt, i))) == Ok(states[i])) &&
      (o.Pass? <==> |states| == n) &&
      (o.Pass? <==> forall i :: 0 <= i < n ==> PageResult(getDay(PlusDays(minDt, i))).Ok?) &&
      (o.Fail? ==> PageResult(getDay(PlusDays(minDt, |states|))) == Err(o.error))
  {
    ParseLoop(Pages(minDt, DayCount(minDt, maxDt), getDay));
  }

  /** A range that parses yields one state per day. */
  lemma {:induction false} ParsedRangeCount(minDt: DateTime, maxDt: DateTime, getDay: DateTime -> Option<DayPage>)
    requires ValidDateTime(minDt) && ValidDateTime(maxDt)
    ensures ParsedRange(minDt, maxDt, getDay).1.Pass? ==> |ParsedRange(minDt, maxDt, getDay).0| == DayCount(minDt, maxDt)
  {
    ParsedRangePass(minDt, maxDt, getDay);
  }

  /** An empty range parses no day and passes. */
  lemma {:induction false} ParsedRangeEmpty(minDt: DateTime, maxDt: DateTime, getDay: DateTime -> Option<DayPage>)
    requires ValidDateTime(minDt) && ValidDateTime(maxDt) && DayCount(minDt, maxDt) == 0
    ensures ParsedRange(minDt, maxDt, getDay) == ([], Pass)
  {
    assert Pages(minDt, 0, getDay) == [];
    assert ParseResults([]) == [];
  }

  /** A page that parses gives a day whose CSV dict exists and has the header's columns. */
  lemma {:induction false} PageCsv(date: Date, page: Option<DayPage>, floatStr: real -> string)
    requires ValidDate(date) && PageResult(page).Ok?
    ensures TimelineCsv(date, PageResult(page).value, floatStr).Ok?
    ensures Keys(TimelineCsv(date, PageResult(page).value, floatStr).value) == CsvHeader()
  {
    DayParsedCsv(date, page.value, floatStr);
    TimelineCsvKeys(date, PageResult(page).value, floatStr);
  }

  /** The CSV loop passes when every day's dict exists, and keeps those dicts in order. */
  lemma {:induction false} CsvLoop(dates: seq<Date>, states: seq<DayState>, floatStr: real -> string)
    requires |dates| == |states| && forall i :: 0 <= i < |dates| ==> ValidDate(dates[i])
    requires forall i :: 0 <= i < |states| ==>
      TimelineCsv(dates[i], states[i], floatStr).Ok? && Keys(TimelineCsv(dates[i], states[i], floatStr).value) == CsvHeader()
    ensures var (rows, o) := UntilFailure(CsvResults(dates, states, floatStr));
      o.Pass? && |rows| == |states| &&
      forall i :: 0 <= i < |states| ==> Keys(rows[i]) == CsvHeader() && Ok(rows[i]) == TimelineCsv(dates[i], states[i], floatStr)
  {
    UntilFailurePrefix(CsvResults(dates, states, floatStr));
  }

  /** Every day of a range that parses has a CSV dict with the header's columns. */
  lemma {:induction false} RangeCsvs(minDt: DateTime, maxDt: DateTime, getDay: DateTime -> Option<DayPage>, floatStr: real -> string)
    requires ValidDateTime(minDt) && ValidDateTime(maxDt) && ParsedRange(minDt, maxDt, getDay).1.Pass?
    ensures var states := ParsedRange(minDt, maxDt, getDay).0;
      var dates := RangeDates(minDt, |states|);
      forall i :: 0 <= i < |states| ==>
        TimelineCsv(dates[i], states[i], floatStr).Ok? && Keys(TimelineCsv(dates[i], states[i], floatStr).value) == CsvHeader()
  {
    ParsedRangePass(minDt, maxDt, getDay);
    var states := ParsedRange(minDt, maxDt, getDay).0;
    var dates := RangeDates(minDt, |states|);
    forall i | 0 <= i < |states|
      ensures TimelineCsv(dates[i], states[i], floatStr).Ok? && Keys(TimelineCsv(dates[i], states[i], floatStr).value) == CsvHeader()
    {
      PageCsv(dates[i], getDay(PlusDays(minDt, i)), floatStr);
    }
  }

  /**
    The CSV file is written exactly when the range is not empty and every day was found and
    parsed; an empty range raises `IndexError`.
   */
  lemma {:induction false} CsvDumpWritten(minDt: DateTime, maxDt: DateTime, getDay: DateTime -> Option<DayPage>, floatStr: real -> string)
    requires ValidDateTime(minDt) && ValidDateTime(maxDt)
    ensures var dump := CsvDumpOf(minDt, maxDt, getDay, floatStr);
      (dump.Ok? <==> DayCount(minDt, maxDt) > 0 && ParsedRange(minDt, maxDt, getDay).1.Pass?) &&
      (DayCount(minDt, maxDt) == 0 ==> dump == Err(IndexError))
  {
    if DayCount(minDt, maxDt) == 0 {
      ParsedRangeEmpty(minDt, maxDt, getDay);
    } else {
      CsvDumpRows(minDt, maxDt, getDay, floatStr);
    }
  }

  /**
    The CSV file: one row per day of the range, each that day's `to_csv_dict`, all with the
    header's columns.
   */
  lemma {:induction false} CsvDumpRows(minDt: DateTime, maxDt: DateTime, getDay: DateTime -> Option<DayPage>, floatStr: real -> string)
    requires ValidDateTime(minDt) && ValidDateTime(maxDt)
    ensures var n := DayCount(minDt, maxDt);
      var (states, o) := ParsedRange(minDt, maxDt, getDay);
      var dump := CsvDumpOf(minDt, maxDt, getDay, floatStr);
      (o.Pass? && n > 0 ==> dump.Ok?) &&
      (dump.Ok? ==> (o.Pass? && |states| == n && dump.value.header == CsvHeader() && |dump.value.rows| == n &&
        forall i :: 0 <= i < n ==> (Keys(dump.value.rows[i]) == CsvHeader() &&
          Ok(dump.value.rows[i]) == TimelineCsv(PlusDays(minDt, i).date, states[i], floatStr))))
  {
    ParsedRangeCount(minDt, maxDt, getDay);
    var (states, o) := ParsedRange(minDt, maxDt, getDay);
    if o.Pass? {
      var dates := RangeDates(minDt, |states|);
      RangeCsvs(minDt, maxDt, getDay, floatStr);
      CsvLoop(dates, states, floatStr);
      var rows := UntilFailure(CsvResults(dates, states, floatStr)).0;
      assert CsvDumpOf(minDt, maxDt, getDay, floatStr) ==
        if rows == [] then Err(IndexError) else Ok(CsvDump(Keys(rows[0]), rows));
    }
  }

  /**
    The JSON file: the documents of the days in order, each keyed by its date; an empty range
    writes an empty list, and the file is written exactly when every day was found and parsed.
   */
  lemma {:induction false} JsonDumpShape(minDt: DateTime, maxDt: DateTime, getDay: DateTime -> Option<DayPage>, floatStr: real -> string)
    requires ValidDateTime(minDt) && ValidDateTime(maxDt)
    ensures var n := DayCount(minDt, maxDt);
      var (states, o) := ParsedRange(minDt, maxDt, getDay);
      var dump := JsonDumpOf(minDt, maxDt, getDay, floatStr);
      (dump.Ok? <==> o.Pass?) &&
      (dump.Ok? ==> |states| == n && |dump.value| == n && forall i :: 0 <= i < n ==>
        dump.value[i] == TimelineJson(PlusDays(minDt, i).date, states[i], floatStr) &&
        dump.value[i].JObject? && |dump.value[i].members| == 1 &&
        dump.value[i].members[0].0 == IsoDate(PlusDays(minDt, i).date))
  {
    ParsedRangePass(minDt, maxDt, getDay);
    var states := ParsedRange(minDt, maxDt, getDay).0;
    forall i | 0 <= i < |states| {
      TimelineJsonShape(PlusDays(minDt, i).date, states[i], floatStr);
    }
  }

  /** An empty range writes an empty JSON list. */
  lemma {:induction false} JsonDumpEmpty(minDt: DateTime, maxDt: DateTime, getDay: DateTime -> Option<DayPage>, floatStr: real -> string)
    requires ValidDateTime(minDt) && ValidDateTime(maxDt) && DayCount(minDt, maxDt) == 0
    ensures JsonDumpOf(minDt, maxDt, getDay, floatStr) == Ok([])
  {
    ParsedRangeEmpty(minDt, maxDt, getDay);
  }

  // ----- `save_gpx` -----

  /**
    One activity of `save_gpx`: the browser opens its `gpx` URL, then its `name` and `time_day`
    are printed; a missing key raises `KeyError`, after the visit when only the latter are missing.
   */
  function GpxVisit(a: seq<(string, Value)>): (seq<Value>, Outcome) {
    var gpx := Get(a, "gpx");
    if gpx.None? then ([], Fail(KeyError))
    else if Get(a, "name").None? || Get(a, "time_day").None? then ([gpx.value], Fail(KeyError))
    else ([gpx.value], Pass)
  }

  /** The URLs visited for one day's activities, in order, and how the visits ended. */
  function DayVisits(acts: seq<seq<(string, Value)>>): (seq<Value>, Outcome) {
    if acts == [] then ([], Pass)
    else
      var (f, o) := DayVisits(acts[..|acts| - 1]);
      if o.Fail? then (f, o)
      else
        var (g, o2) := GpxVisit(acts[|acts| - 1]);
        (f + g, o2)
  }

  /** The URLs visited for every day, day after day, and how the visits ended. */
  function RangeVisits(actss: seq<seq<seq<(string, Value)>>>): (seq<Value>, Outcome) {
    if actss == [] then ([], Pass)
    else
      var (f, o) := RangeVisits(actss[..|actss| - 1]);
      if o.Fail? then (f, o)
      else
        var (g, o2) := DayVisits(actss[|actss| - 1]);
        (f + g, o2)
  }

  /** A dict with all the activity keys: its `gpx` URL is visited and nothing raises. */
  lemma {:induction false} VisitKeyed(a: seq<(string, Value)>)
    requires Keys(a) == ACTIVITY_KEYS
    ensures |a| == 8 && Get(a, "gpx") == Some(a[7].1)
    ensures GpxVisit(a) == ([a[7].1], Pass)
  {
    KeyAt(a, 7);
    KeyAt(a, 5);
    KeyAt(a, 0);
  }

  /** The `gpx` values of a day's activity dicts, the last of their eight entries. */
  function DayGpx(acts: seq<seq<(string, Value)>>): (g: seq<Value>)
    requires forall k :: 0 <= k < |acts| ==> |acts[k]| == 8
    ensures |g| == |acts| && forall k :: 0 <= k < |acts| ==> g[k] == acts[k][7].1
  {
    if acts == [] then [] else DayGpx(acts[..|acts| - 1]) + [acts[|acts| - 1][7].1]
  }

  /** Dicts each of whose visits passes: the day's visits are their `gpx` values, in order. */
  lemma {:induction false} DayVisitsPass(acts: seq<seq<(string, Value)>>)
    requires forall k :: 0 <= k < |acts| ==> |acts[k]| == 8 && GpxVisit(acts[k]) == ([acts[k][7].1], Pass)
    ensures DayVisits(acts) == (DayGpx(acts), Pass)
  {
    if acts != [] {
      var init := acts[..|acts| - 1];
      assert forall k :: 0 <= k < |init| ==> init[k] == acts[k];
      DayVisitsPass(init);
    }
  }

  /**
    Activity dicts with all their keys: every `gpx` URL is visited, in order, and nothing
    raises; the `k`-th URL visited is the `gpx` value of the `k`-th dict.
   */
  lemma {:induction false} DayVisitsKeyed(acts: seq<seq<(string, Value)>>)
    requires forall k :: 0 <= k < |acts| ==> Keys(acts[k]) == ACTIVITY_KEYS
    ensures forall k :: 0 <= k < |acts| ==> |acts[k]| == 8
    ensures DayVisits(acts) == (DayGpx(acts), Pass)
    ensures forall k :: 0 <= k < |acts| ==> Get(acts[k], "gpx") == Some(DayGpx(acts)[k])
  {
    forall k | 0 <= k < |acts|
      ensures |acts[k]| == 8 && Get(acts[k], "gpx") == Some(acts[k][7].1) && GpxVisit(acts[k]) == ([acts[k][7].1], Pass)
    {
      VisitKeyed(acts[k]);
    }
    DayVisitsPass(acts);
  }

  /** Every day's activity dicts with all their keys: the visits pass and follow the days in order. */
  lemma {:induction false} RangeVisitsKeyed(actss: seq<seq<seq<(string, Value)>>>)
    requires forall i, k :: 0 <= i < |actss| && 0 <= k < |actss[i]| ==> Keys(actss[i][k]) == ACTIVITY_KEYS
    ensures forall i, k :: 0 <= i < |actss| && 0 <= k < |actss[i]| ==> |actss[i][k]| == 8
    ensures RangeVisits(actss).1.Pass?
    ensures |actss| > 0 ==> RangeVisits(actss).0 == RangeVisits(actss[..|actss| - 1]).0 + DayGpx(actss[|actss| - 1])
  {
    if actss != [] {
      var init := actss[..|actss| - 1];
      assert forall i :: 0 <= i < |init| ==> init[i] == actss[i];
      RangeVisitsKeyed(init);
      DayVisitsKeyed(actss[|actss| - 1]);
    }
  }

  /** The activity dicts of the parsed days, as `save_gpx` reaches them through `timeline.activities`. */
  function RangeActivities(states: seq<DayState>): (actss: seq<seq<seq<(string, Value)>>>)
    ensures |actss| == |states| && forall i :: 0 <= i < |states| ==> actss[i] == states[i].activities
  {
    seq(|states|, i requires 0 <= i < |states| => states[i].activities)
  }

  /** The same after `to_json` stringified them in place. */
  function RangeStringified(states: seq<DayState>, floatStr: real -> string): (actss: seq<seq<seq<(string, Value)>>>)
    ensures |actss| == |states|
    ensures forall i :: 0 <= i < |states| ==> actss[i] == StringifiedAll(states[i].activities, floatStr)
  {
    seq(|states|, i requires 0 <= i < |states| => StringifiedAll(states[i].activities, floatStr))
  }

  /** A page that parses gives activity dicts with all their keys, stringified or not. */
  lemma {:induction false} PageKeyed(page: Option<DayPage>, floatStr: real -> string)
    requires PageResult(page).Ok?
    ensures var acts := PageResult(page).value.activities;
      (forall k :: 0 <= k < |acts| ==> Keys(acts[k]) == ACTIVITY_KEYS) &&
      (forall k :: 0 <= k < |acts| ==> Keys(StringifiedAll(acts, floatStr)[k]) == ACTIVITY_KEYS)
  {
    var acts := PageResult(page).value.activities;
    ParsedRowsWellTyped(DataRows(page.value.activities));
    assert acts == FreshState().activities + ParsedRows(DataRows(page.value.activities));
    forall k | 0 <= k < |acts| ensures Keys(StringifiedAll(acts, floatStr)[k]) == ACTIVITY_KEYS {
      assert Keys(Stringified(acts[k], floatStr)) == Keys(acts[k]);
    }
  }

  /** Once the whole range parsed, visiting its activities (as read, or stringified) raises nothing. */
  lemma {:induction false} ParsedRangeVisits(minDt: DateTime, maxDt: DateTime, getDay: DateTime -> Option<DayPage>, floatStr: real -> string)
    requires ValidDateTime(minDt) && ValidDateTime(maxDt) && ParsedRange(minDt, maxDt, getDay).1.Pass?
    ensures RangeVisits(RangeActivities(ParsedRange(minDt, maxDt, getDay).0)).1.Pass?
    ensures RangeVisits(RangeStringified(ParsedRange(minDt, maxDt, getDay).0, floatStr)).1.Pass?
  {
    ParsedRangeKeyed(minDt, maxDt, getDay, floatStr);
    RangeVisitsKeyed(RangeActivities(ParsedRange(minDt, maxDt, getDay).0));
    RangeVisitsKeyed(RangeStringified(ParsedRange(minDt, maxDt, getDay).0, floatStr));
  }

  /** A parsed range's days hold activity dicts with all their keys, stringified or not. */
  lemma {:induction false} ParsedRangeKeyed(minDt: DateTime, maxDt: DateTime, getDay: DateTime -> Option<DayPage>, floatStr: real -> string)
    requires ValidDateTime(minDt) && ValidDateTime(maxDt) && ParsedRange(minDt, maxDt, getDay).1.Pass?
    ensures var states := ParsedRange(minDt, maxDt, getDay).0;
      (forall i, k :: 0 <= i < |states| && 0 <= k < |states[i].activities| ==> Keys(states[i].activities[k]) == ACTIVITY_KEYS) &&
      (forall i, k :: 0 <= i < |states| && 0 <= k < |states[i].activities| ==>
        Keys(StringifiedAll(states[i].activities, floatStr)[k]) == ACTIVITY_KEYS)
  {
    ParsedRangePass(minDt, maxDt, getDay);
    var states := ParsedRange(minDt, maxDt, getDay).0;
    forall i | 0 <= i < |states|
      ensures forall k :: 0 <= k < |states[i].activities| ==> Keys(states[i].activities[k]) == ACTIVITY_KEYS
      ensures forall k :: 0 <= k < |states[i].activities| ==> Keys(StringifiedAll(states[i].activities, floatStr)[k]) == ACTIVITY_KEYS
    {
      PageKeyed(getDay(PlusDays(minDt, i)), floatStr);
    }
  }

  /** After a visit that raised, no later day is visited. */
  lemma {:induction false} RangeVisitsStop(actss: seq<seq<seq<(string, Value)>>>, i: nat)
    requires i < |actss| && RangeVisits(actss[..i + 1]).1.Fail?
    ensures RangeVisits(actss) == RangeVisits(actss[..i + 1])
    decreases |actss|
  {
    if i + 1 < |actss| {
      var init := actss[..|actss| - 1];
      assert init[..i + 1] == actss[..i + 1];
      RangeVisitsStop(init, i);
    } else {
      assert actss[..i + 1] == actss;
    }
  }

  /** After an activity whose visit raised, no later activity of the day is visited. */
  lemma {:induction false} DayVisitsStop(acts: seq<seq<(string, Value)>>, k: nat)
    requires k < |acts| && DayVisits(acts[..k + 1]).1.Fail?
    ensures DayVisits(acts) == DayVisits(acts[..k + 1])
    decreases |acts|
  {
    if k + 1 < |acts| {
      var init := acts[..|acts| - 1];
      assert init[..k + 1] == acts[..k + 1];
      DayVisitsStop(init, k);
    } else {
      assert acts[..k + 1] == acts;
    }
  }

  // ----- objects of a range -----

  /** Two days hold different section objects (objects of different classes always differ). */
  predicate Apart(a: DayTimeline, b: DayTimeline) {
    a.summary != b.summary && a.steps != b.steps && a.details != b.details && a.sleep != b.sleep &&
    a.activities != b.activities && a.breakdown != b.breakdown
  }

  /** The days of a range share no section object. */
  predicate Separate(days: seq<DayTimeline?>) {
    forall i, j :: 0 <= i < |days| && 0 <= j < |days| && i != j && days[i] != null && days[j] != null ==>
      Apart(days[i], days[j])
  }

  /** A day apart from every earlier one keeps a range separate. */
  lemma {:induction false} SeparateSnoc(days: seq<DayTimeline?>, day: DayTimeline?)
    requires Separate(days)
    requires day != null ==> forall j :: 0 <= j < |days| && days[j] != null ==> Apart(days[j], day) && Apart(day, days[j])
    ensures Separate(days + [day])
  {
  }

  /** A timeline as `get_day` builds it for a day of date `d` from page `p`: not parsed yet. */
  ghost predicate Built(t: DayTimeline, d: Date, p: DayPage)
    reads t, t.Repr()
  {
    t.date == d && ValidDate(t.date) && t.Page() == p && t.State() == FreshState()
  }

  /**
    The timeline `get_day` builds from what it found for the next day of a range, or `None`:
    a new day whose section objects are apart from those of the days already held, leaving
    those days as they were.
   */
  method MakeDay(days: seq<DayTimeline?>, ghost footprint: set<object>, dt: DateTime, page: Option<DayPage>,
                 ghost pages: seq<Option<DayPage>>, ghost dates: seq<Date>)
    returns (day: DayTimeline?, ghost footprint2: set<object>)
    requires ValidDateTime(dt) && Separate(days)
    requires |days| < |pages| == |dates| && pages[|days|] == page && dates[|days|] == dt.date
    requires forall j :: 0 <= j < |days| ==> ((days[j] == null <==> pages[j].None?) &&
      (days[j] != null ==> Built(days[j], dates[j], pages[j].value)))
    ensures Separate(days + [day])
    ensures forall j :: 0 <= j < |days| + 1 ==> (((days + [day])[j] == null <==> pages[j].None?) &&
      ((days + [day])[j] != null ==> Built((days + [day])[j], dates[j], pages[j].value)))
    ensures day != null ==> fresh(day.Repr())
    ensures footprint2 == if day == null then footprint else footprint + day.Repr()
  {
    day := null;
    footprint2 := footprint;
    if page.Some? {
      var p := page.value;
      day := new DayTimeline(dt, p.summary, p.steps, p.details, p.sleep, p.activities, p.breakdown);
      assert forall j :: 0 <= j < |days| && days[j] != null ==> Apart(days[j], day) && Apart(day, days[j]);
      footprint2 := footprint + day.Repr();
    }
    SeparateSnoc(days, day);
  }

  /** The names `bot.py` imports at module level. */
  const BOT_IMPORTS: set<string> := {"csv", "json", "timedelta", "BeautifulSoup", "SeleniumForm", "webdriver",
                                     "By", "EC", "WebDriverWait", "GCDayTimeline"}

  /**
    The end of `__init__`, once the browser has started and the fields are set: the region is
    read from the URL, `log_message(garmin_region)` is looked up among the module's `names`, and
    only when it is found does the login URL follow; otherwise `NameError` ends the constructor.
   */
  function InitLoginUrl(url: string, names: set<string>): (r: Result<string>)
    ensures r.Ok? <==> "log_message" in names
    ensures r.Err? ==> r.error == NameError
    ensures r.Ok? ==> r.value == LoginUrl(Region(url))
  {
    if "log_message" in names then Ok(LoginUrl(Region(url))) else Err(NameError)
  }

  /** As written, `log_message` is not among the names `bot.py` imports: every bot construction raises. */
  lemma {:induction false} InitAsWrittenRaises(url: string)
    ensures InitLoginUrl(url, BOT_IMPORTS) == Err(NameError)
  {
    assert "log_message" !in BOT_IMPORTS;
  }

  /** With the logger imported, construction gets to the login URL of the constructor below. */
  lemma {:induction false} InitWithLogger(url: string)
    ensures InitLoginUrl(url, BOT_IMPORTS + {"log_message"}) == Ok(LoginUrl(Region(url)))
  {
  }

  class GarminConnectBot {
    const userName: string
    const userPassword: string
    const downloadGpx: bool
    const userUrl: string
    const loginUrl: string
    /** True once a login succeeded, false after one that failed. */
    var userLoggedIn: bool
    var userId: Option<string>

    /**
      Not logged in, no id yet; the login URL points at the region of `url`. This is `__init__`
      with `log_message` imported from the logger module; the message itself is not modelled.
     */
    constructor (userName: string, password: string, downloadGpx: bool, url: string)
      ensures this.userName == userName && userPassword == password && this.downloadGpx == downloadGpx
      ensures userUrl == url + USER_PATH && loginUrl == LoginUrl(Region(url))
      ensures !userLoggedIn && userId == None
    {
      this.userName := userName;
      userPassword := password;
      this.downloadGpx := downloadGpx;
      userUrl := url + USER_PATH;
      loginUrl := LoginUrl(Region(url));
      userLoggedIn := false;
      userId := None;
    }

    /** `login`: whether the login form went through is the browser's answer `succeeds`. */
    method Login(succeeds: bool) returns (ok: bool)
      modifies this
      ensures ok == succeeds && userLoggedIn == succeeds && userId == old(userId)
    {
      userLoggedIn := succeeds;
      ok := succeeds;
    }

    /** `go_to_dashboard`: logs in first when not logged in yet. */
    method GoToDashboard(loginSucceeds: bool)
      modifies this
      ensures userLoggedIn == (old(userLoggedIn) || loginSucceeds) && userId == old(userId)
    {
      if !userLoggedIn {
        var _ := Login(loginSucceeds);
      }
    }

    /**
      `_find_user_id`: with an id already set nothing happens; otherwise the dashboard is
      opened and the first widget whose `href` can be read gives the id, later ones being
      ignored. `widgets` holds each widget's `href`, or `None` where reading it raises.
     */
    method FindUserId(loginSucceeds: bool, widgets: seq<Option<string>>)
      modifies this
      ensures !IdUnset(old(userId)) ==> userId == old(userId) && userLoggedIn == old(userLoggedIn)
      ensures IdUnset(old(userId)) ==> userLoggedIn == (old(userLoggedIn) || loginSucceeds)
      ensures IdUnset(old(userId)) ==>
        userId == if FirstHref(widgets).Some? then Some(UserIdOf(FirstHref(widgets).value)) else old(userId)
    {
      if IdUnset(userId) {
        GoToDashboard(loginSucceeds);
        var idFound := false;
        for i := 0 to |widgets|
          invariant userLoggedIn == (old(userLoggedIn) || loginSucceeds)
          invariant idFound <==> FirstHref(widgets[..i]).Some?
          invariant idFound ==> userId == Some(UserIdOf(FirstHref(widgets[..i]).value))
          invariant !idFound ==> userId == old(userId)
        {
          assert widgets[..i + 1][..i] == widgets[..i];
          if !idFound {
            var href := widgets[i];
            if href.Some? {
              userId := Some(UserIdOf(href.value));
              idFound := true;
            }
          }
        }
        assert widgets[..|widgets|] == widgets;
      }
    }

    /** `go_to_day`: finds the user id if needed, then opens the day's summary URL, returned here. */
    method GoToDay(loginSucceeds: bool, widgets: seq<Option<string>>, dt: DateTime) returns (url: string)
      requires ValidDateTime(dt)
      modifies this
      ensures !IdUnset(old(userId)) ==> userId == old(userId) && userLoggedIn == old(userLoggedIn)
      ensures IdUnset(old(userId)) ==>
        userId == if FirstHref(widgets).Some? then Some(UserIdOf(FirstHref(widgets).value)) else old(userId)
      ensures url == DayUrl(userId, dt.date)
    {
      FindUserId(loginSucceeds, widgets);
      url := DayUrl(userId, dt.date);
    }

    /**
      `get_days`: one `get_day` per day from `min` on, `(max - min).days + 1` of them; a day
      whose page could not be read is `None`.
     */
    method GetDays(minDt: DateTime, maxDt: DateTime, getDay: DateTime -> Option<DayPage>)
      returns (days: seq<DayTimeline?>, ghost footprint: set<object>)
      requires ValidDateTime(minDt) && ValidDateTime(maxDt)
      ensures |days| == DayCount(minDt, maxDt)
      ensures var pages := Pages(minDt, |days|, getDay); var dates := RangeDates(minDt, |days|);
        forall i :: 0 <= i < |days| ==> ((days[i] == null <==> pages[i].None?) &&
          (days[i] != null ==> fresh(days[i].Repr()) && Built(days[i], dates[i], pages[i].value)))
      ensures Separate(days)
      ensures fresh(footprint) && forall i :: 0 <= i < |days| && days[i] != null ==> days[i].Repr() <= footprint
    {
      ghost var pages := Pages(minDt, DayCount(minDt, maxDt), getDay);
      ghost var dates := RangeDates(minDt, DayCount(minDt, maxDt));
      days := [];
      footprint := {};
      for i := 0 to DayCount(minDt, maxDt)
        invariant |days| == i
        invariant forall j :: 0 <= j < i ==> ((days[j] == null <==> pages[j].None?) &&
          (days[j] != null ==> Built(days[j], dates[j], pages[j].value)))
        invariant Separate(days)
        invariant fresh(footprint) && forall j :: 0 <= j < i && days[j] != null ==> days[j].Repr() <= footprint
      {
        var dayToGet := PlusDays(minDt, i);
        var day;
        day, footprint := MakeDay(days, footprint, dayToGet, getDay(dayToGet), pages, dates);
        days := days + [day];
      }
    }

    /** `d.parse()` told as the day's result: the parsed sections, or the exception it raised. */
    method ParseDay(day: DayTimeline) returns (o: Outcome)
      modifies day.Repr()
      ensures DayResult(day.Page(), old(day.State())) == if o.Pass? then Ok(day.State()) else Err(o.error)
    {
      o := day.Parse();
    }

    /** `d.parse()` on the `i`-th day of a range: the other days keep their sections. */
    method ParseAt(days: seq<DayTimeline?>, ghost pages: seq<Option<DayPage>>, i: nat) returns (o: Outcome)
      requires i < |days| && days[i] != null && Separate(days)
      requires |pages| == |days| && pages[i] == Some(days[i].Page()) && days[i].State() == FreshState()
      modifies days[i].Repr()
      ensures ParseResults(pages)[i] == if o.Pass? then Ok(days[i].State()) else Err(o.error)
      ensures forall j :: 0 <= j < |days| && j != i && days[j] != null ==> days[j].State() == old(days[j].State())
    {
      ParseResultsAt(pages, i);
      o := ParseDay(days[i]);
      forall j | 0 <= j < |days| && j != i && days[j] != null
        ensures days[j].State() == old(days[j].State())
      {
        assert Apart(days[i], days[j]);
        StateUnchanged(days[j]);
      }
    }

    /**
      The loop `for d in data: d.parse()` of the save methods: a `None` day raises
      `AttributeError`, and the first exception of a `parse` ends the loop.
     */
    method ParseDays(days: seq<DayTimeline?>, ghost pages: seq<Option<DayPage>>, ghost footprint: set<object>) returns (o: Outcome)
      requires |pages| == |days| && Separate(days)
      requires forall i :: 0 <= i < |days| ==> (days[i] == null <==> pages[i].None?)
      requires forall i :: 0 <= i < |days| && days[i] != null ==> days[i].Page() == pages[i].value && days[i].State() == FreshState()
      requires forall i :: 0 <= i < |days| && days[i] != null ==> days[i].Repr() <= footprint
      modifies footprint
      ensures o == UntilFailure(ParseResults(pages)).1
      ensures o.Pass? ==> |UntilFailure(ParseResults(pages)).0| == |days| && forall i :: 0 <= i < |days| ==>
        days[i] != null && days[i].State() == UntilFailure(ParseResults(pages)).0[i]
    {
      ghost var rs := ParseResults(pages);
      ghost var parsed: seq<DayState> := [];
      for i := 0 to |days|
        invariant |parsed| == i && UntilFailure(rs[..i]) == (parsed, Pass)
        invariant forall j :: 0 <= j < i ==> days[j] != null && days[j].State() == parsed[j]
        invariant forall j :: i <= j < |days| && days[j] != null ==> days[j].State() == FreshState()
      {
        if days[i] == null {
          ParseResultsAt(pages, i);
          UntilFailureErrAt(rs, i);
          return Fail(AttributeError);
        }
        var oi := ParseAt(days, pages, i);
        if oi.Fail? {
          UntilFailureErrAt(rs, i);
          return oi;
        }
        UntilFailureOkAt(rs, i);
        parsed := parsed + [days[i].State()];
        assert forall j :: 0 <= j < i + 1 ==> days[j] != null && days[j].State() == parsed[j];
      }
      assert rs[..|days|] == rs;
      return Pass;
    }

    /** `[d.to_csv_dict() for d in data]`: the rows in order, or the first exception. */
    method CsvRows(days: seq<DayTimeline?>, ghost dates: seq<Date>, ghost states: seq<DayState>, floatStr: real -> string)
      returns (rows: seq<seq<(string, string)>>, o: Outcome)
      requires |dates| == |states| == |days|
      requires forall i :: 0 <= i < |days| ==>
        days[i] != null && days[i].date == dates[i] && ValidDate(dates[i]) && days[i].State() == states[i]
      ensures (rows, o) == UntilFailure(CsvResults(dates, states, floatStr))
    {
      ghost var rs := CsvResults(dates, states, floatStr);
      rows := [];
      for i := 0 to |days|
        invariant UntilFailure(rs[..i]) == (rows, Pass)
      {
        var r := days[i].ToCsvDict(floatStr);
        if r.Err? {
          UntilFailureErrAt(rs, i);
          return rows, Fail(r.error);
        }
        UntilFailureOkAt(rs, i);
        rows := rows + [r.value];
      }
      assert rs[..|days|] == rs;
      o := Pass;
    }

    /** `d.to_json()` on the `i`-th day of a range: its activities are stringified, the other days keep theirs. */
    method JsonOne(days: seq<DayTimeline?>, i: nat, ghost s: DayState, floatStr: real -> string) returns (doc: Json)
      requires i < |days| && days[i] != null && ValidDate(days[i].date) && days[i].State() == s
      requires forall j :: 0 <= j < |days| && j != i && days[j] != null ==> Apart(days[i], days[j])
      modifies days[i].activities
      ensures doc == TimelineJson(days[i].date, s, floatStr) && days[i].State() == Stringify(s, floatStr)
      ensures forall j :: 0 <= j < |days| && j != i && days[j] != null ==> days[j].State() == old(days[j].State())
    {
      doc := days[i].ToJson(floatStr);
      forall j | 0 <= j < |days| && j != i && days[j] != null ensures days[j].State() == old(days[j].State()) {
        StateUnchanged(days[j]);
      }
    }

    /** A day's sections, after `to_json` when `done`. */
    static ghost function StateAfterJson(s: DayState, done: bool, floatStr: real -> string): DayState {
      if done then Stringify(s, floatStr) else s
    }

    /**
      `d.to_json()` on the `i`-th day of a range whose earlier days have had theirs: its activities
      are stringified, the other days keep theirs.
     */
    method JsonAt(days: seq<DayTimeline?>, i: nat, ghost dates: seq<Date>, ghost states: seq<DayState>,
                  floatStr: real -> string) returns (doc: Json)
      requires i < |days| == |dates| == |states| && Separate(days)
      requires forall j :: 0 <= j < |days| ==> days[j] != null && days[j].date == dates[j] && ValidDate(dates[j])
      requires forall j :: 0 <= j < |days| ==> days[j].State() == StateAfterJson(states[j], j < i, floatStr)
      modifies days[i].activities
      ensures doc == TimelineJson(dates[i], states[i], floatStr)
      ensures forall j :: 0 <= j < |days| ==> days[j].State() == StateAfterJson(states[j], j < i + 1, floatStr)
    {
      doc := JsonOne(days, i, states[i], floatStr);
    }

    /** The same, appending the day's document to those of the days before it. */
    method JsonStep(days: seq<DayTimeline?>, i: nat, ghost dates: seq<Date>, ghost states: seq<DayState>, docs: seq<Json>,
                    floatStr: real -> string) returns (docs2: seq<Json>)
      requires i < |days| == |dates| == |states| && |docs| == i && Separate(days)
      requires forall j :: 0 <= j < |days| ==> days[j] != null && days[j].date == dates[j] && ValidDate(dates[j])
      requires forall j :: 0 <= j < i ==> docs[j] == TimelineJson(dates[j], states[j], floatStr)
      requires forall j :: 0 <= j < |days| ==> days[j].State() == StateAfterJson(states[j], j < i, floatStr)
      modifies days[i].activities
      ensures |docs2| == i + 1
      ensures forall j :: 0 <= j < i + 1 ==> docs2[j] == TimelineJson(dates[j], states[j], floatStr)
      ensures forall j :: 0 <= j < |days| ==> days[j].State() == StateAfterJson(states[j], j < i + 1, floatStr)
    {
      var doc := JsonAt(days, i, dates, states, floatStr);
      DocsSnoc(dates, states, docs, doc, floatStr);
      docs2 := docs + [doc];
    }

    /**
      `[json.loads(d.to_json()) for d in data]`: each day's document; on the way every day's
      activity dicts are stringified in place.
     */
    method JsonDocs(days: seq<DayTimeline?>, ghost dates: seq<Date>, ghost states: seq<DayState>, floatStr: real -> string,
                    ghost footprint: set<object>) returns (docs: seq<Json>)
      requires |dates| == |states| == |days| && Separate(days)
      requires forall i :: 0 <= i < |days| ==> days[i] != null && days[i].date == dates[i] && ValidDate(dates[i])
      requires forall i :: 0 <= i < |days| ==> days[i].State() == states[i] && days[i].Repr() <= footprint
      modifies footprint
      ensures |docs| == |days| && forall i :: 0 <= i < |days| ==> docs[i] == TimelineJson(dates[i], states[i], floatStr)
      ensures forall i :: 0 <= i < |days| ==> days[i].State() == Stringify(states[i], floatStr)
    {
      docs := [];
      for i := 0 to |days|
        invariant |docs| == i
        invariant forall j :: 0 <= j < i ==> docs[j] == TimelineJson(dates[j], states[j], floatStr)
        invariant forall j :: 0 <= j < |days| ==> days[j].State() == StateAfterJson(states[j], j < i, floatStr)
      {
        docs := JsonStep(days, i, dates, states, docs, floatStr);
      }
    }

    /** The inner loop of `save_gpx`: one day's activities in order, up to the first that raises. */
    method VisitDay(acts: seq<seq<(string, Value)>>) returns (fetched: seq<Value>, o: Outcome)
      ensures (fetched, o) == DayVisits(acts)
    {
      fetched := [];
      for k := 0 to |acts|
        invariant DayVisits(acts[..k]) == (fetched, Pass)
      {
        assert acts[..k + 1][..k] == acts[..k];
        var v := GpxVisit(acts[k]);
        fetched := fetched + v.0;
        if v.1.Fail? {
          DayVisitsStop(acts, k);
          return fetched, v.1;
        }
      }
      assert acts[..|acts|] == acts;
      o := Pass;
    }

    /**
      `save_gpx(data)` over timelines: with downloads on, every day's activities are looked up
      first (a `None` day raises `AttributeError`), then each activity's `gpx` URL is visited.
      `actss` holds what each day's activity list holds.
     */
    method SaveGpx(days: seq<DayTimeline?>, ghost actss: seq<seq<seq<(string, Value)>>>) returns (fetched: seq<Value>, o: Outcome)
      requires |actss| == |days|
      requires forall i :: 0 <= i < |days| && days[i] != null ==> days[i].activities.activities == actss[i]
      ensures !downloadGpx ==> fetched == [] && o == Pass
      ensures downloadGpx && (exists i :: 0 <= i < |days| && days[i] == null) ==> fetched == [] && o == Fail(AttributeError)
      ensures downloadGpx && (forall i :: 0 <= i < |days| ==> days[i] != null) ==> (fetched, o) == RangeVisits(actss)
    {
      if !downloadGpx {
        return [], Pass;
      }
      var timelines: seq<DayActivities> := [];
      for i := 0 to |days|
        invariant |timelines| == i && forall j :: 0 <= j < i ==> days[j] != null && timelines[j] == days[j].activities
      {
        if days[i] == null {
          return [], Fail(AttributeError);
        }
        timelines := timelines + [days[i].activities];
      }
      fetched := [];
      for i := 0 to |timelines|
        invariant RangeVisits(actss[..i]) == (fetched, Pass)
      {
        var dayFetched, dayOutcome := VisitDay(timelines[i].activities);
        assert actss[..i + 1][..i] == actss[..i];
        if dayOutcome.Fail? {
          RangeVisitsStop(actss, i);
          return fetched + dayFetched, dayOutcome;
        }
        fetched := fetched + dayFetched;
      }
      assert actss[..|days|] == actss;
      o := Pass;
    }

    /**
      What both saves start with: `data = self.get_days(...)`, then `d.parse()` on every day in
      order, up to the first that raises; on success, the parsed timelines of the whole range.
     */
    method FetchAndParse(minDt: DateTime, maxDt: DateTime, getDay: DateTime -> Option<DayPage>)
      returns (days: seq<DayTimeline?>, o: Outcome, ghost states: seq<DayState>, ghost footprint: set<object>)
      requires ValidDateTime(minDt) && ValidDateTime(maxDt)
      ensures o == ParsedRange(minDt, maxDt, getDay).1
      ensures o.Pass? ==> states == ParsedRange(minDt, maxDt, getDay).0 && |days| == |states| == DayCount(minDt, maxDt)
      ensures o.Pass? ==> Separate(days) && forall i :: 0 <= i < |days| ==>
        days[i] != null && days[i].date == RangeDates(minDt, |days|)[i] && ValidDate(days[i].date) &&
        days[i].State() == states[i] && days[i].Repr() <= footprint
      ensures fresh(footprint)
    {
      days, footprint := GetDays(minDt, maxDt, getDay);
      ghost var pages := Pages(minDt, |days|, getDay);
      o := ParseDays(days, pages, footprint);
      states := UntilFailure(ParseResults(pages)).0;
    }

    /**
      The part `save_csv_days` shares before `save_gpx`: fetch the range, parse every day,
      turn each into its CSV dict and take the header from the first; returns the timelines too.
     */
    method DumpCsv(minDt: DateTime, maxDt: DateTime, getDay: DateTime -> Option<DayPage>, floatStr: real -> string)
      returns (written: Result<CsvDump>, days: seq<DayTimeline?>)
      requires ValidDateTime(minDt) && ValidDateTime(maxDt)
      ensures written == CsvDumpOf(minDt, maxDt, getDay, floatStr)
      ensures written.Ok? ==> ParsedRange(minDt, maxDt, getDay).1.Pass?
      ensures written.Ok? ==> var states := ParsedRange(minDt, maxDt, getDay).0;
        |days| == |states| && forall i :: 0 <= i < |days| ==> days[i] != null && days[i].activities.activities == states[i].activities
    {
      var o;
      ghost var states, footprint;
      days, o, states, footprint := FetchAndParse(minDt, maxDt, getDay);
      if o.Fail? {
        return Err(o.error), days;
      }
      var rows, o2 := CsvRows(days, RangeDates(minDt, |states|), states, floatStr);
      if o2.Fail? {
        return Err(o2.error), days;
      }
      if |rows| == 0 {
        return Err(IndexError), days;
      }
      written := Ok(CsvDump(Keys(rows[0]), rows));
    }

    /**
      `save_csv_days` as written: after the CSV file it passes the CSV dicts, not the
      timelines, to `save_gpx`, whose `timeline.activities` a dict does not have; so with
      downloads on the call always ends in `AttributeError`.
     */
    method SaveCsvDays(minDt: DateTime, maxDt: DateTime, getDay: DateTime -> Option<DayPage>, floatStr: real -> string)
      returns (written: Result<CsvDump>, after: Outcome)
      requires ValidDateTime(minDt) && ValidDateTime(maxDt)
      ensures written == CsvDumpOf(minDt, maxDt, getDay, floatStr)
      ensures after == if written.Err? then Fail(written.error) else if downloadGpx then Fail(AttributeError) else Pass
    {
      var days;
      written, days := DumpCsv(minDt, maxDt, getDay, floatStr);
      if written.Err? {
        return written, Fail(written.error);
      }
      after := if downloadGpx then Fail(AttributeError) else Pass;
    }

    /**
      `save_csv_days` handing the timelines to `save_gpx`, as `save_json_days` does: with
      downloads on, every activity's `gpx` URL is visited, day after day, and nothing raises.
     */
    method SaveCsvDaysCorrected(minDt: DateTime, maxDt: DateTime, getDay: DateTime -> Option<DayPage>, floatStr: real -> string)
      returns (written: Result<CsvDump>, fetched: seq<Value>, after: Outcome)
      requires ValidDateTime(minDt) && ValidDateTime(maxDt)
      ensures written == CsvDumpOf(minDt, maxDt, getDay, floatStr)
      ensures written.Err? ==> fetched == [] && after == Fail(written.error)
      ensures written.Ok? ==> after == Pass
      ensures written.Ok? ==>
        fetched == if downloadGpx then RangeVisits(RangeActivities(ParsedRange(minDt, maxDt, getDay).0)).0 else []
    {
      var days;
      written, days := DumpCsv(minDt, maxDt, getDay, floatStr);
      if written.Err? {
        return written, [], Fail(written.error);
      }
      ParsedRangeVisits(minDt, maxDt, getDay, floatStr);
      ghost var actss := RangeActivities(ParsedRange(minDt, maxDt, getDay).0);
      fetched, after := SaveGpx(days, actss);
    }

    /**
      `save_json_days`: fetch the range, parse every day, dump each day's document (which
      stringifies its activities in place), then `save_gpx` over the timelines.
     */
    method SaveJsonDays(minDt: DateTime, maxDt: DateTime, getDay: DateTime -> Option<DayPage>, floatStr: real -> string)
      returns (written: Result<seq<Json>>, fetched: seq<Value>, after: Outcome)
      requires ValidDateTime(minDt) && ValidDateTime(maxDt)
      ensures written == JsonDumpOf(minDt, maxDt, getDay, floatStr)
      ensures written.Err? ==> fetched == [] && after == Fail(written.error)
      ensures written.Ok? ==> after == Pass
      ensures written.Ok? ==>
        fetched == if downloadGpx then RangeVisits(RangeStringified(ParsedRange(minDt, maxDt, getDay).0, floatStr)).0 else []
    {
      var days;
      written, days := DumpJson(minDt, maxDt, getDay, floatStr);
      if written.Err? {
        return written, [], Fail(written.error);
      }
      ParsedRangeVisits(minDt, maxDt, getDay, floatStr);
      ghost var actss := RangeStringified(ParsedRange(minDt, maxDt, getDay).0, floatStr);
      fetched, after := SaveGpx(days, actss);
    }

    /** The `json.dump` half of `save_json_days`: the fetched range as timeline documents, or the first exception. */
    method DumpJson(minDt: DateTime, maxDt: DateTime, getDay: DateTime -> Option<DayPage>, floatStr: real -> string)
      returns (written: Result<seq<Json>>, days: seq<DayTimeline?>)
      requires ValidDateTime(minDt) && ValidDateTime(maxDt)
      ensures written == JsonDumpOf(minDt, maxDt, getDay, floatStr)
      ensures written.Ok? ==> ParsedRange(minDt, maxDt, getDay).1.Pass?
      ensures written.Ok? ==> var states := ParsedRange(minDt, maxDt, getDay).0;
        |days| == |states| && forall i :: 0 <= i < |days| ==>
          days[i] != null && days[i].activities.activities == StringifiedAll(states[i].activities, floatStr)
    {
      var o;
      ghost var states, footprint;
      days, o, states, footprint := FetchAndParse(minDt, maxDt, getDay);
      if o.Fail? {
        return Err(o.error), days;
      }
      ghost var dates := RangeDates(minDt, |states|);
      var docs := JsonDocs(days, dates, states, floatStr, footprint);
      JsonDocsOfEq(dates, states, docs, floatStr);
      written := Ok(docs);
    }
  }
}
