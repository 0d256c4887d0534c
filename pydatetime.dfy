/**
  The parts of Python's `datetime` module the scrapers rely on: `time` and `date` values,
  `datetime.strptime` for the formats they use, `strftime`/`str()` of those values, and
  day arithmetic with `timedelta(days=...)`.

  `strptime` matches a format against a regular expression in which every numeric field is a
  list of one- or two-digit alternatives and the literal separators (`:`, `-`, `T`, blanks) are
  not digits. A field therefore has to match exactly the text between two separators, which is
  how each format is written below.
 */
module PyDateTime {
  import opened Wrappers
  import opened Text

  /** A `datetime.time` value (microseconds are always zero here). */
  datatype ClockTime = ClockTime(hour: nat, minute: nat, second: nat)

  predicate ValidTime(t: ClockTime) {
    t.hour < 24 && t.minute < 60 && t.second < 60
  }

  /** The number of seconds since midnight. */
  function SecondsOf(t: ClockTime): nat {
    t.hour * 3600 + t.minute * 60 + t.second
  }

  lemma {:induction false} SecondsOfBounds(t: ClockTime)
    requires ValidTime(t)
    ensures 0 <= SecondsOf(t) < 86400
  {
  }

  /** `"%02d" % n`. */
  function Pad2(n: nat): (s: string)
    ensures |s| >= 2 && AllDigits(s)
  {
    if n < 100 then TwoDigits(n) else NatToString(n)
  }

  /** `str(t)` for a `datetime.time` without microseconds: `HH:MM:SS`. */
  function TimeStr(t: ClockTime): (s: string)
    ensures ValidTime(t) ==> |s| == 8
  {
    Pad2(t.hour) + ":" + Pad2(t.minute) + ":" + Pad2(t.second)
  }

  // ----- the field patterns of `_strptime` (ASCII digits) -----

  function TwoDigitValue(p: string): nat
    requires |p| == 2 && AllDigits(p)
  {
    DigitValue(p[0]) * 10 + DigitValue(p[1])
  }

  /** `%H` = `2[0-3]|[0-1]\d|\d`. */
  function HourField(p: string): (v: Option<nat>)
    ensures v.Some? ==> v.value < 24 && 1 <= |p| <= 2 && AllDigits(p)
  {
    if |p| == 1 && IsDigit(p[0]) then Some(DigitValue(p[0]))
    else if |p| == 2 && AllDigits(p) && (p[0] <= '1' || (p[0] == '2' && p[1] <= '3')) then Some(TwoDigitValue(p))
    else None
  }

  /** `%M` = `[0-5]\d|\d`. */
  function MinuteField(p: string): (v: Option<nat>)
    ensures v.Some? ==> v.value < 60 && 1 <= |p| <= 2 && AllDigits(p)
  {
    if |p| == 1 && IsDigit(p[0]) then Some(DigitValue(p[0]))
    else if |p| == 2 && AllDigits(p) && p[0] <= '5' then Some(TwoDigitValue(p))
    else None
  }

  /** `%S` = `6[0-1]|[0-5]\d|\d` (61 and 60 are matched and later refused by the constructor). */
  function SecondField(p: string): (v: Option<nat>)
    ensures v.Some? ==> v.value < 62 && 1 <= |p| <= 2 && AllDigits(p)
  {
    if |p| == 1 && IsDigit(p[0]) then Some(DigitValue(p[0]))
    else if |p| == 2 && AllDigits(p) && (p[0] <= '5' || (p[0] == '6' && p[1] <= '1')) then Some(TwoDigitValue(p))
    else None
  }

  /** `%I` and `%m` = `1[0-2]|0[1-9]|[1-9]`. */
  function OneToTwelveField(p: string): (v: Option<nat>)
    ensures v.Some? ==> 1 <= v.value <= 12 && 1 <= |p| <= 2 && AllDigits(p)
  {
    if |p| == 1 && IsDigit(p[0]) && p[0] != '0' then Some(DigitValue(p[0]))
    else if |p| == 2 && AllDigits(p) && ((p[0] == '1' && p[1] <= '2') || (p[0] == '0' && p[1] != '0')) then Some(TwoDigitValue(p))
    else None
  }

  /** `%d` = `3[0-1]|[1-2]\d|0[1-9]|[1-9]| [1-9]`. */
  function DayField(p: string): (v: Option<nat>)
    ensures v.Some? ==> 1 <= v.value <= 31
  {
    if |p| == 1 && IsDigit(p[0]) && p[0] != '0' then Some(DigitValue(p[0]))
    else if |p| == 2 && p[0] == ' ' && IsDigit(p[1]) && p[1] != '0' then Some(DigitValue(p[1]))
    else if |p| == 2 && AllDigits(p) && (p[0] == '1' || p[0] == '2' || (p[0] == '3' && p[1] <= '1') || (p[0] == '0' && p[1] != '0')) then Some(TwoDigitValue(p))
    else None
  }

  /** Every two-digit rendering of a value is read back by the fields whose range holds it. */
  lemma {:induction false} TwoDigitsFields(n: nat)
    requires n < 100
    ensures TwoDigitValue(TwoDigits(n)) == n
    ensures n < 24 ==> HourField(TwoDigits(n)) == Some(n)
    ensures n < 60 ==> MinuteField(TwoDigits(n)) == Some(n) && SecondField(TwoDigits(n)) == Some(n)
    ensures 1 <= n <= 12 ==> OneToTwelveField(TwoDigits(n)) == Some(n)
    ensures 1 <= n <= 31 ==> DayField(TwoDigits(n)) == Some(n)
  {
  }

  /** `a:b` splits into its two parts when neither holds a colon. */
  lemma {:induction false} ColonPair(a: string, b: string)
    requires AllDigits(a) && AllDigits(b)
    ensures Count(a + ":" + b, ':') == 1
    ensures Split(a + ":" + b, ":") == [a, b]
  {
    DigitsCount(a, ':');
    DigitsCount(b, ':');
    assert a + ":" + b == a + [':'] + b;
    CountConcat(a + [':'], b, ':');
    CountConcat(a, [':'], ':');
    SplitFirst(a, ':', b);
    SplitAbsent(b, ':');
  }

  lemma {:induction false} ColonTriple(a: string, b: string, c: string)
    requires AllDigits(a) && AllDigits(b) && AllDigits(c)
    ensures Count(a + ":" + b + ":" + c, ':') == 2
    ensures Split(a + ":" + b + ":" + c, ":") == [a, b, c]
  {
    DigitsCount(a, ':');
    ColonPair(b, c);
    assert a + ":" + b + ":" + c == a + [':'] + (b + ":" + c);
    CountConcat(a + [':'], b + ":" + c, ':');
    CountConcat(a, [':'], ':');
    SplitFirst(a, ':', b + ":" + c);
  }

  /** `%Y` = `\d\d\d\d`. */
  function YearField(p: string): Option<nat> {
    if |p| == 4 && AllDigits(p) then Some(DigitsValue(p)) else None
  }

  /** The `datetime(1900, 1, 1, h, m, s)` constructor behind `strptime(...).time()`: it refuses seconds 60 and 61. */
  function TimeOf(h: nat, m: nat, s: nat): (r: Result<ClockTime>)
    requires h < 24 && m < 60
    ensures r.Ok? ==> ValidTime(r.value)
  {
    if s < 60 then Ok(ClockTime(h, m, s)) else Err(ValueError)
  }

  // ----- `datetime.strptime(s, fmt).time()` for the time formats -----

  /** Format `%H:%M:%S`. */
  function StrptimeHMS(s: string): (r: Result<ClockTime>)
    ensures r.Ok? ==> ValidTime(r.value)
  {
    var p := Split(s, ":");
    if |p| != 3 then Err(ValueError)
    else
      var h, m, x := HourField(p[0]), MinuteField(p[1]), SecondField(p[2]);
      if h.Some? && m.Some? && x.Some? then TimeOf(h.value, m.value, x.value) else Err(ValueError)
  }

  /** Every valid time written by `str()` is read back by `%H:%M:%S`. */
  lemma {:induction false} StrptimeHMSRoundTrip(t: ClockTime)
    requires ValidTime(t)
    ensures StrptimeHMS(TimeStr(t)) == Ok(t)
  {
    ColonTriple(Pad2(t.hour), Pad2(t.minute), Pad2(t.second));
    TwoDigitsFields(t.hour);
    TwoDigitsFields(t.minute);
    TwoDigitsFields(t.second);
  }

  /** Format `%M:%S`. */
  function StrptimeMS(s: string): (r: Result<ClockTime>)
    ensures r.Ok? ==> ValidTime(r.value)
  {
    var p := Split(s, ":");
    if |p| != 2 then Err(ValueError)
    else
      var m, x := MinuteField(p[0]), SecondField(p[1]);
      if m.Some? && x.Some? then TimeOf(0, m.value, x.value) else Err(ValueError)
  }

  /** Format `%S`. */
  function StrptimeS(s: string): (r: Result<ClockTime>)
    ensures r.Ok? ==> ValidTime(r.value)
  {
    var x := SecondField(s);
    if x.Some? then TimeOf(0, 0, x.value) else Err(ValueError)
  }

  /** Format `%H:%M`. */
  function StrptimeHM(s: string): (r: Result<ClockTime>)
    ensures r.Ok? ==> ValidTime(r.value)
  {
    var p := Split(s, ":");
    if |p| != 2 then Err(ValueError)
    else
      var h, m := HourField(p[0]), MinuteField(p[1]);
      if h.Some? && m.Some? then Ok(ClockTime(h.value, m.value, 0)) else Err(ValueError)
  }

  /** Format `%M`. */
  function StrptimeM(s: string): (r: Result<ClockTime>)
    ensures r.Ok? ==> ValidTime(r.value)
  {
    var m := MinuteField(s);
    if m.Some? then Ok(ClockTime(0, m.value, 0)) else Err(ValueError)
  }

  /** Number of non-whitespace characters at the start of `s`. */
  function LeadingNonSpaces(s: string): (k: nat)
    ensures k <= |s|
  {
    if s != [] && !IsSpace(s[0]) then 1 + LeadingNonSpaces(s[1..]) else 0
  }

  /** The hour of a 12-hour clock reading, as `_strptime` computes it from `%I` and `%p`. */
  function Hour24(h12: nat, pm: bool): (h: nat)
    requires 1 <= h12 <= 12
    ensures h < 24
  {
    if pm then (if h12 == 12 then 12 else h12 + 12) else (if h12 == 12 then 0 else h12)
  }

  /** Different 12-hour readings are different hours, and every hour has a reading. */
  lemma {:induction false} Hour24Bijective(a: nat, p: bool, b: nat, q: bool, h: nat)
    requires 1 <= a <= 12 && 1 <= b <= 12 && h < 24
    ensures Hour24(a, p) == Hour24(b, q) ==> a == b && p == q
    ensures Hour24(if h % 12 == 0 then 12 else h % 12, h >= 12) == h
  {
  }

  /**
    Format `%I:%M %p`: the blank of the format matches one or more whitespace characters and
    `%p` matches `am` or `pm` in any case (the C locale's names).
   */
  function Strptime12h(s: string): (r: Result<ClockTime>)
    ensures r.Ok? ==> ValidTime(r.value) && r.value.second == 0
  {
    var colon := IndexOf(s, ":");
    if colon.None? then Err(ValueError)
    else
      var rest := s[colon.value + 1..];
      var k := LeadingNonSpaces(rest);
      Clock12h(s[..colon.value], rest[..k], rest[k..])
  }

  /** The rest of `%I:%M %p` once the hour text and the minute text are cut out. */
  function Clock12h(hourText: string, minuteText: string, tail: string): (r: Result<ClockTime>)
    ensures r.Ok? ==> ValidTime(r.value) && r.value.second == 0
  {
    var blanks := LeadingSpaces(tail);
    var meridiem := LowerAscii(tail[blanks..]);
    var h, m := OneToTwelveField(hourText), MinuteField(minuteText);
    if h.Some? && m.Some? && blanks > 0 && (meridiem == "am" || meridiem == "pm")
    then Ok(ClockTime(Hour24(h.value, meridiem == "pm"), m.value, 0))
    else Err(ValueError)
  }

  lemma {:induction false} LeadingNonSpacesWord(word: string, rest: string)
    requires forall i :: 0 <= i < |word| ==> !IsSpace(word[i])
    requires rest == [] || IsSpace(rest[0])
    ensures LeadingNonSpaces(word + rest) == |word|
  {
    if word == [] {
      assert word + rest == rest;
    } else {
      assert (word + rest)[1..] == word[1..] + rest;
      LeadingNonSpacesWord(word[1..], rest);
    }
  }

  lemma {:induction false} LeadingSpacesRun(blanks: string, rest: string)
    requires forall i :: 0 <= i < |blanks| ==> IsSpace(blanks[i])
    requires rest == [] || !IsSpace(rest[0])
    ensures LeadingSpaces(blanks + rest) == |blanks|
  {
    if blanks == [] {
      assert blanks + rest == rest;
    } else {
      assert (blanks + rest)[1..] == blanks[1..] + rest;
      LeadingSpacesRun(blanks[1..], rest);
    }
  }

  /** How `%I:%M %p` reads a text made of an hour, `:`, a minute, blanks and a meridiem. */
  lemma {:induction false} Strptime12hColon(hourText: string, rest: string)
    requires Count(hourText, ':') == 0
    ensures var k := LeadingNonSpaces(rest);
      Strptime12h(hourText + ":" + rest) == Clock12h(hourText, rest[..k], rest[k..])
  {
    var s := hourText + ":" + rest;
    assert s == hourText + [':'] + rest;
    IndexOfFirst(hourText, ':', rest);
    assert s[..|hourText|] == hourText && s[|hourText| + 1..] == rest;
  }

  lemma {:induction false} Clock12hBlanks(hourText: string, minuteText: string, blanks: string, meridiem: string)
    requires |blanks| > 0 && forall i :: 0 <= i < |blanks| ==> IsSpace(blanks[i])
    requires meridiem == [] || !IsSpace(meridiem[0])
    ensures var h, m, lower := OneToTwelveField(hourText), MinuteField(minuteText), LowerAscii(meridiem);
      Clock12h(hourText, minuteText, blanks + meridiem)
        == if h.Some? && m.Some? && (lower == "am" || lower == "pm")
           then Ok(ClockTime(Hour24(h.value, lower == "pm"), m.value, 0))
           else Err(ValueError)
  {
    LeadingSpacesRun(blanks, meridiem);
    assert (blanks + meridiem)[|blanks|..] == meridiem;
  }

  /** How `%I:%M %p` reads a text made of an hour, `:`, a minute, blanks and a meridiem. */
  lemma {:induction false} Strptime12hParts(hourText: string, minuteText: string, blanks: string, meridiem: string)
    requires Count(hourText, ':') == 0
    requires forall i :: 0 <= i < |minuteText| ==> !IsSpace(minuteText[i])
    requires |blanks| > 0 && forall i :: 0 <= i < |blanks| ==> IsSpace(blanks[i])
    requires meridiem == [] || !IsSpace(meridiem[0])
    ensures var h, m, lower := OneToTwelveField(hourText), MinuteField(minuteText), LowerAscii(meridiem);
      Strptime12h(hourText + ":" + minuteText + blanks + meridiem)
        == if h.Some? && m.Some? && (lower == "am" || lower == "pm")
           then Ok(ClockTime(Hour24(h.value, lower == "pm"), m.value, 0))
           else Err(ValueError)
  {
    var tail := blanks + meridiem;
    var rest := minuteText + tail;
    assert hourText + ":" + minuteText + blanks + meridiem == hourText + ":" + rest;
    Strptime12hColon(hourText, rest);
    LeadingNonSpacesWord(minuteText, tail);
    assert rest[..|minuteText|] == minuteText && rest[|minuteText|..] == tail;
    Clock12hBlanks(hourText, minuteText, blanks, meridiem);
  }

  /** A 12-hour reading written as `%I:%M %p` is read back as the hour it denotes. */
  lemma {:induction false} Strptime12hRoundTrip(h12: nat, m: nat, pm: bool)
    requires 1 <= h12 <= 12 && m < 60
    ensures Strptime12h(TwoDigits(h12) + ":" + TwoDigits(m) + " " + (if pm then "PM" else "AM"))
         == Ok(ClockTime(Hour24(h12, pm), m, 0))
  {
    var meridiem := if pm then "PM" else "AM";
    DigitsCount(TwoDigits(h12), ':');
    assert LowerAscii(meridiem) == if pm then "pm" else "am";
    TwoDigitsFields(h12);
    TwoDigitsFields(m);
    Strptime12hParts(TwoDigits(h12), TwoDigits(m), " ", meridiem);
  }

  // ----- calendar dates -----

  /** A `datetime.date` value. */
  datatype Date = Date(year: int, month: int, day: int)

  predicate IsLeap(y: int) {
    y % 4 == 0 && (y % 100 != 0 || y % 400 == 0)
  }

  function DaysInMonth(y: int, m: int): (n: int)
    requires 1 <= m <= 12
    ensures 28 <= n <= 31
  {
    if m == 2 then (if IsLeap(y) then 29 else 28)
    else if m == 4 || m == 6 || m == 9 || m == 11 then 30
    else 31
  }

  /** A date the `datetime` constructor accepts (the upper year bound 9999 is not needed by the model). */
  predicate ValidDate(d: Date) {
    1 <= d.year && 1 <= d.month <= 12 && 1 <= d.day <= DaysInMonth(d.year, d.month)
  }

  function DaysInYear(y: int): int {
    if IsLeap(y) then 366 else 365
  }

  /** Days in the years before `y`, counted from year 1. */
  function DaysBeforeYear(y: int): int
    requires y >= 1
  {
    var p := y - 1;
    p * 365 + p / 4 - p / 100 + p / 400
  }

  /** Days in the months of year `y` before month `m`. */
  function DaysBeforeMonth(y: int, m: int): (n: int)
    requires 1 <= m <= 12
  {
    var table := [0, 31, 59, 90, 120, 151, 181, 212, 243, 273, 304, 334];
    table[m - 1] + (if m > 2 && IsLeap(y) then 1 else 0)
  }

  /** `date.toordinal()`: 0001-01-01 is day 1. */
  function Ordinal(d: Date): int
    requires ValidDate(d)
  {
    DaysBeforeYear(d.year) + DaysBeforeMonth(d.year, d.month) + d.day
  }

  lemma {:induction false} DaysBeforeYearStep(y: int)
    requires y >= 1
    ensures DaysBeforeYear(y + 1) == DaysBeforeYear(y) + DaysInYear(y)
  {
    var p := y - 1;
    assert (p + 1) / 4 == p / 4 + (if y % 4 == 0 then 1 else 0);
    assert (p + 1) / 100 == p / 100 + (if y % 100 == 0 then 1 else 0);
    assert (p + 1) / 400 == p / 400 + (if y % 400 == 0 then 1 else 0);
  }

  lemma {:induction false} DaysBeforeYearMonotone(a: int, b: int)
    requires 1 <= a <= b
    ensures DaysBeforeYear(a) + 365 * (b - a) <= DaysBeforeYear(b)
    decreases b - a
  {
    if a < b {
      DaysBeforeYearStep(a);
      DaysBeforeYearMonotone(a + 1, b);
    }
  }

  /** The day after `d`. */
  function NextDay(d: Date): (n: Date)
    requires ValidDate(d)
    ensures ValidDate(n) && Ordinal(n) == Ordinal(d) + 1
  {
    if d.day < DaysInMonth(d.year, d.month) then Date(d.year, d.month, d.day + 1)
    else if d.month < 12 then Date(d.year, d.month + 1, 1)
    else
      DaysBeforeYearStep(d.year);
      Date(d.year + 1, 1, 1)
  }

  /** `d + timedelta(days=n)`. */
  function AddDays(d: Date, n: nat): (r: Date)
    requires ValidDate(d)
    ensures ValidDate(r) && Ordinal(r) == Ordinal(d) + n
    decreases n
  {
    if n == 0 then d else AddDays(NextDay(d), n - 1)
  }

  lemma {:induction false} OrdinalWithinYear(d: Date)
    requires ValidDate(d)
    ensures DaysBeforeYear(d.year) < Ordinal(d) <= DaysBeforeYear(d.year) + DaysInYear(d.year)
  {
  }

  /** Distinct valid dates have distinct ordinals. */
  lemma {:induction false} OrdinalInjective(a: Date, b: Date)
    requires ValidDate(a) && ValidDate(b) && Ordinal(a) == Ordinal(b)
    ensures a == b
  {
    OrdinalWithinYear(a);
    OrdinalWithinYear(b);
    if a.year < b.year {
      DaysBeforeYearStep(a.year);
      DaysBeforeYearMonotone(a.year + 1, b.year);
      assert false;
    } else if b.year < a.year {
      DaysBeforeYearStep(b.year);
      DaysBeforeYearMonotone(b.year + 1, a.year);
      assert false;
    }
    assert a.month == b.month;
  }

  /** `str(d)`: `YYYY-MM-DD`, the year padded to four digits. */
  function IsoDate(d: Date): string
    requires ValidDate(d)
  {
    ZeroPad(d.year as nat, 4) + "-" + TwoDigits(d.month as nat) + "-" + TwoDigits(d.day as nat)
  }

  /** `d.strftime('%Y-%m-%d')` with the C library of Linux, which writes the year without padding. */
  function StrftimeDate(d: Date): (s: string)
    requires ValidDate(d)
  {
    NatToString(d.year as nat) + "-" + TwoDigits(d.month as nat) + "-" + TwoDigits(d.day as nat)
  }

  /** From the year 1000 on, `strftime` and `str()` write a date the same way. */
  lemma {:induction false} StrftimeDateIso(d: Date)
    requires ValidDate(d) && d.year >= 1000
    ensures StrftimeDate(d) == IsoDate(d)
  {
    assert Pow10(3) == 1000;
    NatToStringMinLength(d.year as nat, 4);
    assert ZeroPad(d.year as nat, 4) == NatToString(d.year as nat);
  }

  // ----- naive datetimes -----

  /** A naive `datetime.datetime` to the second. */
  datatype DateTime = DateTime(date: Date, secondOfDay: int)

  predicate ValidDateTime(t: DateTime) {
    ValidDate(t.date) && 0 <= t.secondOfDay < 86400
  }

  /** Seconds since 0001-01-01 00:00:00 plus one day; only differences matter. */
  function Timestamp(t: DateTime): int
    requires ValidDateTime(t)
  {
    Ordinal(t.date) * 86400 + t.secondOfDay
  }

  /** `(later - earlier).days`: `timedelta` keeps whole days rounded towards minus infinity. */
  function DaysDelta(later: DateTime, earlier: DateTime): int
    requires ValidDateTime(later) && ValidDateTime(earlier)
  {
    (Timestamp(later) - Timestamp(earlier)) / 86400
  }

  /** `t + timedelta(days=n)`: same time of day, `n` days later. */
  function PlusDays(t: DateTime, n: nat): (r: DateTime)
    requires ValidDateTime(t)
    ensures ValidDateTime(r) && Timestamp(r) == Timestamp(t) + n * 86400
  {
    DateTime(AddDays(t.date, n), t.secondOfDay)
  }

  /** `datetime.strptime(s, '%Y-%m-%dT%H:%M:%S')`, whose `T` matches either case. */
  function StrptimeIso(s: string): (r: Result<(Date, ClockTime)>)
    ensures r.Ok? ==> ValidDate(r.value.0) && ValidTime(r.value.1)
  {
    var dash := IndexOf(s, "-");
    if dash.None? then Err(ValueError) else IsoAfterYear(s[..dash.value], s[dash.value + 1..])
  }

  /** `strptime` on `%m-%dT%H:%M:%S` once the year text is cut out. */
  function IsoAfterYear(yearText: string, rest: string): (r: Result<(Date, ClockTime)>)
    ensures r.Ok? ==> ValidDate(r.value.0) && ValidTime(r.value.1)
  {
    var dash := IndexOf(rest, "-");
    if dash.None? then Err(ValueError) else IsoAfterMonth(yearText, rest[..dash.value], rest[dash.value + 1..])
  }

  /** `strptime` on `%dT%H:%M:%S` once the year and month texts are cut out. */
  function IsoAfterMonth(yearText: string, monthText: string, rest: string): (r: Result<(Date, ClockTime)>)
    ensures r.Ok? ==> ValidDate(r.value.0) && ValidTime(r.value.1)
  {
    var t := IndexOf(LowerAscii(rest), "t");
    if t.None? then Err(ValueError) else IsoFields(yearText, monthText, rest[..t.value], rest[t.value + 1..])
  }

  /** The fields of `%Y-%m-%dT%H:%M:%S` and the `datetime` constructor's date check. */
  function IsoFields(yearText: string, monthText: string, dayText: string, clockText: string): (r: Result<(Date, ClockTime)>)
    ensures r.Ok? ==> ValidDate(r.value.0) && ValidTime(r.value.1)
  {
    var y, m, d := YearField(yearText), OneToTwelveField(monthText), DayField(dayText);
    var clock := StrptimeHMS(clockText);
    if y.Some? && m.Some? && d.Some? && clock.Ok? then
      var date := Date(y.value, m.value, d.value);
      if ValidDate(date) then Ok((date, clock.value)) else Err(ValueError)
    else Err(ValueError)
  }

  /** The pieces `strptime` cuts out of `Y-M-DTrest` when `Y`, `M` and `D` are digit strings. */
  lemma {:induction false} IsoPieces(y: string, m: string, d: string, rest: string)
    requires AllDigits(y) && AllDigits(m) && AllDigits(d)
    ensures StrptimeIso(y + "-" + m + "-" + d + "T" + rest) == IsoAfterYear(y, m + "-" + d + "T" + rest)
  {
    var s := y + "-" + m + "-" + d + "T" + rest;
    var rest1 := m + "-" + d + "T" + rest;
    assert s == y + ['-'] + rest1;
    DigitsCount(y, '-');
    IndexOfFirst(y, '-', rest1);
    assert s[..|y|] == y && s[|y| + 1..] == rest1;
  }

  lemma {:induction false} IsoMonthPieces(y: string, m: string, d: string, rest: string)
    requires AllDigits(m) && AllDigits(d)
    ensures IsoAfterYear(y, m + "-" + d + "T" + rest) == IsoAfterMonth(y, m, d + "T" + rest)
  {
    var s := m + "-" + d + "T" + rest;
    assert s == m + ['-'] + (d + "T" + rest);
    DigitsCount(m, '-');
    IndexOfFirst(m, '-', d + "T" + rest);
    assert s[..|m|] == m && s[|m| + 1..] == d + "T" + rest;
  }

  lemma {:induction false} IsoDayPieces(y: string, m: string, d: string, rest: string)
    requires AllDigits(d)
    ensures IsoAfterMonth(y, m, d + "T" + rest) == IsoFields(y, m, d, rest)
  {
    var s := d + "T" + rest;
    LowerAsciiConcat(d + "T", rest);
    LowerAsciiConcat(d, "T");
    LowerAsciiDigits(d);
    assert LowerAscii("T") == "t";
    assert LowerAscii(s) == d + ['t'] + LowerAscii(rest);
    DigitsCount(d, 't');
    IndexOfFirst(d, 't', LowerAscii(rest));
    assert s == d + ['T'] + rest;
    assert s[..|d|] == d && s[|d| + 1..] == rest;
  }

  /** Round trip: a date with a four-digit year and a valid time, joined by `T`, are read back. */
  lemma {:induction false} StrptimeIsoRoundTrip(d: Date, t: ClockTime)
    requires ValidDate(d) && d.year <= 9999 && ValidTime(t)
    ensures StrptimeIso(IsoDate(d) + "T" + TimeStr(t)) == Ok((d, t))
  {
    var y, m, dd := ZeroPad(d.year as nat, 4), TwoDigits(d.month as nat), TwoDigits(d.day as nat);
    var rest := TimeStr(t);
    ZeroPadFour(d.year as nat);
    IsoPieces(y, m, dd, rest);
    IsoMonthPieces(y, m, dd, rest);
    IsoDayPieces(y, m, dd, rest);
    assert IsoDate(d) + "T" + TimeStr(t) == y + "-" + m + "-" + dd + "T" + rest;
    TwoDigitsFields(d.month as nat);
    TwoDigitsFields(d.day as nat);
    StrptimeHMSRoundTrip(t);
  }

  /** `dt.strftime('%Y-%m-%d %H:%M:%S')`, the year written as `StrftimeDate` writes it. */
  function IsoDateTimeStr(d: Date, t: ClockTime): string
    requires ValidDate(d) && ValidTime(t)
  {
    StrftimeDate(d) + " " + TimeStr(t)
  }
}
