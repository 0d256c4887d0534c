/**
  The scalar parsers of `pygce/models/garmin/utils.py`: locale-formatted numbers and the
  clock readings Garmin Connect prints for durations.
 */
module GarminUtils {
  import opened Wrappers
  import opened Text
  import opened PyDateTime

  const GARMIN_CONNECT_URL: string := "https://connect.garmin.com"

  /** The exact value of the decimal literal `intPart.fracPart`. */
  function DecimalValue(intPart: string, fracPart: string): real
    requires AllDigits(intPart) && AllDigits(fracPart)
  {
    DigitsValue(intPart) as real + DigitsValue(fracPart) as real / Pow10(|fracPart|) as real
  }

  /** The optional sign of a float literal: whether it is negative, and the text after it. */
  function SplitSign(t: string): (bool, string) {
    if |t| > 0 && (t[0] == '-' || t[0] == '+') then (t[0] == '-', t[1..]) else (false, t)
  }

  /** An unsigned decimal literal: digits with at most one point and at least one digit. */
  function UnsignedValue(body: string): Option<real> {
    var dot := IndexOf(body, ".");
    var intPart := if dot.Some? then body[..dot.value] else body;
    var fracPart := if dot.Some? then body[dot.value + 1..] else "";
    if AllDigits(intPart) && AllDigits(fracPart) && |intPart| + |fracPart| > 0
    then Some(DecimalValue(intPart, fracPart))
    else None
  }

  /**
    Python's `float(s)` on plain decimal literals: surrounding whitespace, an optional sign,
    digits with at most one point and at least one digit. The value is the exact rational the
    literal denotes.
   */
  function PyFloat(s: string): Result<real> {
    var (negative, body) := SplitSign(Strip(s));
    var v := UnsignedValue(body);
    if v.Some? then Ok(if negative then -v.value else v.value) else Err(ValueError)
  }

  /** The text `parse_num` hands to `float()`: stripped, `.` deleted, `,` turned into `.`. */
  function Normalise(n: string): string {
    ReplaceChar(DeleteChar(Strip(n), '.'), ',', '.')
  }

  /** `parse_num(n)`. */
  function ParseNum(n: string): Result<real> {
    PyFloat(Normalise(n))
  }

  /** The normalised text has one point per comma of the input and keeps its digits in order. */
  lemma {:induction false} NormaliseCountsAndDigits(n: string)
    ensures Count(Normalise(n), '.') == Count(n, ',')
    ensures DigitsIn(Normalise(n)) == DigitsIn(n)
  {
    var t := Strip(n);
    StripKeepsCount(n, ',');
    DeleteCharCount(t, '.', '.');
    DeleteCharCount(t, '.', ',');
    ReplaceCharCount(DeleteChar(t, '.'), ',', '.');
    StripKeepsDigits(n);
    DeleteCharKeepsDigits(t, '.');
    ReplaceCharKeepsDigits(DeleteChar(t, '.'), ',', '.');
  }

  /** A string holding a non-digit character is not a string of digits. */
  lemma {:induction false} NotAllDigits(s: string, c: char)
    requires !IsDigit(c) && Count(s, c) > 0
    ensures !AllDigits(s)
  {
    if AllDigits(s) { DigitsCount(s, c); }
  }

  /** An unsigned literal has at most one point. */
  lemma {:induction false} UnsignedManyPoints(body: string)
    requires Count(body, '.') >= 2
    ensures UnsignedValue(body).None?
  {
    IndexOfChar(body, '.');
    var k := IndexOf(body, ".").value;
    assert body == body[..k] + ['.'] + body[k + 1..];
    CountConcat(body[..k] + ['.'], body[k + 1..], '.');
    CountConcat(body[..k], ['.'], '.');
    NotAllDigits(body[k + 1..], '.');
  }

  /** `float()` refuses a text with two or more points. */
  lemma {:induction false} PyFloatManyPoints(s: string)
    requires Count(s, '.') >= 2
    ensures PyFloat(s).Err?
  {
    var t := Strip(s);
    StripKeepsCount(s, '.');
    if |t| > 0 && (t[0] == '-' || t[0] == '+') {
      assert t == [t[0]] + t[1..];
      CountConcat([t[0]], t[1..], '.');
    }
    UnsignedManyPoints(SplitSign(t).1);
  }

  /** An unsigned literal `digits.fracPart` denotes its decimal value. */
  lemma {:induction false} UnsignedLiteral(digits: string, fracPart: string)
    requires AllDigits(digits) && AllDigits(fracPart) && |digits| > 0
    ensures UnsignedValue(digits + "." + fracPart) == Some(DecimalValue(digits, fracPart))
  {
    var m := digits + "." + fracPart;
    DigitsCount(digits, '.');
    IndexOfFirst(digits, '.', fracPart);
    assert m[..|digits|] == digits;
    assert m[|digits| + 1..] == fracPart;
  }

  /** A literal starting with a digit and ending with a digit or point is read unsigned. */
  lemma {:induction false} PyFloatUnsigned(m: string)
    requires |m| > 0 && IsDigit(m[0]) && (IsDigit(m[|m| - 1]) || m[|m| - 1] == '.')
    ensures PyFloat(m) == (if UnsignedValue(m).Some? then Ok(UnsignedValue(m).value) else Err(ValueError))
  {
    StripNoSpace(m);
  }

  /** An input with two or more commas is refused, since its normalised text has several points. */
  lemma {:induction false} ParseNumManyCommas(n: string)
    requires Count(n, ',') >= 2
    ensures ParseNum(n).Err?
  {
    NormaliseCountsAndDigits(n);
    PyFloatManyPoints(Normalise(n));
  }

  /**
    The locale convention: an integer part whose digits may be grouped by `.`, then `,` and a
    fraction, is read as that integer plus that fraction.
   */
  lemma {:induction false} ParseNumLocale(intPart: string, fracPart: string)
    requires forall i :: 0 <= i < |intPart| ==> IsDigit(intPart[i]) || intPart[i] == '.'
    requires AllDigits(fracPart)
    requires |DeleteChar(intPart, '.')| > 0
    ensures var digits := DeleteChar(intPart, '.');
      AllDigits(digits) && ParseNum(intPart + "," + fracPart) == Ok(DecimalValue(digits, fracPart))
  {
    var digits := DeleteChar(intPart, '.');
    GroupedDigits(intPart);
    NormaliseLocale(intPart, fracPart);
    var m := digits + "." + fracPart;
    assert m[0] == digits[0];
    PyFloatUnsigned(m);
    UnsignedLiteral(digits, fracPart);
  }

  /** A plain string of digits is read as the whole number it denotes. */
  lemma {:induction false} ParseNumDigits(n: string)
    requires |n| > 0 && AllDigits(n)
    ensures ParseNum(n) == Ok(DigitsValue(n) as real)
  {
    assert !IsSpace(n[0]) && !IsSpace(n[|n| - 1]);
    StripNoSpace(n);
    DigitsCount(n, '.');
    DigitsCount(n, ',');
    DeleteCharAbsent(n, '.');
    ReplaceCharAbsent(n, ',', '.');
    assert Normalise(n) == n;
    assert SplitSign(n) == (false, n);
    PyFloatPlain(n);
  }

  /** A digit string without sign is read as its value. */
  lemma {:induction false} PyFloatPlain(n: string)
    requires |n| > 0 && AllDigits(n) && Strip(n) == n
    ensures PyFloat(n) == Ok(DigitsValue(n) as real)
  {
    assert SplitSign(n) == (false, n);
    DigitsCount(n, '.');
    IndexOfAbsent(n, '.');
    DecimalWhole(n);
  }

  /** A literal without a fraction denotes its integer part. */
  lemma {:induction false} DecimalWhole(n: string)
    requires AllDigits(n)
    ensures DecimalValue(n, "") == DigitsValue(n) as real
  {
    assert Pow10(0) == 1 && DigitsValue("") == 0;
  }

  lemma {:induction false} NormaliseLocale(intPart: string, fracPart: string)
    requires forall i :: 0 <= i < |intPart| ==> IsDigit(intPart[i]) || intPart[i] == '.'
    requires AllDigits(fracPart)
    requires AllDigits(DeleteChar(intPart, '.'))
    requires |DeleteChar(intPart, '.')| > 0
    ensures Normalise(intPart + "," + fracPart) == DeleteChar(intPart, '.') + "." + fracPart
  {
    var n := intPart + "," + fracPart;
    assert |intPart| > 0;
    assert n[0] == intPart[0];
    StripNoSpace(n);
    DeleteAroundComma(intPart, fracPart);
    DigitsCount(fracPart, '.');
    DeleteCharAbsent(fracPart, '.');
    DigitsCount(fracPart, ',');
    DigitsCount(DeleteChar(intPart, '.'), ',');
    ReplaceCommaOnce(DeleteChar(intPart, '.'), fracPart);
  }

  /** `a,b.c` (digits): the point is taken for a group separator and the comma for the decimal mark. */
  lemma {:induction false} NormaliseCommaDot(a: string, b: string, c: string)
    requires AllDigits(a) && AllDigits(b) && AllDigits(c) && |a| > 0 && |c| > 0
    ensures Normalise(a + "," + b + "." + c) == a + "." + (b + c)
  {
    var n := a + "," + b + "." + c;
    assert n[0] == a[0] && n[|n| - 1] == c[|c| - 1];
    StripNoSpace(n);
    assert n == a + "," + (b + "." + c);
    DeleteAroundComma(a, b + "." + c);
    DigitsCount(a, '.');
    DeleteCharAbsent(a, '.');
    DeleteAroundPoint(b, c);
    DigitsCount(a, ',');
    DigitsCount(b, ',');
    DigitsCount(c, ',');
    CountConcat(b, c, ',');
    ReplaceCommaOnce(a, b + c);
  }

  /** Deleting `.` from `b.c`, digits on both sides, joins them. */
  lemma {:induction false} DeleteAroundPoint(b: string, c: string)
    requires AllDigits(b) && AllDigits(c)
    ensures DeleteChar(b + "." + c, '.') == b + c
  {
    DeleteCharConcat(b + ".", c, '.');
    DeleteCharConcat(b, ".", '.');
    DigitsCount(b, '.');
    DeleteCharAbsent(b, '.');
    DigitsCount(c, '.');
    DeleteCharAbsent(c, '.');
    assert DeleteChar(".", '.') == "";
  }

  /** Deleting `.` from `x,f` deletes it on both sides of the comma. */
  lemma {:induction false} DeleteAroundComma(x: string, f: string)
    ensures DeleteChar(x + "," + f, '.') == DeleteChar(x, '.') + "," + DeleteChar(f, '.')
  {
    DeleteCharConcat(x + ",", f, '.');
    DeleteCharConcat(x, ",", '.');
    assert DeleteChar(",", '.') == ",";
  }

  /** The only comma of `a,d` becomes the decimal point. */
  lemma {:induction false} ReplaceCommaOnce(a: string, d: string)
    requires Count(a, ',') == 0 && Count(d, ',') == 0
    ensures ReplaceChar(a + "," + d, ',', '.') == a + "." + d
  {
    ReplaceCharConcat(a + ",", d, ',', '.');
    ReplaceCharConcat(a, ",", ',', '.');
    ReplaceCharAbsent(a, ',', '.');
    ReplaceCharAbsent(d, ',', '.');
    assert ReplaceChar(",", ',', '.') == ".";
  }

  /** Deleting the group separators of a grouped integer leaves its digits. */
  lemma {:induction false} GroupedDigits(s: string)
    requires forall i :: 0 <= i < |s| ==> IsDigit(s[i]) || s[i] == '.'
    ensures AllDigits(DeleteChar(s, '.'))
  {
    if s != [] {
      GroupedDigits(s[1..]);
    }
  }

  // ----- clock readings -----

  /** `parse_hh_mm_ss(h)`: the colon count of the stripped text picks `%H:%M:%S`, `%M:%S` or `%S`. */
  function ParseHhMmSs(h: string): (r: Result<ClockTime>)
    ensures r.Ok? ==> ValidTime(r.value)
  {
    var t := Strip(h);
    var colons := Count(t, ':');
    if colons == 2 then StrptimeHMS(t) else if colons == 1 then StrptimeMS(t) else StrptimeS(t)
  }

  /** `parse_hh_mm(h)`: one colon selects `%H:%M`, anything else `%M`. */
  function ParseHhMm(h: string): (r: Result<ClockTime>)
    ensures r.Ok? ==> ValidTime(r.value) && r.value.second == 0
  {
    var t := Strip(h);
    if Count(t, ':') == 1 then StrptimeHM(t) else StrptimeM(t)
  }

  /** The format chosen by the colon count fixes which parts of the result can be non-zero. */
  lemma {:induction false} ParseHhMmSsFormats(h: string)
    ensures var r, colons := ParseHhMmSs(h), Count(Strip(h), ':');
      && (r.Ok? && colons == 1 ==> r.value.hour == 0)
      && (r.Ok? && colons != 1 && colons != 2 ==> r.value.hour == 0 && r.value.minute == 0)
      && (colons > 2 ==> r.Err?)
  {
    var t := Strip(h);
    if Count(t, ':') > 2 {
      NotAllDigits(t, ':');
    }
  }

  /** With two or more colons `parse_hh_mm` fails; without exactly one the hour is 0. */
  lemma {:induction false} ParseHhMmFormats(h: string)
    ensures var r, colons := ParseHhMm(h), Count(Strip(h), ':');
      && (r.Ok? && colons != 1 ==> r.value.hour == 0)
      && (colons >= 2 ==> r.Err?)
  {
    var t := Strip(h);
    if Count(t, ':') >= 2 {
      NotAllDigits(t, ':');
    }
  }

  /** A text of digits and colons is its own strip. */
  lemma {:induction false} StripClock(a: string, rest: string)
    requires |a| > 0 && AllDigits(a)
    requires rest == [] || IsDigit(rest[|rest| - 1])
    ensures Strip(a + rest) == a + rest
  {
    var s := a + rest;
    assert s[0] == a[0];
    if rest == [] { assert s == a; }
    StripNoSpace(s);
  }

  /** Round trip: every valid time written as `HH:MM:SS` is parsed back to itself. */
  lemma {:induction false} ParseHhMmSsRoundTrip(t: ClockTime)
    requires ValidTime(t)
    ensures ParseHhMmSs(TimeStr(t)) == Ok(t)
  {
    var a, b, c := Pad2(t.hour), Pad2(t.minute), Pad2(t.second);
    assert TimeStr(t) == a + (":" + b + ":" + c);
    StripClock(a, ":" + b + ":" + c);
    ColonTriple(a, b, c);
    StrptimeHMSRoundTrip(t);
  }

  /** Every valid `MM:SS` reading is parsed to that minute and second past hour 0. */
  lemma {:induction false} ParseHhMmSsMinutes(m: nat, s: nat)
    requires m < 60 && s < 60
    ensures ParseHhMmSs(TwoDigits(m) + ":" + TwoDigits(s)) == Ok(ClockTime(0, m, s))
  {
    var a, b := TwoDigits(m), TwoDigits(s);
    assert a + ":" + b == a + (":" + b);
    StripClock(a, ":" + b);
    ColonPair(a, b);
    TwoDigitsFields(m);
    TwoDigitsFields(s);
  }

  /** `"00:00"`, the fallback of an unreadable activity duration, is 00:00:00. */
  lemma {:induction false} ParseHhMmSsZero(d: string)
    requires d == "00:00"
    ensures ParseHhMmSs(d) == Ok(ClockTime(0, 0, 0))
  {
    assert TwoDigits(0) == "00";
    assert TwoDigits(0) + ":" + TwoDigits(0) == d;
    ParseHhMmSsMinutes(0, 0);
  }

  /** Every valid `SS` reading is parsed to that second past midnight. */
  lemma {:induction false} ParseHhMmSsSeconds(s: nat)
    requires s < 60
    ensures ParseHhMmSs(TwoDigits(s)) == Ok(ClockTime(0, 0, s))
  {
    var a := TwoDigits(s);
    StripClock(a, "");
    assert a + "" == a;
    DigitsCount(a, ':');
    TwoDigitsFields(s);
  }

  /** Round trip of `parse_hh_mm` on `HH:MM`. */
  lemma {:induction false} ParseHhMmRoundTrip(h: nat, m: nat)
    requires h < 24 && m < 60
    ensures ParseHhMm(TwoDigits(h) + ":" + TwoDigits(m)) == Ok(ClockTime(h, m, 0))
  {
    var a, b := TwoDigits(h), TwoDigits(m);
    assert a + ":" + b == a + (":" + b);
    StripClock(a, ":" + b);
    ColonPair(a, b);
    TwoDigitsFields(h);
    TwoDigitsFields(m);
  }
}

/** Worked examples of the parsers of `pygce/models/garmin/utils.py`. */
module GarminUtilsExamples {
  import opened Wrappers
  import opened Text
  import opened PyDateTime
  import opened GarminUtils

  lemma {:induction false} DeleteCharExample()
    ensures DeleteChar("1.234", '.') == "1234"
  {
  }

  lemma {:induction false} DigitsExample()
    ensures DecimalValue("1234", "56") == 1234.56
  {
    DigitsValueSnoc("", '1');
    assert "" + ['1'] == "1";
    DigitsValueSnoc("1", '2');
    assert "1" + ['2'] == "12";
    DigitsValueSnoc("12", '3');
    assert "12" + ['3'] == "123";
    DigitsValueSnoc("123", '4');
    assert "123" + ['4'] == "1234";
    DigitsValueSnoc("", '5');
    assert "" + ['5'] == "5";
    DigitsValueSnoc("5", '6');
    assert "5" + ['6'] == "56";
    assert Pow10(2) == 100;
  }

  lemma {:induction false} DocDigitsExample()
    ensures DecimalValue("123", "94999") == 123.94999
  {
    DigitsValueSnoc("", '1');
    assert "" + ['1'] == "1";
    DigitsValueSnoc("1", '2');
    assert "1" + ['2'] == "12";
    DigitsValueSnoc("12", '3');
    assert "12" + ['3'] == "123";
    DigitsValueSnoc("", '9');
    assert "" + ['9'] == "9";
    DigitsValueSnoc("9", '4');
    assert "9" + ['4'] == "94";
    DigitsValueSnoc("94", '9');
    assert "94" + ['9'] == "949";
    DigitsValueSnoc("949", '9');
    assert "949" + ['9'] == "9499";
    DigitsValueSnoc("9499", '9');
    assert "9499" + ['9'] == "94999";
    assert Pow10(5) == 100000;
  }

  /** `parse_num("1.234,56")` is 1234.56. */
  lemma {:induction false} ParseNumLocaleExample(n: string)
    requires n == "1.234,56"
    ensures ParseNum(n) == Ok(1234.56)
  {
    assert n == "1.234" + "," + "56";
    DeleteCharExample();
    ParseNumLocale("1.234", "56");
    DigitsExample();
  }

  /** The documented input `123,949.99` normalises to `123.94999`. */
  lemma {:induction false} NormaliseDocExample(n: string)
    requires n == "123,949.99"
    ensures Normalise(n) == "123" + "." + "94999"
  {
    assert n == "123" + "," + "949" + "." + "99";
    assert AllDigits("123") && AllDigits("949") && AllDigits("99");
    NormaliseCommaDot("123", "949", "99");
    assert "949" + "99" == "94999";
  }

  /** The documented example `123,949.99` is read with the comma as decimal mark: 123.94999. */
  lemma {:induction false} ParseNumDocExample(n: string)
    requires n == "123,949.99"
    ensures ParseNum(n) == Ok(123.94999)
  {
    NormaliseDocExample(n);
    UnsignedLiteral("123", "94999");
    PyFloatUnsigned("123" + "." + "94999");
    DocDigitsExample();
  }

  /** `"01:02:03"` is 1 h 2 min 3 s, that is 3723 seconds. */
  lemma {:induction false} ParseHhMmSsHours(a: string)
    requires a == "01:02:03"
    ensures ParseHhMmSs(a) == Ok(ClockTime(1, 2, 3)) && SecondsOf(ClockTime(1, 2, 3)) == 3723
  {
    assert Pad2(1) == "01" && Pad2(2) == "02" && Pad2(3) == "03";
    assert TimeStr(ClockTime(1, 2, 3)) == a;
    ParseHhMmSsRoundTrip(ClockTime(1, 2, 3));
  }

  /** `"02:03"` is 2 min 3 s, that is 123 seconds. */
  lemma {:induction false} ParseHhMmSsMinutesExample(b: string)
    requires b == "02:03"
    ensures ParseHhMmSs(b) == Ok(ClockTime(0, 2, 3)) && SecondsOf(ClockTime(0, 2, 3)) == 123
  {
    assert TwoDigits(2) == "02" && TwoDigits(3) == "03";
    assert TwoDigits(2) + ":" + TwoDigits(3) == b;
    ParseHhMmSsMinutes(2, 3);
  }

  /** `"45"` is 45 seconds. */
  lemma {:induction false} ParseHhMmSsSecondsExample(c: string)
    requires c == "45"
    ensures ParseHhMmSs(c) == Ok(ClockTime(0, 0, 45))
  {
    assert TwoDigits(45) == c;
    ParseHhMmSsSeconds(45);
  }

  /** `"01:30 PM"` is 13:30 under `%I:%M %p`. */
  lemma {:induction false} Strptime12hAfternoon(a: string)
    requires a == "01:30 PM"
    ensures Strptime12h(a) == Ok(ClockTime(13, 30, 0))
  {
    assert TwoDigits(1) == "01" && TwoDigits(30) == "30";
    assert a == TwoDigits(1) + ":" + TwoDigits(30) + " " + "PM";
    Strptime12hRoundTrip(1, 30, true);
  }

  /** `"12:00 AM"` is midnight under `%I:%M %p`. */
  lemma {:induction false} Strptime12hMidnight(b: string)
    requires b == "12:00 AM"
    ensures Strptime12h(b) == Ok(ClockTime(0, 0, 0))
  {
    assert TwoDigits(12) == "12" && TwoDigits(0) == "00";
    assert b == TwoDigits(12) + ":" + TwoDigits(0) + " " + "AM";
    Strptime12hRoundTrip(12, 0, false);
  }
}
