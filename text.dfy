/** Python `str` operations used by the scrapers: strip, count, replace, split, digits. */
module Text {
  import opened Wrappers

  /** Python's `str.isspace` for one character (the Unicode whitespace set that `strip()` and `\s` use). */
  predicate IsSpace(c: char) {
    var n := c as int;
    (9 <= n <= 13) || (28 <= n <= 32) || n == 0x85 || n == 0xA0 || n == 0x1680 ||
    (0x2000 <= n <= 0x200A) || n == 0x2028 || n == 0x2029 || n == 0x202F || n == 0x205F || n == 0x3000
  }

  predicate IsDigit(c: char) { '0' <= c <= '9' }

  function DigitValue(c: char): (d: nat)
    requires IsDigit(c)
    ensures d < 10
  {
    (c as int) - ('0' as int)
  }

  function DigitChar(d: nat): (c: char)
    requires d < 10
    ensures IsDigit(c) && DigitValue(c) == d
  {
    (('0' as int) + d) as char
  }

  predicate AllDigits(s: string) {
    forall i :: 0 <= i < |s| ==> IsDigit(s[i])
  }

  /** Value of a string of decimal digits, most significant first. */
  function DigitsValue(s: string): nat
    requires AllDigits(s)
  {
    if s == [] then 0 else DigitsValue(s[..|s| - 1]) * 10 + DigitValue(s[|s| - 1])
  }

  lemma {:induction false} DigitsValueSnoc(s: string, c: char)
    requires AllDigits(s) && IsDigit(c)
    ensures AllDigits(s + [c]) && DigitsValue(s + [c]) == DigitsValue(s) * 10 + DigitValue(c)
  {
    assert (s + [c])[..|s|] == s;
  }

  /** Python's `str(n)` for a natural number. */
  function NatToString(n: nat): (s: string)
    ensures |s| >= 1 && AllDigits(s)
    decreases n
  {
    if n < 10 then [DigitChar(n)] else NatToString(n / 10) + [DigitChar(n % 10)]
  }

  /** Python's `str(i)` for an integer. */
  function IntToString(i: int): string {
    if i < 0 then "-" + NatToString(-i) else NatToString(i)
  }

  lemma {:induction false} NatToStringValue(n: nat)
    ensures DigitsValue(NatToString(n)) == n
    decreases n
  {
    if n >= 10 {
      var s := NatToString(n);
      assert s[..|s| - 1] == NatToString(n / 10);
      NatToStringValue(n / 10);
    }
  }

  /** `"%02d" % n` for a value below 100. */
  function TwoDigits(n: nat): (s: string)
    requires n < 100
    ensures |s| == 2 && AllDigits(s)
  {
    [DigitChar(n / 10), DigitChar(n % 10)]
  }

  function Repeat(c: char, k: nat): (s: string)
    ensures |s| == k
    ensures forall i :: 0 <= i < k ==> s[i] == c
  {
    if k == 0 then [] else [c] + Repeat(c, k - 1)
  }

  /** `"%0*d" % (width, n)`: the decimal digits of `n`, left-padded with zeros. */
  function ZeroPad(n: nat, width: nat): (s: string)
    ensures |s| >= width
  {
    var digits := NatToString(n);
    (if |digits| < width then Repeat('0', width - |digits|) else []) + digits
  }

  /** ASCII lower case, enough for the case-insensitive `am`/`pm` and `T` matches of `strptime`. */
  function LowerAscii(s: string): (r: string)
    ensures |r| == |s|
  {
    if s == [] then []
    else [if 'A' <= s[0] <= 'Z' then (s[0] as int + 32) as char else s[0]] + LowerAscii(s[1..])
  }

  /** Number of occurrences of `c` in `s` (`s.count(c)`). */
  function Count(s: string, c: char): nat {
    if s == [] then 0 else (if s[0] == c then 1 else 0) + Count(s[1..], c)
  }

  lemma {:induction false} CountConcat(a: string, b: string, c: char)
    ensures Count(a + b, c) == Count(a, c) + Count(b, c)
  {
    if a == [] {
      assert a + b == b;
    } else {
      assert (a + b)[0] == a[0];
      assert (a + b)[1..] == a[1..] + b;
      CountConcat(a[1..], b, c);
    }
  }

  /** Number of whitespace characters at the start of `s`. */
  function LeadingSpaces(s: string): (k: nat)
    ensures k <= |s|
    ensures forall i :: 0 <= i < k ==> IsSpace(s[i])
    ensures k == |s| || !IsSpace(s[k])
  {
    if s != [] && IsSpace(s[0]) then 1 + LeadingSpaces(s[1..]) else 0
  }

  /** Number of whitespace characters at the end of `s`. */
  function TrailingSpaces(s: string): (k: nat)
    ensures k <= |s|
    ensures forall i :: |s| - k <= i < |s| ==> IsSpace(s[i])
    ensures k == |s| || !IsSpace(s[|s| - 1 - k])
  {
    if s != [] && IsSpace(s[|s| - 1]) then 1 + TrailingSpaces(s[..|s| - 1]) else 0
  }

  /** Python's `s.strip()`. */
  function Strip(s: string): (r: string)
    ensures |r| <= |s|
  {
    var t := s[LeadingSpaces(s)..];
    t[..|t| - TrailingSpaces(t)]
  }

  /** A stripped text neither starts nor ends with whitespace. */
  lemma {:induction false} StripEnds(s: string)
    ensures var r := Strip(s); r == [] || (!IsSpace(r[0]) && !IsSpace(r[|r| - 1]))
  {
  }

  lemma {:induction false} CountSpaces(s: string, c: char)
    requires forall i :: 0 <= i < |s| ==> IsSpace(s[i])
    requires !IsSpace(c)
    ensures Count(s, c) == 0
  {
    if s != [] { CountSpaces(s[1..], c); }
  }

  /** Stripping removes whitespace only: every other character keeps its count. */
  lemma {:induction false} StripKeepsCount(s: string, c: char)
    requires !IsSpace(c)
    ensures Count(Strip(s), c) == Count(s, c)
  {
    var t := s[LeadingSpaces(s)..];
    DropSpacesCount(s, LeadingSpaces(s), c);
    TakeSpacesCount(t, |t| - TrailingSpaces(t), c);
  }

  lemma {:induction false} DropSpacesCount(s: string, k: nat, c: char)
    requires k <= |s| && !IsSpace(c)
    requires forall i :: 0 <= i < k ==> IsSpace(s[i])
    ensures Count(s[k..], c) == Count(s, c)
  {
    assert s == s[..k] + s[k..];
    CountConcat(s[..k], s[k..], c);
    forall i | 0 <= i < k ensures IsSpace(s[..k][i]) { assert s[..k][i] == s[i]; }
    CountSpaces(s[..k], c);
  }

  lemma {:induction false} TakeSpacesCount(s: string, k: nat, c: char)
    requires k <= |s| && !IsSpace(c)
    requires forall i :: k <= i < |s| ==> IsSpace(s[i])
    ensures Count(s[..k], c) == Count(s, c)
  {
    assert s == s[..k] + s[k..];
    CountConcat(s[..k], s[k..], c);
    forall i | 0 <= i < |s| - k ensures IsSpace(s[k..][i]) { assert s[k..][i] == s[k + i]; }
    CountSpaces(s[k..], c);
  }

  /** A string without surrounding whitespace is its own strip. */
  lemma {:induction false} StripNoSpace(s: string)
    requires s == [] || (!IsSpace(s[0]) && !IsSpace(s[|s| - 1]))
    ensures Strip(s) == s
  {
  }

  /** `s.replace(c, "")` for one character. */
  function DeleteChar(s: string, c: char): string {
    if s == [] then [] else (if s[0] == c then [] else [s[0]]) + DeleteChar(s[1..], c)
  }

  /** `s.replace(a, b)` for single characters. */
  function ReplaceChar(s: string, a: char, b: char): (r: string)
    ensures |r| == |s|
  {
    if s == [] then [] else [if s[0] == a then b else s[0]] + ReplaceChar(s[1..], a, b)
  }

  function EndsWith(s: string, suffix: string): bool {
    |suffix| <= |s| && s[|s| - |suffix|..] == suffix
  }

  /** `pat` occurs in `s` starting at index `j`. */
  predicate OccursAt(s: string, pat: string, j: nat) {
    j + |pat| <= |s| && s[j..j + |pat|] == pat
  }

  /** The first index at which `pat` occurs in `s` (`s.find(pat)`); `IndexOfSpec` states what it finds. */
  function IndexOf(s: string, pat: string): (r: Option<nat>)
    requires |pat| > 0
    ensures r.Some? ==> r.value + |pat| <= |s|
    decreases |s|
  {
    if |s| < |pat| then None
    else if s[..|pat|] == pat then Some(0)
    else
      var rest := IndexOf(s[1..], pat);
      if rest.None? then None else Some(rest.value + 1)
  }

  /** `IndexOf` finds an occurrence, and the first one; when it finds none there is none. */
  lemma {:induction false} IndexOfSpec(s: string, pat: string)
    requires |pat| > 0
    ensures IndexOf(s, pat).Some? ==> OccursAt(s, pat, IndexOf(s, pat).value)
    ensures IndexOf(s, pat).Some? ==> forall j: nat :: j < IndexOf(s, pat).value ==> !OccursAt(s, pat, j)
    ensures IndexOf(s, pat).None? ==> forall j: nat :: !OccursAt(s, pat, j)
    decreases |s|
  {
    if |s| < |pat| {
    } else if s[..|pat|] == pat {
      assert s[0..|pat|] == s[..|pat|];
    } else {
      IndexOfSpec(s[1..], pat);
      var rest := IndexOf(s[1..], pat);
      if rest.Some? {
        OccursAtShift(s, pat, rest.value);
      }
      assert s[0..|pat|] == s[..|pat|];
      forall j: nat | rest.None? || j < rest.value + 1 ensures !OccursAt(s, pat, j) {
        if j > 0 { OccursAtShift(s, pat, j - 1); }
      }
    }
  }

  lemma {:induction false} OccursAtShift(s: string, pat: string, j: nat)
    requires |s| > 0
    ensures OccursAt(s, pat, j + 1) <==> OccursAt(s[1..], pat, j)
  {
    if j + 1 + |pat| <= |s| {
      assert s[j + 1..j + 1 + |pat|] == s[1..][j..j + |pat|];
    }
  }

  lemma {:induction false} OccursAtChar(s: string, c: char, j: nat)
    ensures OccursAt(s, [c], j) <==> (j < |s| && s[j] == c)
  {
    if OccursAt(s, [c], j) { assert s[j + 0] == [c][0]; }
    if j < |s| && s[j] == c {
      forall t | 0 <= t < 1 ensures s[j + t] == [c][t] { assert t == 0; }
    }
  }

  /** Python's `s.split(sep)` with a non-empty separator: never empty, keeps empty pieces. */
  function Split(s: string, sep: string): (pieces: seq<string>)
    requires |sep| > 0
    ensures |pieces| >= 1
    decreases |s|
  {
    var i := IndexOf(s, sep);
    if i.None? then [s] else [s[..i.value]] + Split(s[i.value + |sep|..], sep)
  }

  /** `s.split(sep)[0]`: the text before the first separator. */
  function Before(s: string, sep: string): string
    requires |sep| > 0
  {
    Split(s, sep)[0]
  }

  /** `s.split(sep)[-1]`: the text after the last separator. */
  function After(s: string, sep: string): string
    requires |sep| > 0
  {
    var pieces := Split(s, sep);
    pieces[|pieces| - 1]
  }

  /**
    `s.split(sep)[-1]` is the text after the last separator: it holds no separator, it ends
    `s`, and when `s` has a separator the text before it ends with one.
   */
  lemma {:induction false} AfterLast(s: string, sep: string)
    requires |sep| > 0
    ensures var r := After(s, sep);
      IndexOf(r, sep).None? && |r| <= |s| && s[|s| - |r|..] == r &&
      (IndexOf(s, sep).Some? ==> EndsWith(s[..|s| - |r|], sep))
      && (IndexOf(s, sep).None? ==> r == s)
  {
    AfterNoSeparator(s, sep);
    AfterSuffix(s, sep);
    AfterHeadEnds(s, sep);
  }

  lemma {:induction false} AfterNoSeparator(s: string, sep: string)
    requires |sep| > 0
    ensures IndexOf(After(s, sep), sep).None?
    decreases |s|
  {
    var i := IndexOf(s, sep);
    if i.Some? {
      AfterUnfold(s, sep, i.value);
      AfterNoSeparator(s[i.value + |sep|..], sep);
    }
  }

  lemma {:induction false} AfterSuffix(s: string, sep: string)
    requires |sep| > 0
    ensures |After(s, sep)| <= |s| && s[|s| - |After(s, sep)|..] == After(s, sep)
    ensures IndexOf(s, sep).None? ==> After(s, sep) == s
    decreases |s|
  {
    var i := IndexOf(s, sep);
    if i.Some? {
      var k := i.value;
      AfterUnfold(s, sep, k);
      AfterSuffix(s[k + |sep|..], sep);
      var r := After(s, sep);
      assert s[|s| - |r|..] == s[k + |sep|..][|s| - k - |sep| - |r|..];
    }
  }

  lemma {:induction false} AfterHeadEnds(s: string, sep: string)
    requires |sep| > 0
    ensures |After(s, sep)| <= |s|
    ensures IndexOf(s, sep).Some? ==> EndsWith(s[..|s| - |After(s, sep)|], sep)
    decreases |s|
  {
    AfterShorter(s, sep);
    var i := IndexOf(s, sep);
    if i.Some? {
      var k := i.value;
      AfterUnfold(s, sep, k);
      AfterHeadEnds(s[k + |sep|..], sep);
      if IndexOf(s[k + |sep|..], sep).Some? {
        EndsWithWiden(s, k + |sep|, |After(s, sep)|, sep);
      } else {
        AfterWhole(s[k + |sep|..], sep);
        FirstSeparatorEnds(s, sep, k);
      }
    }
  }

  lemma {:induction false} AfterShorter(s: string, sep: string)
    requires |sep| > 0
    ensures |After(s, sep)| <= |s|
    decreases |s|
  {
    var i := IndexOf(s, sep);
    if i.Some? {
      AfterUnfold(s, sep, i.value);
      AfterShorter(s[i.value + |sep|..], sep);
    }
  }

  lemma {:induction false} AfterWhole(s: string, sep: string)
    requires |sep| > 0 && IndexOf(s, sep).None?
    ensures After(s, sep) == s
  {
  }

  /** Past the first separator, the last piece is the last piece of what follows it. */
  lemma {:induction false} AfterUnfold(s: string, sep: string, k: nat)
    requires |sep| > 0 && IndexOf(s, sep) == Some(k)
    ensures After(s, sep) == After(s[k + |sep|..], sep)
  {
    SplitUnfold(s, sep, k);
    LastOfCons(s[..k], Split(s[k + |sep|..], sep));
  }

  lemma {:induction false} SplitUnfold(s: string, sep: string, k: nat)
    requires |sep| > 0 && IndexOf(s, sep) == Some(k)
    ensures Split(s, sep) == [s[..k]] + Split(s[k + |sep|..], sep)
  {
  }

  lemma {:induction false} LastOfCons(x: string, xs: seq<string>)
    requires |xs| > 0
    ensures ([x] + xs)[|[x] + xs| - 1] == xs[|xs| - 1]
  {
  }

  /** What `IndexOf` finds is the pattern. */
  lemma {:induction false} FoundAt(s: string, pat: string, k: nat)
    requires |pat| > 0 && IndexOf(s, pat) == Some(k)
    ensures s[k..k + |pat|] == pat
  {
    IndexOfSpec(s, pat);
  }

  lemma {:induction false} FirstSeparatorEnds(s: string, sep: string, k: nat)
    requires |sep| > 0 && IndexOf(s, sep) == Some(k)
    ensures EndsWith(s[..k + |sep|], sep)
  {
    IndexOfSpec(s, sep);
    OccursEndsWith(s, sep, k);
  }

  lemma {:induction false} OccursEndsWith(s: string, sep: string, k: nat)
    requires OccursAt(s, sep, k)
    ensures EndsWith(s[..k + |sep|], sep)
  {
    forall t | 0 <= t < |sep| ensures s[..k + |sep|][k..][t] == sep[t] {
      assert s[k + t] == sep[t];
    }
  }

  lemma {:induction false} EndsWithWiden(s: string, m: nat, n: nat, sep: string)
    requires m + n <= |s| && EndsWith(s[m..][..|s| - m - n], sep)
    ensures EndsWith(s[..|s| - n], sep)
  {
    assert s[m..][..|s| - m - n] == s[m..|s| - n];
    assert s[m..|s| - n][|s| - n - m - |sep|..] == s[|s| - n - |sep|..|s| - n];
    assert s[..|s| - n][|s| - n - |sep|..] == s[|s| - n - |sep|..|s| - n];
  }


  /** A pattern whose first character starts nowhere it would fit is not found. */
  lemma {:induction false} IndexOfNoStart(s: string, pat: string)
    requires |pat| > 0 && forall j :: 0 <= j <= |s| - |pat| ==> s[j] != pat[0]
    ensures IndexOf(s, pat).None?
  {
    if |s| >= |pat| {
      assert s[..|pat|][0] == s[0];
      forall j | 0 <= j <= |s[1..]| - |pat| ensures s[1..][j] != pat[0] {
        assert s[1..][j] == s[j + 1];
      }
      IndexOfNoStart(s[1..], pat);
    }
  }

  /** Splitting on one character gives one more piece than it has occurrences. */
  lemma {:induction false} SplitCount(s: string, c: char)
    ensures |Split(s, [c])| == Count(s, c) + 1
    decreases |s|
  {
    IndexOfChar(s, c);
    var i := IndexOf(s, [c]);
    if i.Some? {
      var k := i.value;
      SplitUnfold(s, [c], k);
      assert s == s[..k] + [c] + s[k + 1..];
      CountConcat(s[..k] + [c], s[k + 1..], c);
      CountConcat(s[..k], [c], c);
      SplitCount(s[k + 1..], c);
    }
  }

  lemma {:induction false} NoOccurrence(s: string, c: char)
    requires forall j: nat :: j < |s| ==> !OccursAt(s, [c], j)
    ensures Count(s, c) == 0
  {
    if s != [] {
      OccursAtChar(s, c, 0);
      forall j: nat | j < |s| - 1 ensures !OccursAt(s[1..], [c], j) {
        OccursAtChar(s, c, j + 1);
        OccursAtChar(s[1..], c, j);
      }
      NoOccurrence(s[1..], c);
    }
  }

  /** `IndexOf` for one character, in terms of `Count`: the first `c`, or none at all. */
  lemma {:induction false} IndexOfChar(s: string, c: char)
    ensures IndexOf(s, [c]).None? ==> Count(s, c) == 0
    ensures IndexOf(s, [c]).Some? ==> var k := IndexOf(s, [c]).value;
      k < |s| && s[k] == c && Count(s[..k], c) == 0
  {
    IndexOfSpec(s, [c]);
    var i := IndexOf(s, [c]);
    if i.None? {
      NoOccurrence(s, c);
    } else {
      var k := i.value;
      OccursAtChar(s, c, k);
      forall j | 0 <= j < k ensures s[..k][j] != c { OccursAtChar(s, c, j); }
      CountNone(s[..k], c);
    }
  }

  /** Python's `s.replace(pat, rep)` with a non-empty pattern: every occurrence, left to right. */
  function ReplaceAll(s: string, pat: string, rep: string): string
    requires |pat| > 0
    decreases |s|
  {
    var i := IndexOf(s, pat);
    if i.None? then s else s[..i.value] + rep + ReplaceAll(s[i.value + |pat|..], pat, rep)
  }

  /** Replacing a pattern by itself changes nothing. */
  lemma {:induction false} ReplaceAllSelf(s: string, pat: string)
    requires |pat| > 0
    ensures ReplaceAll(s, pat, pat) == s
    decreases |s|
  {
    var i := IndexOf(s, pat);
    if i.Some? {
      var k := i.value;
      ReplaceAllSelf(s[k + |pat|..], pat);
      FoundAt(s, pat, k);
      assert ReplaceAll(s, pat, pat) == s[..k] + pat + ReplaceAll(s[k + |pat|..], pat, pat);
      assert s == s[..k] + s[k..k + |pat|] + s[k + |pat|..];
    }
  }

  /** `sep.join(parts)`. */
  function Join(sep: string, parts: seq<string>): string {
    if parts == [] then ""
    else if |parts| == 1 then parts[0]
    else parts[0] + sep + Join(sep, parts[1..])
  }

  // ----- facts about counting, deleting and replacing single characters -----

  /** A character that does not occur in `s` is found at no index of it. */
  lemma {:induction false} CountZero(s: string, c: char)
    requires Count(s, c) == 0
    ensures forall j :: 0 <= j < |s| ==> s[j] != c
  {
    if s != [] {
      CountZero(s[1..], c);
      assert forall j :: 1 <= j < |s| ==> s[j] == s[1..][j - 1];
    }
  }

  /** A string of digits holds no other character. */
  lemma {:induction false} DigitsCount(s: string, c: char)
    requires AllDigits(s) && !IsDigit(c)
    ensures Count(s, c) == 0
  {
    if s != [] { DigitsCount(s[1..], c); }
  }

  lemma {:induction false} DeleteCharCount(s: string, c: char, d: char)
    ensures Count(DeleteChar(s, c), d) == if c == d then 0 else Count(s, d)
  {
    if s != [] {
      DeleteCharCount(s[1..], c, d);
      CountConcat(if s[0] == c then [] else [s[0]], DeleteChar(s[1..], c), d);
    }
  }

  lemma {:induction false} ReplaceCharCount(s: string, a: char, b: char)
    requires a != b
    ensures Count(ReplaceChar(s, a, b), b) == Count(s, a) + Count(s, b)
  {
    if s != [] {
      ReplaceCharCount(s[1..], a, b);
      CountConcat([if s[0] == a then b else s[0]], ReplaceChar(s[1..], a, b), b);
    }
  }

  lemma {:induction false} ReplaceCharOther(s: string, a: char, b: char, d: char)
    requires d != a && d != b
    ensures Count(ReplaceChar(s, a, b), d) == Count(s, d)
  {
    if s != [] {
      ReplaceCharOther(s[1..], a, b, d);
      CountConcat([if s[0] == a then b else s[0]], ReplaceChar(s[1..], a, b), d);
    }
  }

  lemma {:induction false} DeleteCharConcat(a: string, b: string, c: char)
    ensures DeleteChar(a + b, c) == DeleteChar(a, c) + DeleteChar(b, c)
  {
    if a == [] {
      assert a + b == b;
    } else {
      assert (a + b)[1..] == a[1..] + b;
      DeleteCharConcat(a[1..], b, c);
    }
  }

  lemma {:induction false} ReplaceCharConcat(a: string, b: string, x: char, y: char)
    ensures ReplaceChar(a + b, x, y) == ReplaceChar(a, x, y) + ReplaceChar(b, x, y)
  {
    if a == [] {
      assert a + b == b;
    } else {
      assert (a + b)[1..] == a[1..] + b;
      ReplaceCharConcat(a[1..], b, x, y);
    }
  }

  lemma {:induction false} DeleteCharAbsent(s: string, c: char)
    requires Count(s, c) == 0
    ensures DeleteChar(s, c) == s
  {
    if s != [] { DeleteCharAbsent(s[1..], c); }
  }

  lemma {:induction false} ReplaceCharAbsent(s: string, a: char, b: char)
    requires Count(s, a) == 0
    ensures ReplaceChar(s, a, b) == s
  {
    if s != [] { ReplaceCharAbsent(s[1..], a, b); }
  }

  /** The digits of `s`, in order. */
  function DigitsIn(s: string): string {
    if s == [] then [] else (if IsDigit(s[0]) then [s[0]] else []) + DigitsIn(s[1..])
  }

  lemma {:induction false} DigitsInConcat(a: string, b: string)
    ensures DigitsIn(a + b) == DigitsIn(a) + DigitsIn(b)
  {
    if a == [] {
      assert a + b == b;
    } else {
      assert (a + b)[1..] == a[1..] + b;
      DigitsInConcat(a[1..], b);
    }
  }

  lemma {:induction false} DigitsInSpaces(s: string)
    requires forall i :: 0 <= i < |s| ==> IsSpace(s[i])
    ensures DigitsIn(s) == []
  {
    if s != [] { DigitsInSpaces(s[1..]); }
  }

  lemma {:induction false} DeleteCharKeepsDigits(s: string, c: char)
    requires !IsDigit(c)
    ensures DigitsIn(DeleteChar(s, c)) == DigitsIn(s)
  {
    if s != [] {
      DeleteCharKeepsDigits(s[1..], c);
      DigitsInConcat(if s[0] == c then [] else [s[0]], DeleteChar(s[1..], c));
    }
  }

  lemma {:induction false} ReplaceCharKeepsDigits(s: string, a: char, b: char)
    requires !IsDigit(a) && !IsDigit(b)
    ensures DigitsIn(ReplaceChar(s, a, b)) == DigitsIn(s)
  {
    if s != [] {
      ReplaceCharKeepsDigits(s[1..], a, b);
      DigitsInConcat([if s[0] == a then b else s[0]], ReplaceChar(s[1..], a, b));
    }
  }

  /** Stripping removes whitespace only, so it keeps every digit in place. */
  lemma {:induction false} StripKeepsDigits(s: string)
    ensures DigitsIn(Strip(s)) == DigitsIn(s)
  {
    var t := s[LeadingSpaces(s)..];
    DropSpacesDigits(s, LeadingSpaces(s));
    TakeSpacesDigits(t, |t| - TrailingSpaces(t));
  }

  lemma {:induction false} DropSpacesDigits(s: string, k: nat)
    requires k <= |s| && forall i :: 0 <= i < k ==> IsSpace(s[i])
    ensures DigitsIn(s[k..]) == DigitsIn(s)
  {
    assert s == s[..k] + s[k..];
    DigitsInConcat(s[..k], s[k..]);
    forall i | 0 <= i < k ensures IsSpace(s[..k][i]) { assert s[..k][i] == s[i]; }
    DigitsInSpaces(s[..k]);
  }

  lemma {:induction false} TakeSpacesDigits(s: string, k: nat)
    requires k <= |s| && forall i :: k <= i < |s| ==> IsSpace(s[i])
    ensures DigitsIn(s[..k]) == DigitsIn(s)
  {
    assert s == s[..k] + s[k..];
    DigitsInConcat(s[..k], s[k..]);
    forall i | 0 <= i < |s| - k ensures IsSpace(s[k..][i]) { assert s[k..][i] == s[k + i]; }
    DigitsInSpaces(s[k..]);
  }

  // ----- finding and splitting on a single character -----

  /** The first `c` of `a + [c] + b` is the one after `a` when `a` holds none. */
  lemma {:induction false} IndexOfFirst(a: string, c: char, b: string)
    requires Count(a, c) == 0
    ensures IndexOf(a + [c] + b, [c]) == Some(|a|)
  {
    var s := a + [c] + b;
    IndexOfSpec(s, [c]);
    CountZero(a, c);
    OccursAtChar(s, c, |a|);
    var r := IndexOf(s, [c]);
    OccursAtChar(s, c, r.value);
  }

  lemma {:induction false} IndexOfAbsent(s: string, c: char)
    requires Count(s, c) == 0
    ensures IndexOf(s, [c]) == None
  {
    IndexOfSpec(s, [c]);
    CountZero(s, c);
    var r := IndexOf(s, [c]);
    if r.Some? { OccursAtChar(s, c, r.value); }
  }

  lemma {:induction false} SplitFirst(a: string, c: char, b: string)
    requires Count(a, c) == 0
    ensures Split(a + [c] + b, [c]) == [a] + Split(b, [c])
  {
    var s := a + [c] + b;
    IndexOfFirst(a, c, b);
    assert s[..|a|] == a;
    assert s[|a| + 1..] == b;
  }

  /** The first three pieces of a text whose first three separators follow `a`, `b` and `d`. */
  lemma {:induction false} SplitFirstThree(a: string, b: string, d: string, rest: string, c: char)
    requires Count(a, c) == 0 && Count(b, c) == 0 && Count(d, c) == 0
    ensures var pieces := Split(a + [c] + b + [c] + d + [c] + rest, [c]);
      |pieces| >= 3 && pieces[0] == a && pieces[1] == b && pieces[2] == d
  {
    var s2 := d + [c] + rest;
    var s1 := b + [c] + s2;
    assert a + [c] + b + [c] + d + [c] + rest == a + [c] + s1;
    SplitFirst(a, c, s1);
    SplitFirst(b, c, s2);
    SplitFirst(d, c, rest);
  }

  lemma {:induction false} SplitAbsent(s: string, c: char)
    requires Count(s, c) == 0
    ensures Split(s, [c]) == [s]
  {
    IndexOfAbsent(s, c);
  }

  /** A character found at no index of `s` does not occur in it. */
  lemma {:induction false} CountNone(s: string, c: char)
    requires forall j :: 0 <= j < |s| ==> s[j] != c
    ensures Count(s, c) == 0
  {
    if s != [] {
      assert forall j :: 0 <= j < |s| - 1 ==> s[1..][j] == s[j + 1];
      CountNone(s[1..], c);
    }
  }

  /** `(a + c + b).split(c)[-1]` is `b` when `b` holds no `c`. */
  lemma {:induction false} AfterLastPiece(a: string, c: char, b: string)
    requires Count(b, c) == 0
    ensures After(a + [c] + b, [c]) == b
  {
    SplitLast(a, c, b);
  }

  /** `(a + c + b).split(c)` ends with the piece `b` when `b` holds no `c`. */
  lemma {:induction false} SplitLast(a: string, c: char, b: string)
    requires Count(b, c) == 0
    ensures Split(a + [c] + b, [c]) == Split(a, [c]) + [b]
    decreases |a|
  {
    IndexOfChar(a, c);
    var i := IndexOf(a, [c]);
    SplitAbsent(b, c);
    if i.None? {
      SplitFirst(a, c, b);
      SplitAbsent(a, c);
    } else {
      var k := i.value;
      var a1, a2 := a[..k], a[k + 1..];
      assert a == a1 + [c] + a2;
      assert a + [c] + b == a1 + [c] + (a2 + [c] + b);
      SplitFirst(a1, c, a2 + [c] + b);
      SplitFirst(a1, c, a2);
      SplitLast(a2, c, b);
    }
  }
  /** The last two pieces of a text whose last two separators precede `b` and `d`. */
  lemma {:induction false} SplitLastTwo(a: string, b: string, d: string, c: char)
    requires Count(b, c) == 0 && Count(d, c) == 0
    ensures Split(a + [c] + b + [c] + d, [c]) == Split(a, [c]) + [b, d]
  {
    SplitLast(a + [c] + b, c, d);
    SplitLast(a, c, b);
  }


  // ----- decimal renderings -----

  function Pow10(n: nat): (p: nat)
    ensures p >= 1
  {
    if n == 0 then 1 else 10 * Pow10(n - 1)
  }

  /** A number below `10^k` has at most `k` decimal digits. */
  lemma {:induction false} NatToStringLength(n: nat, k: nat)
    requires n < Pow10(k) && k >= 1
    ensures |NatToString(n)| <= k
    decreases n
  {
    if n >= 10 {
      assert k >= 2;
      assert n / 10 < Pow10(k - 1);
      NatToStringLength(n / 10, k - 1);
    }
  }

  /** A number of at least `10^(k-1)` has at least `k` decimal digits. */
  lemma {:induction false} NatToStringMinLength(n: nat, k: nat)
    requires k >= 1 && n >= Pow10(k - 1)
    ensures |NatToString(n)| >= k
    decreases n
  {
    if k >= 2 {
      assert Pow10(k - 1) == 10 * Pow10(k - 2);
      assert n / 10 >= Pow10(k - 2);
      NatToStringMinLength(n / 10, k - 1);
    }
  }

  /** Leading zeros do not change the value of a digit string. */
  lemma {:induction false} DigitsValueZeros(k: nat, s: string)
    requires AllDigits(s)
    ensures AllDigits(Repeat('0', k) + s) && DigitsValue(Repeat('0', k) + s) == DigitsValue(s)
    decreases |s|
  {
    var z := Repeat('0', k);
    if s == [] {
      assert z + s == z;
      ZerosValue(k);
    } else {
      var init := s[..|s| - 1];
      assert (z + s)[..|z + s| - 1] == z + init;
      DigitsValueZeros(k, init);
    }
  }

  lemma {:induction false} ZerosValue(k: nat)
    ensures AllDigits(Repeat('0', k)) && DigitsValue(Repeat('0', k)) == 0
  {
    if k > 0 {
      var z := Repeat('0', k);
      assert z[..k - 1] == Repeat('0', k - 1);
      ZerosValue(k - 1);
    }
  }

  /** `"%04d" % n` for `n < 10000` is four digits denoting `n`. */
  lemma {:induction false} ZeroPadFour(n: nat)
    requires n < 10000
    ensures |ZeroPad(n, 4)| == 4 && AllDigits(ZeroPad(n, 4)) && DigitsValue(ZeroPad(n, 4)) == n
  {
    assert Pow10(4) == 10000;
    NatToStringLength(n, 4);
    NatToStringValue(n);
    DigitsValueZeros(4 - |NatToString(n)|, NatToString(n));
  }

  lemma {:induction false} LowerAsciiConcat(a: string, b: string)
    ensures LowerAscii(a + b) == LowerAscii(a) + LowerAscii(b)
  {
    if a == [] {
      assert a + b == b;
    } else {
      assert (a + b)[1..] == a[1..] + b;
      LowerAsciiConcat(a[1..], b);
    }
  }

  lemma {:induction false} LowerAsciiDigits(s: string)
    requires AllDigits(s)
    ensures LowerAscii(s) == s
  {
    if s != [] { LowerAsciiDigits(s[1..]); }
  }
}
