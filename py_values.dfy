/**
  The Python values the day sections hold, `str()` of them, and insertion-ordered
  dictionaries as association lists.
 */
module PyValues {
  import opened Wrappers
  import opened Text
  import opened PyDateTime

  /** One entry of the step details: the `{'time': ..., 'steps': ...}` dict the scraper builds. */
  datatype Bin = Bin(time: string, steps: int)

  /** A field value of a day section: `None`, a number, a text, a `time`, a `timedelta` or the bins. */
  datatype Value =
    | NoneValue
    | IntValue(i: int)
    | FloatValue(x: real)
    | StrValue(s: string)
    | TimeValue(t: ClockTime)
    | DeltaValue(seconds: nat)
    | BinsValue(bins: seq<Bin>)

  /** `str(timedelta(seconds=n))` for `n >= 0`: `H:MM:SS`, preceded by `D day(s), ` from one day on. */
  function DeltaStr(seconds: nat): string {
    var days, rest := seconds / 86400, seconds % 86400;
    var clock := NatToString(rest / 3600) + ":" + TwoDigits(rest % 3600 / 60) + ":" + TwoDigits(rest % 60);
    if days == 0 then clock else NatToString(days) + (if days == 1 then " day, " else " days, ") + clock
  }

  /** `repr()` of one bin dict; its time text holds only digits, `-`, `:` and a blank, so it needs no escaping. */
  function BinRepr(b: Bin): string {
    "{'time': '" + b.time + "', 'steps': " + IntToString(b.steps) + "}"
  }

  function BinReprs(bins: seq<Bin>): (r: seq<string>)
    ensures |r| == |bins|
    ensures forall i :: 0 <= i < |bins| ==> r[i] == BinRepr(bins[i])
  {
    if bins == [] then [] else [BinRepr(bins[0])] + BinReprs(bins[1..])
  }

  /** `str(bins)` for the list of bin dicts. */
  function BinsRepr(bins: seq<Bin>): string {
    "[" + Join(", ", BinReprs(bins)) + "]"
  }

  /**
    `str(v)`. How Python renders a float (shortest round-tripping digits) is not part of the
    model: it is the parameter `floatStr`.
   */
  function Show(v: Value, floatStr: real -> string): string {
    match v
    case NoneValue => "None"
    case IntValue(i) => IntToString(i)
    case FloatValue(x) => floatStr(x)
    case StrValue(s) => s
    case TimeValue(t) => TimeStr(t)
    case DeltaValue(n) => DeltaStr(n)
    case BinsValue(bins) => BinsRepr(bins)
  }

  // ----- dictionaries -----

  function Keys<V>(d: seq<(string, V)>): (ks: seq<string>)
    ensures |ks| == |d| && forall i :: 0 <= i < |d| ==> ks[i] == d[i].0
  {
    if d == [] then [] else [d[0].0] + Keys(d[1..])
  }

  predicate DistinctKeys<V>(d: seq<(string, V)>) {
    forall i, j :: 0 <= i < j < |d| ==> d[i].0 != d[j].0
  }

  /** A dict whose keys are a list without repetition has distinct keys. */
  lemma {:induction false} DistinctKeysOf<V>(d: seq<(string, V)>, ks: seq<string>)
    requires Keys(d) == ks && forall i, j :: 0 <= i < j < |ks| ==> ks[i] != ks[j]
    ensures DistinctKeys(d)
  {
    forall i, j | 0 <= i < j < |d| ensures d[i].0 != d[j].0 {
      assert Keys(d)[i] == d[i].0 && Keys(d)[j] == d[j].0;
    }
  }

  /** Where key `k` sits in `d`, if anywhere. */
  function KeyIndex<V>(d: seq<(string, V)>, k: string): (r: Option<nat>)
    ensures r.Some? ==> r.value < |d| && d[r.value].0 == k && forall i :: 0 <= i < r.value ==> d[i].0 != k
    ensures r.None? ==> forall i :: 0 <= i < |d| ==> d[i].0 != k
  {
    if d == [] then None
    else if d[0].0 == k then Some(0)
    else
      var r := KeyIndex(d[1..], k);
      if r.Some? then Some(r.value + 1) else None
  }

  /** `d.get(k)`. */
  function Get<V>(d: seq<(string, V)>, k: string): (r: Option<V>)
    ensures r.Some? <==> k in Keys(d)
  {
    var i := KeyIndex(d, k);
    if i.Some? then Some(d[i.value].1) else None
  }

  /** `d[k] = v`: an existing key keeps its place, a new key goes last. */
  function Put<V>(d: seq<(string, V)>, k: string, v: V): (r: seq<(string, V)>)
    ensures Get(r, k) == Some(v)
    ensures k in Keys(d) ==> Keys(r) == Keys(d)
    ensures k !in Keys(d) ==> Keys(r) == Keys(d) + [k]
    ensures forall key :: key != k ==> Get(r, key) == Get(d, key)
  {
    var i := KeyIndex(d, k);
    if i.Some? then
      var r := d[i.value := (k, v)];
      assert Keys(r) == Keys(d);
      assert KeyIndex(r, k) == i;
      forall key | key != k ensures Get(r, key) == Get(d, key) {
        KeyIndexOther(d, i.value, v, key);
      }
      r
    else
      var r := d + [(k, v)];
      assert Keys(r) == Keys(d) + [k];
      forall key | key != k ensures Get(r, key) == Get(d, key) {
        KeyIndexAppend(d, (k, v), key);
      }
      r
  }

  lemma {:induction false} KeyIndexFirst<V>(d: seq<(string, V)>, k: string, j: nat)
    requires j < |d| && d[j].0 == k && forall i :: 0 <= i < j ==> d[i].0 != k
    ensures KeyIndex(d, k) == Some(j)
  {
  }

  lemma {:induction false} KeyIndexAbsent<V>(d: seq<(string, V)>, k: string)
    requires forall i :: 0 <= i < |d| ==> d[i].0 != k
    ensures KeyIndex(d, k) == None
  {
  }

  /** Replacing the value of another key does not move `key`. */
  lemma {:induction false} KeyIndexOther<V>(d: seq<(string, V)>, j: nat, v: V, key: string)
    requires j < |d| && d[j].0 != key
    ensures KeyIndex(d[j := (d[j].0, v)], key) == KeyIndex(d, key)
  {
    var r := d[j := (d[j].0, v)];
    assert forall i :: 0 <= i < |d| ==> r[i].0 == d[i].0;
    var b := KeyIndex(d, key);
    if b.Some? {
      KeyIndexFirst(r, key, b.value);
    } else {
      KeyIndexAbsent(r, key);
    }
  }

  lemma {:induction false} KeyIndexAppend<V>(d: seq<(string, V)>, e: (string, V), key: string)
    requires e.0 != key
    ensures KeyIndex(d + [e], key) == KeyIndex(d, key)
  {
    var r := d + [e];
    assert forall i :: 0 <= i < |d| ==> r[i] == d[i];
    var b := KeyIndex(d, key);
    if b.Some? {
      KeyIndexFirst(r, key, b.value);
    } else {
      KeyIndexAbsent(r, key);
    }
  }

  lemma {:induction false} PutNew<V>(d: seq<(string, V)>, k: string, v: V)
    requires k !in Keys(d)
    ensures Put(d, k, v) == d + [(k, v)]
  {
    KeyIndexAbsent(d, k);
  }

  /** `d.update(e)`: the entries of `e` are put in order. */
  function Update<V>(d: seq<(string, V)>, e: seq<(string, V)>): seq<(string, V)>
    decreases |e|
  {
    if e == [] then d else Update(Put(d, e[0].0, e[0].1), e[1..])
  }

  lemma {:induction false} UpdateCons<V>(d: seq<(string, V)>, e: seq<(string, V)>)
    requires e != []
    ensures Update(d, e) == Update(Put(d, e[0].0, e[0].1), e[1..])
  {
  }

  /** No key of `e` is a key of `d`. */
  predicate DisjointKeys<V>(d: seq<(string, V)>, e: seq<(string, V)>) {
    forall i, j :: 0 <= i < |d| && 0 <= j < |e| ==> d[i].0 != e[j].0
  }

  /** Updating with entries whose keys are new and distinct appends them. */
  lemma {:induction false} UpdateDisjoint<V>(d: seq<(string, V)>, e: seq<(string, V)>)
    requires DistinctKeys(e) && DisjointKeys(d, e)
    ensures Update(d, e) == d + e
    decreases |e|
  {
    if e != [] {
      var x, rest := e[0], e[1..];
      assert x.0 !in Keys(d);
      PutNew(d, x.0, x.1);
      var d' := d + [x];
      assert DisjointKeys(d', rest) by {
        forall i, j | 0 <= i < |d'| && 0 <= j < |rest| ensures d'[i].0 != rest[j].0 {
          assert rest[j] == e[j + 1];
          if i == |d| { assert d'[i] == e[0]; } else { assert d'[i] == d[i]; }
        }
      }
      assert DistinctKeys(rest) by {
        forall i, j | 0 <= i < j < |rest| ensures rest[i].0 != rest[j].0 {
          assert rest[i] == e[i + 1] && rest[j] == e[j + 1];
        }
      }
      assert e == [x] + rest;
      assert d' + rest == d + e;
      UpdateCons(d, e);
      assert Put(d, x.0, x.1) == d';
      UpdateDisjoint(d', rest);
    }
  }

  // ----- `to_csv_dict` -----

  /** The CSV key of field `k` in the section tagged `tag`. */
  function CsvKey(tag: string, k: string): string {
    tag + ":" + k
  }

  lemma {:induction false} CsvKeyInjective(tag: string, a: string, b: string)
    requires CsvKey(tag, a) == CsvKey(tag, b)
    ensures a == b
  {
    var n := |tag| + 1;
    assert CsvKey(tag, a)[n..] == a;
    assert CsvKey(tag, b)[n..] == b;
  }

  /** `{tag + ":" + k: str(v)}` over the entries of `d`, in order. */
  function CsvEntries(tag: string, d: seq<(string, Value)>, floatStr: real -> string): (r: seq<(string, string)>)
    ensures |r| == |d|
    ensures forall i :: 0 <= i < |d| ==> r[i] == (CsvKey(tag, d[i].0), Show(d[i].1, floatStr))
  {
    if d == [] then [] else [(CsvKey(tag, d[0].0), Show(d[0].1, floatStr))] + CsvEntries(tag, d[1..], floatStr)
  }

  /** Distinct field names give distinct CSV keys, so no field of a section overwrites another. */
  lemma {:induction false} CsvEntriesDistinct(tag: string, d: seq<(string, Value)>, floatStr: real -> string)
    requires DistinctKeys(d)
    ensures DistinctKeys(CsvEntries(tag, d, floatStr))
  {
    var r := CsvEntries(tag, d, floatStr);
    forall i, j | 0 <= i < j < |r| ensures r[i].0 != r[j].0 {
      if r[i].0 == r[j].0 { CsvKeyInjective(tag, d[i].0, d[j].0); }
    }
  }

  /**
    `GCDaySection.to_csv_dict`: the loop that builds a fresh dict, putting `str(v)` under
    `tag + ":" + k` for every entry of `to_dict()`.
   */
  method SectionCsvDict(tag: string, d: seq<(string, Value)>, floatStr: real -> string) returns (csv: seq<(string, string)>)
    requires DistinctKeys(d)
    ensures csv == CsvEntries(tag, d, floatStr)
  {
    var spec := CsvEntries(tag, d, floatStr);
    CsvEntriesDistinct(tag, d, floatStr);
    csv := [];
    var i := 0;
    while i < |d|
      invariant 0 <= i <= |d|
      invariant csv == spec[..i]
    {
      assert CsvKey(tag, d[i].0) !in Keys(csv) by {
        forall j | 0 <= j < i ensures csv[j].0 != spec[i].0 {
          assert csv[j] == spec[j];
        }
      }
      csv := Put(csv, CsvKey(tag, d[i].0), Show(d[i].1, floatStr));
      assert csv == spec[..i] + [spec[i]];
      i := i + 1;
    }
    assert spec[..|d|] == spec;
  }

  // ----- `json.loads(section.to_json())` -----

  /** A decoded JSON document; the encoding itself is not modelled. */
  datatype Json = JString(s: string) | JArray(items: seq<Json>) | JObject(members: seq<(string, Json)>)

  /** A dict whose every value was turned into its `str()`. */
  function StringifiedEntries(d: seq<(string, Value)>, floatStr: real -> string): (r: seq<(string, Json)>)
    ensures |r| == |d|
    ensures forall i :: 0 <= i < |d| ==> r[i] == (d[i].0, JString(Show(d[i].1, floatStr)))
  {
    if d == [] then [] else [(d[0].0, JString(Show(d[0].1, floatStr)))] + StringifiedEntries(d[1..], floatStr)
  }

  // ----- `d[k] = str(d[k])` for every key -----

  /** The dict after `a[k] = str(a[k])` for every key. */
  function Stringified(a: seq<(string, Value)>, floatStr: real -> string): (r: seq<(string, Value)>)
    ensures |r| == |a|
    ensures forall i :: 0 <= i < |a| ==> r[i] == (a[i].0, StrValue(Show(a[i].1, floatStr)))
  {
    if a == [] then [] else [(a[0].0, StrValue(Show(a[0].1, floatStr)))] + Stringified(a[1..], floatStr)
  }

  /** Stringifying keeps the keys, and a second pass changes nothing. */
  lemma {:induction false} StringifiedTwice(a: seq<(string, Value)>, floatStr: real -> string)
    ensures Keys(Stringified(a, floatStr)) == Keys(a)
    ensures Stringified(Stringified(a, floatStr), floatStr) == Stringified(a, floatStr)
    ensures StringifiedEntries(Stringified(a, floatStr), floatStr) == StringifiedEntries(a, floatStr)
  {
  }

  /** `for k in d.keys(): d[k] = str(d[k])`, on the dict in place. */
  method StringifyDict(d: seq<(string, Value)>, floatStr: real -> string) returns (c: seq<(string, Value)>)
    ensures c == Stringified(d, floatStr)
  {
    var spec := Stringified(d, floatStr);
    c := d;
    var i := 0;
    while i < |c|
      invariant 0 <= i <= |d| && |c| == |d|
      invariant c[..i] == spec[..i] && c[i..] == d[i..]
    {
      c := c[i := (c[i].0, StrValue(Show(c[i].1, floatStr)))];
      i := i + 1;
    }
    assert c == spec;
  }

  /**
    `GCDaySection.to_json`: a fresh `to_dict()` whose values are replaced by their `str()` one key
    at a time, then encoded; the model returns the document the encoding denotes.
   */
  method SectionJson(d: seq<(string, Value)>, floatStr: real -> string) returns (j: Json)
    ensures j == JObject(StringifiedEntries(d, floatStr))
  {
    var c := StringifyDict(d, floatStr);
    StringifiedTwice(d, floatStr);
    j := JObject(StringifiedEntries(c, floatStr));
  }

  /** `json.loads(json.dumps(ds))` for a list of dicts whose values are all texts. */
  function DictsJson(ds: seq<seq<(string, Value)>>, floatStr: real -> string): (j: Json)
    ensures j.JArray? && |j.items| == |ds|
    ensures forall i :: 0 <= i < |ds| ==> j.items[i] == JObject(StringifiedEntries(ds[i], floatStr))
  {
    if ds == [] then JArray([])
    else JArray([JObject(StringifiedEntries(ds[0], floatStr))] + DictsJson(ds[1..], floatStr).items)
  }

  lemma {:induction false} KeysConcat<V>(a: seq<(string, V)>, b: seq<(string, V)>)
    ensures Keys(a + b) == Keys(a) + Keys(b)
  {
    assert forall i :: 0 <= i < |a + b| ==> Keys(a + b)[i] == (Keys(a) + Keys(b))[i];
  }

  // ----- keys of the flat CSV row -----

  /** The CSV keys of the fields `ks`. */
  function CsvKeys(tag: string, ks: seq<string>): (r: seq<string>)
    ensures |r| == |ks|
    ensures forall i :: 0 <= i < |ks| ==> r[i] == CsvKey(tag, ks[i])
  {
    if ks == [] then [] else [CsvKey(tag, ks[0])] + CsvKeys(tag, ks[1..])
  }

  lemma {:induction false} CsvEntriesKeys(tag: string, d: seq<(string, Value)>, floatStr: real -> string)
    ensures Keys(CsvEntries(tag, d, floatStr)) == CsvKeys(tag, Keys(d))
  {
  }

  /** The section a CSV key belongs to: its text before the first colon (`key.split(":")[0]`). */
  function TagOf(key: string): (t: string)
    ensures |t| <= |key| && t == key[..|t|]
  {
    if key == [] || key[0] == ':' then [] else [key[0]] + TagOf(key[1..])
  }

  /** A colon-free tag is recovered from every key made with it. */
  lemma {:induction false} CsvKeyTag(tag: string, k: string)
    requires Count(tag, ':') == 0
    ensures TagOf(CsvKey(tag, k)) == tag
  {
    if tag == [] {
      assert CsvKey(tag, k) == [':'] + k;
    } else {
      assert CsvKey(tag, k) == [tag[0]] + CsvKey(tag[1..], k);
      CsvKeyTag(tag[1..], k);
    }
  }

  /** A key without a colon is its own tag. */
  lemma {:induction false} PlainKeyTag(k: string)
    requires Count(k, ':') == 0
    ensures TagOf(k) == k
  {
    if k != [] {
      PlainKeyTag(k[1..]);
    }
  }

  /** Every key of `d` belongs to one of `tags`. */
  predicate TaggedIn<V>(d: seq<(string, V)>, tags: set<string>) {
    forall i :: 0 <= i < |d| ==> TagOf(d[i].0) in tags
  }

  /** A dict whose keys are the CSV keys of a colon-free tag has that tag on every key. */
  lemma {:induction false} KeysTagged<V>(e: seq<(string, V)>, tag: string, ks: seq<string>)
    requires Count(tag, ':') == 0 && Keys(e) == CsvKeys(tag, ks)
    ensures forall j :: 0 <= j < |e| ==> TagOf(e[j].0) == tag
  {
    forall j | 0 <= j < |e| ensures TagOf(e[j].0) == tag {
      assert e[j].0 == Keys(e)[j] == CsvKey(tag, ks[j]);
      CsvKeyTag(tag, ks[j]);
    }
  }

  /**
    `d.update(e)` with the entries of a section whose tag no key of `d` has: nothing is
    overwritten, the entries are appended in order, and the tag joins the ones present.
   */
  lemma {:induction false} UpdateTagged<V>(d: seq<(string, V)>, e: seq<(string, V)>, tags: set<string>, tag: string)
    requires TaggedIn(d, tags) && tag !in tags && DistinctKeys(e)
    requires forall j :: 0 <= j < |e| ==> TagOf(e[j].0) == tag
    ensures Update(d, e) == d + e && TaggedIn(d + e, tags + {tag})
  {
    assert DisjointKeys(d, e) by {
      forall i, j | 0 <= i < |d| && 0 <= j < |e| ensures d[i].0 != e[j].0 {
        assert TagOf(d[i].0) in tags;
      }
    }
    UpdateDisjoint(d, e);
    forall i | 0 <= i < |d + e| ensures TagOf((d + e)[i].0) in tags + {tag} {
      if i < |d| { assert (d + e)[i] == d[i]; } else { assert (d + e)[i] == e[i - |d|]; }
    }
  }

  /** Appending a dict whose keys are new keeps the keys distinct. */
  lemma {:induction false} DistinctAppend<V>(d: seq<(string, V)>, e: seq<(string, V)>, tags: set<string>, tag: string)
    requires DistinctKeys(d) && DistinctKeys(e) && TaggedIn(d, tags) && tag !in tags
    requires forall j :: 0 <= j < |e| ==> TagOf(e[j].0) == tag
    ensures DistinctKeys(d + e)
  {
    forall i, j | 0 <= i < j < |d + e| ensures (d + e)[i].0 != (d + e)[j].0 {
      if j < |d| {
        assert (d + e)[i] == d[i] && (d + e)[j] == d[j];
      } else if i >= |d| {
        assert (d + e)[i] == e[i - |d|] && (d + e)[j] == e[j - |d|];
      } else {
        assert (d + e)[i] == d[i] && (d + e)[j] == e[j - |d|];
        assert TagOf(d[i].0) in tags;
      }
    }
  }

  /** The dicts of `es` one after the other. */
  function Concat<V>(es: seq<seq<(string, V)>>): seq<(string, V)> {
    if es == [] then [] else es[0] + Concat(es[1..])
  }

  lemma {:induction false} AppendAssoc<T>(a: seq<T>, b: seq<T>, c: seq<T>)
    ensures a + b + c == a + (b + c)
  {
  }

  /** `for e in es: d.update(e)`. */
  function UpdateAll<V>(d: seq<(string, V)>, es: seq<seq<(string, V)>>): seq<(string, V)>
    decreases |es|
  {
    if es == [] then d else UpdateAll(Update(d, es[0]), es[1..])
  }

  /** The loop `for e in es: d.update(e)`, on a fresh copy of `d`. */
  method MergeCsv(d: seq<(string, string)>, es: seq<seq<(string, string)>>) returns (r: seq<(string, string)>)
    ensures r == UpdateAll(d, es)
  {
    r := d;
    var i := 0;
    while i < |es|
      invariant 0 <= i <= |es|
      invariant UpdateAll(r, es[i..]) == UpdateAll(d, es)
    {
      assert es[i..][1..] == es[i + 1..];
      r := Update(r, es[i]);
      i := i + 1;
    }
  }

  /**
    Merging dicts of distinct sections, none of whose tags is already present, overwrites
    nothing: the result is every dict appended in order, and its keys stay distinct.
   */
  lemma {:induction false} UpdateAllTagged<V>(d: seq<(string, V)>, es: seq<seq<(string, V)>>, tags: set<string>, etags: seq<string>)
    requires |etags| == |es| && TaggedIn(d, tags) && DistinctKeys(d)
    requires forall i :: 0 <= i < |es| ==> etags[i] !in tags && DistinctKeys(es[i])
    requires forall i, j :: 0 <= i < |es| && 0 <= j < |es[i]| ==> TagOf(es[i][j].0) == etags[i]
    requires forall i, k :: 0 <= i < k < |etags| ==> etags[i] != etags[k]
    ensures UpdateAll(d, es) == d + Concat(es) && DistinctKeys(d + Concat(es))
    decreases |es|
  {
    if es == [] {
      assert d + Concat(es) == d;
    } else {
      var e := es[0];
      assert forall j :: 0 <= j < |e| ==> TagOf(e[j].0) == etags[0];
      UpdateTagged(d, e, tags, etags[0]);
      DistinctAppend(d, e, tags, etags[0]);
      var rest, restTags, tags' := es[1..], etags[1..], tags + {etags[0]};
      assert forall i :: 0 <= i < |rest| ==> rest[i] == es[i + 1] && restTags[i] == etags[i + 1];
      assert forall i :: 0 <= i < |rest| ==> restTags[i] !in tags' && DistinctKeys(rest[i]) by {
        forall i | 0 <= i < |rest| ensures restTags[i] !in tags' && DistinctKeys(rest[i]) {
          assert etags[0] != etags[i + 1];
        }
      }
      assert forall i, j :: 0 <= i < |rest| && 0 <= j < |rest[i]| ==> TagOf(rest[i][j].0) == restTags[i] by {
        forall i, j | 0 <= i < |rest| && 0 <= j < |rest[i]| ensures TagOf(rest[i][j].0) == restTags[i] {
          assert rest[i][j] == es[i + 1][j];
        }
      }
      assert forall i, k :: 0 <= i < k < |restTags| ==> restTags[i] != restTags[k] by {
        forall i, k | 0 <= i < k < |restTags| ensures restTags[i] != restTags[k] {
          assert etags[i + 1] != etags[k + 1];
        }
      }
      UpdateAllTagged(d + e, rest, tags', restTags);
      assert Concat(es) == e + Concat(rest);
      AppendAssoc(d, e, Concat(rest));
    }
  }

  /** The CSV dicts of the sections whose tags are `tags` and whose dicts are `ds`, in order. */
  function CsvAll(tags: seq<string>, ds: seq<seq<(string, Value)>>, floatStr: real -> string): (es: seq<seq<(string, string)>>)
    requires |tags| == |ds|
    ensures |es| == |ds|
  {
    if ds == [] then [] else [CsvEntries(tags[0], ds[0], floatStr)] + CsvAll(tags[1..], ds[1..], floatStr)
  }

  /** Entry `i` of the merged list is the CSV dict of section `i`. */
  lemma {:induction false} CsvAllAt(tags: seq<string>, ds: seq<seq<(string, Value)>>, floatStr: real -> string)
    requires |tags| == |ds|
    ensures forall i :: 0 <= i < |ds| ==> CsvAll(tags, ds, floatStr)[i] == CsvEntries(tags[i], ds[i], floatStr)
  {
    if ds != [] {
      CsvAllAt(tags[1..], ds[1..], floatStr);
    }
  }

  /**
    Merging the CSV dicts of sections with distinct colon-free tags, none already present in
    `d`, overwrites nothing: the entries are appended in order and the keys stay distinct.
   */
  lemma {:induction false} UpdateAllCsv(d: seq<(string, string)>, used: set<string>, tags: seq<string>, ds: seq<seq<(string, Value)>>, floatStr: real -> string)
    requires |tags| == |ds| && TaggedIn(d, used) && DistinctKeys(d)
    requires forall i :: 0 <= i < |tags| ==> Count(tags[i], ':') == 0 && tags[i] !in used && DistinctKeys(ds[i])
    requires forall i, k :: 0 <= i < k < |tags| ==> tags[i] != tags[k]
    ensures var es := CsvAll(tags, ds, floatStr);
      UpdateAll(d, es) == d + Concat(es) && DistinctKeys(d + Concat(es))
  {
    var es := CsvAll(tags, ds, floatStr);
    CsvAllAt(tags, ds, floatStr);
    forall i | 0 <= i < |es| ensures DistinctKeys(es[i]) && forall j :: 0 <= j < |es[i]| ==> TagOf(es[i][j].0) == tags[i] {
      CsvEntriesDistinct(tags[i], ds[i], floatStr);
      CsvEntriesKeys(tags[i], ds[i], floatStr);
      KeysTagged(es[i], tags[i], Keys(ds[i]));
    }
    UpdateAllTagged(d, es, used, tags);
  }

  /** The keys of the merged CSV dicts: each section's CSV keys, in order. */
  lemma {:induction false} CsvAllKeys(tags: seq<string>, ds: seq<seq<(string, Value)>>, kss: seq<seq<string>>, floatStr: real -> string)
    requires |tags| == |ds| == |kss| && forall i :: 0 <= i < |ds| ==> Keys(ds[i]) == kss[i]
    ensures Keys(Concat(CsvAll(tags, ds, floatStr))) == CsvKeysAll(tags, kss)
  {
    if ds != [] {
      var es := CsvAll(tags, ds, floatStr);
      CsvEntriesKeys(tags[0], ds[0], floatStr);
      KeysConcat(es[0], Concat(es[1..]));
      assert forall i :: 0 <= i < |ds| - 1 ==> ds[1..][i] == ds[i + 1] && kss[1..][i] == kss[i + 1];
      CsvAllKeys(tags[1..], ds[1..], kss[1..], floatStr);
    }
  }

  /** The CSV keys of sections with tags `tags` and fields `kss`, in order. */
  function CsvKeysAll(tags: seq<string>, kss: seq<seq<string>>): seq<string>
    requires |tags| == |kss|
  {
    if kss == [] then [] else CsvKeys(tags[0], kss[0]) + CsvKeysAll(tags[1..], kss[1..])
  }
}
