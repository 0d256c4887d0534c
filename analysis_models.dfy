/**
  The data filter of the analysis package: the time and float column conversions of
  `GarminDataFilter`, the `parse_csv` steps of the timeline and activities analyses after the CSV
  reader, and the input feature list of the regressions. The helper module this file imports as
  `utils` has no `get_seconds`, so the time conversion is modelled twice: as written, where the
  lookup raises `AttributeError`, and corrected with the `get_seconds` of the correlation script.
 */
module AnalysisModels {
  import opened Wrappers
  import opened GarminUtils
  import opened AnalysisTable
  import MA = ModelsAnalysis

  // ----- convert_time_columns as written -----

  /** `utils.get_seconds(...)` on a module without that name: the lookup raises before the cell is read. */
  function MissingGetSeconds(): (convert: Option<Cell> -> Result<Cell>)
    ensures forall c :: convert(c) == Err(AttributeError)
  {
    _ => Err(AttributeError)
  }

  /** `GarminDataFilter.convert_time_columns` as written. */
  method ConvertTimeColumnsAsWritten(headers: seq<string>, headersToConvert: seq<string>, data: Table)
    returns (d: Table, o: Outcome)
    modifies data
    ensures d == data
    ensures (data.rows, o) == ColumnsConverted(Selection(headers, headersToConvert), old(data.rows), MissingGetSeconds(), |headers|)
  {
    d, o := ConvertColumns(headers, headersToConvert, data, MissingGetSeconds());
  }

  /** One column as written: the first row raises, so no cell changes. */
  lemma {:induction false} MissingColumn(rows: seq<seq<Cell>>, i: nat)
    ensures ColumnConverted(rows, i, MissingGetSeconds()) == if rows == [] then ([], Pass) else (rows, Fail(AttributeError))
  {
    if rows != [] {
      var init := rows[..|rows| - 1];
      MissingColumn(init, i);
      assert rows == init + [rows[|rows| - 1]];
    } else {
      assert ColumnConverted(rows, i, MissingGetSeconds()) == ([], Pass);
    }
  }

  /** The outer loop as written, over the first `n` header positions. */
  lemma {:induction false} MissingColumns(mask: seq<bool>, rows: seq<seq<Cell>>, n: nat)
    requires n <= |mask|
    ensures ColumnsConverted(mask, rows, MissingGetSeconds(), n) ==
      if rows != [] && exists j :: 0 <= j < n && mask[j] then (rows, Fail(AttributeError)) else (rows, Pass)
  {
    if n > 0 {
      MissingColumns(mask, rows, n - 1);
      if mask[n - 1] && !(rows != [] && exists j :: 0 <= j < n - 1 && mask[j]) {
        MissingColumn(rows, n - 1);
      }
    }
  }

  /**
    As written, `convert_time_columns` leaves the table as it was and raises `AttributeError`
    exactly when some header is listed and the table has a row.
   */
  lemma {:induction false} ConvertTimeColumnsAsWrittenFails(headers: seq<string>, selected: seq<string>, rows: seq<seq<Cell>>)
    ensures ColumnsConverted(Selection(headers, selected), rows, MissingGetSeconds(), |headers|) ==
      if rows != [] && exists j :: 0 <= j < |headers| && headers[j] in selected then (rows, Fail(AttributeError)) else (rows, Pass)
  {
    var mask := Selection(headers, selected);
    MissingColumns(mask, rows, |headers|);
    assert (exists j :: 0 <= j < |headers| && mask[j]) <==> (exists j :: 0 <= j < |headers| && headers[j] in selected);
  }

  // ----- the corrected conversions -----

  /** `GarminDataFilter.convert_time_columns` with the `get_seconds` it evidently means. */
  method ConvertTimeColumns(headers: seq<string>, headersToConvert: seq<string>, data: Table, floatStr: real -> string)
    returns (d: Table, o: Outcome)
    modifies data
    ensures d == data
    ensures (data.rows, o) == ColumnsConverted(Selection(headers, headersToConvert), old(data.rows), MA.TimeConverter(floatStr), |headers|)
  {
    d, o := MA.ConvertTimeColumns(headers, headersToConvert, data, floatStr);
  }

  /** `GarminDataFilter.fix_floats`: every listed column has its cells read by `parse_num`. */
  method FixFloats(headers: seq<string>, headersToFix: seq<string>, data: Table, floatStr: real -> string)
    returns (d: Table, o: Outcome)
    modifies data
    ensures d == data
    ensures (data.rows, o) == ColumnsConverted(Selection(headers, headersToFix), old(data.rows), FloatFixer(floatStr), |headers|)
  {
    d, o := ConvertColumns(headers, headersToFix, data, FloatFixer(floatStr));
  }

  /** A cell passes the float fixer exactly when `parse_num` reads its text, and becomes that number. */
  lemma {:induction false} FloatFixerOf(c: Cell, floatStr: real -> string)
    ensures FloatFixer(floatStr)(Some(c)).Ok? <==> ParseNum(CellText(c, floatStr)).Ok?
    ensures FloatFixer(floatStr)(Some(c)).Ok? ==>
      FloatFixer(floatStr)(Some(c)).value == Number(ParseNum(CellText(c, floatStr)).value)
  {
  }

  /** `fix_floats` keeps the shape of the table and rewrites no cell outside a listed column. */
  lemma {:induction false} FixFloatsFrame(headers: seq<string>, selected: seq<string>, rows: seq<seq<Cell>>, floatStr: real -> string)
    ensures var rows' := ColumnsConverted(Selection(headers, selected), rows, FloatFixer(floatStr), |headers|).0;
      |rows'| == |rows| &&
      (forall r :: 0 <= r < |rows| ==> |rows'[r]| == |rows[r]|) &&
      (forall r, j :: 0 <= r < |rows| && 0 <= j < |rows[r]| && (j >= |headers| || headers[j] !in selected) ==>
        rows'[r][j] == rows[r][j])
  {
    var mask := Selection(headers, selected);
    ColumnsConvertedShape(mask, rows, FloatFixer(floatStr), |headers|);
    forall r, j | 0 <= r < |rows| && 0 <= j < |rows[r]| && (j >= |headers| || headers[j] !in selected)
      ensures ColumnsConverted(mask, rows, FloatFixer(floatStr), |headers|).0[r][j] == rows[r][j]
    {
      assert !Listed(mask, |headers|, j);
      ColumnsConvertedOther(mask, rows, FloatFixer(floatStr), |headers|, r, j);
    }
  }

  /** `fix_floats` passes exactly when every cell of every listed column is a locale number. */
  lemma {:induction false} FixFloatsPass(headers: seq<string>, selected: seq<string>, rows: seq<seq<Cell>>, floatStr: real -> string)
    ensures ColumnsConverted(Selection(headers, selected), rows, FloatFixer(floatStr), |headers|).1.Pass? <==>
      forall j, r :: 0 <= j < |headers| && headers[j] in selected && 0 <= r < |rows| ==>
        j < |rows[r]| && ParseNum(CellText(rows[r][j], floatStr)).Ok?
  {
    var mask := Selection(headers, selected);
    var convert := FloatFixer(floatStr);
    ColumnsConvertedPass(mask, rows, convert, |headers|);
    forall j, r | 0 <= j < |headers| && 0 <= r < |rows| && j < |rows[r]|
      ensures convert(CellAt(rows[r], j)).Ok? <==> ParseNum(CellText(rows[r][j], floatStr)).Ok?
    {
      FloatFixerOf(rows[r][j], floatStr);
    }
  }

  /** When `fix_floats` passes, each cell of a listed column holds `parse_num` of its old text. */
  lemma {:induction false} FixFloatsValues(headers: seq<string>, selected: seq<string>, rows: seq<seq<Cell>>, floatStr: real -> string)
    ensures var (rows', o) := ColumnsConverted(Selection(headers, selected), rows, FloatFixer(floatStr), |headers|);
      o.Pass? ==> forall j, r :: 0 <= j < |headers| && headers[j] in selected && 0 <= r < |rows| ==>
        j < |rows[r]| && r < |rows'| && j < |rows'[r]| &&
        rows'[r][j].Number? && ParseNum(CellText(rows[r][j], floatStr)) == Ok(rows'[r][j].value)
  {
    var mask := Selection(headers, selected);
    var convert := FloatFixer(floatStr);
    ColumnsConvertedShape(mask, rows, convert, |headers|);
    var (rows', o) := ColumnsConverted(mask, rows, convert, |headers|);
    if o.Pass? {
      forall j, r | 0 <= j < |headers| && headers[j] in selected && 0 <= r < |rows|
        ensures j < |rows[r]| && j < |rows'[r]| &&
          rows'[r][j].Number? && ParseNum(CellText(rows[r][j], floatStr)) == Ok(rows'[r][j].value)
      {
        assert Listed(mask, |headers|, j);
        ColumnsConvertedValue(mask, rows, convert, |headers|, r, j);
        FloatFixerOf(rows[r][j], floatStr);
      }
    }
  }

  // ----- the two analyses -----

  /** `TimelineDataAnalysis.TIME_HEADERS_TO_CONVERT`, the same seven names as the correlation script's. */
  const TIMELINE_TIME_HEADERS: seq<string> := MA.TIME_HEADERS_TO_CONVERT

  /**
    `TimelineDataAnalysis.parse_csv` after the CSV reader returned `headers` and the rows of
    `data`: the seven time columns converted in place.
   */
  method TimelineParseCsv(headers: seq<string>, data: Table, floatStr: real -> string) returns (d: Table, o: Outcome)
    modifies data
    ensures d == data
    ensures (data.rows, o) == ColumnsConverted(Selection(headers, TIMELINE_TIME_HEADERS), old(data.rows), MA.TimeConverter(floatStr), |headers|)
  {
    d, o := ConvertTimeColumns(headers, TIMELINE_TIME_HEADERS, data, floatStr);
  }

  /** `ActivitiesDataAnalysis.TIME_HEADERS_TO_CONVERT`. */
  const ACTIVITIES_TIME_HEADERS: seq<string> := ["Time", "Avg Speed(Avg Pace)", "Max Speed(Best Pace)"]

  /** `ActivitiesDataAnalysis.HEADERS_WITH_MALFORMED_FLOATS`. */
  const MALFORMED_FLOAT_HEADERS: seq<string> := ["Distance", "Training Effect"]

  /** No column is both a time column and a malformed-float column of the activities analysis. */
  lemma ActivitiesListsDisjoint()
    ensures forall h :: h in ACTIVITIES_TIME_HEADERS ==> h !in MALFORMED_FLOAT_HEADERS
  {
  }

  /** The activities table after its time columns are converted and, if that passed, its floats fixed. */
  function ActivitiesConverted(headers: seq<string>, rows: seq<seq<Cell>>, floatStr: real -> string): (r: (seq<seq<Cell>>, Outcome))
  {
    var (timed, o) := ColumnsConverted(Selection(headers, ACTIVITIES_TIME_HEADERS), rows, MA.TimeConverter(floatStr), |headers|);
    if o.Fail? then (timed, o)
    else ColumnsConverted(Selection(headers, MALFORMED_FLOAT_HEADERS), timed, FloatFixer(floatStr), |headers|)
  }

  /** `ActivitiesDataAnalysis.parse_csv` after the CSV reader: the time columns, then the floats. */
  method ActivitiesParseCsv(headers: seq<string>, data: Table, floatStr: real -> string) returns (d: Table, o: Outcome)
    modifies data
    ensures d == data
    ensures (data.rows, o) == ActivitiesConverted(headers, old(data.rows), floatStr)
  {
    d, o := ConvertTimeColumns(headers, ACTIVITIES_TIME_HEADERS, data, floatStr);
    if o.Fail? {
      return;
    }
    d, o := FixFloats(headers, MALFORMED_FLOAT_HEADERS, d, floatStr);
  }

  /** A column in neither list keeps every cell through both conversions. */
  lemma {:induction false} ActivitiesUntouched(headers: seq<string>, rows: seq<seq<Cell>>, floatStr: real -> string)
    ensures var rows' := ActivitiesConverted(headers, rows, floatStr).0;
      |rows'| == |rows| &&
      (forall r :: 0 <= r < |rows| ==> |rows'[r]| == |rows[r]|) &&
      (forall r, j :: 0 <= r < |rows| && 0 <= j < |rows[r]| &&
        (j >= |headers| || (headers[j] !in ACTIVITIES_TIME_HEADERS && headers[j] !in MALFORMED_FLOAT_HEADERS))
        ==> rows'[r][j] == rows[r][j])
  {
    MA.TimeColumnsFrame(headers, ACTIVITIES_TIME_HEADERS, rows, floatStr);
    var (timed, o) := ColumnsConverted(Selection(headers, ACTIVITIES_TIME_HEADERS), rows, MA.TimeConverter(floatStr), |headers|);
    if o.Pass? {
      FixFloatsFrame(headers, MALFORMED_FLOAT_HEADERS, timed, floatStr);
    }
  }

  /**
    When the activities conversion passes, a time column holds the seconds of its original text
    and a malformed-float column the number `parse_num` reads from its original text: neither
    conversion undoes or overwrites the other.
   */
  lemma {:induction false} ActivitiesValues(headers: seq<string>, rows: seq<seq<Cell>>, floatStr: real -> string)
    ensures var (rows', o) := ActivitiesConverted(headers, rows, floatStr);
      o.Pass? ==>
        (forall j, r :: 0 <= j < |headers| && headers[j] in ACTIVITIES_TIME_HEADERS && 0 <= r < |rows| ==>
          j < |rows[r]| && r < |rows'| && j < |rows'[r]| &&
          rows'[r][j].Number? && MA.GetSeconds(CellText(rows[r][j], floatStr)) == Ok(rows'[r][j].value)) &&
        (forall j, r :: 0 <= j < |headers| && headers[j] in MALFORMED_FLOAT_HEADERS && 0 <= r < |rows| ==>
          j < |rows[r]| && r < |rows'| && j < |rows'[r]| &&
          rows'[r][j].Number? && ParseNum(CellText(rows[r][j], floatStr)) == Ok(rows'[r][j].value))
  {
    var (timed, o1) := ColumnsConverted(Selection(headers, ACTIVITIES_TIME_HEADERS), rows, MA.TimeConverter(floatStr), |headers|);
    if o1.Pass? {
      var (rows', o) := ColumnsConverted(Selection(headers, MALFORMED_FLOAT_HEADERS), timed, FloatFixer(floatStr), |headers|);
      if o.Pass? {
        MA.TimeColumnsFrame(headers, ACTIVITIES_TIME_HEADERS, rows, floatStr);
        MA.TimeColumnsValues(headers, ACTIVITIES_TIME_HEADERS, rows, floatStr);
        FixFloatsFrame(headers, MALFORMED_FLOAT_HEADERS, timed, floatStr);
        FixFloatsValues(headers, MALFORMED_FLOAT_HEADERS, timed, floatStr);
        ActivitiesListsDisjoint();
        forall j, r | 0 <= j < |headers| && headers[j] in MALFORMED_FLOAT_HEADERS && 0 <= r < |rows|
          ensures timed[r][j] == rows[r][j]
        {
          assert headers[j] !in ACTIVITIES_TIME_HEADERS;
        }
      }
    }
  }

  // ----- the input features of a regression -----

  /** `xs.remove(x)` on a copy of `xs`: the first occurrence of `x` removed, `ValueError` when there is none. */
  function RemoveFirst(xs: seq<string>, x: string): (r: Result<seq<string>>)
    ensures r.Ok? <==> x in xs
    ensures r.Err? ==> r.error == ValueError
    ensures r.Ok? ==> |r.value| == |xs| - 1 && multiset(r.value) == multiset(xs) - multiset{x}
  {
    if xs == [] then Err(ValueError)
    else if xs[0] == x then
      assert xs == [xs[0]] + xs[1..];
      Ok(xs[1..])
    else
      var t := RemoveFirst(xs[1..], x);
      assert xs == [xs[0]] + xs[1..];
      if t.Ok? then Ok([xs[0]] + t.value) else Err(t.error)
  }

  /** The element removed is the first `x`: the ones before it and after it stay, in order. */
  lemma {:induction false} RemoveFirstAt(xs: seq<string>, x: string, i: nat)
    requires i < |xs| && xs[i] == x && x !in xs[..i]
    ensures RemoveFirst(xs, x) == Ok(xs[..i] + xs[i + 1..])
  {
    if i > 0 {
      assert xs[0] == xs[..i][0];
      assert xs[1..][..i - 1] == xs[1..i];
      assert xs[1..][i..] == xs[i + 1..];
      RemoveFirstAt(xs[1..], x, i - 1);
      assert [xs[0]] + (xs[1..i] + xs[i + 1..]) == xs[..i] + xs[i + 1..];
    } else {
      assert xs[..i] + xs[i + 1..] == xs[1..];
    }
  }

  /** In a list without repeats, removing `x` leaves exactly the other elements. */
  lemma {:induction false} RemoveFirstDistinct(xs: seq<string>, x: string, i: nat)
    requires i < |xs| && xs[i] == x
    requires forall a, b :: 0 <= a < b < |xs| ==> xs[a] != xs[b]
    ensures RemoveFirst(xs, x) == Ok(xs[..i] + xs[i + 1..])
    ensures forall h :: h in xs[..i] + xs[i + 1..] <==> h in xs && h != x
  {
    assert x !in xs[..i] by {
      forall k | 0 <= k < i ensures xs[..i][k] != x {
        assert xs[..i][k] == xs[k];
      }
    }
    RemoveFirstAt(xs, x, i);
    var r := xs[..i] + xs[i + 1..];
    forall h ensures h in r <==> h in xs && h != x {
      if h in r {
        var k :| 0 <= k < |r| && r[k] == h;
        if k < i {
          assert r[k] == xs[k];
        } else {
          assert r[k] == xs[k + 1];
        }
      }
      if h in xs && h != x {
        var k :| 0 <= k < |xs| && xs[k] == h;
        if k < i {
          assert r[k] == h;
        } else {
          assert k != i;
          assert r[k - 1] == h;
        }
      }
    }
  }

  /** `TimelineDataAnalysis.HEADERS_TO_ANALYZE`. */
  const TIMELINE_HEADERS_TO_ANALYZE: seq<string> := [
    "SUMMARY:kcal_count", "STEPS:distance", "SLEEP:light_sleep_time", "BREAKDOWN:sleeping",
    "BREAKDOWN:highly_active", "ACTIVITIES:kcal", "BREAKDOWN:active", "STEPS:total", "STEPS:avg",
    "BREAKDOWN:sedentary", "SLEEP:awake_sleep_time", "SLEEP:total_sleep_time", "SLEEP:deep_sleep_time",
    "ACTIVITIES:duration", "ACTIVITIES:distance", "STEPS:goal"]

  /** The sixteen names of the timeline analysis are distinct. */
  lemma TimelineHeadersDistinct()
    ensures forall i, j :: 0 <= i < j < |TIMELINE_HEADERS_TO_ANALYZE| ==> TIMELINE_HEADERS_TO_ANALYZE[i] != TIMELINE_HEADERS_TO_ANALYZE[j]
  {
  }

  /**
    The input features of `predict_feature` and `select_k_best`: the analysed headers without the
    feature to predict, which must be one of them.
   */
  function InputFeatures(feature: string): (r: Result<seq<string>>)
    ensures r.Ok? <==> feature in TIMELINE_HEADERS_TO_ANALYZE
    ensures r.Err? ==> r.error == ValueError
    ensures r.Ok? ==> |r.value| == |TIMELINE_HEADERS_TO_ANALYZE| - 1
  {
    RemoveFirst(TIMELINE_HEADERS_TO_ANALYZE, feature)
  }

  /** Every analysed header but the predicted one is an input feature, in its original order. */
  lemma {:induction false} InputFeaturesExclude(feature: string, i: nat)
    requires i < |TIMELINE_HEADERS_TO_ANALYZE| && TIMELINE_HEADERS_TO_ANALYZE[i] == feature
    ensures InputFeatures(feature) == Ok(TIMELINE_HEADERS_TO_ANALYZE[..i] + TIMELINE_HEADERS_TO_ANALYZE[i + 1..])
    ensures forall h :: h in InputFeatures(feature).value <==> h in TIMELINE_HEADERS_TO_ANALYZE && h != feature
  {
    TimelineHeadersDistinct();
    RemoveFirstDistinct(TIMELINE_HEADERS_TO_ANALYZE, feature, i);
  }
}
