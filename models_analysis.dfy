/**
  The module-level helpers and the CSV preparation of the correlation analysis: `get_seconds`,
  `convert_time_columns` and `CorrelationAnalysis.parse_csv`, after the CSV reader has produced
  the lines of the file.
 */
module ModelsAnalysis {
  import opened Wrappers
  import opened Text
  import opened PyDateTime
  import opened GarminUtils
  import opened AnalysisTable

  /**
    `get_seconds(s)`: `str(s).strip()` read with `%H:%M:%S`, and the float
    `second + minute * 60.0 + hour * 60.0 * 60.0`.
   */
  function GetSeconds(s: string): (r: Result<real>)
    ensures r.Ok? ==> 0.0 <= r.value < 86400.0
  {
    var t := StrptimeHMS(Strip(s));
    if t.Ok? then
      Ok(t.value.second as real + t.value.minute as real * 60.0 + t.value.hour as real * 60.0 * 60.0)
    else Err(t.error)
  }

  /** Every time that `str()` writes as `HH:MM:SS` is read back as its number of seconds. */
  lemma {:induction false} GetSecondsRoundTrip(t: ClockTime)
    requires ValidTime(t)
    ensures GetSeconds(TimeStr(t)) == Ok(SecondsOf(t) as real)
  {
    var a, b, c := Pad2(t.hour), Pad2(t.minute), Pad2(t.second);
    assert TimeStr(t) == a + (":" + b + ":" + c);
    StripClock(a, ":" + b + ":" + c);
    StrptimeHMSRoundTrip(t);
  }

  /** `get_seconds(data[row][i])`: the index is read first, then the cell converted. */
  function TimeCell(c: Option<Cell>, floatStr: real -> string): (r: Result<Cell>)
    ensures c.None? ==> r == Err(IndexError)
    ensures r.Ok? ==> r.value.Number? && 0.0 <= r.value.value < 86400.0
  {
    if c.None? then Err(IndexError)
    else
      var v := GetSeconds(CellText(c.value, floatStr));
      if v.Ok? then Ok(Number(v.value)) else Err(v.error)
  }

  /** The converter of `convert_time_columns`. */
  function TimeConverter(floatStr: real -> string): (convert: Option<Cell> -> Result<Cell>)
    ensures IndexChecked(convert)
  {
    c => TimeCell(c, floatStr)
  }

  /** `CorrelationAnalysis.TIME_HEADERS_TO_CONVERT`. */
  const TIME_HEADERS_TO_CONVERT: seq<string> := [
    "SLEEP:nap_time", "SLEEP:light_sleep_time", "SLEEP:awake_sleep_time", "SLEEP:total_sleep_time",
    "SLEEP:deep_sleep_time", "SLEEP:night_sleep_time", "ACTIVITIES:duration"]

  /** `convert_time_columns(headers, headers_to_convert, data)`: it rewrites `data` and returns it. */
  method ConvertTimeColumns(headers: seq<string>, headersToConvert: seq<string>, data: Table, floatStr: real -> string)
    returns (d: Table, o: Outcome)
    modifies data
    ensures d == data
    ensures (data.rows, o) == ColumnsConverted(Selection(headers, headersToConvert), old(data.rows), TimeConverter(floatStr), |headers|)
  {
    d, o := ConvertColumns(headers, headersToConvert, data, TimeConverter(floatStr));
  }

  /** A cell passes the converter exactly when its text reads as a time, and becomes its seconds. */
  lemma {:induction false} TimeConverterOf(c: Cell, floatStr: real -> string)
    ensures TimeConverter(floatStr)(Some(c)).Ok? <==> GetSeconds(CellText(c, floatStr)).Ok?
    ensures TimeConverter(floatStr)(Some(c)).Ok? ==>
      TimeConverter(floatStr)(Some(c)).value == Number(GetSeconds(CellText(c, floatStr)).value)
  {
  }

  /** `convert_time_columns` keeps the shape of the table and rewrites no cell outside a listed column. */
  lemma {:induction false} TimeColumnsFrame(headers: seq<string>, selected: seq<string>, rows: seq<seq<Cell>>, floatStr: real -> string)
    ensures var rows' := ColumnsConverted(Selection(headers, selected), rows, TimeConverter(floatStr), |headers|).0;
      |rows'| == |rows| &&
      (forall r :: 0 <= r < |rows| ==> |rows'[r]| == |rows[r]|) &&
      (forall r, j :: 0 <= r < |rows| && 0 <= j < |rows[r]| && (j >= |headers| || headers[j] !in selected) ==>
        rows'[r][j] == rows[r][j])
  {
    var mask := Selection(headers, selected);
    ColumnsConvertedShape(mask, rows, TimeConverter(floatStr), |headers|);
    forall r, j | 0 <= r < |rows| && 0 <= j < |rows[r]| && (j >= |headers| || headers[j] !in selected)
      ensures ColumnsConverted(mask, rows, TimeConverter(floatStr), |headers|).0[r][j] == rows[r][j]
    {
      assert !Listed(mask, |headers|, j);
      ColumnsConvertedOther(mask, rows, TimeConverter(floatStr), |headers|, r, j);
    }
  }

  /** `convert_time_columns` passes exactly when every cell of every listed column reads as a time. */
  lemma {:induction false} TimeColumnsPass(headers: seq<string>, selected: seq<string>, rows: seq<seq<Cell>>, floatStr: real -> string)
    ensures ColumnsConverted(Selection(headers, selected), rows, TimeConverter(floatStr), |headers|).1.Pass? <==>
      forall j, r :: 0 <= j < |headers| && headers[j] in selected && 0 <= r < |rows| ==>
        j < |rows[r]| && GetSeconds(CellText(rows[r][j], floatStr)).Ok?
  {
    var mask := Selection(headers, selected);
    var convert := TimeConverter(floatStr);
    ColumnsConvertedPass(mask, rows, convert, |headers|);
    forall j, r | 0 <= j < |headers| && 0 <= r < |rows| && j < |rows[r]|
      ensures convert(CellAt(rows[r], j)).Ok? <==> GetSeconds(CellText(rows[r][j], floatStr)).Ok?
    {
      TimeConverterOf(rows[r][j], floatStr);
    }
  }

  /** When `convert_time_columns` passes, each cell of a listed column holds the seconds of its old text. */
  lemma {:induction false} TimeColumnsValues(headers: seq<string>, selected: seq<string>, rows: seq<seq<Cell>>, floatStr: real -> string)
    ensures var (rows', o) := ColumnsConverted(Selection(headers, selected), rows, TimeConverter(floatStr), |headers|);
      o.Pass? ==> forall j, r :: 0 <= j < |headers| && headers[j] in selected && 0 <= r < |rows| ==>
        j < |rows[r]| && r < |rows'| && j < |rows'[r]| &&
        rows'[r][j].Number? && GetSeconds(CellText(rows[r][j], floatStr)) == Ok(rows'[r][j].value)
  {
    var mask := Selection(headers, selected);
    var convert := TimeConverter(floatStr);
    ColumnsConvertedShape(mask, rows, convert, |headers|);
    var (rows', o) := ColumnsConverted(mask, rows, convert, |headers|);
    if o.Pass? {
      forall j, r | 0 <= j < |headers| && headers[j] in selected && 0 <= r < |rows|
        ensures j < |rows[r]| && j < |rows'[r]| &&
          rows'[r][j].Number? && GetSeconds(CellText(rows[r][j], floatStr)) == Ok(rows'[r][j].value)
      {
        assert Listed(mask, |headers|, j);
        ColumnsConvertedValue(mask, rows, convert, |headers|, r, j);
        TimeConverterOf(rows[r][j], floatStr);
      }
    }
  }

  /** With nothing to convert the table is returned as it was. */
  lemma {:induction false} TimeColumnsNone(headers: seq<string>, rows: seq<seq<Cell>>, floatStr: real -> string)
    ensures ColumnsConverted(Selection(headers, []), rows, TimeConverter(floatStr), |headers|) == (rows, Pass)
  {
    ColumnsConvertedNone(Selection(headers, []), rows, TimeConverter(floatStr), |headers|);
  }

  /**
    `CorrelationAnalysis.parse_csv` on the lines the CSV reader returned: the headers and the
    data rows whose cells are longer than one character, then the time columns converted.
   */
  method ParseCsv(raw: seq<seq<string>>, floatStr: real -> string) returns (headers: seq<string>, data: Table, o: Outcome)
    ensures fresh(data)
    ensures |raw| == 0 ==> o == Fail(IndexError)
    ensures |raw| > 0 ==>
      headers == StripAll(Tail(raw[0])) &&
      (data.rows, o) == ColumnsConverted(Selection(headers, TIME_HEADERS_TO_CONVERT), DataRows(raw[1..], 1),
                                        TimeConverter(floatStr), |headers|)
  {
    headers, data, o := ParseRows(raw, 1);
    if o.Fail? {
      return;
    }
    var same;
    same, o := ConvertTimeColumns(headers, TIME_HEADERS_TO_CONVERT, data, floatStr);
  }
}
