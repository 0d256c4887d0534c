/**
  The stand-alone analysis script: `GarminDataFilter.parse_csv`, which slices the lines of the CSV
  reader and keeps every non-empty cell, its time and float conversions, and the `parse_csv` of
  the timeline and activities analyses built on them. It imports the same helper module as the
  analysis package, which has no `get_seconds`.
 */
module AnalysisScript {
  import opened Wrappers
  import opened Text
  import opened AnalysisTable
  import MA = ModelsAnalysis
  import AM = AnalysisModels

  /**
    `GarminDataFilter.parse_csv` on the lines the CSV reader returned: the headers, and for each
    later line the stripped cells of `line[1:]` that are not empty.
   */
  method ParseCsv(raw: seq<seq<string>>) returns (headers: seq<string>, data: Table, o: Outcome)
    ensures fresh(data)
    ensures o.Pass? <==> |raw| > 0
    ensures o.Fail? ==> o.error == IndexError
    ensures o.Pass? ==> headers == StripAll(Tail(raw[0])) && data.rows == DataRows(raw[1..], 0)
  {
    headers, data, o := ParseRows(raw, 0);
  }

  /**
    A one-character cell is kept here and dropped by the correlation script, whose filter asks
    for more than one character; longer cells are kept by both.
   */
  lemma {:induction false} SingleCharacterCell(c: char)
    requires !IsSpace(c)
    ensures KeptCells([[c]], 0) == [Text([c])]
    ensures KeptCells([[c]], 1) == []
  {
    StripNoSpace([c]);
    assert StripAll([[c]]) == [[c]];
    assert [[c]][..0] == [];
  }

  /** `GarminDataFilter.convert_time_columns` as written: `utils` has no `get_seconds`. */
  method ConvertTimeColumnsAsWritten(headers: seq<string>, headersToConvert: seq<string>, data: Table)
    returns (d: Table, o: Outcome)
    modifies data
    ensures d == data
    ensures (data.rows, o) == ColumnsConverted(Selection(headers, headersToConvert), old(data.rows), AM.MissingGetSeconds(), |headers|)
  {
    d, o := AM.ConvertTimeColumnsAsWritten(headers, headersToConvert, data);
  }

  /** `GarminDataFilter.convert_time_columns` with the `get_seconds` of the correlation script. */
  method ConvertTimeColumns(headers: seq<string>, headersToConvert: seq<string>, data: Table, floatStr: real -> string)
    returns (d: Table, o: Outcome)
    modifies data
    ensures d == data
    ensures (data.rows, o) == ColumnsConverted(Selection(headers, headersToConvert), old(data.rows), MA.TimeConverter(floatStr), |headers|)
  {
    d, o := MA.ConvertTimeColumns(headers, headersToConvert, data, floatStr);
  }

  /** `GarminDataFilter.fix_floats`. */
  method FixFloats(headers: seq<string>, headersToFix: seq<string>, data: Table, floatStr: real -> string)
    returns (d: Table, o: Outcome)
    modifies data
    ensures d == data
    ensures (data.rows, o) == ColumnsConverted(Selection(headers, headersToFix), old(data.rows), FloatFixer(floatStr), |headers|)
  {
    d, o := AM.FixFloats(headers, headersToFix, data, floatStr);
  }

  /**
    `TimelineDataAnalysis.parse_csv`: the lines sliced as above, then the seven time columns
    converted.
   */
  method TimelineParseCsv(raw: seq<seq<string>>, floatStr: real -> string) returns (headers: seq<string>, data: Table, o: Outcome)
    ensures fresh(data)
    ensures |raw| == 0 ==> o == Fail(IndexError)
    ensures |raw| > 0 ==>
      headers == StripAll(Tail(raw[0])) &&
      (data.rows, o) == ColumnsConverted(Selection(headers, AM.TIMELINE_TIME_HEADERS), DataRows(raw[1..], 0),
                                        MA.TimeConverter(floatStr), |headers|)
  {
    headers, data, o := ParseCsv(raw);
    if o.Fail? {
      return;
    }
    var same;
    same, o := ConvertTimeColumns(headers, AM.TIMELINE_TIME_HEADERS, data, floatStr);
  }

  /**
    `ActivitiesDataAnalysis.parse_csv`: the lines sliced as above, the time columns converted and
    then the malformed floats fixed.
   */
  method ActivitiesParseCsv(raw: seq<seq<string>>, floatStr: real -> string) returns (headers: seq<string>, data: Table, o: Outcome)
    ensures fresh(data)
    ensures |raw| == 0 ==> o == Fail(IndexError)
    ensures |raw| > 0 ==>
      headers == StripAll(Tail(raw[0])) &&
      (data.rows, o) == AM.ActivitiesConverted(headers, DataRows(raw[1..], 0), floatStr)
  {
    headers, data, o := ParseCsv(raw);
    if o.Fail? {
      return;
    }
    var same;
    same, o := AM.ActivitiesParseCsv(headers, data, floatStr);
  }
}
