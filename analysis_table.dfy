/**
  The exported CSV table as the analysis scripts hold it: a list of rows whose cells are the
  strings of the CSV reader until a column conversion stores a number in them. The three
  analysis files share the same column loop, `for i in range(len(headers))` over the header
  positions and, for each listed header, `for row in range(len(data))` rewriting one cell at a
  time; it is modelled here once, over the cell converter the caller passes.
 */
module AnalysisTable {
  import opened Wrappers
  import opened Text
  import opened GarminUtils

  /** A table cell: the text of the CSV reader, or the float a conversion stored in it. */
  datatype Cell = Text(text: string) | Number(value: real)

  /** `str(cell)`; the text of a float is left to `floatStr`. */
  function CellText(c: Cell, floatStr: real -> string): string {
    match c
    case Text(s) => s
    case Number(x) => floatStr(x)
  }

  /** `row[i]`: the cell, or `None` where Python raises `IndexError`. */
  function CellAt(row: seq<Cell>, i: nat): (c: Option<Cell>)
    ensures c.Some? <==> i < |row|
    ensures c.Some? ==> c.value == row[i]
  {
    if i < |row| then Some(row[i]) else None
  }

  /** `utils.parse_num(data[row][i])`: the index is read first, then the cell parsed as a locale number. */
  function ParseNumCell(c: Option<Cell>, floatStr: real -> string): (r: Result<Cell>)
    ensures c.None? ==> r == Err(IndexError)
    ensures r.Ok? ==> r.value.Number?
  {
    if c.None? then Err(IndexError)
    else
      var n := ParseNum(CellText(c.value, floatStr));
      if n.Ok? then Ok(Number(n.value)) else Err(n.error)
  }

  /** The float-fixing converter of `fix_floats`. */
  function FloatFixer(floatStr: real -> string): Option<Cell> -> Result<Cell> {
    c => ParseNumCell(c, floatStr)
  }

  /** A converter that only ever accepts a cell that exists: a short row raises. */
  predicate IndexChecked(convert: Option<Cell> -> Result<Cell>) {
    convert(None).Err?
  }

  // ----- one column -----

  /** Cell `i` of a row replaced by `c`, when the row has one. */
  function SetCell(row: seq<Cell>, i: nat, c: Cell): (row': seq<Cell>)
    ensures |row'| == |row|
  {
    if i < |row| then row[i := c] else row
  }

  /**
    `for row in range(len(data)): d[row][i] = convert(data[row][i])`: the rows before the first
    failure are rewritten, the failure ends the loop with its exception and the later rows keep
    their cells.
   */
  function ColumnConverted(rows: seq<seq<Cell>>, i: nat, convert: Option<Cell> -> Result<Cell>): (r: (seq<seq<Cell>>, Outcome))
    ensures |r.0| == |rows|
  {
    if rows == [] then ([], Pass)
    else
      var last := rows[|rows| - 1];
      var (init, o) := ColumnConverted(rows[..|rows| - 1], i, convert);
      var c := convert(CellAt(last, i));
      if o.Fail? then (init + [last], o)
      else if c.Ok? then (init + [SetCell(last, i, c.value)], Pass)
      else (init + [last], Fail(c.error))
  }

  /** The loop at row `r`, every earlier row having converted. */
  lemma {:induction false} ColumnConvertedStep(rows: seq<seq<Cell>>, i: nat, convert: Option<Cell> -> Result<Cell>, r: nat)
    requires r < |rows| && ColumnConverted(rows[..r], i, convert).1.Pass?
    ensures var c := convert(CellAt(rows[r], i));
      var before := ColumnConverted(rows[..r], i, convert).0;
      ColumnConverted(rows[..r + 1], i, convert) ==
        if c.Ok? then (before + [SetCell(rows[r], i, c.value)], Pass) else (before + [rows[r]], Fail(c.error))
  {
    assert rows[..r + 1][..r] == rows[..r];
  }

  /** Once a row fails, the later rows are left as they were. */
  lemma {:induction false} ColumnConvertedStop(rows: seq<seq<Cell>>, i: nat, convert: Option<Cell> -> Result<Cell>, k: nat)
    requires k <= |rows| && ColumnConverted(rows[..k], i, convert).1.Fail?
    ensures ColumnConverted(rows, i, convert) ==
      (ColumnConverted(rows[..k], i, convert).0 + rows[k..], ColumnConverted(rows[..k], i, convert).1)
    decreases |rows|
  {
    if k == |rows| {
      assert rows[..k] == rows;
      assert ColumnConverted(rows, i, convert).0 + rows[k..] == ColumnConverted(rows, i, convert).0;
    } else {
      var init := rows[..|rows| - 1];
      assert init[..k] == rows[..k];
      ColumnConvertedStop(init, i, convert, k);
      var (before, o) := ColumnConverted(init, i, convert);
      assert o.Fail?;
      var done := ColumnConverted(rows[..k], i, convert).0;
      assert before == done + init[k..];
      assert ColumnConverted(rows, i, convert) == (before + [rows[|rows| - 1]], o);
      assert init[k..] + [rows[|rows| - 1]] == rows[k..];
      assert (done + init[k..]) + [rows[|rows| - 1]] == done + rows[k..];
    }
  }

  /** A failing row `r`, every earlier row having converted, ends the loop with the later rows untouched. */
  lemma {:induction false} ColumnFailsAt(rows: seq<seq<Cell>>, i: nat, convert: Option<Cell> -> Result<Cell>, r: nat)
    requires r < |rows| && ColumnConverted(rows[..r], i, convert).1.Pass? && convert(CellAt(rows[r], i)).Err?
    ensures ColumnConverted(rows, i, convert) ==
      (ColumnConverted(rows[..r], i, convert).0 + rows[r..], Fail(convert(CellAt(rows[r], i)).error))
  {
    ColumnConvertedStep(rows, i, convert, r);
    ColumnConvertedStop(rows, i, convert, r + 1);
    var before := ColumnConverted(rows[..r], i, convert).0;
    assert (before + [rows[r]]) + rows[r + 1..] == before + rows[r..];
  }

  /** A converting row `r`, every earlier row having converted, is rewritten. */
  lemma {:induction false} ColumnPassesAt(rows: seq<seq<Cell>>, i: nat, convert: Option<Cell> -> Result<Cell>, r: nat)
    requires r < |rows| && ColumnConverted(rows[..r], i, convert).1.Pass? && convert(CellAt(rows[r], i)).Ok?
    ensures ColumnConverted(rows[..r + 1], i, convert) ==
      (ColumnConverted(rows[..r], i, convert).0 + [SetCell(rows[r], i, convert(CellAt(rows[r], i)).value)], Pass)
  {
    ColumnConvertedStep(rows, i, convert, r);
  }

  /** The loop that went through every row. */
  lemma {:induction false} ColumnDone(rows: seq<seq<Cell>>, i: nat, convert: Option<Cell> -> Result<Cell>, done: seq<seq<Cell>>)
    requires ColumnConverted(rows[..|rows|], i, convert) == (done, Pass)
    ensures ColumnConverted(rows, i, convert) == (done + rows[|rows|..], Pass)
  {
    assert rows[..|rows|] == rows;
    assert done + rows[|rows|..] == done;
  }

  /** Every row's cell in column `j` converts. */
  predicate AllConvert(rows: seq<seq<Cell>>, convert: Option<Cell> -> Result<Cell>, j: nat) {
    forall r :: 0 <= r < |rows| ==> convert(CellAt(rows[r], j)).Ok?
  }

  /**
    Row `r` after the column loop: rewritten with its converted cell when it and every row before
    it converted, otherwise as it was.
   */
  lemma {:induction false} ColumnConvertedAt(rows: seq<seq<Cell>>, i: nat, convert: Option<Cell> -> Result<Cell>, r: nat)
    requires r < |rows|
    ensures var c := convert(CellAt(rows[r], i));
      ColumnConverted(rows, i, convert).0[r] ==
        if AllConvert(rows[..r + 1], convert, i) then SetCell(rows[r], i, c.value) else rows[r]
    decreases |rows|
  {
    var init := rows[..|rows| - 1];
    ColumnConvertedPass(init, i, convert);
    if r < |rows| - 1 {
      ColumnConvertedAt(init, i, convert, r);
      assert init[..r + 1] == rows[..r + 1];
    } else {
      assert rows[..r + 1] == rows;
      AllConvertSnoc(init, rows[r], convert, i);
    }
  }

  /** One more row converts the column exactly when the earlier rows and this one do. */
  lemma {:induction false} AllConvertSnoc(rows: seq<seq<Cell>>, row: seq<Cell>, convert: Option<Cell> -> Result<Cell>, j: nat)
    ensures AllConvert(rows + [row], convert, j) <==> AllConvert(rows, convert, j) && convert(CellAt(row, j)).Ok?
  {
    if AllConvert(rows, convert, j) && convert(CellAt(row, j)).Ok? {
      forall r | 0 <= r < |rows + [row]|
        ensures convert(CellAt((rows + [row])[r], j)).Ok?
      {
        if r == |rows| {
        } else {
          assert (rows + [row])[r] == rows[r];
        }
      }
    }
    if AllConvert(rows + [row], convert, j) {
      assert (rows + [row])[|rows|] == row;
      forall r | 0 <= r < |rows|
        ensures convert(CellAt(rows[r], j)).Ok?
      {
        assert (rows + [row])[r] == rows[r];
      }
    }
  }

  /** Every prefix of rows that all convert converts. */
  lemma {:induction false} AllConvertPrefix(rows: seq<seq<Cell>>, convert: Option<Cell> -> Result<Cell>, j: nat, m: nat)
    requires m <= |rows| && AllConvert(rows, convert, j)
    ensures AllConvert(rows[..m], convert, j)
  {
    var p := rows[..m];
    forall k | 0 <= k < |p|
      ensures convert(CellAt(p[k], j)).Ok?
    {
      assert p[k] == rows[k];
    }
  }

  /** The column loop passes exactly when every row's cell converts. */
  lemma {:induction false} ColumnConvertedPass(rows: seq<seq<Cell>>, i: nat, convert: Option<Cell> -> Result<Cell>)
    ensures ColumnConverted(rows, i, convert).1.Pass? <==> AllConvert(rows, convert, i)
    decreases |rows|
  {
    if rows != [] {
      var init := rows[..|rows| - 1];
      ColumnConvertedPass(init, i, convert);
      assert rows == init + [rows[|rows| - 1]];
      AllConvertSnoc(init, rows[|rows| - 1], convert, i);
    }
  }

  /** A failure of the column loop is the exception of one of its cells. */
  lemma {:induction false} ColumnConvertedFail(rows: seq<seq<Cell>>, i: nat, convert: Option<Cell> -> Result<Cell>)
    ensures var o := ColumnConverted(rows, i, convert).1;
      o.Fail? ==> exists r :: 0 <= r < |rows| && convert(CellAt(rows[r], i)) == Err(o.error)
    decreases |rows|
  {
    if rows != [] {
      var init := rows[..|rows| - 1];
      ColumnConvertedFail(init, i, convert);
      var o := ColumnConverted(init, i, convert).1;
      if o.Fail? {
        var r :| 0 <= r < |init| && convert(CellAt(init[r], i)) == Err(o.error);
        assert init[r] == rows[r];
      } else {
        assert convert(CellAt(rows[|rows| - 1], i)).Ok? || convert(CellAt(rows[|rows| - 1], i)) == Err(ColumnConverted(rows, i, convert).1.error);
      }
    }
  }

  /** Converting one column keeps the shape of the table. */
  lemma {:induction false} ColumnConvertedShape(rows: seq<seq<Cell>>, i: nat, convert: Option<Cell> -> Result<Cell>)
    ensures var rows' := ColumnConverted(rows, i, convert).0;
      |rows'| == |rows| && forall r :: 0 <= r < |rows| ==> |rows'[r]| == |rows[r]|
  {
    forall r | 0 <= r < |rows|
      ensures |ColumnConverted(rows, i, convert).0[r]| == |rows[r]|
    {
      ColumnConvertedAt(rows, i, convert, r);
    }
  }

  /** Converting column `i` leaves every cell of another column as it was. */
  lemma {:induction false} ColumnConvertedOther(rows: seq<seq<Cell>>, i: nat, convert: Option<Cell> -> Result<Cell>, r: nat, j: nat)
    requires r < |rows| && j < |rows[r]| && j != i
    ensures var rows' := ColumnConverted(rows, i, convert).0;
      r < |rows'| && j < |rows'[r]| && rows'[r][j] == rows[r][j]
  {
    ColumnConvertedAt(rows, i, convert, r);
  }

  /** When the column loop passes, each row holds the converted value of its cell. */
  lemma {:induction false} ColumnConvertedValues(rows: seq<seq<Cell>>, i: nat, convert: Option<Cell> -> Result<Cell>, r: nat)
    requires r < |rows| && IndexChecked(convert) && ColumnConverted(rows, i, convert).1.Pass?
    ensures var rows' := ColumnConverted(rows, i, convert).0;
      i < |rows[r]| && i < |rows'[r]| && convert(Some(rows[r][i])) == Ok(rows'[r][i])
  {
    ColumnConvertedPass(rows, i, convert);
    ColumnConvertedAt(rows, i, convert, r);
    assert rows == rows[..r + 1] + rows[r + 1..];
    AllConvertPrefix(rows, convert, i, r + 1);
  }

  // ----- every listed column -----

  /** `headers[i] in selected` for each header position `i`. */
  function Selection(headers: seq<string>, selected: seq<string>): (mask: seq<bool>)
    ensures |mask| == |headers| && forall i :: 0 <= i < |headers| ==> (mask[i] <==> headers[i] in selected)
  {
    seq(|headers|, i requires 0 <= i < |headers| => headers[i] in selected)
  }

  /**
    The outer loop over the first `n` header positions: each position the mask selects has its
    column converted, and the first failure ends the loop.
   */
  function ColumnsConverted(mask: seq<bool>, rows: seq<seq<Cell>>, convert: Option<Cell> -> Result<Cell>, n: nat): (seq<seq<Cell>>, Outcome)
    requires n <= |mask|
  {
    if n == 0 then (rows, Pass)
    else
      var (before, o) := ColumnsConverted(mask, rows, convert, n - 1);
      if o.Fail? || !mask[n - 1] then (before, o)
      else ColumnConverted(before, n - 1, convert)
  }

  /** Column `j` is among the first `n` positions and selected. */
  predicate Listed(mask: seq<bool>, n: nat, j: nat)
    requires n <= |mask|
  {
    j < n && mask[j]
  }

  /** The outer loop keeps the shape of the table. */
  lemma {:induction false} ColumnsConvertedShape(mask: seq<bool>, rows: seq<seq<Cell>>, convert: Option<Cell> -> Result<Cell>, n: nat)
    requires n <= |mask|
    ensures var rows' := ColumnsConverted(mask, rows, convert, n).0;
      |rows'| == |rows| && forall r :: 0 <= r < |rows| ==> |rows'[r]| == |rows[r]|
  {
    if n > 0 {
      ColumnsConvertedShape(mask, rows, convert, n - 1);
      var (before, o) := ColumnsConverted(mask, rows, convert, n - 1);
      if o.Pass? && mask[n - 1] {
        ColumnConvertedShape(before, n - 1, convert);
      }
    }
  }

  /** A cell outside the listed columns is never rewritten. */
  lemma {:induction false} ColumnsConvertedOther(mask: seq<bool>, rows: seq<seq<Cell>>, convert: Option<Cell> -> Result<Cell>,
                                                 n: nat, r: nat, j: nat)
    requires n <= |mask| && r < |rows| && j < |rows[r]| && !Listed(mask, n, j)
    ensures var rows' := ColumnsConverted(mask, rows, convert, n).0;
      r < |rows'| && j < |rows'[r]| && rows'[r][j] == rows[r][j]
  {
    if n > 0 {
      ColumnsConvertedOther(mask, rows, convert, n - 1, r, j);
      var (before, o) := ColumnsConverted(mask, rows, convert, n - 1);
      if o.Pass? && mask[n - 1] {
        ColumnConvertedOther(before, n - 1, convert, r, j);
      }
    }
  }

  /** Only cells in a listed column can change; the table keeps its shape. */
  lemma {:induction false} ColumnsConvertedFrame(mask: seq<bool>, rows: seq<seq<Cell>>, convert: Option<Cell> -> Result<Cell>, n: nat)
    requires n <= |mask|
    ensures var rows' := ColumnsConverted(mask, rows, convert, n).0;
      |rows'| == |rows| &&
      (forall r :: 0 <= r < |rows| ==> |rows'[r]| == |rows[r]|) &&
      (forall r, j :: 0 <= r < |rows| && 0 <= j < |rows[r]| && !Listed(mask, n, j) ==> rows'[r][j] == rows[r][j])
  {
    ColumnsConvertedShape(mask, rows, convert, n);
    forall r, j | 0 <= r < |rows| && 0 <= j < |rows[r]| && !Listed(mask, n, j)
      ensures ColumnsConverted(mask, rows, convert, n).0[r][j] == rows[r][j]
    {
      ColumnsConvertedOther(mask, rows, convert, n, r, j);
    }
  }

  /** A mask that selects nothing, as for an empty list of names, leaves the table as it is. */
  lemma {:induction false} ColumnsConvertedNone(mask: seq<bool>, rows: seq<seq<Cell>>, convert: Option<Cell> -> Result<Cell>, n: nat)
    requires n <= |mask|
    requires forall j :: 0 <= j < n ==> !mask[j]
    ensures ColumnsConverted(mask, rows, convert, n) == (rows, Pass)
  {
    if n > 0 {
      ColumnsConvertedNone(mask, rows, convert, n - 1);
    }
  }

  /** After the listed columns before `n`, the cells of column `n` are still the original ones. */
  lemma {:induction false} SameColumn(mask: seq<bool>, rows: seq<seq<Cell>>, convert: Option<Cell> -> Result<Cell>, n: nat, r: nat)
    requires n < |mask| && r < |rows|
    ensures var before := ColumnsConverted(mask, rows, convert, n).0;
      r < |before| && CellAt(before[r], n) == CellAt(rows[r], n)
  {
    ColumnsConvertedShape(mask, rows, convert, n);
    if n < |rows[r]| {
      ColumnsConvertedOther(mask, rows, convert, n, r, n);
    }
  }

  /** Whether column `n` converts is decided on the original cells. */
  lemma {:induction false} SameColumnConverts(mask: seq<bool>, rows: seq<seq<Cell>>, convert: Option<Cell> -> Result<Cell>, n: nat)
    requires n < |mask|
    ensures AllConvert(ColumnsConverted(mask, rows, convert, n).0, convert, n) == AllConvert(rows, convert, n)
  {
    ColumnsConvertedShape(mask, rows, convert, n);
    forall r | 0 <= r < |rows|
      ensures CellAt(ColumnsConverted(mask, rows, convert, n).0[r], n) == CellAt(rows[r], n)
    {
      SameColumn(mask, rows, convert, n, r);
    }
  }

  /** The outer loop passes exactly when every cell of every listed column converts. */
  lemma {:induction false} ColumnsConvertedPass(mask: seq<bool>, rows: seq<seq<Cell>>, convert: Option<Cell> -> Result<Cell>, n: nat)
    requires n <= |mask|
    ensures ColumnsConverted(mask, rows, convert, n).1.Pass? <==>
      forall j :: 0 <= j < n && mask[j] ==> AllConvert(rows, convert, j)
  {
    if n > 0 {
      ColumnsConvertedPass(mask, rows, convert, n - 1);
      var (before, o) := ColumnsConverted(mask, rows, convert, n - 1);
      if o.Pass? && mask[n - 1] {
        SameColumnConverts(mask, rows, convert, n - 1);
        ColumnConvertedPass(before, n - 1, convert);
      }
    }
  }

  /** After a failure the outer loop does nothing more. */
  lemma {:induction false} ColumnsConvertedStop(mask: seq<bool>, rows: seq<seq<Cell>>, convert: Option<Cell> -> Result<Cell>, n: nat, m: nat)
    requires n <= m <= |mask|
    requires ColumnsConverted(mask, rows, convert, n).1.Fail?
    ensures ColumnsConverted(mask, rows, convert, m) == ColumnsConverted(mask, rows, convert, n)
    decreases m
  {
    if m > n {
      ColumnsConvertedStop(mask, rows, convert, n, m - 1);
    }
  }

  /** When the outer loop passes, the cell of a listed column holds the converted original cell. */
  lemma {:induction false} ColumnsConvertedValue(mask: seq<bool>, rows: seq<seq<Cell>>, convert: Option<Cell> -> Result<Cell>,
                                                 n: nat, r: nat, j: nat)
    requires n <= |mask| && IndexChecked(convert) && r < |rows| && Listed(mask, n, j)
    requires ColumnsConverted(mask, rows, convert, n).1.Pass?
    ensures var rows' := ColumnsConverted(mask, rows, convert, n).0;
      r < |rows'| && j < |rows[r]| && j < |rows'[r]| && convert(Some(rows[r][j])) == Ok(rows'[r][j])
  {
    var (before, o) := ColumnsConverted(mask, rows, convert, n - 1);
    assert o.Pass?;
    ColumnsConvertedShape(mask, rows, convert, n - 1);
    if j == n - 1 {
      SameColumn(mask, rows, convert, n - 1, r);
      ColumnConvertedValues(before, n - 1, convert, r);
    } else {
      ColumnsConvertedValue(mask, rows, convert, n - 1, r, j);
      if mask[n - 1] {
        ColumnConvertedOther(before, n - 1, convert, r, j);
      }
    }
  }

  /** When the outer loop passes, every cell of every listed column holds the converted original cell. */
  lemma {:induction false} ColumnsConvertedValues(mask: seq<bool>, rows: seq<seq<Cell>>, convert: Option<Cell> -> Result<Cell>, n: nat)
    requires n <= |mask| && IndexChecked(convert)
    ensures var (rows', o) := ColumnsConverted(mask, rows, convert, n);
      |rows'| == |rows| &&
      (o.Pass? ==> forall j, r :: 0 <= j < n && mask[j] && 0 <= r < |rows| ==>
        j < |rows[r]| && j < |rows'[r]| && convert(Some(rows[r][j])) == Ok(rows'[r][j]))
  {
    ColumnsConvertedShape(mask, rows, convert, n);
    var (rows', o) := ColumnsConverted(mask, rows, convert, n);
    if o.Pass? {
      forall j, r | 0 <= j < n && mask[j] && 0 <= r < |rows|
        ensures j < |rows[r]| && j < |rows'[r]| && convert(Some(rows[r][j])) == Ok(rows'[r][j])
      {
        ColumnsConvertedValue(mask, rows, convert, n, r, j);
      }
    }
  }

  // ----- the table object -----

  /** The list of rows the analysis code converts in place. */
  class Table {
    var rows: seq<seq<Cell>>

    constructor(rows: seq<seq<Cell>>)
      ensures this.rows == rows
    {
      this.rows := rows;
    }
  }

  /** The table during the inner loop: the rows done so far, row `r`, and the rows still to do. */
  lemma {:induction false} RowsSplit(done: seq<seq<Cell>>, rows: seq<seq<Cell>>, r: nat)
    requires |done| == r < |rows|
    ensures (done + rows[r..])[r] == rows[r]
    ensures done + rows[r..] == (done + [rows[r]]) + rows[r + 1..]
    ensures forall x :: (done + rows[r..])[r := x] == (done + [x]) + rows[r + 1..]
  {
    assert rows[r..] == [rows[r]] + rows[r + 1..];
  }

  /** The inner loop on column `i` of `t`. */
  method ConvertColumn(t: Table, i: nat, convert: Option<Cell> -> Result<Cell>) returns (o: Outcome)
    modifies t
    ensures (t.rows, o) == ColumnConverted(old(t.rows), i, convert)
  {
    ghost var rows := t.rows;
    ghost var done: seq<seq<Cell>> := [];
    for r := 0 to |t.rows|
      invariant |t.rows| == |rows|
      invariant ColumnConverted(rows[..r], i, convert) == (done, Pass)
      invariant t.rows == done + rows[r..]
    {
      RowsSplit(done, rows, r);
      var c := convert(CellAt(t.rows[r], i));
      if c.Err? {
        ColumnFailsAt(rows, i, convert, r);
        return Fail(c.error);
      }
      ColumnPassesAt(rows, i, convert, r);
      t.rows := t.rows[r := SetCell(t.rows[r], i, c.value)];
      done := done + [SetCell(rows[r], i, c.value)];
    }
    ColumnDone(rows, i, convert, done);
    o := Pass;
  }

  /**
    `for i in range(len(headers)): if headers[i] in selected: ...` on `t`; the table that is
    returned is `t` itself.
   */
  method ConvertColumns(headers: seq<string>, selected: seq<string>, t: Table, convert: Option<Cell> -> Result<Cell>)
    returns (d: Table, o: Outcome)
    modifies t
    ensures d == t
    ensures (t.rows, o) == ColumnsConverted(Selection(headers, selected), old(t.rows), convert, |headers|)
  {
    d := t;
    ghost var mask := Selection(headers, selected);
    for i := 0 to |headers|
      invariant (t.rows, Pass) == ColumnsConverted(mask, old(t.rows), convert, i)
    {
      if headers[i] in selected {
        o := ConvertColumn(t, i, convert);
        if o.Fail? {
          ColumnsConvertedStop(mask, old(t.rows), convert, i + 1, |headers|);
          return;
        }
      }
    }
    o := Pass;
  }

  // ----- parse_csv -----

  /** `line[1:]`, empty for an empty line. */
  function Tail<T>(line: seq<T>): (t: seq<T>)
    ensures |line| > 0 ==> t == line[1..]
    ensures |line| == 0 ==> t == []
  {
    if line == [] then [] else line[1..]
  }

  /** `[h.strip() for h in headers]`. */
  function StripAll(headers: seq<string>): (r: seq<string>)
    ensures |r| == |headers| && forall k :: 0 <= k < |headers| ==> r[k] == Strip(headers[k])
  {
    seq(|headers|, k requires 0 <= k < |headers| => Strip(headers[k]))
  }

  /** The text cells of `cells` longer than `minLen`, in order. */
  function LongCells(cells: seq<string>, minLen: nat): (r: seq<Cell>)
    ensures |r| <= |cells|
  {
    if cells == [] then []
    else
      var init := LongCells(cells[..|cells| - 1], minLen);
      var s := cells[|cells| - 1];
      if |s| > minLen then init + [Text(s)] else init
  }

  /** `[str(n).strip() for n in cells if len(str(n).strip()) > minLen]`, as text cells. */
  function KeptCells(cells: seq<string>, minLen: nat): (r: seq<Cell>)
    ensures |r| <= |cells|
  {
    LongCells(StripAll(cells), minLen)
  }

  /** Every cell kept is text longer than `minLen`, and there is one per such input cell. */
  lemma {:induction false} LongCellsShape(cells: seq<string>, minLen: nat)
    ensures forall k :: 0 <= k < |LongCells(cells, minLen)| ==>
      LongCells(cells, minLen)[k].Text? && |LongCells(cells, minLen)[k].text| > minLen
    ensures |LongCells(cells, minLen)| == |set k | 0 <= k < |cells| && |cells[k]| > minLen|
  {
    if cells != [] {
      var init := cells[..|cells| - 1];
      LongCellsShape(init, minLen);
      var last := |cells| - 1;
      var before := set k | 0 <= k < |init| && |init[k]| > minLen;
      var all := set k | 0 <= k < |cells| && |cells[k]| > minLen;
      if |cells[last]| > minLen {
        assert all == before + {last};
      } else {
        assert all == before;
      }
    }
  }

  /** The filter keeps the order of the cells: it works on each part of a line on its own. */
  lemma {:induction false} LongCellsConcat(a: seq<string>, b: seq<string>, minLen: nat)
    ensures LongCells(a + b, minLen) == LongCells(a, minLen) + LongCells(b, minLen)
    decreases |b|
  {
    if b == [] {
      assert a + b == a;
    } else {
      var b' := b[..|b| - 1];
      assert (a + b)[..|a + b| - 1] == a + b';
      LongCellsConcat(a, b', minLen);
    }
  }

  /** A line whose cells are all long enough keeps every cell in place. */
  lemma {:induction false} LongCellsAll(cells: seq<string>, minLen: nat)
    requires forall k :: 0 <= k < |cells| ==> |cells[k]| > minLen
    ensures |LongCells(cells, minLen)| == |cells|
    ensures forall k :: 0 <= k < |cells| ==> LongCells(cells, minLen)[k] == Text(cells[k])
  {
    if cells != [] {
      LongCellsAll(cells[..|cells| - 1], minLen);
    }
  }

  /** The data rows of `parse_csv`: one per line, as the kept cells of `line[1:]`. */
  function DataRows(lines: seq<seq<string>>, minLen: nat): (rows: seq<seq<Cell>>)
    ensures |rows| == |lines|
  {
    if lines == [] then []
    else DataRows(lines[..|lines| - 1], minLen) + [KeptCells(Tail(lines[|lines| - 1]), minLen)]
  }

  /** Data row `r` comes from line `r` alone. */
  lemma {:induction false} DataRowsAt(lines: seq<seq<string>>, minLen: nat, r: nat)
    requires r < |lines|
    ensures DataRows(lines, minLen)[r] == KeptCells(Tail(lines[r]), minLen)
    decreases |lines|
  {
    if r < |lines| - 1 {
      DataRowsAt(lines[..|lines| - 1], minLen, r);
    }
  }

  /** The loop of `parse_csv` at line `r`: one more data row, from that line. */
  lemma {:induction false} DataRowsStep(raw: seq<seq<string>>, minLen: nat, r: nat)
    requires 1 <= r < |raw|
    ensures DataRows(raw[1..r + 1], minLen) == DataRows(raw[1..r], minLen) + [KeptCells(Tail(raw[r]), minLen)]
  {
    assert raw[1..r + 1][..r - 1] == raw[1..r];
    assert raw[1..r + 1][r - 1] == raw[r];
  }

  /**
    The loop of `parse_csv`: headers are the first line without its first cell, each stripped,
    and each later line appends its kept cells to a new list. An empty file has no first line,
    so `raw_data[0]` raises.
   */
  method ParseRows(raw: seq<seq<string>>, minLen: nat) returns (headers: seq<string>, data: Table, o: Outcome)
    ensures fresh(data)
    ensures o.Pass? <==> |raw| > 0
    ensures o.Fail? ==> o.error == IndexError
    ensures o.Pass? ==> headers == StripAll(Tail(raw[0])) && data.rows == DataRows(raw[1..], minLen)
  {
    if |raw| == 0 {
      data := new Table([]);
      return [], data, Fail(IndexError);
    }
    headers := StripAll(Tail(raw[0]));
    var rows: seq<seq<Cell>> := [];
    for r := 1 to |raw|
      invariant rows == DataRows(raw[1..r], minLen)
    {
      DataRowsStep(raw, minLen, r);
      rows := rows + [KeptCells(Tail(raw[r]), minLen)];
    }
    assert raw[1..|raw|] == raw[1..];
    data := new Table(rows);
    o := Pass;
  }
}
