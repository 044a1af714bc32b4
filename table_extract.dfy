/**
 * `extract_table_to_csv`: the rows of an HTML table read as text, with every cell's
 * whitespace normalised, rows without cells dropped, and every remaining row padded
 * with empty cells to the widest row, so the CSV is rectangular.
 *
 * The table is given as the inner texts of its `th`/`td` cells, row by row; locating
 * and waiting for it in the page and writing the CSV file are not part of this model.
 */
module TableExtract {
  import opened Text

  /** One row of the table, as the inner texts of its cells. */
  type TextRow = seq<string>

  // ---------------------------------------------------------------------------------
  // Cells

  /** `" ".join(text.strip().split())`: words separated by single spaces. */
  function CellText(s: string): (r: string)
    ensures Collapsed(r)
    ensures r == [] || (!IsSpace(r[0]) && !IsSpace(r[|r| - 1]))
    ensures r == [] <==> IsBlank(s)
  {
    var t := Strip(s);
    CollapseIsCollapsed(t);
    StripEmptyIffBlank(s);
    if t == [] then Collapse(t)
    else
      CollapseLast(t);
      Collapse(t)
  }

  /** Every cell of a row, normalised. */
  function NormRow(cells: TextRow): (r: TextRow)
    ensures |r| == |cells|
    ensures forall j :: 0 <= j < |cells| ==> r[j] == CellText(cells[j])
  {
    seq(|cells|, j requires 0 <= j < |cells| => CellText(cells[j]))
  }

  // ---------------------------------------------------------------------------------
  // Rows read and the widest row

  /** The normalised rows that have at least one cell, in table order. */
  function Kept(table: seq<TextRow>): (rows: seq<TextRow>)
    ensures |rows| <= |table|
    ensures forall i :: 0 <= i < |rows| ==> rows[i] != []
  {
    if table == [] then []
    else
      var last := table[|table| - 1];
      Kept(table[..|table| - 1]) + (if last != [] then [NormRow(last)] else [])
  }

  /** The positions of the rows that have at least one cell, ascending. */
  function NonEmptyRows(table: seq<TextRow>): (idx: seq<nat>)
    ensures forall i :: 0 <= i < |idx| ==> idx[i] < |table| && table[idx[i]] != []
    ensures forall i, j :: 0 <= i < j < |idx| ==> idx[i] < idx[j]
    ensures forall j :: 0 <= j < |table| && table[j] != [] ==> j in idx
  {
    if table == [] then []
    else
      var n := |table| - 1;
      var prev := NonEmptyRows(table[..n]);
      if table[n] != [] then prev + [n] else prev
  }

  /** `max_cols`: the largest number of cells in any row, 0 for a table without cells. */
  function Width(table: seq<TextRow>): (w: nat)
    ensures forall i :: 0 <= i < |table| ==> |table[i]| <= w
    ensures w == 0 || exists i :: 0 <= i < |table| && |table[i]| == w
  {
    if table == [] then 0
    else
      var n := |table| - 1;
      var prev := Width(table[..n]);
      if |table[n]| > prev then |table[n]| else prev
  }

  // ---------------------------------------------------------------------------------
  // Padding

  /** `r.extend([""] * (max_cols - len(r)))` when the row is shorter. */
  function Pad(row: TextRow, width: nat): (r: TextRow)
    ensures |r| == if |row| < width then width else |row|
    ensures r[..|row|] == row
    ensures forall j :: |row| <= j < |r| ==> r[j] == ""
  {
    if |row| < width then row + seq(width - |row|, _ => "") else row
  }

  /** Every row padded to `width`. */
  function Padded(rows: seq<TextRow>, width: nat): (r: seq<TextRow>)
    ensures |r| == |rows|
    ensures forall i :: 0 <= i < |rows| ==> r[i] == Pad(rows[i], width)
  {
    seq(|rows|, i requires 0 <= i < |rows| => Pad(rows[i], width))
  }

  /** The rows written to the CSV. */
  function Rectangular(table: seq<TextRow>): seq<TextRow>
  {
    Padded(Kept(table), Width(table))
  }

  // ---------------------------------------------------------------------------------
  // The procedure, step by step

  /** The inner loop: each cell's text normalised and appended to `cells`. */
  method ReadCells(texts: TextRow) returns (cells: TextRow)
    ensures cells == NormRow(texts)
  {
    cells := [];
    var j := 0;
    while j < |texts|
      invariant 0 <= j <= |texts|
      invariant cells == NormRow(texts[..j])
    {
      cells := cells + [CellText(texts[j])];
      j := j + 1;
    }
    assert texts[..|texts|] == texts;
  }

  /** The outer loop: rows with cells appended to `rows`, `max_cols` kept up to date. */
  method ReadRows(table: seq<TextRow>) returns (rows: seq<TextRow>, maxCols: nat)
    ensures rows == Kept(table)
    ensures maxCols == Width(table)
  {
    rows := [];
    maxCols := 0;
    var i := 0;
    while i < |table|
      invariant 0 <= i <= |table|
      invariant rows == Kept(table[..i])
      invariant maxCols == Width(table[..i])
    {
      assert table[..i + 1][..i] == table[..i];
      var cells := ReadCells(table[i]);
      maxCols := if |cells| > maxCols then |cells| else maxCols;
      if cells != [] {
        rows := rows + [cells];
      }
      i := i + 1;
    }
    assert table[..|table|] == table;
  }

  /** The padding loop, extending each row in place. */
  method PadRows(rows: array<TextRow>, width: nat)
    modifies rows
    ensures rows[..] == Padded(old(rows[..]), width)
  {
    var i := 0;
    while i < rows.Length
      invariant 0 <= i <= rows.Length
      invariant forall k :: 0 <= k < i ==> rows[k] == Pad(old(rows[k]), width)
      invariant forall k :: i <= k < rows.Length ==> rows[k] == old(rows[k])
    {
      if |rows[i]| < width {
        rows[i] := rows[i] + seq(width - |rows[i]|, _ => "");
      }
      i := i + 1;
    }
  }

  /** `extract_table_to_csv` without the page and the file: the rows it writes. */
  method ExtractTable(table: seq<TextRow>) returns (csvRows: seq<TextRow>)
    ensures csvRows == Rectangular(table)
  {
    var rows, maxCols := ReadRows(table);
    var a := new TextRow[|rows|](k requires 0 <= k < |rows| => rows[k]);
    assert a[..] == rows;
    PadRows(a, maxCols);
    csvRows := a[..];
  }
}
