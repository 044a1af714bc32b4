/**
 * Spreadsheet values as the openpyxl-based code sees them: a cell holds nothing, a
 * boolean, an integer or a string; a sheet is its rows (1-based row and column
 * numbers, as in `ws.cell(row=r, column=c)`); a workbook is its ordered list of named
 * sheets.
 */
module Sheets {
  import opened Text
  import opened Wrappers

  datatype Cell = Null | Bool(b: bool) | Int(n: int) | Str(s: string)

  type Row = seq<Cell>

  datatype Sheet = Sheet(rows: seq<Row>)

  datatype NamedSheet = NamedSheet(name: string, sheet: Sheet)

  type Workbook = seq<NamedSheet>

  function Max(a: int, b: int): int
  {
    if a < b then b else a
  }

  function DigitChar(d: nat): (c: char)
    requires d < 10
    ensures IsDigit(c)
  {
    ('0' as int + d) as char
  }

  /** Python's `str(n)` for `n >= 0`: decimal digits without leading zeros. */
  function NatToString(n: nat): (r: string)
    ensures r != [] && forall i :: 0 <= i < |r| ==> IsDigit(r[i])
    ensures r[0] == '0' <==> n == 0
    ensures n == 0 ==> r == "0"
  {
    if n < 10 then [DigitChar(n)] else NatToString(n / 10) + [DigitChar(n % 10)]
  }

  /** Python's `str(n)` for any integer. */
  function IntToString(n: int): string
  {
    if n < 0 then "-" + NatToString(-n) else NatToString(n)
  }

  /** Python's `str(v)` for a cell value other than `None`. */
  function PyStr(c: Cell): string
    requires !c.Null?
  {
    match c
    case Bool(b) => if b then "True" else "False"
    case Int(n) => IntToString(n)
    case Str(s) => s
  }

  /** Python truthiness of a cell value. */
  predicate Truthy(c: Cell)
  {
    match c
    case Null => false
    case Bool(b) => b
    case Int(n) => n != 0
    case Str(s) => s != ""
  }

  /** Python's `str(v or "")`: the text of a truthy value, the empty string otherwise. */
  function StrOr(c: Cell): (r: string)
    ensures !Truthy(c) ==> r == ""
    ensures c.Str? ==> r == c.s
  {
    if Truthy(c) then PyStr(c) else ""
  }

  /** `ws.max_row`: openpyxl reports at least 1, even for an empty sheet. */
  function MaxRow(sh: Sheet): (r: nat)
    ensures r >= 1 && r >= |sh.rows|
  {
    if |sh.rows| == 0 then 1 else |sh.rows|
  }

  /** The number of rows below the header, `max_row - 1`. */
  function DataRows(ws: Sheet): nat
  {
    MaxRow(ws) - 1
  }

  function MaxLen(rows: seq<Row>): (r: nat)
    ensures forall i :: 0 <= i < |rows| ==> |rows[i]| <= r
  {
    if rows == [] then 0 else Max(MaxLen(rows[..|rows| - 1]), |rows[|rows| - 1]|)
  }

  /** `ws.max_column`: openpyxl reports at least 1, even for an empty sheet. */
  function MaxColumn(sh: Sheet): (r: nat)
    ensures r >= 1
    ensures forall i :: 0 <= i < |sh.rows| ==> |sh.rows[i]| <= r
  {
    Max(1, MaxLen(sh.rows))
  }

  /** `ws.cell(row=r, column=c).value`: `None` outside the written area. */
  function CellAt(sh: Sheet, r: int, c: int): Cell
  {
    if 1 <= r <= |sh.rows| && 1 <= c <= |sh.rows[r - 1]| then sh.rows[r - 1][c - 1] else Null
  }

  /** `ws.cell(row=r, column=c).value = v`: the sheet grows as needed, padding with `None`. */
  function SetCell(sh: Sheet, r: nat, c: nat, v: Cell): (res: Sheet)
    requires r >= 1 && c >= 1
    ensures |res.rows| == Max(|sh.rows|, r)
    ensures CellAt(res, r, c) == v
    ensures forall r', c' :: (r' != r || c' != c) ==> CellAt(res, r', c') == CellAt(sh, r', c')
  {
    var rows := sh.rows + seq(Max(0, r - |sh.rows|), _ => []);
    var row := rows[r - 1];
    var row' := if |row| >= c then row[c - 1 := v] else row + seq(c - 1 - |row|, _ => Null) + [v];
    Sheet(rows[r - 1 := row'])
  }

  /** The widest row is as wide as `MaxLen` says. */
  lemma {:induction false} MaxLenAttained(rows: seq<Row>)
    requires rows != []
    ensures exists i :: 0 <= i < |rows| && |rows[i]| == MaxLen(rows)
  {
    var init := rows[..|rows| - 1];
    var last := |rows| - 1;
    if init == [] || MaxLen(init) <= |rows[last]| {
      assert |rows[last]| == MaxLen(rows);
    } else {
      MaxLenAttained(init);
      var i :| 0 <= i < |init| && |init[i]| == MaxLen(init);
      assert rows[i] == init[i];
    }
  }

  /** Rows that are each at least as long are at least as wide together. */
  lemma MaxLenMono(rows: seq<Row>, rows': seq<Row>)
    requires |rows| <= |rows'|
    requires forall i :: 0 <= i < |rows| ==> |rows[i]| <= |rows'[i]|
    ensures MaxLen(rows) <= MaxLen(rows')
  {
    if rows != [] {
      MaxLenAttained(rows);
    }
  }

  /** `if cond: ws.cell(row=r, column=c).value = v`. */
  function SetCellIf(sh: Sheet, cond: bool, r: nat, c: nat, v: Cell): (res: Sheet)
    requires r >= 1 && c >= 1
    ensures cond ==> CellAt(res, r, c) == v
    ensures |res.rows| == if cond then Max(|sh.rows|, r) else |sh.rows|
    ensures forall r', c' {:trigger CellAt(res, r', c')} :: (!cond || r' != r || c' != c) ==> CellAt(res, r', c') == CellAt(sh, r', c')
  {
    if cond then SetCell(sh, r, c, v) else sh
  }

  /** Writing a cell never narrows the sheet, and a written value lies within `max_column`. */
  lemma SetCellWidens(sh: Sheet, r: nat, c: nat, v: Cell)
    requires r >= 1 && c >= 1
    ensures MaxColumn(SetCell(sh, r, c, v)) >= MaxColumn(sh)
    ensures v != Null ==> MaxColumn(SetCell(sh, r, c, v)) >= c
  {
    var res := SetCell(sh, r, c, v);
    forall i | 0 <= i < |sh.rows|
      ensures |sh.rows[i]| <= |res.rows[i]|
    {
    }
    MaxLenMono(sh.rows, res.rows);
    if v != Null {
      assert CellAt(res, r, c) != Null;
    }
  }

  /** Writing a cell makes the sheet no wider than the wider of the sheet and the column. */
  lemma SetCellNarrows(sh: Sheet, r: nat, c: nat, v: Cell)
    requires r >= 1 && c >= 1
    ensures MaxColumn(SetCell(sh, r, c, v)) <= Max(MaxColumn(sh), c)
  {
    var res := SetCell(sh, r, c, v);
    var k := Max(MaxColumn(sh), c);
    forall i | 0 <= i < |res.rows|
      ensures |res.rows[i]| <= k
    {
      if i != r - 1 && i < |sh.rows| {
        assert res.rows[i] == sh.rows[i];
      }
    }
    MaxLenBound(res.rows, k);
  }

  /** Rows no longer than `k` are at most `k` wide together. */
  lemma {:induction false} MaxLenBound(rows: seq<Row>, k: nat)
    requires forall i :: 0 <= i < |rows| ==> |rows[i]| <= k
    ensures MaxLen(rows) <= k
  {
    if rows != [] {
      MaxLenBound(rows[..|rows| - 1], k);
    }
  }

  /**
   * `ws.insert_cols(idx)`: every cell at column `idx` or beyond moves one column to
   * the right; column `idx` becomes empty.
   */
  function InsertCol(sh: Sheet, idx: nat): (res: Sheet)
    requires idx >= 1
    ensures |res.rows| == |sh.rows|
    ensures forall r, c :: c < idx ==> CellAt(res, r, c) == CellAt(sh, r, c)
    ensures forall r :: CellAt(res, r, idx) == Null
    ensures forall r, c :: c > idx ==> CellAt(res, r, c) == CellAt(sh, r, c - 1)
  {
    Sheet(seq(|sh.rows|, i requires 0 <= i < |sh.rows| =>
      var row := sh.rows[i];
      if |row| >= idx then row[..idx - 1] + [Null] + row[idx - 1..] else row))
  }

  /** The values of row 1, columns 1 to `max_column`. */
  function HeaderCells(sh: Sheet): (r: seq<Cell>)
    ensures |r| == MaxColumn(sh)
    ensures forall i :: 0 <= i < |r| ==> r[i] == CellAt(sh, 1, i + 1)
  {
    seq(MaxColumn(sh), i requires 0 <= i < MaxColumn(sh) => CellAt(sh, 1, i + 1))
  }

  /** Row 1, each value as `str(v or "").strip()`. */
  function HeaderTexts(ws: Sheet): (hs: seq<string>)
    ensures |hs| == MaxColumn(ws)
    ensures forall i :: 0 <= i < |hs| ==> hs[i] == Strip(StrOr(CellAt(ws, 1, i + 1)))
  {
    var cells := HeaderCells(ws);
    seq(|cells|, i requires 0 <= i < |cells| => Strip(StrOr(cells[i])))
  }

  function StrCells(ss: seq<string>): (r: Row)
    ensures |r| == |ss|
    ensures forall i :: 0 <= i < |ss| ==> r[i] == Str(ss[i])
  {
    seq(|ss|, i requires 0 <= i < |ss| => Str(ss[i]))
  }

  // ---- workbooks ----

  function Names(wb: Workbook): (r: seq<string>)
    ensures |r| == |wb|
    ensures forall i :: 0 <= i < |wb| ==> r[i] == wb[i].name
  {
    seq(|wb|, i requires 0 <= i < |wb| => wb[i].name)
  }

  /** `wb.sheetnames.index(name)`, or `None` when there is no sheet of that name. */
  function IndexOf(wb: Workbook, name: string): (r: Option<nat>)
    ensures r.Some? ==> (r.value < |wb| && wb[r.value].name == name
                         && forall j :: 0 <= j < r.value ==> wb[j].name != name)
    ensures r.None? ==> forall j :: 0 <= j < |wb| ==> wb[j].name != name
  {
    if wb == [] then None
    else if wb[0].name == name then Some(0)
    else match IndexOf(wb[1..], name)
      case None => None
      case Some(j) => Some(j + 1)
  }

  /** `wb.remove(wb[name])` when the sheet exists; the workbook unchanged otherwise. */
  function RemoveSheet(wb: Workbook, name: string): (r: Workbook)
    ensures IndexOf(wb, name).None? ==> r == wb
    ensures IndexOf(wb, name).Some? ==>
      var i := IndexOf(wb, name).value; r == wb[..i] + wb[i + 1..]
  {
    match IndexOf(wb, name)
    case None => wb
    case Some(i) => wb[..i] + wb[i + 1..]
  }

  /** Sheet names are unique, as openpyxl keeps them. */
  predicate UniqueNames(wb: Workbook)
  {
    forall i, j :: 0 <= i < j < |wb| ==> wb[i].name != wb[j].name
  }

  /** The first sheet of a name is the one `IndexOf` finds. */
  lemma IndexOfFirst(wb: Workbook, name: string, j: nat)
    requires j < |wb| && wb[j].name == name
    requires forall l :: 0 <= l < j ==> wb[l].name != name
    ensures IndexOf(wb, name) == Some(j)
  {
  }

  /** Removing the sheet of one name leaves the first sheet of every other name where it is found. */
  lemma RemoveKeepsOthers(wb: Workbook, a: string, b: string)
    requires a != b
    ensures var r := RemoveSheet(wb, a);
      (IndexOf(r, b).Some? <==> IndexOf(wb, b).Some?) &&
      (IndexOf(r, b).Some? ==> r[IndexOf(r, b).value] == wb[IndexOf(wb, b).value])
  {
    var r := RemoveSheet(wb, a);
    if IndexOf(wb, a).Some? {
      var i := IndexOf(wb, a).value;
      assert |r| == |wb| - 1;
      assert forall l :: 0 <= l < |r| ==> r[l] == (if l < i then wb[l] else wb[l + 1]);
      match IndexOf(wb, b)
      case None =>
        assert forall l :: 0 <= l < |r| ==> r[l].name != b;
      case Some(j) =>
        if j < i {
          IndexOfFirst(r, b, j);
        } else {
          assert forall l :: 0 <= l < j - 1 ==> r[l].name != b;
          IndexOfFirst(r, b, j - 1);
        }
    }
  }

  /** Removing a sheet keeps the names unique and drops its name. */
  lemma RemoveUnique(wb: Workbook, a: string)
    requires UniqueNames(wb)
    ensures UniqueNames(RemoveSheet(wb, a))
    ensures IndexOf(RemoveSheet(wb, a), a).None?
  {
    var r := RemoveSheet(wb, a);
    if IndexOf(wb, a).Some? {
      var i := IndexOf(wb, a).value;
      assert forall l :: 0 <= l < |r| ==> r[l] == (if l < i then wb[l] else wb[l + 1]);
      assert forall l :: 0 <= l < |r| ==> r[l].name != a;
    }
  }

  /**
   * The 1-based position of the first entry of `headers` whose key under `norm` is
   * `key`, or `None`.
   */
  function FirstPos(headers: seq<string>, norm: string -> string, key: string): (r: Option<nat>)
    ensures r.Some? ==> (1 <= r.value <= |headers| && norm(headers[r.value - 1]) == key
                         && forall j :: 0 <= j < r.value - 1 ==> norm(headers[j]) != key)
    ensures r.None? ==> forall j :: 0 <= j < |headers| ==> norm(headers[j]) != key
  {
    if headers == [] then None
    else if norm(headers[0]) == key then Some(1)
    else match FirstPos(headers[1..], norm, key)
      case None => None
      case Some(p) => Some(p + 1)
  }

  /** The header index after the given headers: a key already present keeps its column. */
  function FirstIndexOf(headers: seq<string>, norm: string -> string): map<string, nat>
  {
    if headers == [] then map[]
    else
      var prev := FirstIndexOf(headers[..|headers| - 1], norm);
      var k := norm(headers[|headers| - 1]);
      if k == "" || k in prev then prev else prev[k := |headers|]
  }

  /** First occurrence wins: a key is indexed iff it is non-empty and occurs, at its first column. */
  lemma {:induction false} FirstIndexOfFirstWins(headers: seq<string>, norm: string -> string, k: string)
    ensures k in FirstIndexOf(headers, norm) <==> k != "" && FirstPos(headers, norm, k).Some?
    ensures k in FirstIndexOf(headers, norm) ==> FirstIndexOf(headers, norm)[k] == FirstPos(headers, norm, k).value
  {
    if headers != [] {
      var init := headers[..|headers| - 1];
      FirstIndexOfFirstWins(init, norm, k);
      var p := FirstPos(headers, norm, k);
      var q := FirstPos(init, norm, k);
      assert forall j :: 0 <= j < |init| ==> init[j] == headers[j];
      if q.Some? {
        assert p.Some? && p.value <= q.value;
      } else if p.Some? {
        assert p.value == |headers|;
      }
    }
  }

  /**
   * The header index built by `_build_col_index` and by the `norm_to_col` loops:
   * normalised header -> 1-based column of its FIRST occurrence; empty keys skipped.
   */
  method FirstOccurrenceIndex(headers: seq<string>, norm: string -> string) returns (m: map<string, nat>)
    ensures m == FirstIndexOf(headers, norm)
  {
    m := map[];
    var idx := 0;
    while idx < |headers|
      invariant 0 <= idx <= |headers|
      invariant m == FirstIndexOf(headers[..idx], norm)
    {
      assert headers[..idx + 1][..idx] == headers[..idx];
      var key := norm(headers[idx]);
      if key != "" && key !in m {
        m := m[key := idx + 1];
      }
      idx := idx + 1;
    }
    assert headers[..|headers|] == headers;
  }
}
