/**
 * How `_do_collect_dates_from_excel` finds its columns in "Datos Completos": the ID
 * column must exist; the three date columns (escalation, resolved, closed) are found
 * by header or created.  A missing "Resuelto" column is inserted right before an
 * existing closed-date column, so that it sits between the other two; any other
 * missing column is added after the last column.
 *
 * Inserting a column moves every later column one place to the right.  The code as
 * written moves only its own closed-date column number and keeps the ID and
 * escalation column numbers it had found or created before the insertion
 * (`ResolveAsWritten`), and the collector works with those numbers.  `ResolveColumns`
 * moves every column number the insertion displaces, as the code means to.
 */
module DateColumns {
  import opened Wrappers
  import opened Text
  import opened Sheets

  /** The headers of the four columns. */
  datatype DateNames = DateNames(id: string, esc: string, res: string, cie: string)

  const DefaultDateNames := DateNames("ID", "Fecha Escalamiento (O&M)", "Resuelto", "Fecha Cierre (closed)")

  /** The column numbers (1-based) of the ticket ID and of the three dates. */
  datatype DateCols = DateCols(id: nat, esc: nat, res: nat, cie: nat)

  predicate ValidCols(cols: DateCols)
  {
    cols.id >= 1 && cols.esc >= 1 && cols.res >= 1 && cols.cie >= 1
  }

  /** The resolved columns, and the sheet with the headers that had to be added. */
  datatype Resolved = Resolved(ws: Sheet, cols: DateCols)

  /** `(h or "").strip().lower()`: how `_find_header` compares headers. */
  function HeaderKey(h: string): string
  {
    LowerAll(Strip(h))
  }

  /** `_find_header(name)`: the first column whose header matches, 1-based. */
  function FindHeader(headers: seq<string>, name: string): (r: Option<nat>)
    ensures r.Some? ==> 1 <= r.value <= |headers| && HeaderKey(headers[r.value - 1]) == HeaderKey(name)
    ensures r.Some? ==> forall j :: 0 <= j < r.value - 1 ==> HeaderKey(headers[j]) != HeaderKey(name)
    ensures r.None? ==> forall j :: 0 <= j < |headers| ==> HeaderKey(headers[j]) != HeaderKey(name)
  {
    FirstPos(headers, HeaderKey, HeaderKey(name))
  }

  /** `ws.cell(row=1, column=ws.max_column + 1).value = name`. */
  function AddHeader(ws: Sheet, name: string): (r: Sheet)
    ensures CellAt(r, 1, MaxColumn(ws) + 1) == Str(name)
    ensures forall c :: c != MaxColumn(ws) + 1 ==> CellAt(r, 1, c) == CellAt(ws, 1, c)
    ensures MaxColumn(r) > MaxColumn(ws)
  {
    SetCellWidens(ws, 1, MaxColumn(ws) + 1, Str(name));
    SetCell(ws, 1, MaxColumn(ws) + 1, Str(name))
  }

  predicate Positive(found: Option<nat>)
  {
    found.Some? ==> found.value >= 1
  }

  /** A column and the sheet once its header is ensured. */
  datatype Ensured = Ensured(ws: Sheet, col: nat)

  /** The column `_find_header` found, or a new one after the last column with the header. */
  function Ensure(ws: Sheet, found: Option<nat>, name: string): (r: Ensured)
    ensures found.Some? ==> r == Ensured(ws, found.value)
    ensures found.None? ==> r.col == MaxColumn(ws) + 1 && CellAt(r.ws, 1, r.col) == Str(name)
    ensures MaxColumn(ws) <= MaxColumn(r.ws)
    ensures found.None? ==> r.col <= MaxColumn(r.ws)
    ensures forall c :: 1 <= c <= MaxColumn(ws) ==> CellAt(r.ws, 1, c) == CellAt(ws, 1, c)
  {
    if found.None? then Ensured(AddHeader(ws, name), MaxColumn(ws) + 1) else Ensured(ws, found.value)
  }

  /** A column number after `ws.insert_cols(at)`. */
  function Shift(c: nat, at: nat): (r: nat)
    ensures r == c || r == c + 1
    ensures c < at ==> r == c
    ensures c >= at ==> r == c + 1
  {
    if c >= at then c + 1 else c
  }

  /**
   * The column resolution as written: after the insertion only the closed-date column
   * number moves.
   */
  function ResolveAsWritten(ws: Sheet, names: DateNames): (r: Result<Resolved, ()>)
    ensures r.Ok? ==> ValidCols(r.value.cols)
  {
    var hs := HeaderTexts(ws);
    var id := FindHeader(hs, names.id);
    if id.None? then Err(())
    else
      Ok(PlaceAsWritten(ws, names, id.value, FindHeader(hs, names.esc), FindHeader(hs, names.res), FindHeader(hs, names.cie)))
  }

  /** The date columns placed, as written, given the columns `_find_header` found. */
  function PlaceAsWritten(ws: Sheet, names: DateNames, id: nat, esc0: Option<nat>, res0: Option<nat>, cie0: Option<nat>): (r: Resolved)
    requires id >= 1 && Positive(esc0) && Positive(res0) && Positive(cie0)
    ensures ValidCols(r.cols)
  {
    var e := Ensure(ws, esc0, names.esc);
    if res0.None? && cie0.Some? then
      var at := cie0.value;
      var ws2 := SetCell(InsertCol(e.ws, at), 1, at, Str(names.res));
      Resolved(ws2, DateCols(id, e.col, at, at + 1))
    else
      var r := Ensure(e.ws, res0, names.res);
      var c := Ensure(r.ws, cie0, names.cie);
      Resolved(c.ws, DateCols(id, e.col, r.col, c.col))
  }

  /**
   * The column resolution with every column number the insertion displaces moved
   * with it.
   */
  function ResolveColumns(ws: Sheet, names: DateNames): (r: Result<Resolved, ()>)
    ensures r.Ok? ==> ValidCols(r.value.cols)
  {
    var hs := HeaderTexts(ws);
    var id := FindHeader(hs, names.id);
    if id.None? then Err(())
    else
      Ok(Place(ws, names, id.value, FindHeader(hs, names.esc), FindHeader(hs, names.res), FindHeader(hs, names.cie)))
  }

  /** The date columns placed, moving along every column the insertion displaces. */
  function Place(ws: Sheet, names: DateNames, id: nat, esc0: Option<nat>, res0: Option<nat>, cie0: Option<nat>): (r: Resolved)
    requires id >= 1 && Positive(esc0) && Positive(res0) && Positive(cie0)
    ensures ValidCols(r.cols)
  {
    var e := Ensure(ws, esc0, names.esc);
    if res0.None? && cie0.Some? then
      var at := cie0.value;
      var ws2 := SetCell(InsertCol(e.ws, at), 1, at, Str(names.res));
      Resolved(ws2, DateCols(Shift(id, at), Shift(e.col, at), at, at + 1))
    else
      var r := Ensure(e.ws, res0, names.res);
      var c := Ensure(r.ws, cie0, names.cie);
      Resolved(c.ws, DateCols(id, e.col, r.col, c.col))
  }

  // ---------------------------------------------------------------------------------
  // Properties

  /** Column `c` of row 1 carries the header `name`, as `_find_header` compares them. */
  predicate Headed(ws: Sheet, c: nat, name: string)
  {
    CellKey(CellAt(ws, 1, c)) == HeaderKey(name)
  }

  /** The key `_find_header` compares for a header cell. */
  function CellKey(c: Cell): string
  {
    HeaderKey(Strip(StrOr(c)))
  }

  /** The four headers are told apart by `_find_header`. */
  predicate DistinctKeys(names: DateNames)
  {
    && HeaderKey(names.id) != HeaderKey(names.esc) && HeaderKey(names.id) != HeaderKey(names.res)
    && HeaderKey(names.id) != HeaderKey(names.cie) && HeaderKey(names.esc) != HeaderKey(names.res)
    && HeaderKey(names.esc) != HeaderKey(names.cie) && HeaderKey(names.res) != HeaderKey(names.cie)
  }

  /** A header the code writes is found again under its own name. */
  lemma WrittenHeaded(ws: Sheet, c: nat, name: string)
    requires CellAt(ws, 1, c) == Str(name)
    ensures Headed(ws, c, name)
  {
    StripFixpoint(Strip(name));
  }

  /** A column `_find_header` found carries its header and lies within `max_column`. */
  lemma FoundHeaded(ws: Sheet, name: string)
    requires FindHeader(HeaderTexts(ws), name).Some?
    ensures var c := FindHeader(HeaderTexts(ws), name).value;
      Headed(ws, c, name) && 1 <= c <= MaxColumn(ws)
  {
  }

  /** Row 1 after inserting a column at `at` and writing `v` into it. */
  lemma InsertMoves(ws1: Sheet, at: nat, v: Cell)
    requires 1 <= at
    ensures var ws2 := SetCell(InsertCol(ws1, at), 1, at, v);
      && CellAt(ws2, 1, at) == v
      && forall c: nat :: CellAt(ws2, 1, Shift(c, at)) == CellAt(ws1, 1, c)
  {
    forall c: nat
      ensures CellAt(SetCell(InsertCol(ws1, at), 1, at, v), 1, Shift(c, at)) == CellAt(ws1, 1, c)
    {
      InsertMovesAt(ws1, at, v, c);
    }
  }

  /** Row 1 after the insertion, at the new place of column `c`. */
  lemma InsertMovesAt(ws1: Sheet, at: nat, v: Cell, c: nat)
    requires 1 <= at
    ensures CellAt(SetCell(InsertCol(ws1, at), 1, at, v), 1, Shift(c, at)) == CellAt(ws1, 1, c)
  {
    var ins := InsertCol(ws1, at);
    assert CellAt(SetCell(ins, 1, at, v), 1, Shift(c, at)) == CellAt(ins, 1, Shift(c, at));
  }

  /** A column found in, or within the width of, the sheet. */
  predicate FoundIn(ws: Sheet, found: Option<nat>, name: string)
  {
    found.Some? ==> Headed(ws, found.value, name) && 1 <= found.value <= MaxColumn(ws)
  }

  /** A found column lies within `max_column`. */
  predicate InRange(ws: Sheet, found: Option<nat>)
  {
    found.Some? ==> 1 <= found.value <= MaxColumn(ws)
  }

  /** The row-1 cell a column ends up with: the one found, or the header written. */
  function HeaderCell(ws: Sheet, found: Option<nat>, name: string): Cell
  {
    if found.Some? then CellAt(ws, 1, found.value) else Str(name)
  }

  /** Row 1 of the resolved columns holds the cells found for them, or the headers written. */
  predicate CellsPlaced(ws: Sheet, r: Resolved, names: DateNames, id: nat,
                        esc0: Option<nat>, res0: Option<nat>, cie0: Option<nat>)
  {
    && CellAt(r.ws, 1, r.cols.id) == CellAt(ws, 1, id)
    && CellAt(r.ws, 1, r.cols.esc) == HeaderCell(ws, esc0, names.esc)
    && CellAt(r.ws, 1, r.cols.res) == HeaderCell(ws, res0, names.res)
    && CellAt(r.ws, 1, r.cols.cie) == HeaderCell(ws, cie0, names.cie)
  }

  /** Every resolved column carries its own header. */
  predicate AllHeaded(r: Resolved, names: DateNames)
  {
    && Headed(r.ws, r.cols.id, names.id)
    && Headed(r.ws, r.cols.esc, names.esc)
    && Headed(r.ws, r.cols.res, names.res)
    && Headed(r.ws, r.cols.cie, names.cie)
  }

  /** An ensured column holds the cell found, or the header written, within the new width. */
  lemma EnsureCell(ws: Sheet, found: Option<nat>, name: string)
    requires InRange(ws, found)
    ensures var e := Ensure(ws, found, name);
      CellAt(e.ws, 1, e.col) == HeaderCell(ws, found, name) && 1 <= e.col <= MaxColumn(e.ws)
  {
  }

  /** Placing the columns keeps every one of them under its own header. */
  lemma PlaceHeaded(ws: Sheet, names: DateNames, id: nat, esc0: Option<nat>, res0: Option<nat>, cie0: Option<nat>)
    requires 1 <= id <= MaxColumn(ws) && Headed(ws, id, names.id)
    requires FoundIn(ws, esc0, names.esc) && FoundIn(ws, res0, names.res) && FoundIn(ws, cie0, names.cie)
    ensures AllHeaded(Place(ws, names, id, esc0, res0, cie0), names)
  {
    PlaceCells(ws, names, id, esc0, res0, cie0);
    HeadedFromCells(ws, Place(ws, names, id, esc0, res0, cie0), names, id, esc0, res0, cie0);
  }

  /** Columns holding the cells found, or the headers written, carry their headers. */
  lemma HeadedFromCells(ws: Sheet, r: Resolved, names: DateNames, id: nat,
                        esc0: Option<nat>, res0: Option<nat>, cie0: Option<nat>)
    requires CellsPlaced(ws, r, names, id, esc0, res0, cie0)
    requires Headed(ws, id, names.id)
    requires FoundIn(ws, esc0, names.esc) && FoundIn(ws, res0, names.res) && FoundIn(ws, cie0, names.cie)
    ensures AllHeaded(r, names)
  {
    if esc0.None? {
      WrittenHeaded(r.ws, r.cols.esc, names.esc);
    }
    if res0.None? {
      WrittenHeaded(r.ws, r.cols.res, names.res);
    }
    if cie0.None? {
      WrittenHeaded(r.ws, r.cols.cie, names.cie);
    }
  }

  /** Where each placed column's row-1 cell comes from. */
  lemma PlaceCells(ws: Sheet, names: DateNames, id: nat, esc0: Option<nat>, res0: Option<nat>, cie0: Option<nat>)
    requires 1 <= id <= MaxColumn(ws) && InRange(ws, esc0) && InRange(ws, res0) && InRange(ws, cie0)
    ensures CellsPlaced(ws, Place(ws, names, id, esc0, res0, cie0), names, id, esc0, res0, cie0)
  {
    var e := Ensure(ws, esc0, names.esc);
    EnsureCell(ws, esc0, names.esc);
    if res0.None? && cie0.Some? {
      var at := cie0.value;
      PlaceInserts(ws, names, id, esc0, res0, cie0);
      InsertMovesAt(e.ws, at, Str(names.res), id);
      InsertMovesAt(e.ws, at, Str(names.res), e.col);
      InsertMovesAt(e.ws, at, Str(names.res), at);
      assert Shift(at, at) == at + 1;
    } else {
      PlaceAppends(ws, names, id, esc0, res0, cie0);
      AppendCells(ws, e.ws, names, id, e.col, res0, cie0);
    }
  }

  /** With no Resuelto column and a closed-date column, the Resuelto column goes in before it. */
  lemma PlaceInserts(ws: Sheet, names: DateNames, id: nat, esc0: Option<nat>, res0: Option<nat>, cie0: Option<nat>)
    requires 1 <= id && Positive(esc0) && res0.None? && cie0.Some? && 1 <= cie0.value
    ensures var e := Ensure(ws, esc0, names.esc);
      var at := cie0.value;
      Place(ws, names, id, esc0, res0, cie0) ==
        Resolved(SetCell(InsertCol(e.ws, at), 1, at, Str(names.res)), DateCols(Shift(id, at), Shift(e.col, at), at, at + 1))
  {
  }

  /** Otherwise the Resuelto and closed-date columns are found or added after the last column. */
  lemma PlaceAppends(ws: Sheet, names: DateNames, id: nat, esc0: Option<nat>, res0: Option<nat>, cie0: Option<nat>)
    requires 1 <= id && Positive(esc0) && Positive(res0) && Positive(cie0) && !(res0.None? && cie0.Some?)
    ensures var e := Ensure(ws, esc0, names.esc);
      var r := Ensure(e.ws, res0, names.res);
      var c := Ensure(r.ws, cie0, names.cie);
      Place(ws, names, id, esc0, res0, cie0) == Resolved(c.ws, DateCols(id, e.col, r.col, c.col))
  {
  }

  /** The Resuelto and closed-date columns found or added after the last column. */
  lemma AppendCells(ws: Sheet, ws1: Sheet, names: DateNames, id: nat, esc: nat, res0: Option<nat>, cie0: Option<nat>)
    requires MaxColumn(ws) <= MaxColumn(ws1)
    requires forall c :: 1 <= c <= MaxColumn(ws) ==> CellAt(ws1, 1, c) == CellAt(ws, 1, c)
    requires 1 <= id <= MaxColumn(ws) && 1 <= esc <= MaxColumn(ws1)
    requires InRange(ws, res0) && InRange(ws, cie0)
    ensures var r := Ensure(ws1, res0, names.res);
      var c := Ensure(r.ws, cie0, names.cie);
      && CellAt(c.ws, 1, id) == CellAt(ws, 1, id) && CellAt(c.ws, 1, esc) == CellAt(ws1, 1, esc)
      && CellAt(c.ws, 1, r.col) == HeaderCell(ws, res0, names.res)
      && CellAt(c.ws, 1, c.col) == HeaderCell(ws, cie0, names.cie)
  {
    var r := Ensure(ws1, res0, names.res);
    EnsureCell(ws1, res0, names.res);
    if res0.Some? {
      assert CellAt(ws1, 1, res0.value) == CellAt(ws, 1, res0.value);
    }
    assert CellAt(r.ws, 1, id) == CellAt(ws, 1, id);
    assert CellAt(r.ws, 1, esc) == CellAt(ws1, 1, esc);
    var c := Ensure(r.ws, cie0, names.cie);
    EnsureCell(r.ws, cie0, names.cie);
    if cie0.Some? {
      assert CellAt(r.ws, 1, cie0.value) == CellAt(ws, 1, cie0.value);
    }
    assert CellAt(c.ws, 1, id) == CellAt(r.ws, 1, id);
    assert CellAt(c.ws, 1, esc) == CellAt(r.ws, 1, esc);
    assert CellAt(c.ws, 1, r.col) == CellAt(r.ws, 1, r.col);
  }

  /**
   * With the columns moved along, every resolved column carries its own header.
   */
  lemma ResolveColumnsHeaded(ws: Sheet, names: DateNames)
    requires ResolveColumns(ws, names).Ok?
    ensures AllHeaded(ResolveColumns(ws, names).value, names)
  {
    var hs := HeaderTexts(ws);
    var esc0 := FindHeader(hs, names.esc);
    var res0 := FindHeader(hs, names.res);
    var cie0 := FindHeader(hs, names.cie);
    FoundHeaded(ws, names.id);
    if esc0.Some? { FoundHeaded(ws, names.esc); }
    if res0.Some? { FoundHeaded(ws, names.res); }
    if cie0.Some? { FoundHeaded(ws, names.cie); }
    PlaceHeaded(ws, names, FindHeader(hs, names.id).value, esc0, res0, cie0);
  }

  /** With headers `_find_header` tells apart, the four resolved columns are distinct. */
  lemma ResolveColumnsDistinct(ws: Sheet, names: DateNames)
    requires DistinctKeys(names)
    requires ResolveColumns(ws, names).Ok?
    ensures var c := ResolveColumns(ws, names).value.cols;
      c.id != c.esc && c.id != c.res && c.id != c.cie && c.esc != c.res && c.esc != c.cie && c.res != c.cie
  {
    ResolveColumnsHeaded(ws, names);
  }

  /** Resolution fails exactly when there is no ID column, whichever way it is done. */
  lemma ResolveFailsIffNoId(ws: Sheet, names: DateNames)
    ensures ResolveColumns(ws, names).Err? <==> FindHeader(HeaderTexts(ws), names.id).None?
    ensures ResolveAsWritten(ws, names).Err? <==> FindHeader(HeaderTexts(ws), names.id).None?
  {
  }

  /** The sheet of the example: an ID column and a closed-date column, nothing else. */
  function IdAndClosedSheet(names: DateNames): Sheet
  {
    Sheet([[Str(names.id), Str(names.cie)], [Int(7), Null]])
  }

  /** The example sheet's header row. */
  lemma ExampleHeaders(names: DateNames)
    ensures var ws := IdAndClosedSheet(names);
      var hs := HeaderTexts(ws);
      && MaxColumn(ws) == 2 && |hs| == 2
      && HeaderKey(hs[0]) == HeaderKey(names.id) && HeaderKey(hs[1]) == HeaderKey(names.cie)
  {
    var ws := IdAndClosedSheet(names);
    assert MaxLen(ws.rows[..1]) == 2;
    WrittenHeaded(ws, 1, names.id);
    WrittenHeaded(ws, 2, names.cie);
  }

  /** What `_find_header` finds in the example sheet. */
  lemma ExampleFinds(names: DateNames)
    requires DistinctKeys(names)
    ensures var ws := IdAndClosedSheet(names);
      var hs := HeaderTexts(ws);
      && MaxColumn(ws) == 2
      && FindHeader(hs, names.id) == Some(1)
      && FindHeader(hs, names.esc).None?
      && FindHeader(hs, names.res).None?
      && FindHeader(hs, names.cie) == Some(2)
  {
    ExampleHeaders(names);
    var hs := HeaderTexts(IdAndClosedSheet(names));
    FindFirstOfTwo(hs, names.id);
    FindNoneOfTwo(hs, names.esc);
    FindNoneOfTwo(hs, names.res);
    FindSecondOfTwo(hs, names.cie);
  }

  lemma FindFirstOfTwo(hs: seq<string>, a: string)
    requires |hs| == 2 && HeaderKey(hs[0]) == HeaderKey(a)
    ensures FindHeader(hs, a) == Some(1)
  {
  }

  lemma FindNoneOfTwo(hs: seq<string>, a: string)
    requires |hs| == 2 && HeaderKey(hs[0]) != HeaderKey(a) && HeaderKey(hs[1]) != HeaderKey(a)
    ensures FindHeader(hs, a).None?
  {
  }

  lemma FindSecondOfTwo(hs: seq<string>, a: string)
    requires |hs| == 2 && HeaderKey(hs[0]) != HeaderKey(a) && HeaderKey(hs[1]) == HeaderKey(a)
    ensures FindHeader(hs, a) == Some(2)
  {
  }

  /**
   * The example, as written: with only ID and closed-date headers, the escalation
   * column number ends up equal to the closed-date column number, whose header is the
   * closed-date one, while the escalation header sits in column 4.
   */
  lemma AsWrittenEscalationOnClosed(names: DateNames)
    requires DistinctKeys(names)
    ensures var r := ResolveAsWritten(IdAndClosedSheet(names), names);
      && r.Ok?
      && r.value.cols == DateCols(1, 3, 2, 3)
      && !Headed(r.value.ws, r.value.cols.esc, names.esc)
      && CellAt(r.value.ws, 1, 4) == Str(names.esc)
      && MaxRow(r.value.ws) == 2 && CellAt(r.value.ws, 2, 1) == Int(7)
      && CellAt(r.value.ws, 2, 2) == Null && CellAt(r.value.ws, 2, 3) == Null && CellAt(r.value.ws, 2, 4) == Null
  {
    var ws := IdAndClosedSheet(names);
    ExampleFinds(names);
    var e := Ensure(ws, None, names.esc);
    InsertMoves(e.ws, 2, Str(names.res));
    var ws2 := SetCell(InsertCol(e.ws, 2), 1, 2, Str(names.res));
    assert CellAt(ws2, 1, Shift(2, 2)) == CellAt(e.ws, 1, 2) == Str(names.cie);
    assert CellAt(ws2, 1, Shift(3, 2)) == CellAt(e.ws, 1, 3);
    WrittenHeaded(ws2, 3, names.cie);
    assert CellAt(ws2, 2, 3) == CellAt(e.ws, 2, 2) == Null;
    assert CellAt(ws2, 2, 4) == CellAt(e.ws, 2, 3) == Null;
  }

  /** The same sheet with the column numbers moved along: escalation is column 4. */
  lemma CorrectedEscalationMoved(names: DateNames)
    requires DistinctKeys(names)
    ensures var r := ResolveColumns(IdAndClosedSheet(names), names);
      && r.Ok?
      && r.value.cols == DateCols(1, 4, 2, 3)
      && Headed(r.value.ws, r.value.cols.esc, names.esc)
  {
    ExampleFinds(names);
    ResolveColumnsHeaded(IdAndClosedSheet(names), names);
  }

  /**
   * The second example: the closed-date column comes before the ID column, whose only
   * data cell holds ticket 7, and the closed date is still empty.
   */
  function ClosedThenIdSheet(names: DateNames): Sheet
  {
    Sheet([[Str(names.cie), Str(names.id)], [Null, Int(7)]])
  }

  /** What `_find_header` finds in the second example. */
  lemma SecondExampleFinds(names: DateNames)
    requires DistinctKeys(names)
    ensures var ws := ClosedThenIdSheet(names);
      var hs := HeaderTexts(ws);
      && MaxColumn(ws) == 2
      && FindHeader(hs, names.id) == Some(2)
      && FindHeader(hs, names.esc).None?
      && FindHeader(hs, names.res).None?
      && FindHeader(hs, names.cie) == Some(1)
  {
    var ws := ClosedThenIdSheet(names);
    assert MaxLen(ws.rows[..1]) == 2;
    WrittenHeaded(ws, 1, names.cie);
    WrittenHeaded(ws, 2, names.id);
    var hs := HeaderTexts(ws);
    FindSecondOfTwo(hs, names.id);
    FindNoneOfTwo(hs, names.esc);
    FindNoneOfTwo(hs, names.res);
    FindFirstOfTwo(hs, names.cie);
  }

  /**
   * As written, the ID column number stays 2 after the insertion at column 1, where
   * the closed-date column now is; the ID header has moved to column 3.
   */
  lemma AsWrittenIdOnClosed(names: DateNames)
    requires DistinctKeys(names)
    ensures var r := ResolveAsWritten(ClosedThenIdSheet(names), names);
      && r.Ok?
      && r.value.cols == DateCols(2, 3, 1, 2)
      && Headed(r.value.ws, 2, names.cie) && !Headed(r.value.ws, 2, names.id)
      && CellAt(r.value.ws, 2, 2) == Null && CellAt(r.value.ws, 2, 3) == Int(7)
      && MaxRow(r.value.ws) == 2
  {
    var ws := ClosedThenIdSheet(names);
    SecondExampleFinds(names);
    var e := Ensure(ws, None, names.esc);
    var ws2 := SetCell(InsertCol(e.ws, 1), 1, 1, Str(names.res));
    InsertMovesAt(e.ws, 1, Str(names.res), 1);
    assert CellAt(ws2, 1, 2) == CellAt(e.ws, 1, 1) == Str(names.cie);
    WrittenHeaded(ws2, 2, names.cie);
    assert CellAt(ws2, 2, 2) == CellAt(e.ws, 2, 1) == Null;
    assert CellAt(ws2, 2, 3) == CellAt(e.ws, 2, 2) == Int(7);
  }

  /** With the column numbers moved along, the ID column is 3, under its header. */
  lemma CorrectedIdMoved(names: DateNames)
    requires DistinctKeys(names)
    ensures var r := ResolveColumns(ClosedThenIdSheet(names), names);
      && r.Ok?
      && r.value.cols == DateCols(3, 4, 1, 2)
      && Headed(r.value.ws, 3, names.id)
      && CellAt(r.value.ws, 2, 3) == Int(7)
      && MaxRow(r.value.ws) == 2
  {
    var ws := ClosedThenIdSheet(names);
    SecondExampleFinds(names);
    ResolveColumnsHeaded(ws, names);
    var e := Ensure(ws, None, names.esc);
    var ws2 := SetCell(InsertCol(e.ws, 1), 1, 1, Str(names.res));
    assert CellAt(ws2, 2, 3) == CellAt(e.ws, 2, 2) == Int(7);
  }
}
