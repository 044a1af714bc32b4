/**
 * `_upsert_customer_minimal` and `_get_or_create_sheet`: record one customer (ID,
 * partner name "Socio", neighbourhood "Residencia/Urbanización") in the sheet
 * "Datos Clientes", updating the customer's row when the ID is already there and
 * appending a row otherwise.
 *
 * The workbook file is a parameter (`None` when it does not exist) and the result is
 * the workbook that would be saved (`None` when nothing is saved).  The header names
 * are a parameter too; `DefaultCustomerNames` holds the ones the code uses.
 */
module CustomerUpsert {
  import opened Wrappers
  import opened Text
  import opened Sheets
  import opened IdKeys

  const CustomerSheet := "Datos Clientes"

  /** The name of the only sheet of a new workbook. */
  const DefaultSheetName := "Sheet"

  /** `Workbook()`: one empty sheet named "Sheet". */
  const NewWorkbook: Workbook := [NamedSheet(DefaultSheetName, Sheet([]))]

  /** The headers of the three customer columns. */
  datatype CustomerNames = CustomerNames(id: string, socio: string, res: string)

  const DefaultCustomerNames := CustomerNames("ID", "Socio", "Residencia/Urbanización")

  // ---------------------------------------------------------------------------------
  // The sheet

  /** The workbook and the position of the sheet asked for. */
  datatype Placed = Placed(wb: Workbook, index: nat)

  /** A brand-new workbook's sheet: the only one, named "Sheet", one row by one column. */
  predicate LoneDefaultSheet(wb: Workbook)
  {
    |wb| == 1 && wb[0].name == DefaultSheetName && MaxRow(wb[0].sheet) == 1 && MaxColumn(wb[0].sheet) == 1
  }

  /**
   * `_get_or_create_sheet`: the sheet of that name; else the lone default sheet,
   * renamed; else a new empty sheet at the end.
   */
  function GetOrCreateSheet(wb: Workbook, name: string): (p: Placed)
    ensures p.index < |p.wb| && IndexOf(p.wb, name) == Some(p.index)
    ensures IndexOf(wb, name).Some? ==> p == Placed(wb, IndexOf(wb, name).value)
    ensures IndexOf(wb, name).None? && LoneDefaultSheet(wb) ==> p == Placed([NamedSheet(name, wb[0].sheet)], 0)
    ensures IndexOf(wb, name).None? && !LoneDefaultSheet(wb) ==> p == Placed(wb + [NamedSheet(name, Sheet([]))], |wb|)
  {
    match IndexOf(wb, name)
    case Some(i) => Placed(wb, i)
    case None =>
      if LoneDefaultSheet(wb) then Placed([NamedSheet(name, wb[0].sheet)], 0)
      else
        assert (wb + [NamedSheet(name, Sheet([]))])[..|wb|] == wb;
        IndexOfAppend(wb, NamedSheet(name, Sheet([])));
        Placed(wb + [NamedSheet(name, Sheet([]))], |wb|)
  }

  /** A sheet appended after sheets of other names is found at the end. */
  lemma {:induction false} IndexOfAppend(wb: Workbook, s: NamedSheet)
    requires IndexOf(wb, s.name).None?
    ensures IndexOf(wb + [s], s.name) == Some(|wb|)
  {
    if wb != [] {
      assert (wb + [s])[1..] == wb[1..] + [s];
      IndexOfAppend(wb[1..], s);
    }
  }

  // ---------------------------------------------------------------------------------
  // Headers

  /** `ws.append(values)`: the values in columns 1, 2 and 3 of row `r`. */
  function PutRow(ws: Sheet, r: nat, names: CustomerNames): (res: Sheet)
    requires r >= 1
    ensures |res.rows| == Max(|ws.rows|, r)
    ensures CellAt(res, r, 1) == Str(names.id) && CellAt(res, r, 2) == Str(names.socio) && CellAt(res, r, 3) == Str(names.res)
    ensures forall r', c' {:trigger CellAt(res, r', c')} :: (r' != r || c' < 1 || c' > 3) ==> CellAt(res, r', c') == CellAt(ws, r', c')
  {
    SetCell(SetCell(SetCell(ws, r, 1, Str(names.id)), r, 2, Str(names.socio)), r, 3, Str(names.res))
  }

  /** A sheet with one row at most and nothing in its first cell gets the headers. */
  predicate NeedsHeaders(ws: Sheet)
  {
    MaxRow(ws) == 1 && CellAt(ws, 1, 1) == Null
  }

  /**
   * "asegurar headers mínimos" as written: reading `ws.cell(row=1, column=1)` creates
   * that cell, so `ws.append` writes the headers after it, into row 2.
   */
  function BootstrapAsWritten(ws: Sheet, names: CustomerNames): (res: Sheet)
    ensures NeedsHeaders(ws) ==> res == PutRow(ws, 2, names)
    ensures !NeedsHeaders(ws) ==> res == ws
  {
    if NeedsHeaders(ws) then PutRow(ws, MaxRow(ws) + 1, names) else ws
  }

  /** "asegurar headers mínimos" as meant: the headers become row 1. */
  function Bootstrap(ws: Sheet, names: CustomerNames): (res: Sheet)
    ensures NeedsHeaders(ws) ==> res == PutRow(ws, 1, names)
    ensures !NeedsHeaders(ws) ==> res == ws
  {
    if NeedsHeaders(ws) then PutRow(ws, 1, names) else ws
  }

  /** `_norm_text` of the header in column `c`. */
  function HeaderKeyAt(ws: Sheet, c: nat): string
  {
    NormText(Strip(StrOr(CellAt(ws, 1, c))))
  }

  /** Every entry of the header index points at a header column with that key. */
  predicate IndexSound(ws: Sheet, index: map<string, nat>)
  {
    forall k :: k in index ==> 1 <= index[k] <= MaxColumn(ws) && HeaderKeyAt(ws, index[k]) == k
  }

  /** The sheet, the header index and the column `_ensure_col` returned. */
  datatype Ensured = Ensured(ws: Sheet, index: map<string, nat>, col: nat)

  /** `_ensure_col(name)`: the indexed column of the name's key, or a new column at the end. */
  function EnsureCol(ws: Sheet, index: map<string, nat>, name: string): (e: Ensured)
    ensures e.col >= 1
    ensures NormText(name) in e.index && e.index[NormText(name)] == e.col
    ensures NormText(name) in index && index[NormText(name)] != 0 ==> e == Ensured(ws, index, index[NormText(name)])
  {
    var key := NormText(name);
    if key in index && index[key] != 0 then Ensured(ws, index, index[key])
    else
      var col := MaxColumn(ws) + 1;
      Ensured(SetCell(ws, 1, col, Str(name)), index[key := col], col)
  }

  /** The columns of ID, Socio and Residencia. */
  datatype CustomerCols = CustomerCols(id: nat, socio: nat, res: nat)

  datatype Prepared = Prepared(ws: Sheet, cols: CustomerCols)

  /** The header index and the three `_ensure_col` calls, in order. */
  function Prepare(ws: Sheet, names: CustomerNames): (p: Prepared)
    ensures p.cols.id >= 1 && p.cols.socio >= 1 && p.cols.res >= 1
  {
    var e1 := EnsureCol(ws, FirstIndexOf(HeaderTexts(ws), NormText), names.id);
    var e2 := EnsureCol(e1.ws, e1.index, names.socio);
    var e3 := EnsureCol(e2.ws, e2.index, names.res);
    Prepared(e3.ws, CustomerCols(e1.col, e2.col, e3.col))
  }

  // ---------------------------------------------------------------------------------
  // The customer's row

  /** The first row among `2 .. n + 1` whose ID key is `cid`. */
  function FindCustomer(key: nat -> string, cid: string, n: nat): (r: Option<nat>)
    ensures r.Some? ==> 2 <= r.value <= n + 1 && key(r.value) == cid
    ensures r.Some? ==> forall q :: 2 <= q < r.value ==> key(q) != cid
    ensures r.None? ==> forall q :: 2 <= q <= n + 1 ==> key(q) != cid
  {
    if n == 0 then None
    else match FindCustomer(key, cid, n - 1)
      case Some(r) => Some(r)
      case None => if key(n + 1) == cid then Some(n + 1) else None
  }

  /** The row the customer goes to: the first with the same ID key, or a new last row. */
  function TargetRow(ws: Sheet, idCol: nat, cid: string): (r: nat)
    ensures r >= 2
  {
    match FindCustomer(RowIds(ws, idCol), cid, MaxRow(ws) - 1)
    case Some(r) => r
    case None => MaxRow(ws) + 1
  }

  /** The writes: the ID into a new row, then Socio and Residencia when given. */
  function Record(ws: Sheet, cols: CustomerCols, cid: string, socio: string, res: string): (out: Sheet)
    requires cols.id >= 1 && cols.socio >= 1 && cols.res >= 1
    ensures forall r, c {:trigger CellAt(out, r, c)} :: r != TargetRow(ws, cols.id, cid) ==> CellAt(out, r, c) == CellAt(ws, r, c)
  {
    var target := TargetRow(ws, cols.id, cid);
    var found := FindCustomer(RowIds(ws, cols.id), cid, MaxRow(ws) - 1).Some?;
    var ws1 := SetCellIf(ws, !found, target, cols.id, Str(cid));
    var ws2 := SetCellIf(ws1, socio != "", target, cols.socio, Str(socio));
    SetCellIf(ws2, res != "", target, cols.res, Str(res))
  }

  /**
   * The customer sheet after the upsert, or `None` when the customer ID has no key and
   * the function returns before saving.  The headers of an empty sheet are written as
   * the code writes them, into row 2.
   */
  function UpsertSheet(ws: Sheet, names: CustomerNames, customerId: string, socio: string, res: string): (out: Option<Sheet>)
    ensures out.None? <==> IdKey(Str(customerId)) == ""
  {
    var cid := IdKey(Str(customerId));
    var p := Prepare(BootstrapAsWritten(ws, names), names);
    if cid == "" then None else Some(Record(p.ws, p.cols, cid, socio, res))
  }

  /** The same, with the headers of an empty sheet in row 1, as meant. */
  function UpsertSheetCorrected(ws: Sheet, names: CustomerNames, customerId: string, socio: string, res: string): (out: Option<Sheet>)
    ensures out.None? <==> IdKey(Str(customerId)) == ""
  {
    var cid := IdKey(Str(customerId));
    var p := Prepare(Bootstrap(ws, names), names);
    if cid == "" then None else Some(Record(p.ws, p.cols, cid, socio, res))
  }

  /** `_upsert_customer_minimal`: the workbook that is saved, or `None` when nothing is. */
  function Upsert(file: Option<Workbook>, names: CustomerNames, customerId: string, socio: string, res: string): (saved: Option<Workbook>)
    ensures saved.None? <==> IdKey(Str(customerId)) == ""
  {
    var wb := if file.None? then NewWorkbook else file.value;
    var p := GetOrCreateSheet(wb, CustomerSheet);
    match UpsertSheet(p.wb[p.index].sheet, names, customerId, socio, res)
    case None => None
    case Some(ws) => Some(p.wb[p.index := NamedSheet(CustomerSheet, ws)])
  }

  // ---------------------------------------------------------------------------------
  // The procedure, step by step

  /** `_ensure_col(name)`, updating the sheet and `norm_to_col`. */
  method EnsureColumn(ws0: Sheet, index0: map<string, nat>, name: string) returns (ws: Sheet, index: map<string, nat>, col: nat)
    ensures Ensured(ws, index, col) == EnsureCol(ws0, index0, name)
  {
    ws, index := ws0, index0;
    var key := NormText(name);
    if key in index && index[key] != 0 {
      return ws, index, index[key];
    }
    col := MaxColumn(ws) + 1;
    ws := SetCell(ws, 1, col, Str(name));
    index := index[key := col];
  }

  /** The search loop `for r in range(2, ws.max_row + 1)` with its `break`. */
  method ScanCustomer(key: nat -> string, cid: string, n: nat) returns (found: Option<nat>)
    ensures found == FindCustomer(key, cid, n)
  {
    var r := 2;
    while r <= n + 1
      invariant 2 <= r <= n + 2
      invariant forall q :: 2 <= q < r ==> key(q) != cid
    {
      if key(r) == cid {
        return Some(r);
      }
      r := r + 1;
    }
    return None;
  }

  /** The headers of an empty sheet, the header index and the three columns. */
  method PrepareSheet(ws0: Sheet, names: CustomerNames) returns (ws: Sheet, cols: CustomerCols)
    ensures Prepared(ws, cols) == Prepare(BootstrapAsWritten(ws0, names), names)
  {
    ws := ws0;
    if MaxRow(ws) == 1 && CellAt(ws, 1, 1) == Null {
      ws := PutRow(ws, MaxRow(ws) + 1, names);
    }
    var index := FirstOccurrenceIndex(HeaderTexts(ws), NormText);
    var cId, cSocio, cRes;
    ws, index, cId := EnsureColumn(ws, index, names.id);
    ws, index, cSocio := EnsureColumn(ws, index, names.socio);
    ws, index, cRes := EnsureColumn(ws, index, names.res);
    cols := CustomerCols(cId, cSocio, cRes);
  }

  /** The row search and the writes. */
  method RecordCustomer(ws0: Sheet, cols: CustomerCols, cid: string, socio: string, res: string) returns (ws: Sheet)
    requires cols.id >= 1 && cols.socio >= 1 && cols.res >= 1
    ensures ws == Record(ws0, cols, cid, socio, res)
  {
    ws := ws0;
    var found := ScanCustomer(RowIds(ws, cols.id), cid, MaxRow(ws) - 1);
    var target := if found.Some? then found.value else MaxRow(ws) + 1;
    if found.None? {
      ws := SetCell(ws, target, cols.id, Str(cid));
    }
    if socio != "" {
      ws := SetCell(ws, target, cols.socio, Str(socio));
    }
    if res != "" {
      ws := SetCell(ws, target, cols.res, Str(res));
    }
  }

  /** `_upsert_customer_minimal` on the customer sheet. */
  method UpsertOnSheet(ws0: Sheet, names: CustomerNames, customerId: string, socio: string, res: string)
    returns (out: Option<Sheet>)
    ensures out == UpsertSheet(ws0, names, customerId, socio, res)
  {
    var ws, cols := PrepareSheet(ws0, names);
    var cid := IdKey(Str(customerId));
    if cid == "" {
      return None;
    }
    ws := RecordCustomer(ws, cols, cid, socio, res);
    return Some(ws);
  }

  /** `_upsert_customer_minimal`: open or create the workbook, upsert, save. */
  method UpsertCustomerMinimal(file: Option<Workbook>, names: CustomerNames, customerId: string, socio: string, res: string)
    returns (saved: Option<Workbook>)
    ensures saved == Upsert(file, names, customerId, socio, res)
  {
    var wb := if file.None? then NewWorkbook else file.value;
    var p := GetOrCreateSheet(wb, CustomerSheet);
    var out := UpsertOnSheet(p.wb[p.index].sheet, names, customerId, socio, res);
    if out.None? {
      return None;
    }
    return Some(p.wb[p.index := NamedSheet(CustomerSheet, out.value)]);
  }
}
