/**
 * `reorder_datos_completos_by_template`: rebuilds the "Datos Completos" sheet with the
 * columns in the order (and under the names) of a template's header row, optionally
 * keeping the source columns the template does not cover at the end, and puts the new
 * sheet where the old one was.
 *
 * Loading and saving are left out: the method takes whether each file exists, the loaded
 * workbook, and the template's sheets with its active sheet.
 */
module Reorder {
  import opened Wrappers
  import opened Text
  import opened Sheets
  import opened ReorderKey

  datatype ReorderError =
    | ExcelNotFound                     // `FileNotFoundError` for the workbook
    | TemplateNotFound                  // `FileNotFoundError` for the template
    | MissingSheet(sheet: string)       // `KeyError`: no sheet to reorder
    | MissingTemplateSheet(sheet: string)  // `KeyError`: the template lacks the named sheet
    | NoTemplateHeaders                 // `ValueError`: the template's row 1 is empty

  /** The keyword arguments; `templateSheet == ""` stands for `None` (use the active sheet). */
  datatype ReorderOptions = ReorderOptions(sheet: string, templateSheet: string, keepExtra: bool, exclude: seq<string>)

  const DefaultOptions := ReorderOptions("Datos Completos", "", true, [])

  // ---- `_sheet_headers` ----

  /** A row-1 value as a header: `""` for `None`, else `str(v).strip()`. */
  function HeaderText(c: Cell): string
  {
    if c.Null? then "" else Strip(PyStr(c))
  }

  /** The row-1 headers of columns `1 .. max_column`. */
  function RawHeaders(ws: Sheet): (hs: seq<string>)
    ensures |hs| == MaxColumn(ws)
  {
    seq(MaxColumn(ws), i requires 0 <= i < MaxColumn(ws) => HeaderText(CellAt(ws, 1, i + 1)))
  }

  /** The headers without their trailing empty ones. */
  function TrimTrailingEmpty(hs: seq<string>): (r: seq<string>)
    ensures |r| <= |hs|
  {
    if hs != [] && hs[|hs| - 1] == "" then TrimTrailingEmpty(hs[..|hs| - 1]) else hs
  }

  /** Trimming keeps a prefix, drops only empty headers, and leaves no empty header last. */
  lemma {:induction false} TrimTrailingEmptyShape(hs: seq<string>)
    ensures var r := TrimTrailingEmpty(hs);
      r == hs[..|r|] && (forall j :: |r| <= j < |hs| ==> hs[j] == "") && (r == [] || r[|r| - 1] != "")
  {
    if hs != [] && hs[|hs| - 1] == "" {
      TrimTrailingEmptyShape(hs[..|hs| - 1]);
    }
  }

  function SheetHeadersOf(ws: Sheet): seq<string>
  {
    TrimTrailingEmpty(RawHeaders(ws))
  }

  /** `_sheet_headers`: reads row 1, then pops the trailing empty headers. */
  method SheetHeaders(ws: Sheet) returns (headers: seq<string>)
    ensures headers == SheetHeadersOf(ws)
  {
    ghost var raw := RawHeaders(ws);
    headers := [];
    var c := 1;
    while c <= MaxColumn(ws)
      invariant 1 <= c <= MaxColumn(ws) + 1
      invariant headers == raw[..c - 1]
    {
      var v := CellAt(ws, 1, c);
      if v.Null? {
        headers := headers + [""];
      } else {
        headers := headers + [Strip(PyStr(v))];
      }
      c := c + 1;
    }
    assert headers == raw;
    while headers != [] && headers[|headers| - 1] == ""
      invariant TrimTrailingEmpty(headers) == TrimTrailingEmpty(raw)
      decreases |headers|
    {
      headers := headers[..|headers| - 1];
    }
  }

  // ---- `_build_col_index` ----

  /** `_build_col_index`: normalised header -> 1-based column of its first occurrence. */
  method BuildColIndex(headers: seq<string>) returns (m: map<string, nat>)
    ensures m == FirstIndexOf(headers, NormKey)
  {
    m := FirstOccurrenceIndex(headers, NormKey);
  }

  // ---- template headers, exclusions, aliases ----

  /** `[h for h in hs if h]`. */
  function NonEmpty(hs: seq<string>): (r: seq<string>)
    ensures |r| <= |hs|
  {
    if hs == [] then [] else (if hs[0] != "" then [hs[0]] else []) + NonEmpty(hs[1..])
  }

  /** `{_norm_key(c) for c in exclude_columns if _norm_key(c)}`. */
  function ExcludedKeys(exclude: seq<string>): set<string>
  {
    set c | c in exclude && NormKey(c) != "" :: NormKey(c)
  }

  /** `[h for h in hs if _norm_key(h) not in excluded_keys]`, with `key` for `_norm_key`. */
  function NotExcluded(hs: seq<string>, excluded: set<string>, key: string -> string): (r: seq<string>)
    ensures |r| <= |hs|
  {
    if hs == [] then [] else (if key(hs[0]) !in excluded then [hs[0]] else []) + NotExcluded(hs[1..], excluded, key)
  }

  /** The manual aliases, template header -> source header, before normalisation. */
  const AliasPairs: seq<(string, string)> := [
    ("fecha y hora de actualización", "Actualizado (fecha y hora)"),
    ("actualizacion", "Actualizado (fecha y hora)"),
    ("creado de fecha y hora", "Creado (fecha y hora)"),
    ("socio", "Socio"),
    ("incoming customer", "Incoming Customer"),
    ("id de cliente", "ID Cliente"),
    ("categoria del cierre", "Categoria del Cierre"),
    ("promocion", "Promocion"),
    ("task", "Task")]

  /** The alias dictionary: both sides normalised, a later entry overwriting an earlier one. */
  function AliasOf(pairs: seq<(string, string)>): map<string, string>
  {
    if pairs == [] then map[]
    else AliasOf(pairs[..|pairs| - 1])[NormKey(pairs[|pairs| - 1].0) := NormKey(pairs[|pairs| - 1].1)]
  }

  /** `alias.get(key, key)`. */
  function Resolve(alias: map<string, string>, key: string): string
  {
    if key in alias then alias[key] else key
  }

  /** `[_norm_key(h) for h in hs]`, with `key` for `_norm_key`. */
  function Keys(hs: seq<string>, key: string -> string): (ks: seq<string>)
    ensures |ks| == |hs|
    ensures forall i :: 0 <= i < |hs| ==> ks[i] == key(hs[i])
  {
    seq(|hs|, i requires 0 <= i < |hs| => key(hs[i]))
  }

  /** `covered_source_keys` after the given template keys. */
  function CoveredOf(tplKeys: seq<string>, alias: map<string, string>): set<string>
  {
    if tplKeys == [] then {}
    else
      var k := tplKeys[|tplKeys| - 1];
      CoveredOf(tplKeys[..|tplKeys| - 1], alias) + (if k == "" then {} else {k, Resolve(alias, k)})
  }

  /** A source key is covered iff it is a non-empty template key or what one of them aliases to. */
  lemma {:induction false} CoveredIsTemplateOrAlias(tplKeys: seq<string>, alias: map<string, string>, x: string)
    ensures x in CoveredOf(tplKeys, alias) <==>
      exists i :: 0 <= i < |tplKeys| && tplKeys[i] != "" && (x == tplKeys[i] || x == Resolve(alias, tplKeys[i]))
  {
    if tplKeys != [] {
      var init := tplKeys[..|tplKeys| - 1];
      CoveredIsTemplateOrAlias(init, alias, x);
      assert forall i :: 0 <= i < |init| ==> init[i] == tplKeys[i];
    }
  }

  /**
   * The loop building `covered_source_keys`: it starts from the non-empty template keys
   * and adds what each of them aliases to.
   */
  method CoveredKeys(tplKeys: seq<string>, alias: map<string, string>) returns (covered: set<string>)
    ensures covered == CoveredOf(tplKeys, alias)
  {
    covered := set k | k in tplKeys && k != "";
    ghost var base := covered;
    var i := 0;
    while i < |tplKeys|
      invariant 0 <= i <= |tplKeys|
      invariant covered == base + (set j | 0 <= j < i && tplKeys[j] != "" :: Resolve(alias, tplKeys[j]))
    {
      if tplKeys[i] != "" {
        covered := covered + {Resolve(alias, tplKeys[i])};
      }
      i := i + 1;
    }
    forall x ensures x in covered <==> x in CoveredOf(tplKeys, alias) {
      CoveredIsTemplateOrAlias(tplKeys, alias, x);
    }
  }

  // ---- extras ----

  // The header key is a parameter `key` here (always `NormKey` in the function itself).

  /** A source header the template does not cover and the caller did not exclude. */
  predicate Qualifies(h: string, excluded: set<string>, covered: set<string>, key: string -> string)
  {
    h != "" && key(h) !in excluded && key(h) != "" && key(h) !in covered
  }

  /** The keys of a list of headers, as a set. */
  function KeySet(hs: seq<string>, key: string -> string): set<string>
  {
    set h | h in hs :: key(h)
  }

  /** `extras` after the given source headers: each qualifying header whose key is new. */
  function ExtrasOf(src: seq<string>, excluded: set<string>, covered: set<string>, key: string -> string)
    : (r: seq<string>)
    ensures |r| <= |src|
  {
    if src == [] then []
    else
      var prev := ExtrasOf(src[..|src| - 1], excluded, covered, key);
      var h := src[|src| - 1];
      if Qualifies(h, excluded, covered, key) && key(h) !in KeySet(prev, key) then prev + [h] else prev
  }

  /** The loop collecting `extras` with `seen_extra_keys`. */
  method CollectExtras(src: seq<string>, excluded: set<string>, covered: set<string>, key: string -> string)
    returns (extras: seq<string>)
    ensures extras == ExtrasOf(src, excluded, covered, key)
  {
    extras := [];
    var seen: set<string> := {};
    var i := 0;
    while i < |src|
      invariant 0 <= i <= |src|
      invariant extras == ExtrasOf(src[..i], excluded, covered, key)
      invariant seen == KeySet(extras, key)
    {
      assert src[..i + 1][..i] == src[..i];
      var h := src[i];
      if h != "" {
        var srcKey := key(h);
        if !(srcKey in excluded) && srcKey != "" && srcKey !in covered && srcKey !in seen {
          seen := seen + {srcKey};
          extras := extras + [h];
        }
      }
      i := i + 1;
    }
    assert src[..|src|] == src;
  }

  // ---- the column map and the rows ----

  /** The source column an output header reads: its key, through the alias table, in the source index. */
  function SourceCol(h: string, alias: map<string, string>, srcIndex: map<string, nat>): Option<nat>
  {
    var k := Resolve(alias, NormKey(h));
    if k in srcIndex then Some(srcIndex[k]) else None
  }

  /** `src_cols_for_out` for the given output headers. */
  function OutCols(outHeaders: seq<string>, alias: map<string, string>, srcIndex: map<string, nat>)
    : (cols: seq<Option<nat>>)
    ensures |cols| == |outHeaders|
  {
    seq(|outHeaders|, i requires 0 <= i < |outHeaders| => SourceCol(outHeaders[i], alias, srcIndex))
  }

  /** The loop building `src_cols_for_out`. */
  method MapColumns(outHeaders: seq<string>, alias: map<string, string>, srcIndex: map<string, nat>)
    returns (cols: seq<Option<nat>>)
    ensures cols == OutCols(outHeaders, alias, srcIndex)
  {
    cols := [];
    var i := 0;
    while i < |outHeaders|
      invariant 0 <= i <= |outHeaders| && |cols| == i
      invariant forall j :: 0 <= j < i ==> cols[j] == SourceCol(outHeaders[j], alias, srcIndex)
    {
      var outKey := NormKey(outHeaders[i]);
      var srcKey := Resolve(alias, outKey);
      var srcCol := if srcKey in srcIndex then Some(srcIndex[srcKey]) else None;
      assert srcCol == SourceCol(outHeaders[i], alias, srcIndex);
      cols := cols + [srcCol];
      i := i + 1;
    }
  }

  /** One output cell: `""` without a source column, else the source cell. */
  function OutCell(ws: Sheet, r: int, col: Option<nat>): Cell
  {
    if col.None? then Str("") else CellAt(ws, r, col.value)
  }

  /** The output row for sheet row `r`. */
  function RowCells(ws: Sheet, r: int, cols: seq<Option<nat>>): (row: Row)
    ensures |row| == |cols|
  {
    seq(|cols|, i requires 0 <= i < |cols| => OutCell(ws, r, cols[i]))
  }

  /** The inner loop building `row_out` for sheet row `r`. */
  method CopyRow(ws: Sheet, r: int, cols: seq<Option<nat>>) returns (row: Row)
    ensures row == RowCells(ws, r, cols)
  {
    row := [];
    var i := 0;
    while i < |cols|
      invariant 0 <= i <= |cols| && |row| == i
      invariant forall j :: 0 <= j < i ==> row[j] == OutCell(ws, r, cols[j])
    {
      if cols[i].None? {
        row := row + [Str("")];
      } else {
        row := row + [CellAt(ws, r, cols[i].value)];
      }
      i := i + 1;
    }
  }

  /** The copied rows of the new sheet, row `j` reading sheet row `j + 2`. */
  function BodyRows(ws: Sheet, cols: seq<Option<nat>>): (rows: seq<Row>)
    ensures |rows| == MaxRow(ws) - 1
  {
    seq(MaxRow(ws) - 1, j requires 0 <= j < MaxRow(ws) - 1 => RowCells(ws, j + 2, cols))
  }

  /** The outer loop over rows `2 .. max_row`, counting `rows_copied`. */
  method CopyRows(ws: Sheet, cols: seq<Option<nat>>) returns (rows: seq<Row>, copied: nat)
    ensures copied == MaxRow(ws) - 1
    ensures rows == BodyRows(ws, cols)
  {
    rows := [];
    copied := 0;
    var r := 2;
    while r <= MaxRow(ws)
      invariant 2 <= r <= MaxRow(ws) + 1
      invariant copied == r - 2 && |rows| == copied
      invariant forall j :: 0 <= j < |rows| ==> rows[j] == RowCells(ws, j + 2, cols)
    {
      var rowOut := CopyRow(ws, r, cols);
      rows := rows + [rowOut];
      copied := copied + 1;
      r := r + 1;
    }
  }

  // ---- the sheet swap ----

  function NewTitle(name: string): string
  {
    name + " (Ordenado)"
  }

  /**
   * The new sheet's way into the workbook: an old `"<name> (Ordenado)"` sheet is removed
   * and the new one created last; the position of the original is taken, the original
   * removed, and the new sheet, renamed to the original's name, moved to that position.
   */
  function SwapIn(wb: Workbook, name: string, sh: Sheet): (r: Workbook)
    requires IndexOf(wb, name).Some?
  {
    var t := NewTitle(name);
    assert t != name by { assert |t| > |name|; }
    RemoveKeepsOthers(wb, t, name);
    var wb1 := RemoveSheet(wb, t) + [NamedSheet(t, sh)];
    IndexOfFirst(wb1, name, IndexOf(RemoveSheet(wb, t), name).value);
    var idx := IndexOf(wb1, name).value;
    var wb2 := RemoveSheet(wb1, name);
    var others := wb2[..|wb2| - 1];
    others[..idx] + [NamedSheet(name, sh)] + others[idx..]
  }

  // ---- the whole function ----

  /** What a successful call leaves: the workbook to be saved, `rows_copied` and the column count. */
  datatype ReorderOutcome = ReorderOutcome(wb: Workbook, rowsCopied: nat, outColumns: nat)

  /** The template's sheet: the named one, or the active one when no name is given. */
  function TemplateSheet(tpl: Workbook, active: Sheet, name: string): Option<Sheet>
  {
    if name == "" then Some(active)
    else if IndexOf(tpl, name).Some? then Some(tpl[IndexOf(tpl, name).value].sheet)
    else None
  }

  /** The template headers kept: the non-empty ones whose key is not excluded. */
  function TemplateHeaders(tplSheet: Sheet, excluded: set<string>): seq<string>
  {
    NotExcluded(NonEmpty(SheetHeadersOf(tplSheet)), excluded, NormKey)
  }

  /** `covered_source_keys` of a template sheet. */
  function Covered(tplSheet: Sheet, opts: ReorderOptions): set<string>
  {
    CoveredOf(Keys(TemplateHeaders(tplSheet, ExcludedKeys(opts.exclude)), NormKey), AliasOf(AliasPairs))
  }

  /** The extras, when they are kept. */
  function ExtraHeaders(tplSheet: Sheet, src: Sheet, opts: ReorderOptions): seq<string>
  {
    if opts.keepExtra then ExtrasOf(SheetHeadersOf(src), ExcludedKeys(opts.exclude), Covered(tplSheet, opts), NormKey)
    else []
  }

  /** The output headers: the template headers left after the exclusions, then the extras. */
  function OutHeaders(tplSheet: Sheet, src: Sheet, opts: ReorderOptions): seq<string>
  {
    TemplateHeaders(tplSheet, ExcludedKeys(opts.exclude)) + ExtraHeaders(tplSheet, src, opts)
  }

  /** The reordered sheet: the output headers, then the copied rows. */
  function NewSheet(tplSheet: Sheet, src: Sheet, opts: ReorderOptions): Sheet
  {
    var outHeaders := OutHeaders(tplSheet, src, opts);
    var cols := OutCols(outHeaders, AliasOf(AliasPairs), FirstIndexOf(SheetHeadersOf(src), NormKey));
    Sheet([StrCells(outHeaders)] + BodyRows(src, cols))
  }

  /** `reorder_datos_completos_by_template(...)` on the loaded workbook and template. */
  function ReorderSpec(excelExists: bool, templateExists: bool, wb: Workbook, tpl: Workbook, active: Sheet,
                       opts: ReorderOptions): Result<ReorderOutcome, ReorderError>
  {
    if !excelExists then Err(ExcelNotFound)
    else if !templateExists then Err(TemplateNotFound)
    else if IndexOf(wb, opts.sheet).None? then Err(MissingSheet(opts.sheet))
    else
      var tplSheet := TemplateSheet(tpl, active, opts.templateSheet);
      if tplSheet.None? then Err(MissingTemplateSheet(opts.templateSheet))
      else if NonEmpty(SheetHeadersOf(tplSheet.value)) == [] then Err(NoTemplateHeaders)
      else
        var src := wb[IndexOf(wb, opts.sheet).value].sheet;
        Ok(ReorderOutcome(SwapIn(wb, opts.sheet, NewSheet(tplSheet.value, src, opts)), MaxRow(src) - 1,
                          |OutHeaders(tplSheet.value, src, opts)|))
  }

  /** With nothing excluded the exclusion filter keeps every header (`if excluded_keys:`). */
  lemma {:induction false} NotExcludedNothing(hs: seq<string>, key: string -> string)
    ensures NotExcluded(hs, {}, key) == hs
  {
    if hs != [] {
      NotExcludedNothing(hs[1..], key);
    }
  }

  /** Lines 109-172: the output headers and the column map of a sheet and its template. */
  method Columns(tplRow: seq<string>, src: Sheet, opts: ReorderOptions, ghost tplSheet: Sheet)
    returns (outHeaders: seq<string>, cols: seq<Option<nat>>)
    requires tplRow == SheetHeadersOf(tplSheet)
    ensures outHeaders == OutHeaders(tplSheet, src, opts)
    ensures cols == OutCols(outHeaders, AliasOf(AliasPairs), FirstIndexOf(SheetHeadersOf(src), NormKey))
  {
    var tplHeaders := NonEmpty(tplRow);
    var excluded := ExcludedKeys(opts.exclude);
    if excluded != {} {
      tplHeaders := NotExcluded(tplHeaders, excluded, NormKey);
    } else {
      NotExcludedNothing(tplHeaders, NormKey);
    }
    var srcHeaders := SheetHeaders(src);
    var srcIndex := BuildColIndex(srcHeaders);
    var alias := AliasOf(AliasPairs);
    var covered := CoveredKeys(Keys(tplHeaders, NormKey), alias);
    var extras: seq<string> := [];
    if opts.keepExtra {
      extras := CollectExtras(srcHeaders, excluded, covered, NormKey);
    }
    outHeaders := tplHeaders + extras;
    cols := MapColumns(outHeaders, alias, srcIndex);
  }

  /** `reorder_datos_completos_by_template`, step by step. */
  method Reorder(excelExists: bool, templateExists: bool, wb: Workbook, tpl: Workbook, active: Sheet,
                 opts: ReorderOptions) returns (r: Result<ReorderOutcome, ReorderError>)
    ensures r == ReorderSpec(excelExists, templateExists, wb, tpl, active, opts)
  {
    if !excelExists {
      return Err(ExcelNotFound);
    }
    if !templateExists {
      return Err(TemplateNotFound);
    }
    var si := IndexOf(wb, opts.sheet);
    if si.None? {
      return Err(MissingSheet(opts.sheet));
    }
    var src := wb[si.value].sheet;
    var tplSheet: Sheet;
    if opts.templateSheet != "" {
      var ti := IndexOf(tpl, opts.templateSheet);
      if ti.None? {
        return Err(MissingTemplateSheet(opts.templateSheet));
      }
      tplSheet := tpl[ti.value].sheet;
    } else {
      tplSheet := active;
    }
    var tplRow := SheetHeaders(tplSheet);
    if NonEmpty(tplRow) == [] {
      return Err(NoTemplateHeaders);
    }
    var outHeaders, cols := Columns(tplRow, src, opts, tplSheet);
    var rows, copied := CopyRows(src, cols);
    var sh := Sheet([StrCells(outHeaders)] + rows);
    r := Ok(ReorderOutcome(SwapIn(wb, opts.sheet, sh), copied, |outHeaders|));
  }
}
