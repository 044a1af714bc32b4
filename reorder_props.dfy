/**
 * What `reorder_datos_completos_by_template` promises, proved about its model: the shape
 * of the header row read from a sheet, which template headers survive, which source
 * columns come along as extras, which source column each output column reads, and where
 * the reordered sheet ends up.
 */
module ReorderProperties {
  import opened Wrappers
  import opened Text
  import opened Sheets
  import opened ReorderKey
  import opened Reorder

  // ---- `_sheet_headers` ----

  /**
   * The header row is the stripped row-1 values up to the last non-empty one: never longer
   * than `max_column`, nothing but empty headers after it, and never ending in `""`.
   */
  lemma SheetHeadersShape(ws: Sheet)
    ensures var h := SheetHeadersOf(ws);
      |h| <= MaxColumn(ws) &&
      (forall c :: 1 <= c <= |h| ==> h[c - 1] == HeaderText(CellAt(ws, 1, c))) &&
      (forall c :: |h| < c <= MaxColumn(ws) ==> HeaderText(CellAt(ws, 1, c)) == "") &&
      (h == [] || h[|h| - 1] != "")
  {
    var raw := RawHeaders(ws);
    var h := SheetHeadersOf(ws);
    TrimmedFrom(raw, h);
    forall c | 1 <= c <= MaxColumn(ws)
      ensures raw[c - 1] == HeaderText(CellAt(ws, 1, c))
    {
    }
  }

  /** Trimming in terms of indices: a prefix, nothing but empty headers after it, no empty one last. */
  lemma TrimmedFrom(raw: seq<string>, h: seq<string>)
    requires h == TrimTrailingEmpty(raw)
    ensures |h| <= |raw| && (forall j :: 0 <= j < |h| ==> h[j] == raw[j])
    ensures forall j :: |h| <= j < |raw| ==> raw[j] == ""
    ensures h == [] || h[|h| - 1] != ""
  {
    TrimTrailingEmptyShape(raw);
    assert forall j :: 0 <= j < |h| ==> h[j] == raw[..|h|][j];
  }

  // ---- template headers ----

  /** `[h for h in hs if h]` is empty exactly when every header is empty. */
  lemma {:induction false} NonEmptyNone(hs: seq<string>)
    ensures NonEmpty(hs) == [] <==> forall j :: 0 <= j < |hs| ==> hs[j] == ""
  {
    if hs != [] {
      NonEmptyNone(hs[1..]);
      assert forall j :: 1 <= j < |hs| ==> hs[j] == hs[1..][j - 1];
    }
  }

  /** The empty-template check: no non-empty header in columns `1 .. max_column` of row 1. */
  lemma NoTemplateHeadersIff(t: Sheet)
    ensures NonEmpty(SheetHeadersOf(t)) == [] <==>
      forall c :: 1 <= c <= MaxColumn(t) ==> HeaderText(CellAt(t, 1, c)) == ""
  {
    var h := SheetHeadersOf(t);
    SheetHeadersShape(t);
    NonEmptyNone(h);
    if NonEmpty(h) == [] {
      assert h == [];
    } else {
      assert h[|h| - 1] != "";
      assert HeaderText(CellAt(t, 1, |h|)) != "";
    }
  }

  /** `NonEmpty` keeps exactly the non-empty headers. */
  lemma {:induction false} NonEmptyMembers(hs: seq<string>, x: string)
    ensures x in NonEmpty(hs) <==> x in hs && x != ""
  {
    if hs != [] {
      NonEmptyMembers(hs[1..], x);
      assert hs == [hs[0]] + hs[1..];
    }
  }

  /** `NotExcluded` keeps exactly the headers whose key is not excluded. */
  lemma {:induction false} NotExcludedMembers(hs: seq<string>, excluded: set<string>, key: string -> string, x: string)
    ensures x in NotExcluded(hs, excluded, key) <==> x in hs && key(x) !in excluded
  {
    if hs != [] {
      NotExcludedMembers(hs[1..], excluded, key, x);
      assert hs == [hs[0]] + hs[1..];
    }
  }

  /** A template header is kept iff it is a non-empty row-1 header whose key is not excluded. */
  lemma TemplateHeadersMembers(t: Sheet, excluded: set<string>, x: string)
    ensures x in TemplateHeaders(t, excluded) <==> x in SheetHeadersOf(t) && x != "" && NormKey(x) !in excluded
  {
    NotExcludedMembers(NonEmpty(SheetHeadersOf(t)), excluded, NormKey, x);
    NonEmptyMembers(SheetHeadersOf(t), x);
  }

  // ---- extras ----

  /** The empty header has the empty key. */
  lemma EmptyKey()
    ensures NormKey("") == ""
  {
    NormKeyBlank("");
  }

  /** Each of `e` is a header of `src` that qualifies. */
  predicate AllQualify(e: seq<string>, src: seq<string>, excluded: set<string>, covered: set<string>,
                       key: string -> string)
  {
    forall i :: 0 <= i < |e| ==> e[i] in src && Qualifies(e[i], excluded, covered, key)
  }

  /** No two of `e` share a key. */
  predicate KeysDistinct(e: seq<string>, key: string -> string)
  {
    forall i, j :: 0 <= i < j < |e| ==> key(e[i]) != key(e[j])
  }

  /** Every qualifying header of `src` has its key among those of `e`. */
  predicate CoversQualifying(e: seq<string>, src: seq<string>, excluded: set<string>, covered: set<string>,
                             key: string -> string)
  {
    forall h :: h in src && Qualifies(h, excluded, covered, key) ==> key(h) in KeySet(e, key)
  }

  /** Each of `e` is the first header of `src` with its key. */
  predicate FirstOfTheirKeys(e: seq<string>, src: seq<string>, key: string -> string)
  {
    forall i :: 0 <= i < |e| ==>
      FirstPos(src, key, key(e[i])).Some? && src[FirstPos(src, key, key(e[i])).value - 1] == e[i]
  }

  /** Every extra is a source header the template does not cover and the caller did not exclude. */
  lemma {:induction false} ExtrasQualify(src: seq<string>, excluded: set<string>, covered: set<string>,
                                         key: string -> string)
    ensures AllQualify(ExtrasOf(src, excluded, covered, key), src, excluded, covered, key)
  {
    if src != [] {
      var init := src[..|src| - 1];
      ExtrasQualify(init, excluded, covered, key);
      assert src == init + [src[|src| - 1]];
    }
  }

  /** No two extras share a key. */
  lemma {:induction false} ExtrasDistinct(src: seq<string>, excluded: set<string>, covered: set<string>,
                                          key: string -> string)
    ensures KeysDistinct(ExtrasOf(src, excluded, covered, key), key)
  {
    if src != [] {
      var init := src[..|src| - 1];
      var prev := ExtrasOf(init, excluded, covered, key);
      ExtrasDistinct(init, excluded, covered, key);
      var e := ExtrasOf(src, excluded, covered, key);
      if e != prev {
        var last := src[|src| - 1];
        assert e == prev + [last] && key(last) !in KeySet(prev, key);
        assert forall i :: 0 <= i < |prev| ==> key(prev[i]) in KeySet(prev, key);
        forall i, j | 0 <= i < j < |e|
          ensures key(e[i]) != key(e[j])
        {
          if j == |prev| {
            assert e[i] == prev[i] && e[j] == last;
            assert prev[i] in prev;
            assert key(prev[i]) in KeySet(prev, key);
          } else {
            assert e[i] == prev[i] && e[j] == prev[j];
          }
        }
      }
    }
  }

  /** Every qualifying source header has its key among the extras'. */
  lemma {:induction false} ExtrasComplete(src: seq<string>, excluded: set<string>, covered: set<string>,
                                          key: string -> string)
    ensures CoversQualifying(ExtrasOf(src, excluded, covered, key), src, excluded, covered, key)
  {
    if src != [] {
      var init := src[..|src| - 1];
      var last := src[|src| - 1];
      var prev := ExtrasOf(init, excluded, covered, key);
      var e := ExtrasOf(src, excluded, covered, key);
      ExtrasComplete(init, excluded, covered, key);
      assert src == init + [last];
      assert KeySet(prev, key) <= KeySet(e, key);
      forall h | h in src && Qualifies(h, excluded, covered, key)
        ensures key(h) in KeySet(e, key)
      {
        if h !in init && key(h) !in KeySet(prev, key) {
          assert h == last && e == prev + [h];
        }
      }
    }
  }

  /** The position of the first header with key `k`, as the headers grow by one at the end. */
  lemma FirstPosSnoc(hs: seq<string>, norm: string -> string, k: string)
    requires hs != []
    ensures var init := hs[..|hs| - 1];
      FirstPos(hs, norm, k) ==
        (if FirstPos(init, norm, k).Some? then FirstPos(init, norm, k)
         else if norm(hs[|hs| - 1]) == k then Some(|hs|) else None)
  {
    var init := hs[..|hs| - 1];
    assert forall j :: 0 <= j < |init| ==> init[j] == hs[j];
    var p := FirstPos(hs, norm, k);
    var q := FirstPos(init, norm, k);
    if q.Some? {
      assert p.Some? && p.value <= q.value;
    } else if p.Some? {
      assert p.value == |hs|;
    }
  }

  /**
   * Of the source headers sharing a key, the extra is the first one (source order, first
   * wins), for a key that sends the empty header to the empty key.
   */
  lemma {:induction false} ExtrasFirstOfKey(src: seq<string>, excluded: set<string>, covered: set<string>,
                                            key: string -> string)
    requires key("") == ""
    ensures FirstOfTheirKeys(ExtrasOf(src, excluded, covered, key), src, key)
  {
    if src != [] {
      var init := src[..|src| - 1];
      var last := src[|src| - 1];
      var prev := ExtrasOf(init, excluded, covered, key);
      var e := ExtrasOf(src, excluded, covered, key);
      ExtrasFirstOfKey(init, excluded, covered, key);
      if e != prev {
        assert e == prev + [last] && Qualifies(last, excluded, covered, key) && key(last) !in KeySet(prev, key);
        var k := key(last);
        if FirstPos(init, key, k).Some? {
          var h := init[FirstPos(init, key, k).value - 1];
          assert Qualifies(h, excluded, covered, key);
          ExtrasComplete(init, excluded, covered, key);
          assert false;
        }
        FirstPosSnoc(src, key, k);
      }
      forall i | 0 <= i < |e|
        ensures FirstPos(src, key, key(e[i])).Some? && src[FirstPos(src, key, key(e[i])).value - 1] == e[i]
      {
        if i < |prev| {
          assert e[i] == prev[i];
          FirstPosSnoc(src, key, key(prev[i]));
          var p := FirstPos(init, key, key(prev[i])).value;
          assert src[p - 1] == init[p - 1];
        }
      }
    }
  }

  // ---- the output headers ----

  /** The output headers of a template row and a source row, for a given key. */
  function OutOf(tplRow: seq<string>, srcRow: seq<string>, excluded: set<string>, alias: map<string, string>,
                 keepExtra: bool, key: string -> string): seq<string>
  {
    var tplHeaders := NotExcluded(NonEmpty(tplRow), excluded, key);
    var covered := CoveredOf(Keys(tplHeaders, key), alias);
    tplHeaders + (if keepExtra then ExtrasOf(srcRow, excluded, covered, key) else [])
  }

  /** The model's output headers are `OutOf` with `NormKey`. */
  lemma OutHeadersAreOutOf(t: Sheet, src: Sheet, opts: ReorderOptions)
    ensures OutHeaders(t, src, opts) ==
      OutOf(SheetHeadersOf(t), SheetHeadersOf(src), ExcludedKeys(opts.exclude), AliasOf(AliasPairs), opts.keepExtra, NormKey)
  {
  }

  /** No output column is empty-named, and none has an excluded key. */
  lemma OutOfNotExcluded(tplRow: seq<string>, srcRow: seq<string>, excluded: set<string>,
                         alias: map<string, string>, keepExtra: bool, key: string -> string)
    ensures forall h :: h in OutOf(tplRow, srcRow, excluded, alias, keepExtra, key) ==> h != "" && key(h) !in excluded
  {
    var tplHeaders := NotExcluded(NonEmpty(tplRow), excluded, key);
    var covered := CoveredOf(Keys(tplHeaders, key), alias);
    ExtrasQualify(srcRow, excluded, covered, key);
    var e := if keepExtra then ExtrasOf(srcRow, excluded, covered, key) else [];
    assert OutOf(tplRow, srcRow, excluded, alias, keepExtra, key) == tplHeaders + e;
    forall h | h in tplHeaders + e
      ensures h != "" && key(h) !in excluded
    {
      if h in tplHeaders {
        NotExcludedMembers(NonEmpty(tplRow), excluded, key, h);
        NonEmptyMembers(tplRow, h);
      } else {
        var j :| 0 <= j < |e| && e[j] == h;
        assert Qualifies(e[j], excluded, covered, key);
      }
    }
  }

  /** No column of the reordered sheet is empty-named or has an excluded key. */
  lemma OutHeadersNotExcluded(t: Sheet, src: Sheet, opts: ReorderOptions)
    ensures forall h :: h in OutHeaders(t, src, opts) ==> h != "" && NormKey(h) !in ExcludedKeys(opts.exclude)
  {
    OutHeadersAreOutOf(t, src, opts);
    OutOfNotExcluded(SheetHeadersOf(t), SheetHeadersOf(src), ExcludedKeys(opts.exclude), AliasOf(AliasPairs),
                     opts.keepExtra, NormKey);
  }

  /**
   * An extra never duplicates a template column: its key is neither a template key nor
   * what a template key aliases to.
   */
  lemma ExtrasNotCovered(tplHeaders: seq<string>, srcRow: seq<string>, excluded: set<string>,
                         alias: map<string, string>, key: string -> string)
    ensures var e := ExtrasOf(srcRow, excluded, CoveredOf(Keys(tplHeaders, key), alias), key);
      forall x, h :: x in e && h in tplHeaders ==>
        key(x) != key(h) && (key(h) != "" ==> key(x) != Resolve(alias, key(h)))
  {
    var keys := Keys(tplHeaders, key);
    var covered := CoveredOf(keys, alias);
    ExtrasQualify(srcRow, excluded, covered, key);
    var e := ExtrasOf(srcRow, excluded, covered, key);
    forall x, h | x in e && h in tplHeaders
      ensures key(x) != key(h) && (key(h) != "" ==> key(x) != Resolve(alias, key(h)))
    {
      var i :| 0 <= i < |tplHeaders| && tplHeaders[i] == h;
      var j :| 0 <= j < |e| && e[j] == x;
      assert Qualifies(e[j], excluded, covered, key);
      assert keys[i] == key(h);
      if key(h) != "" {
        CoveredIsTemplateOrAlias(keys, alias, key(h));
        CoveredIsTemplateOrAlias(keys, alias, Resolve(alias, key(h)));
      }
    }
  }

  /**
   * The extras of the reordered sheet, when kept, are exactly the qualifying source
   * headers: each qualifies, no two share a key, every qualifying key is represented, and
   * by the first source header that has it.
   */
  lemma ExtraHeadersSpec(t: Sheet, src: Sheet, opts: ReorderOptions)
    requires opts.keepExtra
    ensures AllQualify(ExtraHeaders(t, src, opts), SheetHeadersOf(src), ExcludedKeys(opts.exclude), Covered(t, opts), NormKey)
    ensures KeysDistinct(ExtraHeaders(t, src, opts), NormKey)
    ensures CoversQualifying(ExtraHeaders(t, src, opts), SheetHeadersOf(src), ExcludedKeys(opts.exclude), Covered(t, opts), NormKey)
    ensures FirstOfTheirKeys(ExtraHeaders(t, src, opts), SheetHeadersOf(src), NormKey)
  {
    var srcHeaders := SheetHeadersOf(src);
    var excluded := ExcludedKeys(opts.exclude);
    var covered := Covered(t, opts);
    ExtrasQualify(srcHeaders, excluded, covered, NormKey);
    ExtrasDistinct(srcHeaders, excluded, covered, NormKey);
    ExtrasComplete(srcHeaders, excluded, covered, NormKey);
    EmptyKey();
    ExtrasFirstOfKey(srcHeaders, excluded, covered, NormKey);
  }

  /** No extra of the reordered sheet repeats a template column's key or its alias target. */
  lemma ExtraHeadersNotCovered(t: Sheet, src: Sheet, opts: ReorderOptions)
    ensures forall x, h :: x in ExtraHeaders(t, src, opts) && h in TemplateHeaders(t, ExcludedKeys(opts.exclude)) ==>
      NormKey(x) != NormKey(h) && (NormKey(h) != "" ==> NormKey(x) != Resolve(AliasOf(AliasPairs), NormKey(h)))
  {
    ExtrasNotCovered(TemplateHeaders(t, ExcludedKeys(opts.exclude)), SheetHeadersOf(src), ExcludedKeys(opts.exclude),
                     AliasOf(AliasPairs), NormKey);
  }

  // ---- which source column each output column reads ----

  /**
   * An output header reads the first source column whose key is its own key through the
   * alias table, and no column (an empty one) when there is none or the key is empty.
   */
  lemma SourceColFirstMatch(h: string, alias: map<string, string>, srcHeaders: seq<string>)
    ensures var k := Resolve(alias, NormKey(h));
      var col := SourceCol(h, alias, FirstIndexOf(srcHeaders, NormKey));
      (col.Some? <==> k != "" && exists j :: 0 <= j < |srcHeaders| && NormKey(srcHeaders[j]) == k) &&
      (col.Some? ==> 1 <= col.value <= |srcHeaders| && NormKey(srcHeaders[col.value - 1]) == k &&
                     forall j :: 0 <= j < col.value - 1 ==> NormKey(srcHeaders[j]) != k)
  {
    var k := Resolve(alias, NormKey(h));
    FirstIndexOfFirstWins(srcHeaders, NormKey, k);
  }

  /** A column with no source is `""` in every copied row; one with a source copies it row by row. */
  lemma BodyColumns(ws: Sheet, cols: seq<Option<nat>>, i: nat)
    requires i < |cols|
    ensures var body := BodyRows(ws, cols);
      (cols[i].None? ==> forall j :: 0 <= j < |body| ==> body[j][i] == Str("")) &&
      (cols[i].Some? ==> forall j :: 0 <= j < |body| ==> body[j][i] == CellAt(ws, j + 2, cols[i].value))
  {
  }

  // ---- the sheet swap ----

  /**
   * The reordered sheet takes the original's place: with any old `"<name> (Ordenado)"`
   * sheet removed, the workbook is the same list with the original's entry replaced.
   */
  lemma SwapInPlace(wb: Workbook, name: string, sh: Sheet)
    requires IndexOf(wb, name).Some?
    ensures var rest := RemoveSheet(wb, NewTitle(name));
      IndexOf(rest, name).Some? && rest[IndexOf(rest, name).value] == wb[IndexOf(wb, name).value] &&
      SwapIn(wb, name, sh) == rest[IndexOf(rest, name).value := NamedSheet(name, sh)]
  {
    var t := NewTitle(name);
    assert t != name by { assert |t| > |name|; }
    RemoveKeepsOthers(wb, t, name);
    var rest := RemoveSheet(wb, t);
    var i := IndexOf(rest, name).value;
    var wb1 := rest + [NamedSheet(t, sh)];
    IndexOfFirst(wb1, name, i);
    var others := rest[..i] + rest[i + 1..];
    assert RemoveSheet(wb1, name) == others + [NamedSheet(t, sh)] by {
      assert wb1[..i] == rest[..i];
      assert wb1[i + 1..] == rest[i + 1..] + [NamedSheet(t, sh)];
    }
    assert SwapIn(wb, name, sh) == others[..i] + [NamedSheet(name, sh)] + others[i..] by {
      assert (others + [NamedSheet(t, sh)])[..|others|] == others;
    }
    PutBack(rest, i, NamedSheet(name, sh), others);
  }

  /** Taking out entry `i` and putting `x` back at `i` replaces that entry. */
  lemma PutBack(rest: Workbook, i: nat, x: NamedSheet, others: Workbook)
    requires i < |rest| && others == rest[..i] + rest[i + 1..]
    ensures others[..i] + [x] + others[i..] == rest[i := x]
  {
    assert others[..i] == rest[..i];
    assert others[i..] == rest[i + 1..];
  }

  /** With unique sheet names the swap keeps them unique, finds the sheet at its old place, and leaves no "(Ordenado)" copy. */
  lemma SwapInUnique(wb: Workbook, name: string, sh: Sheet)
    requires IndexOf(wb, name).Some? && UniqueNames(wb)
    ensures var rest := RemoveSheet(wb, NewTitle(name));
      var r := SwapIn(wb, name, sh);
      UniqueNames(r) && IndexOf(r, name) == IndexOf(rest, name) && IndexOf(r, NewTitle(name)).None?
  {
    var t := NewTitle(name);
    assert t != name by { assert |t| > |name|; }
    SwapInPlace(wb, name, sh);
    RemoveUnique(wb, t);
    var rest := RemoveSheet(wb, t);
    ReplaceSameName(rest, IndexOf(rest, name).value, NamedSheet(name, sh), t);
  }

  /** Replacing an entry by one of the same name keeps the names and where each is found. */
  lemma ReplaceSameName(rest: Workbook, i: nat, x: NamedSheet, t: string)
    requires UniqueNames(rest) && i < |rest| && rest[i].name == x.name && IndexOf(rest, t).None?
    ensures var r := rest[i := x];
      UniqueNames(r) && IndexOf(r, x.name) == Some(i) && IndexOf(r, t).None?
  {
    var r := rest[i := x];
    assert forall l :: 0 <= l < |r| ==> r[l].name == rest[l].name;
    IndexOfFirst(r, x.name, i);
  }

  // ---- the whole function ----

  /** Which call fails, and how: the checks in the order the function makes them. */
  lemma ReorderErrors(excelExists: bool, templateExists: bool, wb: Workbook, tpl: Workbook, active: Sheet,
                      opts: ReorderOptions)
    ensures var r := ReorderSpec(excelExists, templateExists, wb, tpl, active, opts);
      (r == Err(ExcelNotFound) <==> !excelExists) &&
      (r == Err(TemplateNotFound) <==> excelExists && !templateExists) &&
      (r == Err(MissingSheet(opts.sheet)) <==> excelExists && templateExists && IndexOf(wb, opts.sheet).None?) &&
      (r == Err(MissingTemplateSheet(opts.templateSheet)) <==>
         excelExists && templateExists && IndexOf(wb, opts.sheet).Some? &&
         opts.templateSheet != "" && IndexOf(tpl, opts.templateSheet).None?)
  {
  }

  /**
   * The empty-template error: it is raised exactly when every row-1 value of the template
   * sheet is empty, whatever is excluded (the check comes before the exclusions).
   */
  lemma ReorderNoTemplateHeaders(excelExists: bool, templateExists: bool, wb: Workbook, tpl: Workbook,
                                 active: Sheet, opts: ReorderOptions)
    requires excelExists && templateExists && IndexOf(wb, opts.sheet).Some?
    requires TemplateSheet(tpl, active, opts.templateSheet).Some?
    ensures var t := TemplateSheet(tpl, active, opts.templateSheet).value;
      var r := ReorderSpec(excelExists, templateExists, wb, tpl, active, opts);
      (r == Err(NoTemplateHeaders) <==> forall c :: 1 <= c <= MaxColumn(t) ==> HeaderText(CellAt(t, 1, c)) == "") &&
      (r.Err? <==> r == Err(NoTemplateHeaders))
  {
    NoTemplateHeadersIff(TemplateSheet(tpl, active, opts.templateSheet).value);
  }

  /** A sheet of header row `out` and the rows copied through `cols`. */
  lemma BuiltShape(out: seq<string>, src: Sheet, cols: seq<Option<nat>>)
    requires |cols| == |out|
    ensures var rows := [StrCells(out)] + BodyRows(src, cols);
      |rows| == MaxRow(src) && rows[0] == StrCells(out) &&
      forall j :: 0 <= j < |rows| ==> |rows[j]| == |out|
  {
  }

  /**
   * The reordered sheet: row 1 holds the output headers, then one row per source row
   * `2 .. max_row`, every row exactly `len(out_headers)` cells long.
   */
  lemma NewSheetShape(t: Sheet, src: Sheet, opts: ReorderOptions)
    ensures var sh := NewSheet(t, src, opts);
      var out := OutHeaders(t, src, opts);
      |sh.rows| == MaxRow(src) && sh.rows[0] == StrCells(out) &&
      forall j :: 0 <= j < |sh.rows| ==> |sh.rows[j]| == |out|
  {
    var out := OutHeaders(t, src, opts);
    BuiltShape(out, src, OutCols(out, AliasOf(AliasPairs), FirstIndexOf(SheetHeadersOf(src), NormKey)));
  }

  /**
   * A call that passes the checks succeeds with `rows_copied == max_row - 1` and
   * `len(out_headers)` columns, and leaves the workbook with the reordered sheet under the
   * original name at the original's place, every other sheet kept in order.
   */
  lemma ReorderResult(excelExists: bool, templateExists: bool, wb: Workbook, tpl: Workbook, active: Sheet,
                      opts: ReorderOptions, t: Sheet, src: Sheet)
    requires excelExists && templateExists && IndexOf(wb, opts.sheet).Some?
    requires src == wb[IndexOf(wb, opts.sheet).value].sheet
    requires TemplateSheet(tpl, active, opts.templateSheet) == Some(t) && NonEmpty(SheetHeadersOf(t)) != []
    ensures var r := ReorderSpec(excelExists, templateExists, wb, tpl, active, opts);
      var rest := RemoveSheet(wb, NewTitle(opts.sheet));
      r.Ok? && IndexOf(rest, opts.sheet).Some? &&
      var i := IndexOf(rest, opts.sheet).value;
      rest[i].sheet == src &&
      r.value.rowsCopied == MaxRow(src) - 1 && r.value.outColumns == |OutHeaders(t, src, opts)| &&
      r.value.wb == rest[i := NamedSheet(opts.sheet, NewSheet(t, src, opts))]
  {
    SwapInPlace(wb, opts.sheet, NewSheet(t, src, opts));
  }
}
