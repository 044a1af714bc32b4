/**
 * `_read_missing_ids`: the customer identifiers of the rows of "Datos no Encontrados"
 * (the tickets the merge could not join), each once, in the order they first appear.
 * A row's identifier is chosen with the merge's priority: the Reporter ID when the
 * reporter type is `customer`, else the ID Cliente, else the Reporter ID.
 *
 * Loading the workbook is left out: the function is given the workbook.
 */
module MissingIds {
  import opened Wrappers
  import opened Text
  import opened Sheets
  import opened IdKeys
  import Merge

  const NotFoundSheet := "Datos no Encontrados"

  /**
   * The `KeyError`s of the function, and the `AttributeError` that `_norm_text` raises
   * when a Reporter type cell holds a truthy value that is not text (`.strip()` on an
   * int or a boolean).
   */
  datatype MissingError = NoSheet | NoIdColumn | TypeNotText(row: nat)

  /** `_norm_text(v)` on a raw cell value: `(v or "")` must be text. */
  function NormCell(c: Cell): (r: Result<string, ()>)
    ensures r.Err? <==> Truthy(c) && !c.Str?
    ensures c.Str? ==> r == Ok(NormText(c.s))
    ensures !Truthy(c) ==> r == Ok("")
  {
    if c.Str? then Ok(NormText(c.s))
    else if Truthy(c) then Err(())
    else Ok("")
  }

  /** `_col(name)`: the column whose normalised header is the normalised name. */
  function Col(index: map<string, nat>, name: string): Option<nat>
  {
    var k := NormText(name);
    if k in index then Some(index[k]) else None
  }

  /** The headers of the three columns the function reads. */
  datatype IdNames = IdNames(reporter: string, rtype: string, cliente: string)

  const DefaultIdNames := IdNames("Reporter ID", "Reporter type", "ID Cliente")

  /** The three columns the function reads. */
  datatype IdCols = IdCols(reporter: Option<nat>, rtype: Option<nat>, cliente: Option<nat>)

  function ColsOf(ws: Sheet, names: IdNames): IdCols
  {
    var index := FirstIndexOf(HeaderTexts(ws), NormText);
    IdCols(Col(index, names.reporter), Col(index, names.rtype), Col(index, names.cliente))
  }

  /** The identifier of row `r`, or the error reading its reporter type raises. */
  function RowKey(ws: Sheet, cols: IdCols, r: int): (res: Result<string, MissingError>)
    ensures res.Err? ==> res == Err(TypeNotText(if r < 0 then 0 else r))
    ensures res.Err? <==> cols.rtype.Some? && NormCell(CellAt(ws, r, cols.rtype.value)).Err?
  {
    var reporter := if cols.reporter.Some? then IdKey(CellAt(ws, r, cols.reporter.value)) else "";
    var rtype := if cols.rtype.Some? then NormCell(CellAt(ws, r, cols.rtype.value)) else Ok("");
    var cliente := if cols.cliente.Some? then IdKey(CellAt(ws, r, cols.cliente.value)) else "";
    if rtype.Err? then Err(TypeNotText(if r < 0 then 0 else r))
    else Ok(Merge.ChooseJoinKey(rtype.value, reporter, cliente).key)
  }

  /** Row number -> that row's identifier, or the error reading it raises. */
  function RowKeys(ws: Sheet, cols: IdCols): int -> Result<string, MissingError>
  {
    r => RowKey(ws, cols, r)
  }

  /** The identifiers of rows `2 .. n + 1`, or the error of the first row that raises. */
  function Keys(rowKey: int -> Result<string, MissingError>, n: nat): (res: Result<seq<string>, MissingError>)
    ensures res.Ok? ==> |res.value| == n
    ensures res.Ok? ==> forall i :: 0 <= i < n ==> rowKey(i + 2) == Ok(res.value[i])
  {
    if n == 0 then Ok([])
    else
      var prev := Keys(rowKey, n - 1);
      if prev.Err? then prev
      else
        var k := rowKey(n + 1);
        if k.Err? then Err(k.error) else Ok(prev.value + [k.value])
  }

  /** The non-empty keys, each at its first occurrence. */
  function Dedup(keys: seq<string>): (ids: seq<string>)
    ensures |ids| <= |keys|
  {
    if keys == [] then []
    else
      var prev := Dedup(keys[..|keys| - 1]);
      var k := keys[|keys| - 1];
      if k == "" || k in prev then prev else prev + [k]
  }

  /**
   * What `_read_missing_ids` returns, or the error it raises; the source calls it with
   * `DefaultIdNames`.
   */
  function MissingIdsOf(wb: Workbook, names: IdNames): (res: Result<seq<string>, MissingError>)
  {
    var ws := Merge.SheetNamed(wb, NotFoundSheet);
    if ws.None? then Err(NoSheet) else FromSheet(ws.value, names)
  }

  /** The function once the sheet is found. */
  function FromSheet(ws: Sheet, names: IdNames): (res: Result<seq<string>, MissingError>)
  {
    var cols := ColsOf(ws, names);
    if cols.reporter.None? && cols.cliente.None? then Err(NoIdColumn)
    else Collected(RowKeys(ws, cols), DataRows(ws))
  }

  /** `_read_missing_ids`. */
  method ReadMissingIds(wb: Workbook, names: IdNames) returns (res: Result<seq<string>, MissingError>)
    ensures res == MissingIdsOf(wb, names)
  {
    var sh := Merge.SheetNamed(wb, NotFoundSheet);
    if sh.None? {
      return Err(NoSheet);
    }
    var ws := sh.value;
    var headers := HeaderTexts(ws);
    var index := FirstOccurrenceIndex(headers, NormText);
    var cols := IdCols(Col(index, names.reporter), Col(index, names.rtype), Col(index, names.cliente));
    assert cols == ColsOf(ws, names);
    assert MissingIdsOf(wb, names) == FromSheet(ws, names);
    if cols.reporter.None? && cols.cliente.None? {
      return Err(NoIdColumn);
    }
    res := CollectIds(RowKeys(ws, cols), DataRows(ws));
  }

  /** The result of the row loop over rows `2 .. n + 1`. */
  function Collected(rowKey: int -> Result<string, MissingError>, n: nat): Result<seq<string>, MissingError>
  {
    var keys := Keys(rowKey, n);
    if keys.Err? then Err(keys.error) else Ok(Dedup(keys.value))
  }

  /** The row loop with its list `ids` and its set `seen`. */
  method CollectIds(rowKey: int -> Result<string, MissingError>, rows: nat) returns (res: Result<seq<string>, MissingError>)
    ensures res == Collected(rowKey, rows)
  {
    var ids: seq<string> := [];
    var seen: set<string> := {};
    var n := 0;
    while n < rows
      invariant 0 <= n <= rows
      invariant Keys(rowKey, n).Ok?
      invariant ids == Dedup(Keys(rowKey, n).value)
      invariant seen == set k | k in ids
    {
      var key := rowKey(n + 2);
      if key.Err? {
        KeysErrPersists(rowKey, n + 1, rows);
        return Err(key.error);
      }
      var joinId := key.value;
      if joinId != "" && joinId !in seen {
        seen := seen + {joinId};
        ids := ids + [joinId];
      }
      n := n + 1;
      assert Keys(rowKey, n).value[..n - 1] == Keys(rowKey, n - 1).value;
    }
    return Ok(ids);
  }

  // ---------------------------------------------------------------------------------
  // Properties

  /** A key is returned exactly when it is non-empty and some row has it. */
  lemma {:induction false} DedupMembers(keys: seq<string>, k: string)
    ensures k in Dedup(keys) <==> k != "" && k in keys
  {
    if keys != [] {
      var init := keys[..|keys| - 1];
      DedupMembers(init, k);
      assert keys == init + [keys[|keys| - 1]];
    }
  }

  /** No key is returned twice. */
  lemma {:induction false} DedupDistinct(keys: seq<string>)
    ensures forall i, j :: 0 <= i < j < |Dedup(keys)| ==> Dedup(keys)[i] != Dedup(keys)[j]
  {
    if keys != [] {
      DedupDistinct(keys[..|keys| - 1]);
    }
  }

  /** The index of the first occurrence of `k`. */
  function FirstAt(keys: seq<string>, k: string): (p: nat)
    requires k in keys
    ensures p < |keys| && keys[p] == k
    ensures forall j :: 0 <= j < p ==> keys[j] != k
  {
    if keys[0] == k then 0 else 1 + FirstAt(keys[1..], k)
  }

  lemma FirstAtPrefix(keys: seq<string>, n: nat, k: string)
    requires n <= |keys| && k in keys[..n]
    ensures FirstAt(keys, k) == FirstAt(keys[..n], k)
  {
    var p := FirstAt(keys[..n], k);
    assert keys[p] == k;
    assert forall j :: 0 <= j < p ==> keys[j] == keys[..n][j];
    var q := FirstAt(keys, k);
    assert q <= p;
  }

  /** The keys come out in the order of their first occurrence. */
  lemma {:induction false} DedupFirstSeenOrder(keys: seq<string>)
    ensures forall i :: 0 <= i < |Dedup(keys)| ==> Dedup(keys)[i] in keys
    ensures forall i, j :: 0 <= i < j < |Dedup(keys)| ==>
              FirstAt(keys, Dedup(keys)[i]) < FirstAt(keys, Dedup(keys)[j])
  {
    if keys != [] {
      var init := keys[..|keys| - 1];
      DedupFirstSeenOrder(init);
      var prev := Dedup(init);
      var k := keys[|keys| - 1];
      forall i | 0 <= i < |prev|
        ensures prev[i] in keys && FirstAt(keys, prev[i]) == FirstAt(init, prev[i])
      {
        FirstAtPrefix(keys, |keys| - 1, prev[i]);
      }
      if k != "" && k !in prev {
        DedupMembers(init, k);
        assert FirstAt(keys, k) == |keys| - 1;
      }
    }
  }

  /** Once a row has raised, reading more rows gives the same error. */
  lemma {:induction false} KeysErrPersists(rowKey: int -> Result<string, MissingError>, m: nat, n: nat)
    requires m <= n && Keys(rowKey, m).Err?
    ensures Keys(rowKey, n) == Keys(rowKey, m)
    decreases n - m
  {
    if m < n {
      KeysErrPersists(rowKey, m, n - 1);
    }
  }

  /** The keys are an error exactly when some row raises; the error is the first row's. */
  lemma {:induction false} KeysErrIff(rowKey: int -> Result<string, MissingError>, n: nat)
    ensures Keys(rowKey, n).Err? <==> exists r :: 2 <= r <= n + 1 && rowKey(r).Err?
    ensures Keys(rowKey, n).Err? ==>
              exists r :: && 2 <= r <= n + 1 && rowKey(r).Err? && Keys(rowKey, n) == Err(rowKey(r).error)
                          && forall q :: 2 <= q < r ==> rowKey(q).Ok?
  {
    if n > 0 {
      KeysErrIff(rowKey, n - 1);
    }
  }

  /**
   * Reading the rows fails exactly when some row's reporter type is not text, and then
   * with the first such row.
   */
  lemma RowErrors(ws: Sheet, cols: IdCols, n: nat)
    ensures Keys(RowKeys(ws, cols), n).Err? <==>
      cols.rtype.Some? && exists r :: 2 <= r <= n + 1 && NormCell(CellAt(ws, r, cols.rtype.value)).Err?
    ensures Keys(RowKeys(ws, cols), n).Err? ==>
      exists r :: && 2 <= r <= n + 1 && Keys(RowKeys(ws, cols), n) == Err(TypeNotText(r))
                  && NormCell(CellAt(ws, r, cols.rtype.value)).Err?
                  && forall q :: 2 <= q < r ==> NormCell(CellAt(ws, q, cols.rtype.value)).Ok?
  {
    var rowKey := RowKeys(ws, cols);
    KeysErrIff(rowKey, n);
    forall r | 2 <= r <= n + 1
      ensures rowKey(r).Err? <==> cols.rtype.Some? && NormCell(CellAt(ws, r, cols.rtype.value)).Err?
      ensures rowKey(r).Err? ==> rowKey(r).error == TypeNotText(r)
    {
      assert rowKey(r) == RowKey(ws, cols, r);
    }
    if Keys(rowKey, n).Err? {
      var r :| && 2 <= r <= n + 1 && rowKey(r).Err? && Keys(rowKey, n) == Err(rowKey(r).error)
               && forall q :: 2 <= q < r ==> rowKey(q).Ok?;
      assert Keys(rowKey, n) == Err(TypeNotText(r));
    }
  }

  /** Without a Reporter type column no row fails. */
  lemma NoTypeColumnNoRowError(ws: Sheet, cols: IdCols, n: nat)
    requires cols.rtype.None?
    ensures Keys(RowKeys(ws, cols), n).Ok?
  {
    RowErrors(ws, cols, n);
  }

  /**
   * The result lists, each once and in first-seen order, exactly the non-empty row
   * identifiers of the sheet.
   */
  lemma CollectedSpec(rowKey: int -> Result<string, MissingError>, n: nat)
    requires Collected(rowKey, n).Ok?
    ensures var ids := Collected(rowKey, n).value;
      var keys := Keys(rowKey, n).value;
      && (forall k :: k in ids <==> k != "" && k in keys)
      && (forall i, j :: 0 <= i < j < |ids| ==> ids[i] != ids[j])
      && (forall i, j :: 0 <= i < j < |ids| ==> FirstAt(keys, ids[i]) < FirstAt(keys, ids[j]))
  {
    var keys := Keys(rowKey, n).value;
    forall k
      ensures k in Dedup(keys) <==> k != "" && k in keys
    {
      DedupMembers(keys, k);
    }
    DedupDistinct(keys);
    DedupFirstSeenOrder(keys);
  }

  /** Reading the rows only ever fails with a reporter type error. */
  lemma RowsFailOnlyOnType(ws: Sheet, cols: IdCols, n: nat)
    ensures Collected(RowKeys(ws, cols), n).Err? ==> Collected(RowKeys(ws, cols), n).error.TypeNotText?
    ensures Collected(RowKeys(ws, cols), n) != Err(NoSheet)
    ensures Collected(RowKeys(ws, cols), n) != Err(NoIdColumn)
  {
    KeysErrIff(RowKeys(ws, cols), n);
  }

  /** Once the sheet is found, the function fails with `NoIdColumn` exactly when it has no identifier column. */
  lemma FromSheetErrors(ws: Sheet, names: IdNames)
    ensures FromSheet(ws, names) != Err(NoSheet)
    ensures FromSheet(ws, names) == Err(NoIdColumn) <==>
      ColsOf(ws, names).reporter.None? && ColsOf(ws, names).cliente.None?
  {
    RowsFailOnlyOnType(ws, ColsOf(ws, names), DataRows(ws));
  }

  /**
   * The function fails with `NoSheet` exactly when the sheet is missing, and with
   * `NoIdColumn` exactly when the sheet has neither a Reporter ID nor an ID Cliente column.
   */
  lemma MissingIdsErrors(wb: Workbook, names: IdNames)
    ensures MissingIdsOf(wb, names) == Err(NoSheet) <==> NotFoundSheet !in Names(wb)
    ensures NotFoundSheet in Names(wb) ==>
      var ws := Merge.SheetNamed(wb, NotFoundSheet).value;
      (MissingIdsOf(wb, names) == Err(NoIdColumn) <==> ColsOf(ws, names).reporter.None? && ColsOf(ws, names).cliente.None?)
  {
    var sh := Merge.SheetNamed(wb, NotFoundSheet);
    if sh.Some? {
      FromSheetErrors(sh.value, names);
    }
  }

  /**
   * A header column is found at the first column whose normalised header equals the
   * normalised name; later duplicates are ignored.
   */
  lemma ColFirstHeader(ws: Sheet, name: string)
    requires NormText(name) != ""
    ensures var c := Col(FirstIndexOf(HeaderTexts(ws), NormText), name);
      && (c.Some? <==> FirstPos(HeaderTexts(ws), NormText, NormText(name)).Some?)
      && (c.Some? ==> c.value == FirstPos(HeaderTexts(ws), NormText, NormText(name)).value)
  {
    FirstIndexOfFirstWins(HeaderTexts(ws), NormText, NormText(name));
  }
}
