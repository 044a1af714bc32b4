/**
 * What `_upsert_customer_minimal` promises: the header index it builds is sound,
 * `_ensure_col` reuses the first column of a header and appends one otherwise, the
 * customer ends up in exactly one row (found again there by the same search), only
 * given values are written, and recording the same customer twice changes nothing.
 */
module CustomerUpsertProperties {
  import opened Wrappers
  import opened Text
  import opened Sheets
  import opened IdKeys
  import opened CustomerUpsert

  /** Two sheets that show the same value in every cell. */
  ghost predicate SameCells(a: Sheet, b: Sheet)
  {
    forall r: nat, c: nat :: CellAt(a, r, c) == CellAt(b, r, c)
  }

  /** The three header names have non-empty, pairwise different keys. */
  predicate WellKeyed(names: CustomerNames)
  {
    NormText(names.id) != "" && NormText(names.socio) != "" && NormText(names.res) != ""
    && NormText(names.id) != NormText(names.socio) && NormText(names.id) != NormText(names.res)
    && NormText(names.socio) != NormText(names.res)
  }

  /** The first column whose header has the name's key, when the key is not empty. */
  function ExistingCol(ws: Sheet, name: string): Option<nat>
  {
    if NormText(name) == "" then None else FirstPos(HeaderTexts(ws), NormText, NormText(name))
  }

  /** The key of a trimmed header starts with its first letter, folded. */
  lemma NormTextHead(s: string)
    requires s != [] && !IsSpace(s[0]) && !IsSpace(s[|s| - 1])
    ensures NormText(s) != [] && NormText(s)[0] == Fold(s[0])
  {
    StripFixpoint(s);
  }

  /** Trimmed names whose first letters fold differently have well-separated keys. */
  lemma WellKeyedByHeads(names: CustomerNames)
    requires names.id != [] && !IsSpace(names.id[0]) && !IsSpace(names.id[|names.id| - 1])
    requires names.socio != [] && !IsSpace(names.socio[0]) && !IsSpace(names.socio[|names.socio| - 1])
    requires names.res != [] && !IsSpace(names.res[0]) && !IsSpace(names.res[|names.res| - 1])
    requires Fold(names.id[0]) != Fold(names.socio[0]) && Fold(names.id[0]) != Fold(names.res[0])
    requires Fold(names.socio[0]) != Fold(names.res[0])
    ensures WellKeyed(names)
  {
    NormTextHead(names.id);
    NormTextHead(names.socio);
    NormTextHead(names.res);
    HeadsDiffer(NormText(names.id), NormText(names.socio));
    HeadsDiffer(NormText(names.id), NormText(names.res));
    HeadsDiffer(NormText(names.socio), NormText(names.res));
  }

  lemma HeadsDiffer(a: string, b: string)
    requires a != [] && b != [] && a[0] != b[0]
    ensures a != b
  {
  }

  /** The code's own header names have non-empty, pairwise different keys. */
  lemma DefaultNamesWellKeyed()
    ensures WellKeyed(DefaultCustomerNames)
  {
    WellKeyedByHeads(DefaultCustomerNames);
  }

  /** Asking twice for the same sheet gives the same sheet of the same workbook. */
  lemma GetOrCreateIdempotent(wb: Workbook, name: string)
    ensures var p := GetOrCreateSheet(wb, name);
      GetOrCreateSheet(p.wb, name) == p
  {
  }

  /** Stripping a header before normalising it changes nothing. */
  lemma NormTextStripped(s: string)
    ensures NormText(Strip(s)) == NormText(s)
  {
    StripFixpoint(Strip(s));
  }

  /** The header index read from row 1 is sound. */
  lemma InitialIndexSound(ws: Sheet)
    ensures IndexSound(ws, FirstIndexOf(HeaderTexts(ws), NormText))
  {
    var hs := HeaderTexts(ws);
    var m := FirstIndexOf(hs, NormText);
    forall k | k in m
      ensures 1 <= m[k] <= MaxColumn(ws) && HeaderKeyAt(ws, m[k]) == k
    {
      FirstIndexOfFirstWins(hs, NormText, k);
    }
  }

  /**
   * `_ensure_col` keeps the index sound and keeps its entries; the column it returns
   * carries the name's key; a name not yet indexed gets the column after the last.
   */
  lemma EnsureColSound(ws: Sheet, index: map<string, nat>, name: string)
    requires IndexSound(ws, index)
    ensures var e := EnsureCol(ws, index, name);
      IndexSound(e.ws, e.index) && HeaderKeyAt(e.ws, e.col) == NormText(name)
      && (forall k :: k in index ==> k in e.index && e.index[k] == index[k])
      && (forall k :: k in e.index && k !in index ==> k == NormText(name))
      && (NormText(name) !in index ==> e.col == MaxColumn(ws) + 1)
  {
    var key := NormText(name);
    if key !in index {
      var col := MaxColumn(ws) + 1;
      SetCellWidens(ws, 1, col, Str(name));
      var ws' := SetCell(ws, 1, col, Str(name));
      assert EnsureCol(ws, index, name) == Ensured(ws', index[key := col], col);
      assert CellAt(ws', 1, col) == Str(name);
      assert forall k :: k in index ==> CellAt(ws', 1, index[k]) == CellAt(ws, 1, index[k]);
      NewHeaderSound(ws, ws', index, name, col);
    }
  }

  /** A header cell written past the indexed columns extends a sound index with its key. */
  lemma NewHeaderSound(ws: Sheet, ws': Sheet, index: map<string, nat>, name: string, col: nat)
    requires IndexSound(ws, index)
    requires MaxColumn(ws') >= MaxColumn(ws) && 1 <= col <= MaxColumn(ws')
    requires CellAt(ws', 1, col) == Str(name)
    requires forall k :: k in index ==> CellAt(ws', 1, index[k]) == CellAt(ws, 1, index[k])
    ensures IndexSound(ws', index[NormText(name) := col]) && HeaderKeyAt(ws', col) == NormText(name)
  {
    NormTextStripped(name);
    var key := NormText(name);
    var index' := index[key := col];
    forall k | k in index'
      ensures 1 <= index'[k] <= MaxColumn(ws') && HeaderKeyAt(ws', index'[k]) == k
    {
      if k != key {
        assert CellAt(ws', 1, index[k]) == CellAt(ws, 1, index[k]);
      }
    }
  }

  /** `_ensure_col` writes at most a header cell past the last column, and adds no row. */
  lemma EnsureColFrame(ws: Sheet, index: map<string, nat>, name: string)
    requires IndexSound(ws, index)
    ensures var e := EnsureCol(ws, index, name);
      MaxColumn(e.ws) >= MaxColumn(ws) && MaxRow(e.ws) == MaxRow(ws)
      && (forall r: nat, c: nat {:trigger CellAt(e.ws, r, c)} :: (r != 1 || c <= MaxColumn(ws)) ==> CellAt(e.ws, r, c) == CellAt(ws, r, c))
  {
    if NormText(name) !in index {
      SetCellWidens(ws, 1, MaxColumn(ws) + 1, Str(name));
    }
  }

  /** Each returned column carries its name's key; different keys get different columns. */
  lemma PrepareKeys(ws: Sheet, names: CustomerNames)
    ensures var p := Prepare(ws, names);
      HeaderKeyAt(p.ws, p.cols.id) == NormText(names.id)
      && HeaderKeyAt(p.ws, p.cols.socio) == NormText(names.socio)
      && HeaderKeyAt(p.ws, p.cols.res) == NormText(names.res)
      && (WellKeyed(names) ==> p.cols.id != p.cols.socio && p.cols.id != p.cols.res && p.cols.socio != p.cols.res)
  {
    var m0 := FirstIndexOf(HeaderTexts(ws), NormText);
    InitialIndexSound(ws);
    var e1 := EnsureCol(ws, m0, names.id);
    EnsureColSound(ws, m0, names.id);
    var e2 := EnsureCol(e1.ws, e1.index, names.socio);
    EnsureColSound(e1.ws, e1.index, names.socio);
    var e3 := EnsureCol(e2.ws, e2.index, names.res);
    EnsureColSound(e2.ws, e2.index, names.res);
    assert e3.index[NormText(names.id)] == e1.col;
    assert e3.index[NormText(names.socio)] == e2.col;
  }

  /**
   * Each column is the first existing column with the name's key, or one past the last
   * column of the sheet when there is none.
   */
  lemma PrepareReuses(ws: Sheet, names: CustomerNames)
    ensures var p := Prepare(ws, names);
      (ExistingCol(ws, names.id).Some? ==> p.cols.id == ExistingCol(ws, names.id).value)
      && (ExistingCol(ws, names.socio).Some? ==> p.cols.socio == ExistingCol(ws, names.socio).value)
      && (ExistingCol(ws, names.res).Some? ==> p.cols.res == ExistingCol(ws, names.res).value)
      && (ExistingCol(ws, names.id).None? ==> p.cols.id > MaxColumn(ws))
      && (ExistingCol(ws, names.socio).None? ==> p.cols.socio > MaxColumn(ws))
      && (ExistingCol(ws, names.res).None? ==> p.cols.res > MaxColumn(ws))
  {
    var m0 := FirstIndexOf(HeaderTexts(ws), NormText);
    var w0 := MaxColumn(ws);
    InitialIndexSound(ws);
    var e1 := EnsureCol(ws, m0, names.id);
    EnsureTracks(ws, m0, names.id, m0, w0);
    var e2 := EnsureCol(e1.ws, e1.index, names.socio);
    EnsureTracks(e1.ws, e1.index, names.socio, m0, w0);
    EnsureTracks(e2.ws, e2.index, names.res, m0, w0);
    ExistingColIndexed(ws, names.id);
    ExistingColIndexed(ws, names.socio);
    ExistingColIndexed(ws, names.res);
  }

  /** An existing column is the one the header index of row 1 holds for the name's key. */
  lemma ExistingColIndexed(ws: Sheet, name: string)
    ensures var m0 := FirstIndexOf(HeaderTexts(ws), NormText);
      (ExistingCol(ws, name).Some? <==> NormText(name) in m0)
      && (ExistingCol(ws, name).Some? ==> m0[NormText(name)] == ExistingCol(ws, name).value)
  {
    FirstIndexOfFirstWins(HeaderTexts(ws), NormText, NormText(name));
  }

  /**
   * The index keeps the entries of `m0` and puts every other key past column `w0`, and
   * the sheet is at least `w0` columns wide.
   */
  ghost predicate Tracks(ws: Sheet, index: map<string, nat>, m0: map<string, nat>, w0: nat)
  {
    IndexSound(ws, index) && MaxColumn(ws) >= w0
    && (forall k :: k in m0 ==> k in index && index[k] == m0[k])
    && (forall k :: k in index && k !in m0 ==> index[k] > w0)
  }

  /** One `_ensure_col` step keeps tracking `m0`, and returns its column or one past `w0`. */
  lemma EnsureTracks(ws: Sheet, index: map<string, nat>, name: string, m0: map<string, nat>, w0: nat)
    requires Tracks(ws, index, m0, w0)
    ensures var e := EnsureCol(ws, index, name);
      Tracks(e.ws, e.index, m0, w0)
      && (NormText(name) in m0 ==> e.col == m0[NormText(name)])
      && (NormText(name) !in m0 ==> e.col > w0)
  {
    EnsureColSound(ws, index, name);
    EnsureColFrame(ws, index, name);
  }

  /** Row 1 past column `w` is the only place where `b` may differ from `a`; no row is added. */
  ghost predicate HeaderFrame(a: Sheet, b: Sheet)
  {
    MaxRow(b) == MaxRow(a) && MaxColumn(b) >= MaxColumn(a)
    && forall r: nat, c: nat {:trigger CellAt(b, r, c)} :: (r != 1 || c <= MaxColumn(a)) ==> CellAt(b, r, c) == CellAt(a, r, c)
  }

  lemma HeaderFrameTrans(a: Sheet, b: Sheet, c: Sheet)
    requires HeaderFrame(a, b) && HeaderFrame(b, c)
    ensures HeaderFrame(a, c)
  {
    forall r: nat, col: nat | r != 1 || col <= MaxColumn(a)
      ensures CellAt(c, r, col) == CellAt(a, r, col)
    {
      assert CellAt(c, r, col) == CellAt(b, r, col);
    }
  }

  /** One `_ensure_col` step stays within the header frame. */
  lemma EnsureFrame(ws: Sheet, index: map<string, nat>, name: string)
    requires IndexSound(ws, index)
    ensures var e := EnsureCol(ws, index, name);
      HeaderFrame(ws, e.ws) && IndexSound(e.ws, e.index)
  {
    EnsureColSound(ws, index, name);
    EnsureColFrame(ws, index, name);
  }

  /** The preparation writes only header cells past the last column, and adds no row. */
  lemma PrepareFrame(ws: Sheet, names: CustomerNames)
    ensures var p := Prepare(ws, names);
      MaxRow(p.ws) == MaxRow(ws)
      && (forall r: nat, c: nat {:trigger CellAt(p.ws, r, c)} :: (r != 1 || c <= MaxColumn(ws)) ==> CellAt(p.ws, r, c) == CellAt(ws, r, c))
  {
    var m0 := FirstIndexOf(HeaderTexts(ws), NormText);
    InitialIndexSound(ws);
    var e1 := EnsureCol(ws, m0, names.id);
    EnsureFrame(ws, m0, names.id);
    var e2 := EnsureCol(e1.ws, e1.index, names.socio);
    EnsureFrame(e1.ws, e1.index, names.socio);
    var e3 := EnsureCol(e2.ws, e2.index, names.res);
    EnsureFrame(e2.ws, e2.index, names.res);
    HeaderFrameTrans(ws, e1.ws, e2.ws);
    HeaderFrameTrans(ws, e2.ws, e3.ws);
    assert Prepare(ws, names).ws == e3.ws;
  }

  /** The search finds a row that has the key and follows only rows that do not. */
  lemma FindCustomerAt(key: nat -> string, cid: string, n: nat, t: nat)
    requires 2 <= t <= n + 1 && key(t) == cid
    requires forall q :: 2 <= q < t ==> key(q) != cid
    ensures FindCustomer(key, cid, n) == Some(t)
  {
  }

  /**
   * After `Record` the same search finds the customer at the target row: the row found
   * before when there was one (no row added), else a new last row holding the key.
   */
  lemma RecordUpserts(ws: Sheet, cols: CustomerCols, cid: string, socio: string, res: string)
    requires cols.id >= 1 && cols.socio >= 1 && cols.res >= 1
    requires cols.id != cols.socio && cols.id != cols.res
    requires cid != "" && IdKey(Str(cid)) == cid
    ensures var found := FindCustomer(RowIds(ws, cols.id), cid, MaxRow(ws) - 1);
      var target := TargetRow(ws, cols.id, cid);
      var ws' := Record(ws, cols, cid, socio, res);
      (found.Some? ==> MaxRow(ws') == MaxRow(ws) && CellAt(ws', target, cols.id) == CellAt(ws, target, cols.id))
      && (found.None? ==> target == MaxRow(ws) + 1 && MaxRow(ws') == target && CellAt(ws', target, cols.id) == Str(cid))
      && FindCustomer(RowIds(ws', cols.id), cid, MaxRow(ws') - 1) == Some(target)
  {
    var found := FindCustomer(RowIds(ws, cols.id), cid, MaxRow(ws) - 1);
    var target := TargetRow(ws, cols.id, cid);
    var ws' := Record(ws, cols, cid, socio, res);
    RecordShape(ws, cols, cid, socio, res);
    var key := RowIds(ws, cols.id);
    forall q | 2 <= q < target
      ensures RowId(ws', cols.id, q) != cid
    {
      assert key(q) != cid;
      assert CellAt(ws', q, cols.id) == CellAt(ws, q, cols.id);
    }
    assert RowId(ws', cols.id, target) == cid;
    FirstAfterWrite(ws', cols.id, cid, target);
  }

  /** The search over a sheet's ID column finds the first row holding the key. */
  lemma FirstAfterWrite(ws: Sheet, col: nat, cid: string, target: nat)
    requires 2 <= target <= MaxRow(ws)
    requires forall q :: 2 <= q < target ==> RowId(ws, col, q) != cid
    requires RowId(ws, col, target) == cid
    ensures FindCustomer(RowIds(ws, col), cid, MaxRow(ws) - 1) == Some(target)
  {
    RowIdsApply(ws, col, cid, target);
    FindCustomerAt(RowIds(ws, col), cid, MaxRow(ws) - 1, target);
  }

  /** `RowIds` applied to a row is that row's ID key. */
  lemma RowIdsApply(ws: Sheet, col: nat, cid: string, target: nat)
    requires forall q :: 2 <= q < target ==> RowId(ws, col, q) != cid
    requires RowId(ws, col, target) == cid
    ensures forall q :: 2 <= q < target ==> RowIds(ws, col)(q) != cid
    ensures RowIds(ws, col)(target) == cid
  {
  }

  /** `Record` adds a row exactly when the customer was not found, and writes its ID there. */
  lemma RecordShape(ws: Sheet, cols: CustomerCols, cid: string, socio: string, res: string)
    requires cols.id >= 1 && cols.socio >= 1 && cols.res >= 1
    requires cols.id != cols.socio && cols.id != cols.res
    ensures var found := FindCustomer(RowIds(ws, cols.id), cid, MaxRow(ws) - 1).Some?;
      var target := TargetRow(ws, cols.id, cid);
      var ws' := Record(ws, cols, cid, socio, res);
      MaxRow(ws') == (if found then MaxRow(ws) else target)
      && CellAt(ws', target, cols.id) == (if found then CellAt(ws, target, cols.id) else Str(cid))
  {
    var found := FindCustomer(RowIds(ws, cols.id), cid, MaxRow(ws) - 1).Some?;
    var target := TargetRow(ws, cols.id, cid);
    var ws1 := SetCellIf(ws, !found, target, cols.id, Str(cid));
    var ws2 := SetCellIf(ws1, socio != "", target, cols.socio, Str(socio));
    var ws3 := SetCellIf(ws2, res != "", target, cols.res, Str(res));
    assert Record(ws, cols, cid, socio, res) == ws3;
    assert found ==> target <= MaxRow(ws) && |ws.rows| > 0;
    assert CellAt(ws3, target, cols.id) == CellAt(ws1, target, cols.id);
  }

  /**
   * `Record` writes Socio and Residencia into the target row exactly when they are
   * given, and changes no other cell except the ID of a new row.
   */
  lemma RecordWrites(ws: Sheet, cols: CustomerCols, cid: string, socio: string, res: string)
    requires cols.id >= 1 && cols.socio >= 1 && cols.res >= 1
    requires cols.id != cols.socio && cols.id != cols.res && cols.socio != cols.res
    ensures var target := TargetRow(ws, cols.id, cid);
      var ws' := Record(ws, cols, cid, socio, res);
      (socio != "" ==> CellAt(ws', target, cols.socio) == Str(socio))
      && (socio == "" ==> CellAt(ws', target, cols.socio) == CellAt(ws, target, cols.socio))
      && (res != "" ==> CellAt(ws', target, cols.res) == Str(res))
      && (res == "" ==> CellAt(ws', target, cols.res) == CellAt(ws, target, cols.res))
      && (forall r: nat, c: nat {:trigger CellAt(ws', r, c)} :: (r != target || (c != cols.id && c != cols.socio && c != cols.res)) ==>
            CellAt(ws', r, c) == CellAt(ws, r, c))
  {
  }

  /** Recording the same customer with the same values a second time changes no cell. */
  lemma RecordIdempotent(ws: Sheet, cols: CustomerCols, cid: string, socio: string, res: string)
    requires cols.id >= 1 && cols.socio >= 1 && cols.res >= 1
    requires cols.id != cols.socio && cols.id != cols.res && cols.socio != cols.res
    requires cid != "" && IdKey(Str(cid)) == cid
    ensures var ws' := Record(ws, cols, cid, socio, res);
      SameCells(Record(ws', cols, cid, socio, res), ws')
  {
    var ws' := Record(ws, cols, cid, socio, res);
    RecordUpserts(ws, cols, cid, socio, res);
    RecordWrites(ws, cols, cid, socio, res);
    RecordWrites(ws', cols, cid, socio, res);
    assert TargetRow(ws', cols.id, cid) == TargetRow(ws, cols.id, cid);
  }

  /** Different header keys get different columns. */
  lemma PrepareDistinct(ws: Sheet, names: CustomerNames)
    requires WellKeyed(names)
    ensures var p := Prepare(ws, names);
      p.cols.id != p.cols.socio && p.cols.id != p.cols.res && p.cols.socio != p.cols.res
  {
    PrepareKeys(ws, names);
  }

  /**
   * After the writes, searching the ID column for `cid` finds row `t`, which holds
   * Socio and Residencia when they were given.
   */
  predicate RecordedAt(out: Sheet, cols: CustomerCols, t: nat, cid: string, socio: string, res: string)
  {
    FindCustomer(RowIds(out, cols.id), cid, MaxRow(out) - 1) == Some(t)
    && (socio != "" ==> CellAt(out, t, cols.socio) == Str(socio))
    && (res != "" ==> CellAt(out, t, cols.res) == Str(res))
  }

  /**
   * The whole upsert on the customer sheet finds the customer again at the target row
   * under the ID column, with Socio and Residencia written there when given.
   */
  lemma UpsertSheetRecords(ws: Sheet, names: CustomerNames, customerId: string, socio: string, res: string)
    requires WellKeyed(names) && IdKey(Str(customerId)) != ""
    ensures var cid := IdKey(Str(customerId));
      var p := Prepare(BootstrapAsWritten(ws, names), names);
      RecordedAt(UpsertSheet(ws, names, customerId, socio, res).value, p.cols, TargetRow(p.ws, p.cols.id, cid), cid, socio, res)
  {
    var cid := IdKey(Str(customerId));
    var p := Prepare(BootstrapAsWritten(ws, names), names);
    UpsertSheetIsRecord(ws, names, customerId, socio, res);
    assert RecordedAt(Record(p.ws, p.cols, cid, socio, res), p.cols, TargetRow(p.ws, p.cols.id, cid), cid, socio, res) by {
      IdKeyIdempotent(Str(customerId));
      PrepareDistinct(BootstrapAsWritten(ws, names), names);
      RecordFindsAndWrites(p.ws, p.cols, cid, socio, res);
    }
  }

  /** A customer ID with a key is recorded into the prepared sheet. */
  lemma UpsertSheetIsRecord(ws: Sheet, names: CustomerNames, customerId: string, socio: string, res: string)
    requires IdKey(Str(customerId)) != ""
    ensures var p := Prepare(BootstrapAsWritten(ws, names), names);
      UpsertSheet(ws, names, customerId, socio, res) == Some(Record(p.ws, p.cols, IdKey(Str(customerId)), socio, res))
  {
  }

  /** After `Record` the customer is found at the target row, holding the given values. */
  lemma RecordFindsAndWrites(ws: Sheet, cols: CustomerCols, cid: string, socio: string, res: string)
    requires cols.id >= 1 && cols.socio >= 1 && cols.res >= 1
    requires cols.id != cols.socio && cols.id != cols.res && cols.socio != cols.res
    requires cid != "" && IdKey(Str(cid)) == cid
    ensures RecordedAt(Record(ws, cols, cid, socio, res), cols, TargetRow(ws, cols.id, cid), cid, socio, res)
  {
    RecordUpserts(ws, cols, cid, socio, res);
    RecordWrites(ws, cols, cid, socio, res);
  }

  /**
   * The upsert keeps the header keys of the three columns and changes no row but the
   * header row and the customer's row.
   */
  lemma UpsertSheetFrame(ws: Sheet, names: CustomerNames, customerId: string, socio: string, res: string)
    requires IdKey(Str(customerId)) != ""
    ensures var b := BootstrapAsWritten(ws, names);
      var p := Prepare(b, names);
      var t := TargetRow(p.ws, p.cols.id, IdKey(Str(customerId)));
      var out := UpsertSheet(ws, names, customerId, socio, res).value;
      HeaderKeyAt(out, p.cols.id) == NormText(names.id)
      && HeaderKeyAt(out, p.cols.socio) == NormText(names.socio)
      && HeaderKeyAt(out, p.cols.res) == NormText(names.res)
      && (forall r: nat, c: nat {:trigger CellAt(out, r, c)} :: r != 1 && r != t ==> CellAt(out, r, c) == CellAt(b, r, c))
  {
    var b := BootstrapAsWritten(ws, names);
    PrepareKeys(b, names);
    PrepareFrame(b, names);
  }

  /** Every header of a row without values reads as empty, so the index starts empty. */
  lemma BlankHeaderRowIndex(ws: Sheet)
    requires forall c: nat :: CellAt(ws, 1, c) == Null
    ensures FirstIndexOf(HeaderTexts(ws), NormText) == map[]
    ensures forall name :: ExistingCol(ws, name).None?
  {
    var hs := HeaderTexts(ws);
    assert NormText("") == "";
    forall k ensures k !in FirstIndexOf(hs, NormText) {
      FirstIndexOfFirstWins(hs, NormText, k);
    }
  }

  /** A row appended under an untouched first row leaves row 1 blank, in a sheet of two rows and three columns. */
  lemma SecondRowShape(names: CustomerNames)
    ensures var b := PutRow(Sheet([]), 2, names);
      MaxRow(b) == 2 && MaxColumn(b) == 3 && forall c: nat :: CellAt(b, 1, c) == Null
  {
    var b1 := SetCell(Sheet([]), 2, 1, Str(names.id));
    var b2 := SetCell(b1, 2, 2, Str(names.socio));
    var b := SetCell(b2, 2, 3, Str(names.res));
    assert PutRow(Sheet([]), 2, names) == b;
    SetCellNarrows(Sheet([]), 2, 1, Str(names.id));
    SetCellNarrows(b1, 2, 2, Str(names.socio));
    SetCellNarrows(b2, 2, 3, Str(names.res));
    SetCellWidens(b2, 2, 3, Str(names.res));
  }

  /**
   * `_upsert_customer_minimal` AS WRITTEN on a new, empty sheet: the three header
   * texts land in row 2 as if they were a customer, row 1 gets them only in columns 4,
   * 5 and 6, where `_ensure_col` creates the three columns past them, and the customer
   * goes to row 3 under those columns.
   */
  lemma BootstrapAsWrittenMisplacesHeaders(names: CustomerNames, customerId: string, socio: string, res: string)
    requires WellKeyed(names) && IdKey(Str(customerId)) != ""
    ensures var out := UpsertSheet(Sheet([]), names, customerId, socio, res).value;
      && CellAt(out, 1, 1) == Null && CellAt(out, 1, 2) == Null && CellAt(out, 1, 3) == Null
      && CellAt(out, 1, 4) == Str(names.id) && CellAt(out, 1, 5) == Str(names.socio) && CellAt(out, 1, 6) == Str(names.res)
      && CellAt(out, 2, 1) == Str(names.id) && CellAt(out, 2, 2) == Str(names.socio) && CellAt(out, 2, 3) == Str(names.res)
      && CellAt(out, 3, 4) == Str(IdKey(Str(customerId)))
      && (socio != "" ==> CellAt(out, 3, 5) == Str(socio))
      && (res != "" ==> CellAt(out, 3, 6) == Str(res))
      && MaxRow(out) == 3
  {
    var cid := IdKey(Str(customerId));
    var b := PutRow(Sheet([]), 2, names);
    assert NeedsHeaders(Sheet([]));
    assert BootstrapAsWritten(Sheet([]), names) == b;
    var p := Prepare(b, names);
    AsWrittenPrepared(names);
    assert FindCustomer(RowIds(p.ws, p.cols.id), cid, 1) == None by {
      assert RowIds(p.ws, p.cols.id)(2) != cid;
    }
    assert TargetRow(p.ws, p.cols.id, cid) == 3;
    var out := Record(p.ws, p.cols, cid, socio, res);
    assert UpsertSheet(Sheet([]), names, customerId, socio, res).value == out;
    RecordShape(p.ws, p.cols, cid, socio, res);
    RecordWrites(p.ws, p.cols, cid, socio, res);
    assert CellAt(out, 1, 4) == CellAt(p.ws, 1, 4);
    assert CellAt(out, 2, 1) == CellAt(p.ws, 2, 1);
  }

  /**
   * Preparing the sheet as written: the header texts sit in row 2 and row 1 is blank,
   * so the three columns are created as 4, 5 and 6, and row 2 has no ID key.
   */
  lemma AsWrittenPrepared(names: CustomerNames)
    requires WellKeyed(names)
    ensures var b := PutRow(Sheet([]), 2, names);
      var p := Prepare(b, names);
      p.cols == CustomerCols(4, 5, 6) && MaxRow(p.ws) == 2 && RowId(p.ws, p.cols.id, 2) == ""
      && CellAt(p.ws, 1, 1) == Null && CellAt(p.ws, 1, 2) == Null && CellAt(p.ws, 1, 3) == Null
      && CellAt(p.ws, 1, 4) == Str(names.id) && CellAt(p.ws, 1, 5) == Str(names.socio) && CellAt(p.ws, 1, 6) == Str(names.res)
      && CellAt(p.ws, 2, 1) == Str(names.id) && CellAt(p.ws, 2, 2) == Str(names.socio) && CellAt(p.ws, 2, 3) == Str(names.res)
  {
    var b := PutRow(Sheet([]), 2, names);
    SecondRowShape(names);
    BlankHeaderRowIndex(b);
    var p := Prepare(b, names);
    AppendedColumns(b, names);
    PrepareFrame(b, names);
    assert CellAt(p.ws, 2, p.cols.id) == CellAt(b, 2, p.cols.id);
    IdKeyEmpty("");
  }

  /**
   * With no header found in a sheet of three columns, `_ensure_col` creates the three
   * columns as 4, 5 and 6, each headed by its name.
   */
  lemma AppendedColumns(b: Sheet, names: CustomerNames)
    requires WellKeyed(names) && MaxColumn(b) == 3
    requires FirstIndexOf(HeaderTexts(b), NormText) == map[]
    ensures var p := Prepare(b, names);
      p.cols == CustomerCols(4, 5, 6)
      && CellAt(p.ws, 1, 4) == Str(names.id) && CellAt(p.ws, 1, 5) == Str(names.socio) && CellAt(p.ws, 1, 6) == Str(names.res)
  {
    var e1 := EnsureCol(b, map[], names.id);
    var e2 := EnsureCol(e1.ws, e1.index, names.socio);
    var e3 := EnsureCol(e2.ws, e2.index, names.res);
    assert Prepare(b, names) == Prepared(e3.ws, CustomerCols(e1.col, e2.col, e3.col));
    ChainAppended(b, names, e1, e2, e3);
  }

  /** The three `_ensure_col` calls on a sheet of three columns with no header indexed. */
  lemma ChainAppended(b: Sheet, names: CustomerNames, e1: Ensured, e2: Ensured, e3: Ensured)
    requires WellKeyed(names) && MaxColumn(b) == 3
    requires e1 == EnsureCol(b, map[], names.id)
    requires e2 == EnsureCol(e1.ws, e1.index, names.socio)
    requires e3 == EnsureCol(e2.ws, e2.index, names.res)
    ensures e1.col == 4 && e2.col == 5 && e3.col == 6
    ensures CellAt(e3.ws, 1, 4) == Str(names.id) && CellAt(e3.ws, 1, 5) == Str(names.socio) && CellAt(e3.ws, 1, 6) == Str(names.res)
  {
    AppendedAt(b, map[], names.id);
    AppendedAt(e1.ws, e1.index, names.socio);
    OtherKeyAbsent(e1.index, e2.index, NormText(names.id), NormText(names.socio), NormText(names.res), e1.col, e2.col);
    AppendedAt(e2.ws, e2.index, names.res);
    ThreeHeaders(b, names, e1.ws, e2.ws, e3.ws);
  }

  /** A third key is in none of the index entries written for two other keys. */
  lemma OtherKeyAbsent(m1: map<string, nat>, m2: map<string, nat>, k1: string, k2: string, k3: string, c1: nat, c2: nat)
    requires m1 == map[][k1 := c1] && m2 == m1[k2 := c2] && k3 != k1 && k3 != k2
    ensures k3 !in m2
  {
  }

  /** Three header writes at columns 4, 5 and 6 leave each header in its column. */
  lemma ThreeHeaders(b: Sheet, names: CustomerNames, w1: Sheet, w2: Sheet, w3: Sheet)
    requires w1 == SetCell(b, 1, 4, Str(names.id))
    requires w2 == SetCell(w1, 1, 5, Str(names.socio))
    requires w3 == SetCell(w2, 1, 6, Str(names.res))
    ensures CellAt(w3, 1, 4) == Str(names.id) && CellAt(w3, 1, 5) == Str(names.socio) && CellAt(w3, 1, 6) == Str(names.res)
  {
  }

  /** `_ensure_col` of a name not in the index writes its header one past the last column. */
  lemma AppendedAt(ws: Sheet, index: map<string, nat>, name: string)
    requires NormText(name) !in index
    ensures var e := EnsureCol(ws, index, name);
      && e.col == MaxColumn(ws) + 1 && MaxColumn(e.ws) == e.col
      && e.ws == SetCell(ws, 1, e.col, Str(name)) && e.index == index[NormText(name) := e.col]
  {
    SetCellWidens(ws, 1, MaxColumn(ws) + 1, Str(name));
    SetCellNarrows(ws, 1, MaxColumn(ws) + 1, Str(name));
  }

  /** Three headers with different keys are each found at their own position. */
  lemma FirstPosOfThree(hs: seq<string>, norm: string -> string, k1: string, k2: string, k3: string)
    requires |hs| >= 3 && norm(hs[0]) == k1 && norm(hs[1]) == k2 && norm(hs[2]) == k3
    requires k1 != k2 && k1 != k3 && k2 != k3
    ensures FirstPos(hs, norm, k1) == Some(1)
    ensures FirstPos(hs, norm, k2) == Some(2)
    ensures FirstPos(hs, norm, k3) == Some(3)
  {
  }

  /** The header texts of a row written into a new sheet start with the three names, trimmed. */
  lemma HeaderRowTexts(names: CustomerNames)
    ensures var hs := HeaderTexts(PutRow(Sheet([]), 1, names));
      |hs| >= 3 && hs[0] == Strip(names.id) && hs[1] == Strip(names.socio) && hs[2] == Strip(names.res)
  {
    var b := PutRow(Sheet([]), 1, names);
    assert CellAt(b, 1, 3) != Null;
    assert MaxColumn(b) >= 3;
  }

  /** Headers written into row 1 of an empty sheet are found in columns 1, 2 and 3. */
  lemma HeaderRowColumns(names: CustomerNames)
    requires WellKeyed(names)
    ensures var b := PutRow(Sheet([]), 1, names);
      ExistingCol(b, names.id) == Some(1) && ExistingCol(b, names.socio) == Some(2) && ExistingCol(b, names.res) == Some(3)
  {
    var b := PutRow(Sheet([]), 1, names);
    var hs := HeaderTexts(b);
    HeaderRowTexts(names);
    NormTextStripped(names.id);
    NormTextStripped(names.socio);
    NormTextStripped(names.res);
    FirstPosOfThree(hs, NormText, NormText(names.id), NormText(names.socio), NormText(names.res));
  }

  /**
   * The intended bootstrap on a new, empty sheet: the headers fill row 1, the three
   * columns are 1, 2 and 3, and the customer becomes row 2.
   */
  lemma BootstrapPlacesHeaders(names: CustomerNames, customerId: string, socio: string, res: string)
    requires WellKeyed(names) && IdKey(Str(customerId)) != ""
    ensures var out := UpsertSheetCorrected(Sheet([]), names, customerId, socio, res).value;
      CellAt(out, 1, 1) == Str(names.id) && CellAt(out, 1, 2) == Str(names.socio) && CellAt(out, 1, 3) == Str(names.res)
      && CellAt(out, 2, 1) == Str(IdKey(Str(customerId)))
      && (socio != "" ==> CellAt(out, 2, 2) == Str(socio))
      && (res != "" ==> CellAt(out, 2, 3) == Str(res))
      && MaxRow(out) == 2
  {
    var cid := IdKey(Str(customerId));
    IdKeyIdempotent(Str(customerId));
    var b := PutRow(Sheet([]), 1, names);
    NewSheetPrepared(names);
    var p := Prepare(b, names);
    var out := Record(p.ws, p.cols, cid, socio, res);
    assert UpsertSheetCorrected(Sheet([]), names, customerId, socio, res).value == out;
    RecordUpserts(p.ws, p.cols, cid, socio, res);
    RecordWrites(p.ws, p.cols, cid, socio, res);
  }

  /** On a new sheet the bootstrap writes the header row and preparing reuses its columns. */
  lemma NewSheetPrepared(names: CustomerNames)
    requires WellKeyed(names)
    ensures var b := PutRow(Sheet([]), 1, names);
      var p := Prepare(b, names);
      Bootstrap(Sheet([]), names) == b && p.cols == CustomerCols(1, 2, 3)
      && MaxRow(p.ws) == 1
      && CellAt(p.ws, 1, 1) == Str(names.id) && CellAt(p.ws, 1, 2) == Str(names.socio) && CellAt(p.ws, 1, 3) == Str(names.res)
  {
    var b := PutRow(Sheet([]), 1, names);
    assert NeedsHeaders(Sheet([]));
    NewSheetColumns(names);
    NewSheetCells(names);
  }

  /** Preparing the header row of a new sheet reuses columns 1, 2 and 3. */
  lemma NewSheetColumns(names: CustomerNames)
    requires WellKeyed(names)
    ensures Prepare(PutRow(Sheet([]), 1, names), names).cols == CustomerCols(1, 2, 3)
  {
    HeaderRowColumns(names);
    PrepareReuses(PutRow(Sheet([]), 1, names), names);
  }

  /** Preparing the header row of a new sheet keeps its cells and its single row. */
  lemma NewSheetCells(names: CustomerNames)
    ensures var b := PutRow(Sheet([]), 1, names);
      var p := Prepare(b, names);
      MaxRow(p.ws) == 1
      && CellAt(p.ws, 1, 1) == Str(names.id) && CellAt(p.ws, 1, 2) == Str(names.socio) && CellAt(p.ws, 1, 3) == Str(names.res)
  {
    var b := PutRow(Sheet([]), 1, names);
    assert CellAt(b, 1, 3) != Null;
    assert MaxColumn(b) >= 3;
    PrepareFrame(b, names);
  }
}
