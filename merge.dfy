/**
 * `merge_tickets_customers`: joins the ticket sheet with the customer sheet by the
 * canonical ID key and rebuilds three sheets in the workbook — the joined rows, the
 * tickets whose key found no customer, and a summary with counters and the most
 * frequent unmatched keys.
 *
 * Loading and saving the workbook are left out: the method takes whether the file
 * exists and the loaded workbook, and returns the workbook that would be saved.
 */
module Merge {
  import opened Wrappers
  import opened Text
  import opened Sheets
  import opened IdKeys
  import opened MergeSummary

  /** `ticket_out_cols`: the ticket columns copied to the output, in this order. */
  const TicketOutCols: seq<string> := [
    "ID", "Tema", "Customer/Lead", "Prioridad", "Estado", "Group", "Tipo", "Asignado a",
    "Watching", "Labels", "Reporter", "Reporter ID", "Reporter type", "ID Cliente",
    "Incoming Customer", "Hide", "Task", "Estrella", "Creado (fecha y hora)", "Source",
    "Actualizado (fecha y hora)", "Archive", "Shareable", "Note", "Sub-tipo de Ticket",
    "Categoria del Cierre", "Promocion"]

  const CustomerOutCols: seq<string> := ["Servicio usuario", "Socio", "Residencia/Urbanización"]

  /** The five sheet names the function takes, with their default values. */
  datatype MergeNames = MergeNames(tickets: string, customers: string, output: string, notFound: string, summary: string)

  const DefaultNames := MergeNames("Datos de Tickets", "Datos Clientes", "Datos Completos",
                                   "Datos no Encontrados", "Resumen Merge")

  /** `FileNotFoundError` and the three `KeyError`s the function raises. */
  datatype MergeError = FileNotFound | MissingSheet(sheet: string) | MissingColumn(column: string) | NoJoinColumn

  // ---- header map (`_get_sheet_columns`, `_require`, `_optional`) ----

  /** The key a row-1 cell is filed under: `""` (skipped) for `None`, else `_norm_header(str(val))`. */
  function HeaderKey(c: Cell): string
  {
    if c.Null? then "" else NormText(PyStr(c))
  }

  /** The keys of the row-1 cells `1 .. max_column`. */
  function HeaderKeys(ws: Sheet): (keys: seq<string>)
    ensures |keys| == MaxColumn(ws)
  {
    seq(MaxColumn(ws), i requires 0 <= i < MaxColumn(ws) => HeaderKey(CellAt(ws, 1, i + 1)))
  }

  /** The 1-based position of the last key equal to `key`. */
  function LastPos(keys: seq<string>, key: string): (r: Option<nat>)
    ensures r.Some? ==> (1 <= r.value <= |keys| && keys[r.value - 1] == key
                         && forall j :: r.value <= j < |keys| ==> keys[j] != key)
    ensures r.None? ==> forall j :: 0 <= j < |keys| ==> keys[j] != key
  {
    if keys == [] then None
    else if keys[|keys| - 1] == key then Some(|keys|)
    else LastPos(keys[..|keys| - 1], key)
  }

  /** The column a header name resolves to: the last header normalising like it. */
  function Column(ws: Sheet, name: string): (r: Option<nat>)
    ensures r.Some? ==> 1 <= r.value <= MaxColumn(ws)
  {
    var k := NormText(name);
    if k == "" then None else LastPos(HeaderKeys(ws), k)
  }

  /** The header dictionary after the given header keys (1-based columns), a later key overwriting. */
  function ColumnsOf(keys: seq<string>): map<string, nat>
  {
    if keys == [] then map[]
    else
      var prev := ColumnsOf(keys[..|keys| - 1]);
      var k := keys[|keys| - 1];
      if k == "" then prev else prev[k := |keys|]
  }

  /** The dictionary holds every non-empty header key, at the column of its last occurrence. */
  lemma {:induction false} ColumnsOfLastWins(keys: seq<string>, k: string)
    ensures k in ColumnsOf(keys) <==> k != "" && LastPos(keys, k).Some?
    ensures k in ColumnsOf(keys) ==> ColumnsOf(keys)[k] == LastPos(keys, k).value
  {
    if keys != [] {
      ColumnsOfLastWins(keys[..|keys| - 1], k);
    }
  }

  /** One more header key extends the dictionary by that key, unless it is empty. */
  lemma ColumnsOfStep(keys: seq<string>, i: nat)
    requires i < |keys|
    ensures ColumnsOf(keys[..i + 1]) ==
      if keys[i] == "" then ColumnsOf(keys[..i]) else ColumnsOf(keys[..i])[keys[i] := i + 1]
  {
    assert keys[..i + 1][..i] == keys[..i];
  }

  /** `_get_sheet_columns`: reads row 1 from column 1 to `max_column`, skipping `None`. */
  method GetSheetColumns(ws: Sheet) returns (cols: map<string, nat>)
    ensures cols == ColumnsOf(HeaderKeys(ws))
  {
    ghost var keys := HeaderKeys(ws);
    cols := map[];
    var colIdx := 1;
    while colIdx <= MaxColumn(ws)
      invariant 1 <= colIdx <= MaxColumn(ws) + 1
      invariant cols == ColumnsOf(keys[..colIdx - 1])
    {
      ColumnsOfStep(keys, colIdx - 1);
      var val := CellAt(ws, 1, colIdx);
      assert keys[colIdx - 1] == HeaderKey(val);
      if !val.Null? {
        var key := NormText(PyStr(val));
        if key != "" {
          cols := cols[key := colIdx];
        }
      }
      colIdx := colIdx + 1;
    }
    assert keys[..|keys|] == keys;
  }

  /** `_require`: the column of `name`, or a `KeyError` naming it. */
  function Require(cols: map<string, nat>, name: string): (r: Result<nat, MergeError>)
    ensures r.Ok? <==> NormText(name) in cols
    ensures r.Ok? ==> r.value == cols[NormText(name)]
    ensures r.Err? ==> r.error == MissingColumn(name)
  {
    var key := NormText(name);
    if key in cols then Ok(cols[key]) else Err(MissingColumn(name))
  }

  /** `_optional`: the column of `name`, if there is one. */
  function Optional(cols: map<string, nat>, name: string): (r: Option<nat>)
    ensures r.Some? <==> NormText(name) in cols
    ensures r.Some? ==> r.value == cols[NormText(name)]
  {
    var key := NormText(name);
    if key in cols then Some(cols[key]) else None
  }

  /** Looked up in the header dictionary, both agree with `Column`. */
  lemma LookupIsColumn(ws: Sheet, name: string)
    ensures Optional(ColumnsOf(HeaderKeys(ws)), name) == Column(ws, name)
    ensures Require(ColumnsOf(HeaderKeys(ws)), name) ==
      if Column(ws, name).Some? then Ok(Column(ws, name).value) else Err(MissingColumn(name))
  {
    ColumnsOfLastWins(HeaderKeys(ws), NormText(name));
  }

  // ---- customer lookup ----

  datatype CustomerCols = CustomerCols(id: nat, servicio: Option<nat>, socio: nat, res: nat)

  /** `(servicio, socio, res)` as stored in `customer_map`. */
  datatype CustomerInfo = CustomerInfo(servicio: string, socio: string, res: string)

  /** The key and the data the customer loop reads from one row. */
  datatype CustomerRow = CustomerRow(key: string, info: CustomerInfo)

  /** `_id_key` of the ID cell and `str(cell.value or "").strip()` of the three others. */
  function CustomerRowAt(ws: Sheet, cc: CustomerCols, r: int): CustomerRow
  {
    CustomerRow(IdKey(CellAt(ws, r, cc.id)),
                CustomerInfo(if cc.servicio.Some? then Strip(StrOr(CellAt(ws, r, cc.servicio.value))) else "",
                             Strip(StrOr(CellAt(ws, r, cc.socio))),
                             Strip(StrOr(CellAt(ws, r, cc.res)))))
  }

  /** The customer rows `2 .. max_row`, the row number of element `i` being `i + 2`. */
  function CustomerTable(ws: Sheet, cc: CustomerCols): (t: seq<CustomerRow>)
    ensures |t| == MaxRow(ws) - 1
  {
    seq(MaxRow(ws) - 1, i requires 0 <= i < MaxRow(ws) - 1 => CustomerRowAt(ws, cc, i + 2))
  }

  /** `customer_map`, `customer_row_by_id` and the insertion order of their keys. */
  datatype Customers = Customers(info: map<string, CustomerInfo>, row: map<string, nat>, order: seq<string>)

  /** The customer dictionaries after the given rows. */
  function CustomersOf(rows: seq<CustomerRow>): Customers
  {
    if rows == [] then Customers(map[], map[], [])
    else
      var prev := CustomersOf(rows[..|rows| - 1]);
      var c := rows[|rows| - 1];
      if c.key == "" then prev
      else Customers(prev.info[c.key := c.info], prev.row[c.key := |rows| + 1],
                     if c.key in prev.info then prev.order else prev.order + [c.key])
  }

  /** The position (0-based) of the last row carrying key `k`. */
  function LastRowWith(rows: seq<CustomerRow>, k: string): (r: Option<nat>)
    ensures r.Some? ==> (r.value < |rows| && rows[r.value].key == k
                         && forall j :: r.value < j < |rows| ==> rows[j].key != k)
    ensures r.None? ==> forall j :: 0 <= j < |rows| ==> rows[j].key != k
  {
    if rows == [] then None
    else if rows[|rows| - 1].key == k then Some(|rows| - 1)
    else LastRowWith(rows[..|rows| - 1], k)
  }

  /**
   * Last row wins: a key is known iff some row carries it (empty keys never), and both
   * its data and its sheet row number come from the last such row; the key order lists
   * the same keys.
   */
  lemma {:induction false} CustomerLookupLastWins(rows: seq<CustomerRow>, k: string)
    ensures var c := CustomersOf(rows);
      (k in c.info <==> k != "" && LastRowWith(rows, k).Some?) &&
      (k in c.row <==> k in c.info) && (k in c.order <==> k in c.info) &&
      (k in c.info ==> c.info[k] == rows[LastRowWith(rows, k).value].info &&
                       c.row[k] == LastRowWith(rows, k).value + 2)
  {
    if rows != [] {
      CustomerLookupLastWins(rows[..|rows| - 1], k);
    }
  }

  /**
   * `_safe_int(k)`: Python's `int(k)` on a key, an optional minus sign and digits (the
   * only forms a key takes).  `int` raises ValueError on more than `MaxStrDigits` digits,
   * and `_safe_int` returns `None` for that as for any other error.
   */
  function SafeInt(k: string): Option<int>
  {
    if k != "" && AllDigits(k) then
      if |k| <= MaxStrDigits then Some(DigitsValue(k)) else None
    else if |k| > 1 && k[0] == '-' && AllDigits(k[1..]) then
      if |k| - 1 <= MaxStrDigits then Some(0 - DigitsValue(k[1..])) else None
    else None
  }

  /**
   * On a canonical key, `_safe_int` gives the number whose `str` is the key back, unless
   * the key has more than `MaxStrDigits` digits, when it gives `None`.
   */
  lemma SafeIntOfKey(k: string)
    requires IsCanonical(k)
    ensures SafeInt(k).Some? <==> |k| <= MaxStrDigits
    ensures SafeInt(k).Some? ==> SafeInt(k).value >= 0 && IntToString(SafeInt(k).value) == k
  {
    CanonicalIsNatToString(k);
  }

  /** The same for the key of a negative int cell, `-` and canonical digits other than 0. */
  lemma SafeIntOfNegativeKey(k: string)
    requires |k| > 1 && k[0] == '-' && IsCanonical(k[1..]) && k[1..] != "0"
    ensures SafeInt(k).Some? <==> |k| - 1 <= MaxStrDigits
    ensures SafeInt(k).Some? ==> SafeInt(k).value < 0 && IntToString(SafeInt(k).value) == k
  {
    CanonicalIsNatToString(k[1..]);
    assert k == "-" + k[1..];
  }

  /** `c_ints`: the keys that parse as integers, in key order. */
  function KeyInts(keys: seq<string>): (r: seq<int>)
    ensures |r| <= |keys|
    ensures forall v :: v in r <==> exists i :: 0 <= i < |keys| && SafeInt(keys[i]) == Some(v)
  {
    if keys == [] then []
    else (match SafeInt(keys[0]) case Some(v) => [v] case None => []) + KeyInts(keys[1..])
  }

  function SeqMin(s: seq<int>): (m: int)
    requires s != []
    ensures m in s && forall x :: x in s ==> m <= x
  {
    if |s| == 1 then s[0]
    else
      var m := SeqMin(s[1..]);
      assert forall x :: x in s ==> x == s[0] || x in s[1..];
      if s[0] <= m then s[0] else m
  }

  function SeqMax(s: seq<int>): (m: int)
    requires s != []
    ensures m in s && forall x :: x in s ==> x <= m
  {
    if |s| == 1 then s[0]
    else
      var m := SeqMax(s[1..]);
      assert forall x :: x in s ==> x == s[0] || x in s[1..];
      if s[0] >= m then s[0] else m
  }

  lemma CustomersOfExtend(rows: seq<CustomerRow>, i: nat)
    requires i < |rows|
    ensures var prev := CustomersOf(rows[..i]); var c := rows[i];
      CustomersOf(rows[..i + 1]) ==
        if c.key == "" then prev
        else Customers(prev.info[c.key := c.info], prev.row[c.key := i + 2],
                       if c.key in prev.info then prev.order else prev.order + [c.key])
  {
    assert rows[..i + 1][..i] == rows[..i];
  }

  /**
   * The customer loop over rows `2 .. max_row`, each row as `CustomerRowAt` reads it:
   * rows without a key are skipped, and a key seen again overwrites the earlier entry.
   */
  method BuildCustomers(rows: seq<CustomerRow>) returns (c: Customers)
    ensures c == CustomersOf(rows)
  {
    var info: map<string, CustomerInfo>, rowById: map<string, nat>, order: seq<string> := map[], map[], [];
    var i := 0;
    while i < |rows|
      invariant 0 <= i <= |rows|
      invariant Customers(info, rowById, order) == CustomersOf(rows[..i])
    {
      CustomersOfExtend(rows, i);
      var cid := rows[i].key;
      if cid != "" {
        if cid !in info {
          order := order + [cid];
        }
        info := info[cid := rows[i].info];
        rowById := rowById[cid := i + 2];
      }
      i := i + 1;
    }
    assert rows[..|rows|] == rows;
    c := Customers(info, rowById, order);
  }

  // ---- join key ----

  datatype JoinSource = FromReporter | FromCliente | NoKey

  datatype JoinChoice = JoinChoice(key: string, source: JoinSource)

  /**
   * The key priority: the Reporter ID key when the reporter type is `customer`, else the
   * ID Cliente key, else the Reporter ID key, else none.
   */
  function ChooseJoinKey(rtype: string, reporter: string, cliente: string): (c: JoinChoice)
    ensures c.source == NoKey <==> c.key == ""
    ensures c.source == NoKey <==> reporter == "" && cliente == ""
    ensures c.source == FromReporter ==> c.key == reporter && (rtype == "customer" || cliente == "")
    ensures c.source == FromCliente ==> c.key == cliente && !(rtype == "customer" && reporter != "")
  {
    if rtype == "customer" && reporter != "" then JoinChoice(reporter, FromReporter)
    else if cliente != "" then JoinChoice(cliente, FromCliente)
    else if reporter != "" then JoinChoice(reporter, FromReporter)
    else JoinChoice("", NoKey)
  }

  // ---- ticket loop ----

  /** The ticket columns the loop reads; `fields` follows `TicketOutCols`. */
  datatype TicketCols = TicketCols(reporter: Option<nat>, rtype: Option<nat>, cliente: Option<nat>, fields: seq<Option<nat>>)

  /** What the loop decides for one ticket row. */
  datatype Outcome = Outcome(choice: JoinChoice, rtype: string, info: Option<CustomerInfo>)

  /** What the loop reads from one ticket row. */
  datatype TicketRow = TicketRow(rtype: string, reporter: string, cliente: string, fields: Row)

  /** `_norm_type`: `str(v or "").strip().lower()`. */
  function NormType(c: Cell): string
  {
    LowerAll(Strip(StrOr(c)))
  }

  /** The 27 ticket values of row `r`, `""` for a column the sheet lacks. */
  function TicketFields(ws: Sheet, tc: TicketCols, r: int): (row: Row)
    ensures |row| == |tc.fields|
    ensures forall i :: 0 <= i < |row| ==>
      row[i] == (if tc.fields[i].Some? then CellAt(ws, r, tc.fields[i].value) else Str(""))
  {
    seq(|tc.fields|, i requires 0 <= i < |tc.fields| =>
      if tc.fields[i].Some? then CellAt(ws, r, tc.fields[i].value) else Str(""))
  }

  function TicketRowAt(ws: Sheet, tc: TicketCols, r: int): TicketRow
  {
    TicketRow(if tc.rtype.Some? then NormType(CellAt(ws, r, tc.rtype.value)) else "",
              if tc.reporter.Some? then IdKey(CellAt(ws, r, tc.reporter.value)) else "",
              if tc.cliente.Some? then IdKey(CellAt(ws, r, tc.cliente.value)) else "",
              TicketFields(ws, tc, r))
  }

  /** The ticket rows `2 .. max_row`. */
  function TicketTable(ws: Sheet, tc: TicketCols): (t: seq<TicketRow>)
    ensures |t| == MaxRow(ws) - 1
  {
    seq(MaxRow(ws) - 1, i requires 0 <= i < MaxRow(ws) - 1 => TicketRowAt(ws, tc, i + 2))
  }

  /** The key a ticket joins on and the customer it finds. */
  function RowOutcome(t: TicketRow, cmap: map<string, CustomerInfo>): Outcome
  {
    var choice := ChooseJoinKey(t.rtype, t.reporter, t.cliente);
    Outcome(choice, t.rtype, if choice.key != "" && choice.key in cmap then Some(cmap[choice.key]) else None)
  }

  function InfoCells(info: CustomerInfo): (row: Row)
    ensures |row| == 3
  {
    [Str(info.servicio), Str(info.socio), Str(info.res)]
  }

  /** The counters of the loop. */
  datatype JoinStats = JoinStats(total: nat, joined: nat, notFound: nat, blank: nat,
                                 viaReporter: nat, viaCliente: nat,
                                 typeCustomer: nat, typeAdmin: nat, typeOther: nat)

  /** Everything the loop has produced: the two row lists, the counters and `not_found_counts`. */
  datatype JoinState = JoinState(out: seq<Row>, nf: seq<Row>, stats: JoinStats,
                                 counts: map<string, nat>, order: seq<string>)

  /** The reporter-type counters after one more row. */
  function TypeTally(s: JoinStats, rtype: string): JoinStats
  {
    if rtype == "customer" then s.(typeCustomer := s.typeCustomer + 1)
    else if rtype == "admin" then s.(typeAdmin := s.typeAdmin + 1)
    else if rtype != "" then s.(typeOther := s.typeOther + 1)
    else s
  }

  /** The key-source counters after one more row. */
  function SourceTally(s: JoinStats, source: JoinSource): JoinStats
  {
    match source
    case FromReporter => s.(viaReporter := s.viaReporter + 1)
    case FromCliente => s.(viaCliente := s.viaCliente + 1)
    case NoKey => s
  }

  /** The outcome counters after one more row. */
  function MatchTally(s: JoinStats, key: string, matched: bool): JoinStats
  {
    if matched then s.(joined := s.joined + 1)
    else if key == "" then s.(blank := s.blank + 1, notFound := s.notFound + 1)
    else s.(notFound := s.notFound + 1)
  }

  /** The counters after one more ticket row. */
  function Tally(s: JoinStats, o: Outcome): JoinStats
  {
    MatchTally(SourceTally(TypeTally(s.(total := s.total + 1), o.rtype), o.choice.source), o.choice.key, o.info.Some?)
  }

  /** Lines counting the reporter type of one row. */
  method CountReporterType(stats: JoinStats, reporterType: string) returns (s: JoinStats)
    ensures s == TypeTally(stats, reporterType)
  {
    s := stats;
    if reporterType == "customer" {
      s := s.(typeCustomer := s.typeCustomer + 1);
    } else if reporterType == "admin" {
      s := s.(typeAdmin := s.typeAdmin + 1);
    } else if reporterType != "" {
      s := s.(typeOther := s.typeOther + 1);
    }
  }

  /** Lines choosing the join key of one row and counting where it came from. */
  method SelectJoinId(stats: JoinStats, t: TicketRow) returns (joinId: string, s: JoinStats)
    ensures joinId == ChooseJoinKey(t.rtype, t.reporter, t.cliente).key
    ensures s == SourceTally(stats, ChooseJoinKey(t.rtype, t.reporter, t.cliente).source)
  {
    s := stats;
    joinId := "";
    if t.rtype == "customer" && t.reporter != "" {
      joinId := t.reporter;
      s := s.(viaReporter := s.viaReporter + 1);
    } else if t.cliente != "" {
      joinId := t.cliente;
      s := s.(viaCliente := s.viaCliente + 1);
    } else if t.reporter != "" {
      joinId := t.reporter;
      s := s.(viaReporter := s.viaReporter + 1);
    }
  }

  /** One turn of the loop body. */
  function JoinStep(st: JoinState, t: TicketRow, cmap: map<string, CustomerInfo>): JoinState
  {
    var o := RowOutcome(t, cmap);
    var k := o.choice.key;
    if o.info.Some? then
      JoinState(st.out + [t.fields + InfoCells(o.info.value)], st.nf, Tally(st.stats, o), st.counts, st.order)
    else
      JoinState(st.out, st.nf + [t.fields], Tally(st.stats, o),
                st.counts[k := (if k in st.counts then st.counts[k] else 0) + 1],
                if k in st.counts then st.order else st.order + [k])
  }

  /** The loop's state after the given ticket rows. */
  function JoinOf(rows: seq<TicketRow>, cmap: map<string, CustomerInfo>): JoinState
  {
    if rows == [] then JoinState([], [], JoinStats(0, 0, 0, 0, 0, 0, 0, 0, 0), map[], [])
    else JoinStep(JoinOf(rows[..|rows| - 1], cmap), rows[|rows| - 1], cmap)
  }

  lemma JoinOfExtend(rows: seq<TicketRow>, i: nat, cmap: map<string, CustomerInfo>)
    requires i < |rows|
    ensures JoinOf(rows[..i + 1], cmap) == JoinStep(JoinOf(rows[..i], cmap), rows[i], cmap)
  {
    assert rows[..i + 1][..i] == rows[..i];
  }

  /** The loop body for one ticket row: count it, choose its key, append it to one sheet. */
  method JoinRow(st: JoinState, t: TicketRow, cmap: map<string, CustomerInfo>) returns (next: JoinState)
    ensures next == JoinStep(st, t, cmap)
  {
    var stats := st.stats.(total := st.stats.total + 1);
    stats := CountReporterType(stats, t.rtype);
    var joinId;
    joinId, stats := SelectJoinId(stats, t);
    if joinId == "" || joinId !in cmap {
      if joinId == "" {
        stats := stats.(blank := stats.blank + 1);
      }
      stats := stats.(notFound := stats.notFound + 1);
      var order := if joinId in st.counts then st.order else st.order + [joinId];
      var counts := st.counts[joinId := (if joinId in st.counts then st.counts[joinId] else 0) + 1];
      next := JoinState(st.out, st.nf + [t.fields], stats, counts, order);
    } else {
      var extra := cmap[joinId];
      stats := stats.(joined := stats.joined + 1);
      next := JoinState(st.out + [t.fields + InfoCells(extra)], st.nf, stats, st.counts, st.order);
    }
  }

  /**
   * The ticket loop over rows `2 .. max_row`, each row as `TicketRowAt` reads it: the
   * counters, the choice of the key, and the row appended to one of the two sheets.
   */
  method JoinTickets(rows: seq<TicketRow>, cmap: map<string, CustomerInfo>) returns (st: JoinState)
    ensures st == JoinOf(rows, cmap)
  {
    st := JoinState([], [], JoinStats(0, 0, 0, 0, 0, 0, 0, 0, 0), map[], []);
    var i := 0;
    while i < |rows|
      invariant 0 <= i <= |rows|
      invariant st == JoinOf(rows[..i], cmap)
    {
      JoinOfExtend(rows, i, cmap);
      st := JoinRow(st, rows[i], cmap);
      i := i + 1;
    }
    assert rows[..|rows|] == rows;
  }

  // ---- column resolution ----

  /**
   * The ticket columns: `ID` is required, then at least one of `Reporter ID` and
   * `ID Cliente` must exist; each output column is looked up on its own.
   */
  function TicketColumns(tCols: map<string, nat>): (r: Result<TicketCols, MergeError>)
  {
    var id := Require(tCols, "ID");
    if id.Err? then Err(id.error)
    else
      var reporter := Optional(tCols, "Reporter ID");
      var cliente := Optional(tCols, "ID Cliente");
      if reporter.None? && cliente.None? then Err(NoJoinColumn)
      else Ok(TicketCols(reporter, Optional(tCols, "Reporter type"), cliente,
                         seq(|TicketOutCols|, i requires 0 <= i < |TicketOutCols| => Optional(tCols, TicketOutCols[i]))))
  }

  /** The customer columns: `ID`, `Socio` and `Residencia/Urbanización` are required, in this order. */
  function CustomerColumns(cCols: map<string, nat>): (r: Result<CustomerCols, MergeError>)
  {
    var id := Require(cCols, "ID");
    var socio := Require(cCols, "Socio");
    var res := Require(cCols, "Residencia/Urbanización");
    if id.Err? then Err(id.error)
    else if socio.Err? then Err(socio.error)
    else if res.Err? then Err(res.error)
    else Ok(CustomerCols(id.value, Optional(cCols, "Servicio usuario"), socio.value, res.value))
  }

  // ---- summary sheet ----

  /** `[(k, v) for k, v in not_found_counts.items() if k]`. */
  function Items(order: seq<string>, counts: map<string, nat>): (items: seq<Item>)
    requires forall k :: k in order ==> k in counts
    ensures |items| <= |order|
  {
    if order == [] then []
    else (if order[0] != "" then [Item(order[0], counts[order[0]])] else []) + Items(order[1..], counts)
  }

  /** One line of the unmatched list: key, count, an empty example cell, the customer row if known. */
  function ItemRow(it: Item, rowById: map<string, nat>): Row
  {
    [Str(it.key), Int(it.count), Str(""), if it.key in rowById then Int(rowById[it.key]) else Str("")]
  }

  /** The loop writing the unmatched list into the summary. */
  method AppendItemRows(rows: seq<Row>, top: seq<Item>, rowById: map<string, nat>) returns (res: seq<Row>)
    ensures |res| == |rows| + |top|
    ensures res[..|rows|] == rows
    ensures forall i :: 0 <= i < |top| ==> res[|rows| + i] == ItemRow(top[i], rowById)
  {
    res := rows;
    var i := 0;
    while i < |top|
      invariant 0 <= i <= |top|
      invariant |res| == |rows| + i && res[..|rows|] == rows
      invariant forall j :: 0 <= j < i ==> res[|rows| + j] == ItemRow(top[j], rowById)
    {
      res := res + [ItemRow(top[i], rowById)];
      i := i + 1;
    }
  }

  /** A label and a number. */
  function Metric(name: string, v: int): Row
  {
    [Str(name), Int(v)]
  }

  /** The summary rows written before the ticket loop. */
  function SummaryHead(ticketRows: int, customerRows: int, c: Customers): (rows: seq<Row>)
    ensures |rows| == 5 || |rows| == 7
  {
    var ints := KeyInts(c.order);
    [StrCells(["Métrica", "Valor"]),
     Metric("Tickets (filas en hoja)", ticketRows),
     Metric("Clientes (filas en hoja)", customerRows),
     Metric("Clientes (IDs únicos)", |c.info|),
     StrCells(["Join", "Tickets(Reporter ID/ID Cliente) -> Clientes(ID)"])] +
    (if ints != [] then [Metric("Clientes ID min", SeqMin(ints)), Metric("Clientes ID max", SeqMax(ints))] else [])
  }

  /** The summary rows written after the ticket loop, up to the header of the unmatched list. */
  function SummaryTail(s: JoinStats): (rows: seq<Row>)
    ensures |rows| == 8 || |rows| == 11
  {
    [Metric("Tickets total (procesados)", s.total),
     Metric("Coincidencias (join)", s.joined),
     Metric("No encontrados", s.notFound),
     Metric("Tickets sin ID para comparar", s.blank),
     Metric("Join usando Reporter ID", s.viaReporter),
     Metric("Join usando ID Cliente (fallback)", s.viaCliente)] +
    (if s.typeCustomer != 0 || s.typeAdmin != 0 || s.typeOther != 0 then
       [Metric("Reporter type = customer", s.typeCustomer),
        Metric("Reporter type = admin", s.typeAdmin),
        Metric("Reporter type = otros", s.typeOther)]
     else []) +
    [[Str("")],
     StrCells(["Top IDs no encontrados", "Conteo", "Ejemplo fila ticket", "Fila cliente (si existe)"])]
  }

  // ---- the whole function ----

  /** What a successful call leaves: the workbook to be saved and the three returned counters. */
  datatype MergeOutcome = MergeOutcome(wb: Workbook, total: nat, joined: nat, notFound: nat)

  /** `wb[name]`. */
  function SheetNamed(wb: Workbook, name: string): (r: Option<Sheet>)
    ensures r.Some? <==> name in Names(wb)
  {
    var i := IndexOf(wb, name);
    if i.Some? then Some(wb[i.value].sheet) else None
  }

  /** Removing the sheet called `name` if there is one, then creating a new one of that name at the end. */
  function Replace(wb: Workbook, name: string, sh: Sheet): (r: Workbook)
    ensures |r| > 0 && r[|r| - 1] == NamedSheet(name, sh)
  {
    RemoveSheet(wb, name) + [NamedSheet(name, sh)]
  }

  function OutputSheet(st: JoinState): Sheet
  {
    Sheet([StrCells(TicketOutCols + CustomerOutCols)] + st.out)
  }

  function NotFoundSheet(st: JoinState): Sheet
  {
    Sheet([StrCells(TicketOutCols)] + st.nf)
  }

  /** Every key listed in the insertion order of `not_found_counts` has a count. */
  predicate OrderInCounts(st: JoinState)
  {
    forall k :: k in st.order ==> k in st.counts
  }

  /** Every counted key is listed in the insertion order. */
  predicate CountsInOrder(st: JoinState)
  {
    forall k :: k in st.counts ==> k in st.order
  }

  /** The loop keeps the insertion order and the counter's keys the same. */
  lemma {:induction false} JoinOrderInCounts(rows: seq<TicketRow>, cmap: map<string, CustomerInfo>)
    ensures OrderInCounts(JoinOf(rows, cmap)) && CountsInOrder(JoinOf(rows, cmap))
  {
    if rows != [] {
      var prev := JoinOf(rows[..|rows| - 1], cmap);
      JoinOrderInCounts(rows[..|rows| - 1], cmap);
      var o := RowOutcome(rows[|rows| - 1], cmap);
      var key := o.choice.key;
      if o.info.None? && key !in prev.counts {
        assert JoinOf(rows, cmap).order == prev.order + [key];
      }
    }
  }

  function SummarySheet(ticketRows: int, customerRows: int, c: Customers, st: JoinState): Sheet
    requires OrderInCounts(st)
  {
    var top := Top(Items(st.order, st.counts));
    Sheet(SummaryHead(ticketRows, customerRows, c) + SummaryTail(st.stats) +
          seq(|top|, i requires 0 <= i < |top| => ItemRow(top[i], c.row)))
  }

  /** The workbook and counters once both sheets and all columns were found. */
  function Rebuild(wb: Workbook, names: MergeNames, wsT: Sheet, wsC: Sheet, tc: TicketCols, cc: CustomerCols): MergeOutcome
  {
    var c := CustomersOf(CustomerTable(wsC, cc));
    var rows := TicketTable(wsT, tc);
    var st := JoinOf(rows, c.info);
    JoinOrderInCounts(rows, c.info);
    var wb1 := Replace(wb, names.output, OutputSheet(st));
    var wb2 := Replace(wb1, names.notFound, NotFoundSheet(st));
    var wb3 := Replace(wb2, names.summary, SummarySheet(MaxRow(wsT) - 1, MaxRow(wsC) - 1, c, st));
    MergeOutcome(wb3, st.stats.total, st.stats.joined, st.stats.notFound)
  }

  /**
   * `merge_tickets_customers(excel_path, ...)`: `fileExists` is whether the path exists
   * and `wb` the workbook loaded from it.
   */
  function MergeSpec(fileExists: bool, wb: Workbook, names: MergeNames): Result<MergeOutcome, MergeError>
  {
    if !fileExists then Err(FileNotFound)
    else
      var wsT := SheetNamed(wb, names.tickets);
      var wsC := SheetNamed(wb, names.customers);
      if wsT.None? then Err(MissingSheet(names.tickets))
      else if wsC.None? then Err(MissingSheet(names.customers))
      else
        var tc := TicketColumns(ColumnsOf(HeaderKeys(wsT.value)));
        var cc := CustomerColumns(ColumnsOf(HeaderKeys(wsC.value)));
        if tc.Err? then Err(tc.error)
        else if cc.Err? then Err(cc.error)
        else Ok(Rebuild(wb, names, wsT.value, wsC.value, tc.value, cc.value))
  }

  /** Resolving the ticket columns from the sheet's header row. */
  method ResolveTicketColumns(ws: Sheet) returns (r: Result<TicketCols, MergeError>)
    ensures r == TicketColumns(ColumnsOf(HeaderKeys(ws)))
  {
    var tCols := GetSheetColumns(ws);
    var id := Require(tCols, "ID");
    if id.Err? {
      return Err(id.error);
    }
    var reporter := Optional(tCols, "Reporter ID");
    var rtype := Optional(tCols, "Reporter type");
    var cliente := Optional(tCols, "ID Cliente");
    if reporter.None? && cliente.None? {
      return Err(NoJoinColumn);
    }
    var fields := seq(|TicketOutCols|, i requires 0 <= i < |TicketOutCols| => Optional(tCols, TicketOutCols[i]));
    r := Ok(TicketCols(reporter, rtype, cliente, fields));
  }

  /** Resolving the customer columns from the sheet's header row. */
  method ResolveCustomerColumns(ws: Sheet) returns (r: Result<CustomerCols, MergeError>)
    ensures r == CustomerColumns(ColumnsOf(HeaderKeys(ws)))
  {
    var cCols := GetSheetColumns(ws);
    var id := Require(cCols, "ID");
    if id.Err? {
      return Err(id.error);
    }
    var servicio := Optional(cCols, "Servicio usuario");
    var socio := Require(cCols, "Socio");
    if socio.Err? {
      return Err(socio.error);
    }
    var res := Require(cCols, "Residencia/Urbanización");
    if res.Err? {
      return Err(res.error);
    }
    r := Ok(CustomerCols(id.value, servicio, socio.value, res.value));
  }

  /** The summary rows in the order they are appended. */
  method BuildSummary(ticketRows: int, customerRows: int, c: Customers, st: JoinState) returns (sh: Sheet)
    requires OrderInCounts(st)
    ensures sh == SummarySheet(ticketRows, customerRows, c, st)
  {
    var rows := SummaryHead(ticketRows, customerRows, c);
    rows := rows + SummaryTail(st.stats);
    var items := Items(st.order, st.counts);
    var top := Top(items);
    var res := AppendItemRows(rows, top, c.row);
    ItemRowsAppended(rows, top, c.row, res);
    sh := Sheet(res);
  }

  /** What the loop leaves behind is the earlier rows followed by one row per item. */
  lemma ItemRowsAppended(rows: seq<Row>, top: seq<Item>, rowById: map<string, nat>, res: seq<Row>)
    requires |res| == |rows| + |top| && res[..|rows|] == rows
    requires forall i :: 0 <= i < |top| ==> res[|rows| + i] == ItemRow(top[i], rowById)
    ensures res == rows + seq(|top|, i requires 0 <= i < |top| => ItemRow(top[i], rowById))
  {
  }

  /** The method as a whole: the checks in order, both loops, and the three sheets recreated. */
  method Merge(fileExists: bool, wb: Workbook, names: MergeNames) returns (r: Result<MergeOutcome, MergeError>)
    ensures r == MergeSpec(fileExists, wb, names)
  {
    if !fileExists {
      return Err(FileNotFound);
    }
    var wsT := SheetNamed(wb, names.tickets);
    if wsT.None? {
      return Err(MissingSheet(names.tickets));
    }
    var wsC := SheetNamed(wb, names.customers);
    if wsC.None? {
      return Err(MissingSheet(names.customers));
    }
    var tc := ResolveTicketColumns(wsT.value);
    if tc.Err? {
      return Err(tc.error);
    }
    var cc := ResolveCustomerColumns(wsC.value);
    if cc.Err? {
      return Err(cc.error);
    }
    var c := BuildCustomers(CustomerTable(wsC.value, cc.value));
    var rows := TicketTable(wsT.value, tc.value);
    var st := JoinTickets(rows, c.info);
    JoinOrderInCounts(rows, c.info);
    var out := Replace(wb, names.output, OutputSheet(st));
    out := Replace(out, names.notFound, NotFoundSheet(st));
    var summary := BuildSummary(MaxRow(wsT.value) - 1, MaxRow(wsC.value) - 1, c, st);
    out := Replace(out, names.summary, summary);
    r := Ok(MergeOutcome(out, st.stats.total, st.stats.joined, st.stats.notFound));
  }
}
