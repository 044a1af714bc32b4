/**
 * What `merge_tickets_customers` guarantees, stated over the model in `merge.dfy`: the
 * counters balance, `not_found_counts` counts each unmatched key exactly, the summary's
 * customer-row column is always blank, the errors come in the documented order, and the
 * rebuilt workbook keeps every other sheet.
 */
module MergeProperties {
  import opened Wrappers
  import opened Text
  import opened Sheets
  import opened IdKeys
  import opened MergeSummary
  import opened Merge

  // ---- the ticket loop ----

  /** The counters after the loop, taken together. */
  predicate Balanced(st: JoinState, n: nat)
  {
    var s := st.stats;
    s.total == n && s.joined + s.notFound == s.total && |st.out| == s.joined && |st.nf| == s.notFound
    && s.viaReporter + s.viaCliente + s.blank == s.total
    && s.typeCustomer + s.typeAdmin + s.typeOther <= s.total
    && s.blank <= s.notFound
  }

  /** One more row keeps the counters balanced. */
  lemma JoinStepBalanced(st: JoinState, t: TicketRow, cmap: map<string, CustomerInfo>, n: nat)
    requires Balanced(st, n)
    ensures Balanced(JoinStep(st, t, cmap), n + 1)
  {
    var o := RowOutcome(t, cmap);
    var s := Tally(st.stats, o);
    TallyBalanced(st.stats, o, n, s);
    if o.info.Some? {
      assert JoinStep(st, t, cmap).out == st.out + [t.fields + InfoCells(o.info.value)];
      assert JoinStep(st, t, cmap).nf == st.nf;
    } else {
      assert JoinStep(st, t, cmap).out == st.out;
      assert JoinStep(st, t, cmap).nf == st.nf + [t.fields];
    }
    assert JoinStep(st, t, cmap).stats == s;
  }

  /** The counters after one more row, given the counters of a balanced state. */
  lemma TallyBalanced(s0: JoinStats, o: Outcome, n: nat, s: JoinStats)
    requires s0.total == n && s0.joined + s0.notFound == n && s0.viaReporter + s0.viaCliente + s0.blank == n
    requires s0.typeCustomer + s0.typeAdmin + s0.typeOther <= n && s0.blank <= s0.notFound
    requires o.choice.source == NoKey <==> o.choice.key == ""
    requires o.choice.key == "" ==> o.info.None?
    requires s == Tally(s0, o)
    ensures s.total == n + 1 && s.joined + s.notFound == n + 1 && s.viaReporter + s.viaCliente + s.blank == n + 1
    ensures s.typeCustomer + s.typeAdmin + s.typeOther <= n + 1 && s.blank <= s.notFound
    ensures s.joined == s0.joined + (if o.info.Some? then 1 else 0)
    ensures s.notFound == s0.notFound + (if o.info.Some? then 0 else 1)
  {
    var s1 := s0.(total := s0.total + 1);
    var s2 := TypeTally(s1, o.rtype);
    TypeTallyCounts(s1, o.rtype, s2);
    var s3 := SourceTally(s2, o.choice.source);
    SourceTallyCounts(s2, o.choice.source, s3);
    MatchTallyCounts(s3, o.choice.key, o.info.Some?, s);
  }

  /** Counting a reporter type adds at most one to the type counters and nothing else. */
  lemma TypeTallyCounts(s: JoinStats, rtype: string, r: JoinStats)
    requires r == TypeTally(s, rtype)
    ensures r.typeCustomer + r.typeAdmin + r.typeOther <= s.typeCustomer + s.typeAdmin + s.typeOther + 1
    ensures r.(typeCustomer := s.typeCustomer, typeAdmin := s.typeAdmin, typeOther := s.typeOther) == s
  {
  }

  /** Counting a key source adds one to the source counters exactly when there is a key. */
  lemma SourceTallyCounts(s: JoinStats, source: JoinSource, r: JoinStats)
    requires r == SourceTally(s, source)
    ensures r.viaReporter + r.viaCliente == s.viaReporter + s.viaCliente + (if source == NoKey then 0 else 1)
    ensures r.(viaReporter := s.viaReporter, viaCliente := s.viaCliente) == s
  {
  }

  /** Counting the outcome adds one to `joined` or to `notFound`, and blank keys to `blank`. */
  lemma MatchTallyCounts(s: JoinStats, key: string, matched: bool, r: JoinStats)
    requires r == MatchTally(s, key, matched)
    ensures r.joined == s.joined + (if matched then 1 else 0)
    ensures r.notFound == s.notFound + (if matched then 0 else 1)
    ensures r.blank == s.blank + (if !matched && key == "" then 1 else 0)
    ensures r.(joined := s.joined, notFound := s.notFound, blank := s.blank) == s
  {
  }

  /**
   * Every ticket row is counted once and lands in exactly one of the two sheets; every
   * row gets its key from exactly one source or is blank; blank rows are unmatched.
   */
  lemma {:induction false} JoinCountersBalance(rows: seq<TicketRow>, cmap: map<string, CustomerInfo>)
    ensures Balanced(JoinOf(rows, cmap), |rows|)
  {
    if rows != [] {
      JoinCountersBalance(rows[..|rows| - 1], cmap);
      JoinStepBalanced(JoinOf(rows[..|rows| - 1], cmap), rows[|rows| - 1], cmap, |rows| - 1);
    }
  }

  /** The output rows have `n + 3` cells and the not-found rows `n`. */
  predicate Shaped(st: JoinState, n: nat)
  {
    (forall i :: 0 <= i < |st.out| ==> |st.out[i]| == n + 3) &&
    (forall i :: 0 <= i < |st.nf| ==> |st.nf[i]| == n)
  }

  /** Joined rows are three cells wider than the ticket rows; unmatched rows keep the ticket rows' width. */
  lemma {:induction false} JoinRowShapes(rows: seq<TicketRow>, cmap: map<string, CustomerInfo>, n: nat)
    requires forall i :: 0 <= i < |rows| ==> |rows[i].fields| == n
    ensures Shaped(JoinOf(rows, cmap), n)
  {
    if rows != [] {
      var prev := JoinOf(rows[..|rows| - 1], cmap);
      JoinRowShapes(rows[..|rows| - 1], cmap, n);
      var t := rows[|rows| - 1];
      var st := JoinStep(prev, t, cmap);
      assert |t.fields| == n;
      if RowOutcome(t, cmap).info.Some? {
        assert st.out == prev.out + [t.fields + InfoCells(RowOutcome(t, cmap).info.value)];
      } else {
        assert st.nf == prev.nf + [t.fields];
      }
    }
  }

  /** What one ticket contributes to the output sheet: its values and its customer's three, when matched. */
  function MatchedPart(t: TicketRow, cmap: map<string, CustomerInfo>): seq<Row>
  {
    var o := RowOutcome(t, cmap);
    if o.info.Some? then [t.fields + InfoCells(o.info.value)] else []
  }

  /** What one ticket contributes to the not-found sheet: its values, when unmatched. */
  function UnmatchedPart(t: TicketRow, cmap: map<string, CustomerInfo>): seq<Row>
  {
    if RowOutcome(t, cmap).info.None? then [t.fields] else []
  }

  /** The output rows, front to back: the matched tickets in sheet order. */
  function MatchedRows(rows: seq<TicketRow>, cmap: map<string, CustomerInfo>): seq<Row>
  {
    if rows == [] then [] else MatchedPart(rows[0], cmap) + MatchedRows(rows[1..], cmap)
  }

  /** The not-found rows, front to back: the unmatched tickets in sheet order. */
  function UnmatchedRows(rows: seq<TicketRow>, cmap: map<string, CustomerInfo>): seq<Row>
  {
    if rows == [] then [] else UnmatchedPart(rows[0], cmap) + UnmatchedRows(rows[1..], cmap)
  }

  /** Adding a ticket at the end adds its output row, if any, at the end. */
  lemma {:induction false} MatchedRowsSnoc(rows: seq<TicketRow>, t: TicketRow, cmap: map<string, CustomerInfo>)
    ensures MatchedRows(rows + [t], cmap) == MatchedRows(rows, cmap) + MatchedPart(t, cmap)
  {
    if rows == [] {
      assert [t][1..] == [];
    } else {
      assert (rows + [t])[1..] == rows[1..] + [t];
      MatchedRowsSnoc(rows[1..], t, cmap);
    }
  }

  /** Adding a ticket at the end adds its not-found row, if any, at the end. */
  lemma {:induction false} UnmatchedRowsSnoc(rows: seq<TicketRow>, t: TicketRow, cmap: map<string, CustomerInfo>)
    ensures UnmatchedRows(rows + [t], cmap) == UnmatchedRows(rows, cmap) + UnmatchedPart(t, cmap)
  {
    if rows == [] {
      assert [t][1..] == [];
    } else {
      assert (rows + [t])[1..] == rows[1..] + [t];
      UnmatchedRowsSnoc(rows[1..], t, cmap);
    }
  }

  /**
   * The output sheet's data rows are exactly the matched tickets, in sheet order, each
   * as its values followed by its customer's Servicio, Socio and Residencia; the
   * not-found sheet's are exactly the unmatched tickets' values, in sheet order.
   */
  lemma {:induction false} JoinRowsInOrder(rows: seq<TicketRow>, cmap: map<string, CustomerInfo>)
    ensures JoinOf(rows, cmap).out == MatchedRows(rows, cmap)
    ensures JoinOf(rows, cmap).nf == UnmatchedRows(rows, cmap)
  {
    if rows != [] {
      var init := rows[..|rows| - 1];
      var t := rows[|rows| - 1];
      JoinRowsInOrder(init, cmap);
      MatchedRowsSnoc(init, t, cmap);
      UnmatchedRowsSnoc(init, t, cmap);
      assert init + [t] == rows;
    }
  }

  /** How many of the rows end unmatched with join key `k`. */
  function Unmatched(rows: seq<TicketRow>, cmap: map<string, CustomerInfo>, k: string): (n: nat)
    ensures n <= |rows|
  {
    if rows == [] then 0
    else
      var o := RowOutcome(rows[|rows| - 1], cmap);
      Unmatched(rows[..|rows| - 1], cmap, k) + (if o.info.None? && o.choice.key == k then 1 else 0)
  }

  /**
   * `not_found_counts[k]` is the number of unmatched rows whose key is `k` (the empty key
   * counting the rows with no key at all), a key is present iff it has such a row, and a
   * non-empty counted key is not a customer.
   */
  lemma {:induction false} NotFoundCountsExact(rows: seq<TicketRow>, cmap: map<string, CustomerInfo>, k: string)
    ensures var st := JoinOf(rows, cmap);
      (k in st.counts <==> Unmatched(rows, cmap, k) > 0) &&
      (k in st.counts ==> st.counts[k] == Unmatched(rows, cmap, k)) &&
      (k in st.counts && k != "" ==> k !in cmap)
  {
    if rows != [] {
      NotFoundCountsExact(rows[..|rows| - 1], cmap, k);
    }
  }

  predicate Distinct(s: seq<string>)
  {
    forall i, j :: 0 <= i < j < |s| ==> s[i] != s[j]
  }

  /** The sum of the counts of the listed keys. */
  function SumOver(order: seq<string>, m: map<string, nat>): nat
    requires forall k :: k in order ==> k in m
  {
    if order == [] then 0 else SumOver(order[..|order| - 1], m) + m[order[|order| - 1]]
  }

  lemma {:induction false} SumOverUnchanged(order: seq<string>, m: map<string, nat>, k: string, v: nat)
    requires forall x :: x in order ==> x in m
    requires k !in order
    ensures SumOver(order, m[k := v]) == SumOver(order, m)
  {
    if order != [] {
      assert forall x :: x in order[..|order| - 1] ==> x in order;
      SumOverUnchanged(order[..|order| - 1], m, k, v);
    }
  }

  lemma {:induction false} SumOverIncrement(order: seq<string>, m: map<string, nat>, k: string)
    requires forall x :: x in order ==> x in m
    requires Distinct(order) && k in order
    ensures SumOver(order, m[k := m[k] + 1]) == SumOver(order, m) + 1
  {
    var init := order[..|order| - 1];
    assert forall x :: x in init ==> x in order;
    if order[|order| - 1] == k {
      SumOverUnchanged(init, m, k, m[k] + 1);
    } else {
      assert k in init by {
        var i :| 0 <= i < |order| && order[i] == k;
        assert i < |order| - 1 && init[i] == k;
      }
      SumOverIncrement(init, m, k);
    }
  }

  /** The counter's keys, listed once each, with counts adding up to `not_found`. */
  predicate CountsSum(st: JoinState)
  {
    OrderInCounts(st) && CountsInOrder(st) && Distinct(st.order) && SumOver(st.order, st.counts) == st.stats.notFound
  }

  /** One more row keeps the counts adding up. */
  lemma JoinStepCountsSum(st: JoinState, t: TicketRow, cmap: map<string, CustomerInfo>)
    requires CountsSum(st)
    ensures CountsSum(JoinStep(st, t, cmap))
  {
    var next := JoinStep(st, t, cmap);
    var o := RowOutcome(t, cmap);
    var k := o.choice.key;
    if o.info.None? {
      if k in st.counts {
        SumOverIncrement(st.order, st.counts, k);
      } else {
        assert next.order == st.order + [k];
        assert next.order[..|next.order| - 1] == st.order;
        SumOverUnchanged(st.order, st.counts, k, 1);
      }
    }
  }

  /** The insertion order of `not_found_counts` lists each key once, and the counts add up to `not_found`. */
  lemma {:induction false} NotFoundCountsSum(rows: seq<TicketRow>, cmap: map<string, CustomerInfo>)
    ensures CountsSum(JoinOf(rows, cmap))
  {
    if rows != [] {
      NotFoundCountsSum(rows[..|rows| - 1], cmap);
      JoinStepCountsSum(JoinOf(rows[..|rows| - 1], cmap), rows[|rows| - 1], cmap);
    }
  }

  // ---- the summary ----

  /** The item list holds exactly the non-empty counted keys, each with its count. */
  lemma {:induction false} ItemsAreCountedKeys(order: seq<string>, counts: map<string, nat>, it: Item)
    requires forall k :: k in order ==> k in counts
    ensures it in Items(order, counts) <==> it.key in order && it.key != "" && it.count == counts[it.key]
  {
    if order != [] {
      assert forall k :: k in order[1..] ==> k in order;
      ItemsAreCountedKeys(order[1..], counts, it);
      assert order == [order[0]] + order[1..];
    }
  }

  /**
   * The "Fila cliente (si existe)" cell of every listed key is blank: a listed key is an
   * unmatched non-empty key, so it is not in `customer_map`, and `customer_row_by_id`
   * has the same keys.
   */
  lemma RowRefAlwaysBlank(crows: seq<CustomerRow>, rows: seq<TicketRow>, it: Item)
    requires var st := JoinOf(rows, CustomersOf(crows).info);
      OrderInCounts(st) && it in multiset(Top(Items(st.order, st.counts)))
    ensures ItemRow(it, CustomersOf(crows).row)[3] == Str("")
  {
    var c := CustomersOf(crows);
    var st := JoinOf(rows, c.info);
    var items := Items(st.order, st.counts);
    TopKeepsHighest(items);
    assert it in items;
    ItemsAreCountedKeys(st.order, st.counts, it);
    JoinOrderInCounts(rows, c.info);
    NotFoundCountsExact(rows, c.info, it.key);
    CustomerLookupLastWins(crows, it.key);
  }

  // ---- the whole function ----

  /** The conditions under which the function gets past all its checks. */
  predicate Accepted(fileExists: bool, wb: Workbook, names: MergeNames)
  {
    fileExists && SheetNamed(wb, names.tickets).Some? && SheetNamed(wb, names.customers).Some? &&
    var wsT := SheetNamed(wb, names.tickets).value;
    var wsC := SheetNamed(wb, names.customers).value;
    Column(wsT, "ID").Some? && (Column(wsT, "Reporter ID").Some? || Column(wsT, "ID Cliente").Some?) &&
    Column(wsC, "ID").Some? && Column(wsC, "Socio").Some? && Column(wsC, "Residencia/Urbanización").Some?
  }

  /** The ticket columns resolve iff `ID` and one of `Reporter ID`/`ID Cliente` are headers. */
  lemma TicketColumnsFound(ws: Sheet)
    ensures TicketColumns(ColumnsOf(HeaderKeys(ws))).Ok? <==>
      Column(ws, "ID").Some? && (Column(ws, "Reporter ID").Some? || Column(ws, "ID Cliente").Some?)
  {
    LookupIsColumn(ws, "ID");
    LookupIsColumn(ws, "Reporter ID");
    LookupIsColumn(ws, "ID Cliente");
  }

  /** The customer columns resolve iff `ID`, `Socio` and `Residencia/Urbanización` are headers. */
  lemma CustomerColumnsFound(ws: Sheet)
    ensures CustomerColumns(ColumnsOf(HeaderKeys(ws))).Ok? <==>
      Column(ws, "ID").Some? && Column(ws, "Socio").Some? && Column(ws, "Residencia/Urbanización").Some?
  {
    LookupIsColumn(ws, "ID");
    LookupIsColumn(ws, "Socio");
    LookupIsColumn(ws, "Residencia/Urbanización");
  }

  /**
   * The function succeeds exactly when the file exists, both sheets exist, the tickets have
   * `ID` and one of `Reporter ID`/`ID Cliente`, and the customers have `ID`, `Socio` and
   * `Residencia/Urbanización`.
   */
  lemma MergeAccepts(fileExists: bool, wb: Workbook, names: MergeNames)
    ensures MergeSpec(fileExists, wb, names).Ok? <==> Accepted(fileExists, wb, names)
  {
    if fileExists && SheetNamed(wb, names.tickets).Some? && SheetNamed(wb, names.customers).Some? {
      TicketColumnsFound(SheetNamed(wb, names.tickets).value);
      CustomerColumnsFound(SheetNamed(wb, names.customers).value);
    }
  }

  /** Otherwise it fails with the first check that does not hold, in the order the function makes them. */
  lemma MergeErrorOrder(fileExists: bool, wb: Workbook, names: MergeNames)
    ensures !fileExists ==> MergeSpec(fileExists, wb, names) == Err(FileNotFound)
    ensures fileExists && SheetNamed(wb, names.tickets).None? ==>
      MergeSpec(fileExists, wb, names) == Err(MissingSheet(names.tickets))
    ensures fileExists && SheetNamed(wb, names.tickets).Some? && SheetNamed(wb, names.customers).None? ==>
      MergeSpec(fileExists, wb, names) == Err(MissingSheet(names.customers))
    ensures fileExists && SheetNamed(wb, names.tickets).Some? && SheetNamed(wb, names.customers).Some? ==>
      var wsT := SheetNamed(wb, names.tickets).value;
      (Column(wsT, "ID").None? ==> MergeSpec(fileExists, wb, names) == Err(MissingColumn("ID"))) &&
      (Column(wsT, "ID").Some? && Column(wsT, "Reporter ID").None? && Column(wsT, "ID Cliente").None? ==>
         MergeSpec(fileExists, wb, names) == Err(NoJoinColumn))
    ensures fileExists && SheetNamed(wb, names.tickets).Some? && SheetNamed(wb, names.customers).Some? ==>
      var wsT := SheetNamed(wb, names.tickets).value;
      var wsC := SheetNamed(wb, names.customers).value;
      Column(wsT, "ID").Some? && (Column(wsT, "Reporter ID").Some? || Column(wsT, "ID Cliente").Some?) ==>
        (Column(wsC, "ID").None? ==> MergeSpec(fileExists, wb, names) == Err(MissingColumn("ID"))) &&
        (Column(wsC, "ID").Some? && Column(wsC, "Socio").None? ==>
           MergeSpec(fileExists, wb, names) == Err(MissingColumn("Socio"))) &&
        (Column(wsC, "ID").Some? && Column(wsC, "Socio").Some? && Column(wsC, "Residencia/Urbanización").None? ==>
           MergeSpec(fileExists, wb, names) == Err(MissingColumn("Residencia/Urbanización")))
  {
    if fileExists && SheetNamed(wb, names.tickets).Some? && SheetNamed(wb, names.customers).Some? {
      var wsT := SheetNamed(wb, names.tickets).value;
      var wsC := SheetNamed(wb, names.customers).value;
      LookupIsColumn(wsT, "ID");
      LookupIsColumn(wsT, "Reporter ID");
      LookupIsColumn(wsT, "ID Cliente");
      CustomerColumnErrors(wsC);
    }
  }

  /** The customer columns are required in order: ID, then Socio, then Residencia/Urbanización. */
  lemma CustomerColumnErrors(wsC: Sheet)
    ensures var cc := CustomerColumns(ColumnsOf(HeaderKeys(wsC)));
      (Column(wsC, "ID").None? ==> cc == Err(MissingColumn("ID"))) &&
      (Column(wsC, "ID").Some? && Column(wsC, "Socio").None? ==> cc == Err(MissingColumn("Socio"))) &&
      (Column(wsC, "ID").Some? && Column(wsC, "Socio").Some? && Column(wsC, "Residencia/Urbanización").None? ==>
         cc == Err(MissingColumn("Residencia/Urbanización")))
  {
    LookupIsColumn(wsC, "ID");
    LookupIsColumn(wsC, "Socio");
    LookupIsColumn(wsC, "Residencia/Urbanización");
  }

  /** The returned counters: every data row of the ticket sheet is processed, and each is joined or not found. */
  lemma MergeCounts(fileExists: bool, wb: Workbook, names: MergeNames)
    requires MergeSpec(fileExists, wb, names).Ok?
    ensures var o := MergeSpec(fileExists, wb, names).value;
      o.total == MaxRow(SheetNamed(wb, names.tickets).value) - 1 && o.joined + o.notFound == o.total
  {
    var wsT := SheetNamed(wb, names.tickets).value;
    var wsC := SheetNamed(wb, names.customers).value;
    var tc := TicketColumns(ColumnsOf(HeaderKeys(wsT))).value;
    var cc := CustomerColumns(ColumnsOf(HeaderKeys(wsC))).value;
    JoinCountersBalance(TicketTable(wsT, tc), CustomersOf(CustomerTable(wsC, cc)).info);
  }

  // ---- the recreated sheets ----

  /** Replacing one sheet leaves the sheet found under any other name unchanged. */
  lemma ReplaceKeepsOthers(wb: Workbook, a: string, sh: Sheet, b: string)
    requires a != b
    ensures SheetNamed(Replace(wb, a, sh), b) == SheetNamed(wb, b)
  {
    var r := RemoveSheet(wb, a);
    RemoveKeepsOthers(wb, a, b);
    var w := r + [NamedSheet(a, sh)];
    match IndexOf(r, b)
    case None =>
      assert forall l :: 0 <= l < |w| ==> w[l].name != b;
    case Some(j) =>
      IndexOfFirst(w, b, j);
  }

  /** With unique names, the replaced sheet is found under its name, and names stay unique. */
  lemma ReplaceFinds(wb: Workbook, a: string, sh: Sheet)
    requires UniqueNames(wb)
    ensures UniqueNames(Replace(wb, a, sh))
    ensures SheetNamed(Replace(wb, a, sh), a) == Some(sh)
  {
    var r := RemoveSheet(wb, a);
    RemoveUnique(wb, a);
    var w := r + [NamedSheet(a, sh)];
    IndexOfFirst(w, a, |r|);
  }

  /**
   * Every sheet whose name is none of the three output names comes through unchanged,
   * the ticket and customer sheets included.
   */
  lemma MergeKeepsOtherSheets(fileExists: bool, wb: Workbook, names: MergeNames, name: string)
    requires MergeSpec(fileExists, wb, names).Ok?
    requires name != names.output && name != names.notFound && name != names.summary
    ensures SheetNamed(MergeSpec(fileExists, wb, names).value.wb, name) == SheetNamed(wb, name)
  {
    var wsT := SheetNamed(wb, names.tickets).value;
    var wsC := SheetNamed(wb, names.customers).value;
    var tc := TicketColumns(ColumnsOf(HeaderKeys(wsT))).value;
    var cc := CustomerColumns(ColumnsOf(HeaderKeys(wsC))).value;
    var c := CustomersOf(CustomerTable(wsC, cc));
    var st := JoinOf(TicketTable(wsT, tc), c.info);
    JoinOrderInCounts(TicketTable(wsT, tc), c.info);
    var wb1 := Replace(wb, names.output, OutputSheet(st));
    var wb2 := Replace(wb1, names.notFound, NotFoundSheet(st));
    ReplaceKeepsOthers(wb, names.output, OutputSheet(st), name);
    ReplaceKeepsOthers(wb1, names.notFound, NotFoundSheet(st), name);
    ReplaceKeepsOthers(wb2, names.summary, SummarySheet(MaxRow(wsT) - 1, MaxRow(wsC) - 1, c, st), name);
  }

  /** The header rows of the two data sheets and the number of data rows each gets. */
  predicate DataSheets(o: Sheet, nf: Sheet, joined: nat, notFound: nat)
  {
    |o.rows| == joined + 1 && o.rows[0] == StrCells(TicketOutCols + CustomerOutCols) &&
    (forall i :: 1 <= i < |o.rows| ==> |o.rows[i]| == 30) &&
    |nf.rows| == notFound + 1 && nf.rows[0] == StrCells(TicketOutCols) &&
    (forall i :: 1 <= i < |nf.rows| ==> |nf.rows[i]| == 27)
  }

  /** The two data sheets built from a balanced, well-shaped loop state. */
  lemma DataSheetsOf(st: JoinState, n: nat)
    requires Balanced(st, n) && Shaped(st, 27)
    ensures DataSheets(OutputSheet(st), NotFoundSheet(st), st.stats.joined, st.stats.notFound)
  {
    var os, ns := OutputSheet(st), NotFoundSheet(st);
    assert forall i :: 1 <= i < |os.rows| ==> os.rows[i] == st.out[i - 1];
    assert forall i :: 1 <= i < |ns.rows| ==> ns.rows[i] == st.nf[i - 1];
  }

  /** Three replacements under distinct names: each sheet is found under its own name. */
  lemma ReplaceThree(wb: Workbook, a: string, sa: Sheet, b: string, sb: Sheet, c: string, sc: Sheet)
    requires UniqueNames(wb) && a != b && a != c && b != c
    ensures var w := Replace(Replace(Replace(wb, a, sa), b, sb), c, sc);
      UniqueNames(w) && SheetNamed(w, a) == Some(sa) && SheetNamed(w, b) == Some(sb) && SheetNamed(w, c) == Some(sc)
  {
    var wb1 := Replace(wb, a, sa);
    var wb2 := Replace(wb1, b, sb);
    ReplaceFinds(wb, a, sa);
    ReplaceFinds(wb1, b, sb);
    ReplaceFinds(wb2, c, sc);
    ReplaceKeepsOthers(wb1, b, sb, a);
    ReplaceKeepsOthers(wb2, c, sc, a);
    ReplaceKeepsOthers(wb2, c, sc, b);
  }

  /** Every ticket row carries one value per looked-up output column. */
  lemma TicketRowsWidth(ws: Sheet, tc: TicketCols)
    ensures var rows := TicketTable(ws, tc);
      forall i :: 0 <= i < |rows| ==> |rows[i].fields| == |tc.fields|
  {
    var rows := TicketTable(ws, tc);
    forall i | 0 <= i < |rows| ensures |rows[i].fields| == |tc.fields| {
      assert rows[i].fields == TicketFields(ws, tc, i + 2);
    }
  }

  /**
   * With unique sheet names and three distinct output names, the output sheet holds the
   * 30-column header and one 30-cell row per joined ticket, the not-found sheet the
   * 27-column header and one row per unmatched ticket, and the summary sheet exists.
   */
  lemma MergeWritesSheets(fileExists: bool, wb: Workbook, names: MergeNames)
    requires MergeSpec(fileExists, wb, names).Ok? && UniqueNames(wb)
    requires names.output != names.notFound && names.output != names.summary && names.notFound != names.summary
    ensures var o := MergeSpec(fileExists, wb, names).value;
      UniqueNames(o.wb) && SheetNamed(o.wb, names.output).Some? && SheetNamed(o.wb, names.notFound).Some? &&
      SheetNamed(o.wb, names.summary).Some? &&
      DataSheets(SheetNamed(o.wb, names.output).value, SheetNamed(o.wb, names.notFound).value, o.joined, o.notFound)
  {
    var wsT := SheetNamed(wb, names.tickets).value;
    var wsC := SheetNamed(wb, names.customers).value;
    var tc := TicketColumns(ColumnsOf(HeaderKeys(wsT))).value;
    var cc := CustomerColumns(ColumnsOf(HeaderKeys(wsC))).value;
    TicketColumnsWidth(ColumnsOf(HeaderKeys(wsT)));
    assert MergeSpec(fileExists, wb, names).value == Rebuild(wb, names, wsT, wsC, tc, cc);
    RebuildWritesSheets(wb, names, wsT, wsC, tc, cc);
  }

  /** Resolved ticket columns hold one entry per copied ticket column. */
  lemma TicketColumnsWidth(tCols: map<string, nat>)
    requires TicketColumns(tCols).Ok?
    ensures |TicketColumns(tCols).value.fields| == |TicketOutCols|
  {
  }

  /** `MergeWritesSheets` for the rebuilt workbook, once the sheets and columns were found. */
  lemma RebuildWritesSheets(wb: Workbook, names: MergeNames, wsT: Sheet, wsC: Sheet, tc: TicketCols, cc: CustomerCols)
    requires UniqueNames(wb) && |tc.fields| == |TicketOutCols|
    requires names.output != names.notFound && names.output != names.summary && names.notFound != names.summary
    ensures var o := Rebuild(wb, names, wsT, wsC, tc, cc);
      UniqueNames(o.wb) && SheetNamed(o.wb, names.output).Some? && SheetNamed(o.wb, names.notFound).Some? &&
      SheetNamed(o.wb, names.summary).Some? &&
      DataSheets(SheetNamed(o.wb, names.output).value, SheetNamed(o.wb, names.notFound).value, o.joined, o.notFound)
  {
    var c := CustomersOf(CustomerTable(wsC, cc));
    var rows := TicketTable(wsT, tc);
    var st := JoinOf(rows, c.info);
    JoinOrderInCounts(rows, c.info);
    JoinCountersBalance(rows, c.info);
    TicketRowsWidth(wsT, tc);
    JoinRowShapes(rows, c.info, 27);
    DataSheetsOf(st, |rows|);
    ReplaceThree(wb, names.output, OutputSheet(st), names.notFound, NotFoundSheet(st),
                 names.summary, SummarySheet(MaxRow(wsT) - 1, MaxRow(wsC) - 1, c, st));
  }
}
