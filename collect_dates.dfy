/**
 * `_do_collect_dates_from_excel`: for each ticket row of "Datos Completos" whose three
 * date cells are not all filled, fetch the ticket's escalation, resolved and closed
 * dates from the web application (up to three attempts when the error looks
 * transient) and write them into the cells that are still missing.  After each
 * fetched ticket a checkpoint records the row, so that a run interrupted later resumes
 * right after it; a run that reaches the end replaces the checkpoint with a record of
 * its counters that has no row, so the next run starts again from the first ticket.
 *
 * The web application is a parameter: `fetch(ticketId, attempt)` is what the
 * `attempt`-th call of `_collect_dates_for_ticket` for that ticket returns.  The
 * progress file is a parameter (`lastRowIdx`, the row it records) and a result (what a
 * finished run leaves in it); saving the workbook is left out, the workbook that would
 * be saved is the result.
 */
module CollectDates {
  import opened Wrappers
  import opened Text
  import opened Sheets
  import opened IdKeys
  import opened DateColumns
  import ActivityText

  const CompleteSheet := "Datos Completos"

  /** The messages after which the function gives up, before the loop starts. */
  datatype CollectError = NoSheet | EmptySheet | NoIdColumn | NoValidIds

  // ---------------------------------------------------------------------------------
  // Ticket rows

  /** A row number of the sheet, 1-based. */
  type RowNum = r: nat | r >= 1 witness 1

  /** A data row with a non-empty ticket ID key. */
  datatype Ticket = Ticket(row: RowNum, id: string)

  /** The rows come in increasing order and below the header. */
  predicate WellFormed(ts: seq<Ticket>)
  {
    && (forall i :: 0 <= i < |ts| ==> ts[i].row >= 2)
    && (forall i, j :: 0 <= i < j < |ts| ==> ts[i].row < ts[j].row)
  }

  /** `ticket_rows` over rows `2 .. n + 1`: each row whose ID key is not empty. */
  function TicketRows(key: nat -> string, n: nat): (ts: seq<Ticket>)
    ensures WellFormed(ts)
    ensures forall i :: 0 <= i < |ts| ==> ts[i].row <= n + 1
  {
    if n == 0 then []
    else
      var prev := TicketRows(key, n - 1);
      var tid := key(n + 1);
      if tid != "" then prev + [Ticket(n + 1, tid)] else prev
  }

  /** The ticket rows of a sheet whose ticket IDs are in column `idCol`. */
  function Tickets(ws: Sheet, idCol: nat): seq<Ticket>
  {
    TicketRows(RowIds(ws, idCol), DataRows(ws))
  }

  /** `ticket_rows`, read from the sheet. */
  method ReadTickets(ws: Sheet, idCol: nat) returns (ts: seq<Ticket>)
    ensures ts == Tickets(ws, idCol)
  {
    ts := ScanTickets(RowIds(ws, idCol), DataRows(ws));
  }

  /** The loop that builds `ticket_rows`. */
  method ScanTickets(key: nat -> string, n: nat) returns (ts: seq<Ticket>)
    ensures ts == TicketRows(key, n)
  {
    ts := [];
    var r := 2;
    while r <= n + 1
      invariant 2 <= r <= n + 2
      invariant ts == TicketRows(key, r - 2)
    {
      var tid := key(r);
      if tid != "" {
        ts := ts + [Ticket(r, tid)];
      }
      r := r + 1;
    }
  }

  // ---------------------------------------------------------------------------------
  // Resuming

  /** The position of the first ticket at row `row`. */
  function RowPos(ts: seq<Ticket>, row: int): (r: Option<nat>)
    ensures r.Some? ==> r.value < |ts| && ts[r.value].row == row
    ensures r.Some? ==> forall j :: 0 <= j < r.value ==> ts[j].row != row
    ensures r.None? ==> forall j :: 0 <= j < |ts| ==> ts[j].row != row
  {
    if ts == [] then None
    else if ts[0].row == row then Some(0)
    else match RowPos(ts[1..], row)
      case None => None
      case Some(k) => Some(k + 1)
  }

  /**
   * `start_index`: right after the first ticket at the checkpoint's row; from the
   * start when the checkpoint has no row (0) or names no ticket row.
   */
  function StartIndex(ts: seq<Ticket>, lastRowIdx: int): (s: nat)
    ensures s <= |ts|
    ensures lastRowIdx == 0 ==> s == 0
    ensures s > 0 ==> ts[s - 1].row == lastRowIdx && forall j :: 0 <= j < s - 1 ==> ts[j].row != lastRowIdx
    ensures s == 0 && lastRowIdx != 0 ==> forall j :: 0 <= j < |ts| ==> ts[j].row != lastRowIdx
  {
    if lastRowIdx == 0 then 0
    else match RowPos(ts, lastRowIdx)
      case None => 0
      case Some(k) => k + 1
  }

  /** The resume loop: scans the tickets for the checkpoint's row and stops at the first. */
  method FindStart(ts: seq<Ticket>, lastRowIdx: int) returns (start: nat)
    ensures start == StartIndex(ts, lastRowIdx)
  {
    start := 0;
    if lastRowIdx != 0 {
      var k := 0;
      while k < |ts|
        invariant 0 <= k <= |ts|
        invariant forall j :: 0 <= j < k ==> ts[j].row != lastRowIdx
      {
        if ts[k].row == lastRowIdx {
          start := k + 1;
          return;
        }
        k := k + 1;
      }
    }
  }

  // ---------------------------------------------------------------------------------
  // Fetching with retries

  /** What one call of `_collect_dates_for_ticket` gives: the three dates, or an error. */
  datatype Fetch = Fetched(esc: string, res: string, close: string) | Failed(msg: string)

  /** The error texts that make an attempt worth repeating. */
  const RetryMarkers: seq<string> := [
    "timeout", "fast search", "internet_disconnected", "err_internet_disconnected",
    "err_network_changed", "err_connection", "net::", "navigation"]

  predicate Retryable(msg: string)
  {
    ActivityText.AnyContains(LowerAll(msg), RetryMarkers)
  }

  const MaxAttempts: nat := 3

  /** The last outcome and the number of attempts made. */
  datatype Attempts = Attempts(outcome: Fetch, tries: nat)

  /**
   * The attempts from attempt `a` on: stop at the first success, at a non-retryable
   * error, or after the third attempt.
   */
  function RetryFrom(fetch: (string, nat) -> Fetch, tid: string, a: nat): (r: Attempts)
    requires 1 <= a <= MaxAttempts
    ensures a <= r.tries <= MaxAttempts
    ensures r.outcome == fetch(tid, r.tries)
    ensures forall k :: a <= k < r.tries ==> fetch(tid, k).Failed? && Retryable(fetch(tid, k).msg)
    ensures r.outcome.Failed? ==> r.tries == MaxAttempts || !Retryable(r.outcome.msg)
    decreases MaxAttempts - a
  {
    var out := fetch(tid, a);
    if out.Fetched? || a >= MaxAttempts || !Retryable(out.msg) then Attempts(out, a)
    else RetryFrom(fetch, tid, a + 1)
  }

  function Retry(fetch: (string, nat) -> Fetch, tid: string): Attempts
  {
    RetryFrom(fetch, tid, 1)
  }

  /** The `for attempt in range(1, 4)` loop. */
  method FetchWithRetry(fetch: (string, nat) -> Fetch, tid: string) returns (out: Fetch, tries: nat)
    ensures Attempts(out, tries) == Retry(fetch, tid)
  {
    tries := 1;
    out := fetch(tid, 1);
    while out.Failed? && tries < MaxAttempts && Retryable(out.msg)
      invariant 1 <= tries <= MaxAttempts
      invariant out == fetch(tid, tries)
      invariant Retry(fetch, tid) == RetryFrom(fetch, tid, tries)
    {
      tries := tries + 1;
      out := fetch(tid, tries);
    }
  }

  // ---------------------------------------------------------------------------------
  // One row

  /** `str(ws.cell(row, col).value or "").strip()`. */
  function Existing(ws: Sheet, r: nat, c: nat): string
  {
    Strip(StrOr(CellAt(ws, r, c)))
  }

  /** `_is_missing`: blank, or "n/a" / "na" in any case. */
  predicate IsMissing(v: string)
  {
    var t := Strip(v);
    t == "" || LowerAll(t) == "n/a" || LowerAll(t) == "na"
  }

  /** All three date cells of row `r` hold a real value: the row is skipped. */
  predicate Complete(ws: Sheet, cols: DateCols, r: nat)
  {
    && !IsMissing(Existing(ws, r, cols.esc))
    && !IsMissing(Existing(ws, r, cols.res))
    && !IsMissing(Existing(ws, r, cols.cie))
  }

  /** `x or "N/A"`. */
  function OrNA(s: string): (r: string)
    ensures r != ""
    ensures s != "" ==> r == s
  {
    if s == "" then "N/A" else s
  }

  /**
   * The writes after a successful fetch: each date cell that was missing before the
   * fetch gets its date, or "N/A".
   */
  function Fill(ws: Sheet, cols: DateCols, r: RowNum, f: Fetch): Sheet
    requires ValidCols(cols) && f.Fetched?
  {
    var ws1 := SetCellIf(ws, IsMissing(Existing(ws, r, cols.esc)), r, cols.esc, Str(OrNA(f.esc)));
    var ws2 := SetCellIf(ws1, IsMissing(Existing(ws, r, cols.res)), r, cols.res, Str(OrNA(f.res)));
    SetCellIf(ws2, IsMissing(Existing(ws, r, cols.cie)), r, cols.cie, Str(OrNA(f.close)))
  }

  datatype Counters = Counters(updated: nat, skipped: nat, failed: nat)

  function Total(c: Counters): nat
  {
    c.updated + c.skipped + c.failed
  }

  /** What `_save_progress` records after a row. */
  datatype Checkpoint = Checkpoint(lastRow: nat, lastTicket: string, counts: Counters)

  /** The sheet, the counters and the last checkpoint written by this run. */
  datatype RunState = RunState(ws: Sheet, counts: Counters, progress: Option<Checkpoint>)

  /** One iteration of the ticket loop. */
  function RowStep(st: RunState, cols: DateCols, t: Ticket, fetch: (string, nat) -> Fetch): RunState
    requires ValidCols(cols)
  {
    if Complete(st.ws, cols, t.row) then st.(counts := st.counts.(skipped := st.counts.skipped + 1))
    else
      var a := Retry(fetch, t.id);
      var counts := if a.outcome.Fetched? then st.counts.(updated := st.counts.updated + 1)
                    else st.counts.(failed := st.counts.failed + 1);
      var ws := if a.outcome.Fetched? then Fill(st.ws, cols, t.row, a.outcome) else st.ws;
      RunState(ws, counts, Some(Checkpoint(t.row, t.id, counts)))
  }

  /** The ticket loop over `ts`, in order. */
  function Run(st: RunState, cols: DateCols, ts: seq<Ticket>, fetch: (string, nat) -> Fetch): RunState
    requires ValidCols(cols)
  {
    if ts == [] then st else RowStep(Run(st, cols, ts[..|ts| - 1], fetch), cols, ts[|ts| - 1], fetch)
  }

  /** The three conditional writes after a successful fetch, one cell at a time. */
  method WriteDates(ws0: Sheet, cols: DateCols, r: RowNum, out: Fetch) returns (ws: Sheet)
    requires ValidCols(cols) && out.Fetched?
    ensures ws == Fill(ws0, cols, r, out)
  {
    var missingEsc := IsMissing(Existing(ws0, r, cols.esc));
    var missingRes := IsMissing(Existing(ws0, r, cols.res));
    var missingCie := IsMissing(Existing(ws0, r, cols.cie));
    ws := ws0;
    if missingEsc {
      ws := SetCell(ws, r, cols.esc, Str(OrNA(out.esc)));
    }
    if missingRes {
      ws := SetCell(ws, r, cols.res, Str(OrNA(out.res)));
    }
    if missingCie {
      ws := SetCell(ws, r, cols.cie, Str(OrNA(out.close)));
    }
  }

  /** The body of the ticket loop. */
  method ProcessRow(st: RunState, cols: DateCols, t: Ticket, fetch: (string, nat) -> Fetch) returns (next: RunState)
    requires ValidCols(cols)
    ensures next == RowStep(st, cols, t, fetch)
  {
    if Complete(st.ws, cols, t.row) {
      return st.(counts := st.counts.(skipped := st.counts.skipped + 1));
    }
    var out, tries := FetchWithRetry(fetch, t.id);
    var ws := st.ws;
    var counts := st.counts;
    if out.Fetched? {
      ws := WriteDates(ws, cols, t.row, out);
      counts := counts.(updated := counts.updated + 1);
    } else {
      counts := counts.(failed := counts.failed + 1);
    }
    next := RunState(ws, counts, Some(Checkpoint(t.row, t.id, counts)));
  }

  /** The loop over the first `k + 1` tickets is the loop over the first `k` and one more step. */
  lemma RunPrefixNext(st: RunState, cols: DateCols, ts: seq<Ticket>, k: nat, fetch: (string, nat) -> Fetch)
    requires ValidCols(cols) && k < |ts|
    ensures Run(st, cols, ts[..k + 1], fetch) == RowStep(Run(st, cols, ts[..k], fetch), cols, ts[k], fetch)
  {
    assert ts[..k + 1][..k] == ts[..k];
  }

  /** The ticket loop from position `start`, with the counters at zero. */
  method RunFrom(ws: Sheet, cols: DateCols, ts: seq<Ticket>, start: nat, fetch: (string, nat) -> Fetch) returns (st: RunState)
    requires ValidCols(cols) && start <= |ts|
    ensures st == Run(Start(ws), cols, ts[start..], fetch)
  {
    var init := Start(ws);
    var rest := ts[start..];
    st := init;
    var k := 0;
    while k < |rest|
      invariant 0 <= k <= |rest|
      invariant st == Run(init, cols, rest[..k], fetch)
    {
      RunPrefixNext(init, cols, rest, k, fetch);
      st := ProcessRow(st, cols, rest[k], fetch);
      k := k + 1;
    }
    assert rest[..k] == rest;
  }

  // ---------------------------------------------------------------------------------
  // The whole collection

  /**
   * What the progress file holds: the checkpoint of the last fetched row, or the record
   * `{"done": True, "updated", "skipped", "failed", …}` that a finished run writes over it.
   */
  datatype Progress = AfterRow(cp: Checkpoint) | Finished(counts: Counters)

  /** `int(progress.get("last_row_idx") or 0)`: the finished record has no row, so 0. */
  function ResumeRow(p: Progress): nat
  {
    match p
    case AfterRow(cp) => cp.lastRow
    case Finished(_) => 0
  }

  /** The workbook that would be saved, the final counters and what the progress file holds. */
  datatype Report = Report(wb: Workbook, counts: Counters, progress: Progress)

  /** The counters at zero and no checkpoint written yet. */
  function Start(ws: Sheet): RunState
  {
    RunState(ws, Counters(0, 0, 0), None)
  }

  /** The loop over the tickets after the checkpoint's row. */
  function RunOn(rs: Resolved, ts: seq<Ticket>, lastRowIdx: int, fetch: (string, nat) -> Fetch): RunState
    requires ValidCols(rs.cols)
  {
    Run(Start(rs.ws), rs.cols, ts[StartIndex(ts, lastRowIdx)..], fetch)
  }

  /**
   * The collection on the sheet "Datos Completos", with the column numbers as the code
   * keeps them after inserting the "Resuelto" column (`ResolveAsWritten`).
   */
  function CollectOn(ws: Sheet, names: DateNames, lastRowIdx: int, fetch: (string, nat) -> Fetch): Result<RunState, CollectError>
  {
    if MaxRow(ws) < 2 then Err(EmptySheet)
    else match ResolveAsWritten(ws, names)
      case Err(_) => Err(NoIdColumn)
      case Ok(rs) => CollectResolved(rs, Tickets(rs.ws, rs.cols.id), lastRowIdx, fetch)
  }

  /** The collection once the date columns are in place and the ticket rows read. */
  function CollectResolved(rs: Resolved, ts: seq<Ticket>, lastRowIdx: int, fetch: (string, nat) -> Fetch): Result<RunState, CollectError>
    requires ValidCols(rs.cols)
  {
    if ts == [] then Err(NoValidIds)
    else Ok(RunOn(rs, ts, lastRowIdx, fetch))
  }

  /** What the collection does, given the workbook, the checkpoint's row and the web application. */
  function Collect(wb: Workbook, names: DateNames, lastRowIdx: int, fetch: (string, nat) -> Fetch): Result<Report, CollectError>
  {
    var i := IndexOf(wb, CompleteSheet);
    if i.None? then Err(NoSheet)
    else match CollectOn(wb[i.value].sheet, names, lastRowIdx, fetch)
      case Err(e) => Err(e)
      case Ok(st) => Ok(Report(wb[i.value := NamedSheet(CompleteSheet, st.ws)], st.counts, Finished(st.counts)))
  }

  /** `_do_collect_dates_from_excel` from the sheet lookup on. */
  method CollectOnSheet(ws: Sheet, names: DateNames, lastRowIdx: int, fetch: (string, nat) -> Fetch)
    returns (r: Result<RunState, CollectError>)
    ensures r == CollectOn(ws, names, lastRowIdx, fetch)
  {
    if MaxRow(ws) < 2 {
      return Err(EmptySheet);
    }
    var rs := ResolveAsWritten(ws, names);
    if rs.Err? {
      return Err(NoIdColumn);
    }
    var ts := ReadTickets(rs.value.ws, rs.value.cols.id);
    r := RunTickets(rs.value, ts, lastRowIdx, fetch);
  }

  /** The loop over the ticket rows after the checkpoint's row. */
  method RunTickets(rs: Resolved, ts: seq<Ticket>, lastRowIdx: int, fetch: (string, nat) -> Fetch)
    returns (r: Result<RunState, CollectError>)
    requires ValidCols(rs.cols)
    ensures r == CollectResolved(rs, ts, lastRowIdx, fetch)
  {
    if ts == [] {
      return Err(NoValidIds);
    }
    var start := FindStart(ts, lastRowIdx);
    var st := RunFrom(rs.ws, rs.cols, ts, start, fetch);
    return Ok(st);
  }

  /** `_do_collect_dates_from_excel`. */
  method CollectDatesFromExcel(wb: Workbook, names: DateNames, lastRowIdx: int, fetch: (string, nat) -> Fetch)
    returns (r: Result<Report, CollectError>)
    ensures r == Collect(wb, names, lastRowIdx, fetch)
  {
    var i := IndexOf(wb, CompleteSheet);
    if i.None? {
      return Err(NoSheet);
    }
    var res := CollectOnSheet(wb[i.value].sheet, names, lastRowIdx, fetch);
    if res.Err? {
      return Err(res.error);
    }
    var st := res.value;
    return Ok(Report(wb[i.value := NamedSheet(CompleteSheet, st.ws)], st.counts, Finished(st.counts)));
  }
}
