/**
 * What the date collection promises: which rows it reads, where a resumed run starts,
 * when it retries, what it counts, which cells it may write and what it writes there.
 */
module CollectDatesProperties {
  import opened Wrappers
  import opened Text
  import opened Sheets
  import opened IdKeys
  import opened DateColumns
  import opened CollectDates

  /** Some ticket of `ts` sits at row `r`. */
  predicate Ticketed(ts: seq<Ticket>, r: int)
  {
    exists i :: 0 <= i < |ts| && ts[i].row == r
  }

  /** The checkpoint names one of the tickets `ts`: its row and its ID. */
  predicate Named(ts: seq<Ticket>, cp: Checkpoint)
  {
    exists i :: 0 <= i < |ts| && cp.lastRow == ts[i].row && cp.lastTicket == ts[i].id
  }

  /** Column `c` is one of the three date columns. */
  predicate DateCol(cols: DateCols, c: int)
  {
    c == cols.esc || c == cols.res || c == cols.cie
  }

  // ---------------------------------------------------------------------------------
  // Ticket rows and resuming

  /**
   * The ticket rows are exactly the data rows with a non-empty ID key, each with that
   * key as its ID.
   */
  lemma {:induction false} TicketRowsExact(key: nat -> string, n: nat)
    ensures forall i :: 0 <= i < |TicketRows(key, n)| ==>
      TicketRows(key, n)[i].id == key(TicketRows(key, n)[i].row) && TicketRows(key, n)[i].id != ""
    ensures forall r: nat :: Ticketed(TicketRows(key, n), r) <==> 2 <= r <= n + 1 && key(r) != ""
  {
    if n > 0 {
      TicketRowsExact(key, n - 1);
      var prev := TicketRows(key, n - 1);
      var tid := key(n + 1);
      if tid != "" {
        assert TicketRows(key, n) == prev + [Ticket(n + 1, tid)];
        TicketsSnoc(key, n, prev, Ticket(n + 1, tid), TicketRows(key, n));
      } else {
        assert TicketRows(key, n) == prev;
      }
    }
  }

  /** One step of `TicketRowsExact`: appending the ticket of row `n + 1`. */
  lemma TicketsSnoc(key: nat -> string, n: nat, prev: seq<Ticket>, t: Ticket, ts: seq<Ticket>)
    requires forall i :: 0 <= i < |prev| ==> prev[i].id == key(prev[i].row) && prev[i].id != ""
    requires forall r: nat :: Ticketed(prev, r) <==> 2 <= r <= n && key(r) != ""
    requires n > 0 && t.row == n + 1 && t.id == key(n + 1) && t.id != ""
    requires ts == prev + [t]
    ensures forall i :: 0 <= i < |ts| ==> ts[i].id == key(ts[i].row) && ts[i].id != ""
    ensures forall r: nat :: Ticketed(ts, r) <==> 2 <= r <= n + 1 && key(r) != ""
  {
    forall r: nat | Ticketed(ts, r)
      ensures 2 <= r <= n + 1 && key(r) != ""
    {
      var i :| 0 <= i < |ts| && ts[i].row == r;
      if i < |prev| {
        assert Ticketed(prev, r);
      } else {
        assert ts[i] == t;
      }
    }
    forall r: nat | 2 <= r <= n + 1 && key(r) != ""
      ensures Ticketed(ts, r)
    {
      if r <= n {
        var i :| 0 <= i < |prev| && prev[i].row == r;
        assert ts[i].row == r;
      } else {
        assert ts[|ts| - 1].row == r;
      }
    }
  }

  /** Resuming from the row of the `k`-th ticket starts at the ticket after it. */
  lemma ResumeAfter(ts: seq<Ticket>, k: nat)
    requires WellFormed(ts) && k < |ts|
    ensures StartIndex(ts, ts[k].row) == k + 1
  {
    assert ts[k].row != 0;
    assert forall j :: 0 <= j < |ts| && ts[j].row == ts[k].row ==> j == k;
  }

  // ---------------------------------------------------------------------------------
  // Retries

  /** The retry markers without "err_internet_disconnected", the fourth. */
  const CoreRetryMarkers: seq<string> := RetryMarkers[..3] + RetryMarkers[4..]

  /** Every marker but "err_internet_disconnected" is among the seven. */
  lemma KeptMarker(k: string)
    requires k in RetryMarkers && k != RetryMarkers[3]
    ensures k in CoreRetryMarkers
  {
    var j :| 0 <= j < |RetryMarkers| && RetryMarkers[j] == k;
    if j < 3 {
      assert CoreRetryMarkers[j] == k;
    } else {
      assert CoreRetryMarkers[j - 1] == k;
    }
  }

  /** "err_internet_disconnected" contains "internet_disconnected", from its fifth character. */
  lemma DisconnectedMarkersNest()
    ensures ActivityText.OccursAt(RetryMarkers[3], CoreRetryMarkers[2], 4)
  {
    var w := CoreRetryMarkers[2];
    assert w == "internet_disconnected";
    assert RetryMarkers[3] == "err_" + w;
    assert ("err_" + w)[4..4 + |w|] == w;
  }

  /** A message that mentions "err_internet_disconnected" mentions "internet_disconnected". */
  lemma DisconnectedMarker(n: string)
    requires ActivityText.Contains(n, RetryMarkers[3])
    ensures ActivityText.Contains(n, CoreRetryMarkers[2])
  {
    DisconnectedMarkersNest();
    ActivityText.ContainsTrans(n, RetryMarkers[3], CoreRetryMarkers[2]);
  }

  /**
   * "err_internet_disconnected" adds nothing to the retry test, since it contains
   * "internet_disconnected": an error is worth repeating exactly when its message, in
   * lower case, mentions one of the other seven markers.
   */
  lemma RetryableIff(msg: string)
    ensures Retryable(msg) <==> ActivityText.AnyContains(LowerAll(msg), CoreRetryMarkers)
  {
    var n := LowerAll(msg);
    if Retryable(msg) {
      var k :| k in RetryMarkers && ActivityText.Contains(n, k);
      if k == RetryMarkers[3] {
        DisconnectedMarker(n);
        assert CoreRetryMarkers[2] in CoreRetryMarkers;
      } else {
        KeptMarker(k);
      }
    }
    if ActivityText.AnyContains(n, CoreRetryMarkers) {
      var k :| k in CoreRetryMarkers && ActivityText.Contains(n, k);
      assert k in RetryMarkers[..3] || k in RetryMarkers[4..];
    }
  }

  /**
   * The number of attempts is the first attempt that succeeds, fails for good, or is
   * the third: every such `t` is the one `Retry` makes.
   */
  lemma RetryStopsAt(fetch: (string, nat) -> Fetch, tid: string, t: nat)
    requires 1 <= t <= MaxAttempts
    requires forall k :: 1 <= k < t ==> fetch(tid, k).Failed? && Retryable(fetch(tid, k).msg)
    requires fetch(tid, t).Fetched? || t == MaxAttempts || !Retryable(fetch(tid, t).msg)
    ensures Retry(fetch, tid) == Attempts(fetch(tid, t), t)
  {
  }

  // ---------------------------------------------------------------------------------
  // One row

  /** A row is skipped, and nothing else happens to it, exactly when it is complete. */
  lemma RowStepSkips(st: RunState, cols: DateCols, t: Ticket, fetch: (string, nat) -> Fetch)
    requires ValidCols(cols)
    ensures var next := RowStep(st, cols, t, fetch);
      && (next.counts.skipped == st.counts.skipped + 1 <==> Complete(st.ws, cols, t.row))
      && (Complete(st.ws, cols, t.row) ==> next.ws == st.ws && next.progress == st.progress)
      && (!Complete(st.ws, cols, t.row) ==> next.progress == Some(Checkpoint(t.row, t.id, next.counts)))
  {
  }

  /** Each row adds one to exactly one counter. */
  lemma RowStepCounts(st: RunState, cols: DateCols, t: Ticket, fetch: (string, nat) -> Fetch)
    requires ValidCols(cols)
    ensures var c := RowStep(st, cols, t, fetch).counts;
      && Total(c) == Total(st.counts) + 1
      && c.updated >= st.counts.updated && c.skipped >= st.counts.skipped && c.failed >= st.counts.failed
      && (c.updated == st.counts.updated + 1 <==> !Complete(st.ws, cols, t.row) && Retry(fetch, t.id).outcome.Fetched?)
      && (c.failed == st.counts.failed + 1 <==> !Complete(st.ws, cols, t.row) && Retry(fetch, t.id).outcome.Failed?)
  {
  }

  /** The writes after a fetch change only the date cells of the row that were missing. */
  lemma FillKeeps(ws: Sheet, cols: DateCols, r: RowNum, f: Fetch)
    requires ValidCols(cols) && f.Fetched?
    ensures forall r', c' ::
      (r' != r || !DateCol(cols, c') || !IsMissing(Existing(ws, r', c'))) ==>
        CellAt(Fill(ws, cols, r, f), r', c') == CellAt(ws, r', c')
  {
  }

  /** With three distinct date columns, each missing date cell gets the fetched date or "N/A". */
  lemma FillWrites(ws: Sheet, cols: DateCols, r: RowNum, f: Fetch)
    requires ValidCols(cols) && f.Fetched?
    requires cols.esc != cols.res && cols.esc != cols.cie && cols.res != cols.cie
    ensures var ws' := Fill(ws, cols, r, f);
      && CellAt(ws', r, cols.esc) == (if IsMissing(Existing(ws, r, cols.esc)) then Str(OrNA(f.esc)) else CellAt(ws, r, cols.esc))
      && CellAt(ws', r, cols.res) == (if IsMissing(Existing(ws, r, cols.res)) then Str(OrNA(f.res)) else CellAt(ws, r, cols.res))
      && CellAt(ws', r, cols.cie) == (if IsMissing(Existing(ws, r, cols.cie)) then Str(OrNA(f.close)) else CellAt(ws, r, cols.cie))
  {
  }

  /** One row changes only its own missing date cells. */
  lemma RowStepKeeps(st: RunState, cols: DateCols, t: Ticket, fetch: (string, nat) -> Fetch)
    requires ValidCols(cols)
    ensures forall r', c' ::
      (r' != t.row || !DateCol(cols, c') || !IsMissing(Existing(st.ws, r', c'))) ==>
        CellAt(RowStep(st, cols, t, fetch).ws, r', c') == CellAt(st.ws, r', c')
  {
    if !Complete(st.ws, cols, t.row) && Retry(fetch, t.id).outcome.Fetched? {
      FillKeeps(st.ws, cols, t.row, Retry(fetch, t.id).outcome);
    }
  }

  /**
   * A date the application left empty is written as "N/A", which still counts as
   * missing: the next run fetches that ticket again.
   */
  lemma EmptyDateStaysMissing(ws: Sheet, cols: DateCols, r: RowNum, f: Fetch)
    requires ValidCols(cols) && f.Fetched? && f.esc == ""
    requires cols.esc != cols.res && cols.esc != cols.cie && cols.res != cols.cie
    requires IsMissing(Existing(ws, r, cols.esc))
    ensures IsMissing(Existing(Fill(ws, cols, r, f), r, cols.esc))
    ensures !Complete(Fill(ws, cols, r, f), cols, r)
  {
    FillWrites(ws, cols, r, f);
    NotAvailableIsMissing();
  }

  /** The placeholder "N/A" reads as missing. */
  lemma NotAvailableIsMissing()
    ensures Strip(StrOr(Str("N/A"))) == "N/A"
    ensures IsMissing("N/A")
  {
    assert Strip("N/A") == "N/A";
    assert LowerAll("N/A") == "n/a";
  }

  /**
   * With the escalation and closed-date column numbers equal, as the column
   * resolution as written can leave them, the close date overwrites the escalation
   * date in that one cell.
   */
  lemma FillAliased(ws: Sheet, cols: DateCols, r: RowNum, f: Fetch)
    requires ValidCols(cols) && f.Fetched?
    requires cols.esc == cols.cie && cols.res != cols.cie
    requires IsMissing(Existing(ws, r, cols.esc)) && IsMissing(Existing(ws, r, cols.res))
    ensures var ws' := Fill(ws, cols, r, f);
      && CellAt(ws', r, cols.cie) == Str(OrNA(f.close))
      && CellAt(ws', r, cols.res) == Str(OrNA(f.res))
      && forall r', c' :: (r' != r || (c' != cols.cie && c' != cols.res)) ==> CellAt(ws', r', c') == CellAt(ws, r', c')
  {
  }

  // ---------------------------------------------------------------------------------
  // The loop

  /** Every ticket of the loop is counted once: as updated, skipped or failed. */
  lemma {:induction false} RunCounts(st: RunState, cols: DateCols, ts: seq<Ticket>, fetch: (string, nat) -> Fetch)
    requires ValidCols(cols)
    ensures var c := Run(st, cols, ts, fetch).counts;
      && Total(c) == Total(st.counts) + |ts|
      && c.updated >= st.counts.updated && c.skipped >= st.counts.skipped && c.failed >= st.counts.failed
  {
    if ts != [] {
      RunCounts(st, cols, ts[..|ts| - 1], fetch);
      RowStepCounts(Run(st, cols, ts[..|ts| - 1], fetch), cols, ts[|ts| - 1], fetch);
    }
  }

  /** A cell that already held a value keeps it, whatever the loop fetches. */
  lemma {:induction false} RunKeepsValues(st: RunState, cols: DateCols, ts: seq<Ticket>, fetch: (string, nat) -> Fetch)
    requires ValidCols(cols)
    ensures forall r: nat, c: nat :: !IsMissing(Existing(st.ws, r, c)) ==>
      CellAt(Run(st, cols, ts, fetch).ws, r, c) == CellAt(st.ws, r, c)
  {
    if ts != [] {
      var mid := Run(st, cols, ts[..|ts| - 1], fetch);
      RunKeepsValues(st, cols, ts[..|ts| - 1], fetch);
      RowStepKeeps(mid, cols, ts[|ts| - 1], fetch);
      forall r: nat, c: nat | !IsMissing(Existing(st.ws, r, c))
        ensures CellAt(Run(st, cols, ts, fetch).ws, r, c) == CellAt(st.ws, r, c)
      {
        assert Existing(mid.ws, r, c) == Existing(st.ws, r, c);
      }
    }
  }

  /** The loop writes only into the date columns of ticket rows. */
  lemma {:induction false} RunTouchesOnlyTicketDates(st: RunState, cols: DateCols, ts: seq<Ticket>, fetch: (string, nat) -> Fetch)
    requires ValidCols(cols)
    ensures forall r, c :: (!Ticketed(ts, r) || !DateCol(cols, c)) ==>
      CellAt(Run(st, cols, ts, fetch).ws, r, c) == CellAt(st.ws, r, c)
  {
    if ts != [] {
      var init := ts[..|ts| - 1];
      var mid := Run(st, cols, init, fetch);
      RunTouchesOnlyTicketDates(st, cols, init, fetch);
      RowStepKeeps(mid, cols, ts[|ts| - 1], fetch);
      forall r, c | !Ticketed(ts, r) || !DateCol(cols, c)
        ensures CellAt(Run(st, cols, ts, fetch).ws, r, c) == CellAt(st.ws, r, c)
      {
        if !Ticketed(ts, r) {
          assert ts[|ts| - 1].row != r;
          forall i | 0 <= i < |init|
            ensures init[i].row != r
          {
            assert init[i] == ts[i];
          }
        }
      }
    }
  }

  /**
   * The last checkpoint of the loop is the one it started with, or names a ticket of
   * the loop: its row and its ID.
   */
  lemma {:induction false} RunCheckpoint(st: RunState, cols: DateCols, ts: seq<Ticket>, fetch: (string, nat) -> Fetch)
    requires ValidCols(cols)
    ensures var p := Run(st, cols, ts, fetch).progress;
      p == st.progress || (p.Some? && Named(ts, p.value))
  {
    if ts != [] {
      var init := ts[..|ts| - 1];
      RunCheckpoint(st, cols, init, fetch);
      var p := Run(st, cols, ts, fetch).progress;
      var q := Run(st, cols, init, fetch).progress;
      if p != q {
        assert p.value.lastRow == ts[|ts| - 1].row;
      } else if q != st.progress {
        var i :| 0 <= i < |init| && q.value.lastRow == init[i].row && q.value.lastTicket == init[i].id;
        assert ts[i] == init[i];
      }
    }
  }

  /**
   * A run interrupted after its first `m` tickets has written its last checkpoint, if
   * any, for one of those tickets, and the next run over the same ticket rows resumes
   * right after that ticket.  (A run that reaches the end overwrites the checkpoint:
   * `FinishedRunRestarts`.)
   */
  lemma CheckpointResumes(ws: Sheet, cols: DateCols, ts: seq<Ticket>, start: nat, m: nat, fetch: (string, nat) -> Fetch)
    requires ValidCols(cols) && WellFormed(ts) && start + m <= |ts|
    requires Run(Start(ws), cols, ts[start..start + m], fetch).progress.Some?
    ensures var cp := Run(Start(ws), cols, ts[start..start + m], fetch).progress.value;
      exists k ::
        start <= k < start + m && cp.lastRow == ts[k].row && cp.lastTicket == ts[k].id && StartIndex(ts, cp.lastRow) == k + 1
  {
    var done := ts[start..start + m];
    RunCheckpoint(Start(ws), cols, done, fetch);
    ResumeAtCheckpoint(ts, start, m, Run(Start(ws), cols, done, fetch).progress.value);
  }

  /** A checkpoint naming one of the tickets `ts[start..start + m]` resumes right after it. */
  lemma ResumeAtCheckpoint(ts: seq<Ticket>, start: nat, m: nat, cp: Checkpoint)
    requires WellFormed(ts) && start + m <= |ts|
    requires Named(ts[start..start + m], cp)
    ensures exists k ::
      start <= k < start + m && cp.lastRow == ts[k].row && cp.lastTicket == ts[k].id && StartIndex(ts, cp.lastRow) == k + 1
  {
    var done := ts[start..start + m];
    var i :| 0 <= i < |done| && cp.lastRow == done[i].row && cp.lastTicket == done[i].id;
    assert done[i] == ts[start + i];
    ResumeAfter(ts, start + i);
  }

  /** With the columns in place, every ticket after the checkpoint's row is counted once. */
  lemma CollectResolvedCounts(rs: Resolved, ts: seq<Ticket>, lastRowIdx: int, fetch: (string, nat) -> Fetch)
    requires ValidCols(rs.cols)
    ensures CollectResolved(rs, ts, lastRowIdx, fetch).Err? <==> ts == []
    ensures CollectResolved(rs, ts, lastRowIdx, fetch).Ok? ==>
      Total(CollectResolved(rs, ts, lastRowIdx, fetch).value.counts) == |ts| - StartIndex(ts, lastRowIdx)
  {
    RunCounts(Start(rs.ws), rs.cols, ts[StartIndex(ts, lastRowIdx)..], fetch);
  }

  // ---------------------------------------------------------------------------------
  // The whole collection

  /** Why the collection on the sheet gives up before the loop. */
  lemma CollectOnErrors(ws: Sheet, names: DateNames, lastRowIdx: int, fetch: (string, nat) -> Fetch)
    ensures CollectOn(ws, names, lastRowIdx, fetch) != Err(NoSheet)
    ensures CollectOn(ws, names, lastRowIdx, fetch) == Err(EmptySheet) <==> MaxRow(ws) < 2
    ensures CollectOn(ws, names, lastRowIdx, fetch) == Err(NoIdColumn) <==>
      MaxRow(ws) >= 2 && FindHeader(HeaderTexts(ws), names.id).None?
  {
    if MaxRow(ws) >= 2 {
      ResolveFailsIffNoId(ws, names);
      var rs := ResolveAsWritten(ws, names);
      if rs.Ok? {
        var r := CollectResolved(rs.value, Tickets(rs.value.ws, rs.value.cols.id), lastRowIdx, fetch);
        assert CollectOn(ws, names, lastRowIdx, fetch) == r;
        assert r.Ok? || r == Err(NoValidIds);
      }
    }
  }

  /** Why the collection gives up before the loop. */
  lemma CollectErrors(wb: Workbook, names: DateNames, lastRowIdx: int, fetch: (string, nat) -> Fetch)
    ensures Collect(wb, names, lastRowIdx, fetch) == Err(NoSheet) <==> IndexOf(wb, CompleteSheet).None?
    ensures Collect(wb, names, lastRowIdx, fetch) == Err(EmptySheet) <==>
      IndexOf(wb, CompleteSheet).Some? && MaxRow(wb[IndexOf(wb, CompleteSheet).value].sheet) < 2
    ensures Collect(wb, names, lastRowIdx, fetch) == Err(NoIdColumn) <==>
      IndexOf(wb, CompleteSheet).Some? && MaxRow(wb[IndexOf(wb, CompleteSheet).value].sheet) >= 2
        && FindHeader(HeaderTexts(wb[IndexOf(wb, CompleteSheet).value].sheet), names.id).None?
  {
    var i := IndexOf(wb, CompleteSheet);
    if i.Some? {
      var r := CollectOn(wb[i.value].sheet, names, lastRowIdx, fetch);
      CollectOnErrors(wb[i.value].sheet, names, lastRowIdx, fetch);
      assert r.Err? ==> Collect(wb, names, lastRowIdx, fetch) == Err(r.error);
      assert r.Ok? ==> Collect(wb, names, lastRowIdx, fetch).Ok?;
    }
  }

  /** The collection changes the sheet "Datos Completos" and no other. */
  lemma CollectReplacesOneSheet(wb: Workbook, names: DateNames, lastRowIdx: int, fetch: (string, nat) -> Fetch)
    requires Collect(wb, names, lastRowIdx, fetch).Ok?
    ensures var out := Collect(wb, names, lastRowIdx, fetch).value.wb;
      && |out| == |wb|
      && IndexOf(wb, CompleteSheet).Some?
      && forall j :: 0 <= j < |wb| ==>
           out[j].name == wb[j].name && (j != IndexOf(wb, CompleteSheet).value ==> out[j] == wb[j])
  {
    var i := IndexOf(wb, CompleteSheet).value;
    var r := CollectOn(wb[i].sheet, names, lastRowIdx, fetch);
    ReplacedSheet(wb, i, r.value.ws, Collect(wb, names, lastRowIdx, fetch).value.wb);
  }

  /** A finished collection overwrites the checkpoint with the record of its counters. */
  lemma CollectEndsFinished(wb: Workbook, names: DateNames, lastRowIdx: int, fetch: (string, nat) -> Fetch)
    requires Collect(wb, names, lastRowIdx, fetch).Ok?
    ensures var rep := Collect(wb, names, lastRowIdx, fetch).value;
      rep.progress == Finished(rep.counts)
  {
    var i := IndexOf(wb, CompleteSheet).value;
    var st := CollectOn(wb[i].sheet, names, lastRowIdx, fetch).value;
    assert Collect(wb, names, lastRowIdx, fetch).value.progress == Finished(st.counts);
  }

  /** A run that reads the finished record starts at the first ticket. */
  lemma RestartAfterFinished(counts: Counters, rs: Resolved, ts: seq<Ticket>, fetch: (string, nat) -> Fetch)
    requires ValidCols(rs.cols) && ts != []
    ensures StartIndex(ts, ResumeRow(Finished(counts))) == 0
    ensures CollectResolved(rs, ts, ResumeRow(Finished(counts)), fetch) == Ok(Run(Start(rs.ws), rs.cols, ts, fetch))
  {
    assert ts[0..] == ts;
  }

  /**
   * A finished collection leaves in the progress file the record with its counters and
   * no row, so the next run over any ticket rows starts at the first ticket and counts
   * every one of them, rows whose dates are empty or "N/A" included.
   */
  lemma FinishedRunRestarts(wb: Workbook, names: DateNames, lastRowIdx: int, fetch: (string, nat) -> Fetch,
                            rs: Resolved, ts: seq<Ticket>, nextFetch: (string, nat) -> Fetch)
    requires Collect(wb, names, lastRowIdx, fetch).Ok?
    requires ValidCols(rs.cols) && ts != []
    ensures var rep := Collect(wb, names, lastRowIdx, fetch).value;
      && rep.progress == Finished(rep.counts)
      && StartIndex(ts, ResumeRow(rep.progress)) == 0
      && CollectResolved(rs, ts, ResumeRow(rep.progress), nextFetch) == Ok(Run(Start(rs.ws), rs.cols, ts, nextFetch))
      && Total(CollectResolved(rs, ts, ResumeRow(rep.progress), nextFetch).value.counts) == |ts|
  {
    CollectEndsFinished(wb, names, lastRowIdx, fetch);
    RestartAfterFinished(Collect(wb, names, lastRowIdx, fetch).value.counts, rs, ts, nextFetch);
    CollectResolvedCounts(rs, ts, 0, nextFetch);
  }

  /**
   * The collection as written on the sheet of `DateColumns.IdAndClosedSheet` (headers
   * ID and closed date, ticket 7 in row 2): the escalation and closed dates go to the
   * same cell, which keeps the close date, and the column headed for the escalation
   * date stays empty.
   */
  lemma AsWrittenLosesEscalation(names: DateNames, fetch: (string, nat) -> Fetch)
    requires DistinctKeys(names) && Retry(fetch, IntToString(7)).outcome.Fetched?
    ensures var r := CollectOn(IdAndClosedSheet(names), names, 0, fetch);
      var f := Retry(fetch, IntToString(7)).outcome;
      && r.Ok? && r.value.counts == Counters(1, 0, 0)
      && CellAt(r.value.ws, 1, 4) == Str(names.esc) && CellAt(r.value.ws, 2, 4) == Null
      && CellAt(r.value.ws, 2, 3) == Str(OrNA(f.close)) && CellAt(r.value.ws, 2, 2) == Str(OrNA(f.res))
  {
    AsWrittenRunsOnce(names, fetch);
    AsWrittenEscalationOnClosed(names);
    var rs := ResolveAsWritten(IdAndClosedSheet(names), names).value;
    NullIsMissing();
    FillAliased(rs.ws, rs.cols, 2, Retry(fetch, IntToString(7)).outcome);
  }

  /** On that sheet the collection as written is one step, on ticket 7 in row 2. */
  lemma AsWrittenRunsOnce(names: DateNames, fetch: (string, nat) -> Fetch)
    requires DistinctKeys(names)
    ensures var rs := ResolveAsWritten(IdAndClosedSheet(names), names);
      && rs.Ok?
      && CollectOn(IdAndClosedSheet(names), names, 0, fetch)
         == Ok(RowStep(Start(rs.value.ws), rs.value.cols, Ticket(2, IntToString(7)), fetch))
  {
    AsWrittenEscalationOnClosed(names);
    var rs := ResolveAsWritten(IdAndClosedSheet(names), names).value;
    SevenTicket(rs.ws, rs.cols.id);
    SingleTicketRun(IdAndClosedSheet(names), names, rs, Ticket(2, IntToString(7)), fetch);
  }

  /** A resolved sheet with a single ticket is collected, from the start, in one step. */
  lemma SingleTicketRun(ws: Sheet, names: DateNames, rs: Resolved, t: Ticket, fetch: (string, nat) -> Fetch)
    requires MaxRow(ws) >= 2 && ResolveAsWritten(ws, names) == Ok(rs) && Tickets(rs.ws, rs.cols.id) == [t]
    ensures ValidCols(rs.cols)
    ensures CollectOn(ws, names, 0, fetch) == Ok(RowStep(Start(rs.ws), rs.cols, t, fetch))
  {
    assert [t][0..] == [t];
    assert Run(Start(rs.ws), rs.cols, [t], fetch) == RowStep(Start(rs.ws), rs.cols, t, fetch);
  }

  /** Two rows whose ID cell in row 2 holds the int 7 have the one ticket "7". */
  lemma SevenTicket(ws: Sheet, col: nat)
    requires MaxRow(ws) == 2 && CellAt(ws, 2, col) == Int(7)
    ensures Tickets(ws, col) == [Ticket(2, IntToString(7))]
  {
    OneTicket(ws, col, Ticket(2, IntToString(7)));
  }

  /** An empty cell reads as missing. */
  lemma NullIsMissing()
    ensures Strip(StrOr(Null)) == "" && IsMissing("")
  {
  }

  /** A sheet of two rows whose ID cell in row 2 has key `t.id` has the one ticket `t`. */
  lemma OneTicket(ws: Sheet, col: nat, t: Ticket)
    requires MaxRow(ws) == 2 && t.row == 2 && t.id != "" && RowId(ws, col, 2) == t.id
    ensures Tickets(ws, col) == [t]
  {
    assert TicketRows(RowIds(ws, col), 1) == TicketRows(RowIds(ws, col), 0) + [Ticket(2, RowIds(ws, col)(2))];
  }

  /**
   * The collection as written on the sheet of `DateColumns.ClosedThenIdSheet` (closed
   * date, then ID with ticket 7): the ID column number now points at the empty
   * closed-date column, so no ticket is found.
   */
  lemma AsWrittenLosesIdColumn(names: DateNames, lastRowIdx: int, fetch: (string, nat) -> Fetch)
    requires DistinctKeys(names)
    ensures CollectOn(ClosedThenIdSheet(names), names, lastRowIdx, fetch) == Err(NoValidIds)
  {
    var ws := ClosedThenIdSheet(names);
    AsWrittenIdOnClosed(names);
    var rs := ResolveAsWritten(ws, names).value;
    IdKeyEmpty("");
    NoTicket(rs.ws, rs.cols.id);
  }

  /** With the column numbers moved along, the same sheet has its ticket 7 found. */
  lemma CorrectedFindsIdColumn(names: DateNames)
    requires DistinctKeys(names)
    ensures var rc := ResolveColumns(ClosedThenIdSheet(names), names);
      rc.Ok? && Tickets(rc.value.ws, rc.value.cols.id) == [Ticket(2, IntToString(7))]
  {
    CorrectedIdMoved(names);
    var rc := ResolveColumns(ClosedThenIdSheet(names), names).value;
    SevenTicket(rc.ws, rc.cols.id);
  }

  /** A sheet of two rows whose ID cell in row 2 has no key has no ticket. */
  lemma NoTicket(ws: Sheet, col: nat)
    requires MaxRow(ws) == 2 && RowId(ws, col, 2) == ""
    ensures Tickets(ws, col) == []
  {
    assert TicketRows(RowIds(ws, col), 1) == TicketRows(RowIds(ws, col), 0);
  }

  /** Putting back the sheet at `i` under its own name keeps every other sheet. */
  lemma ReplacedSheet(wb: Workbook, i: nat, ws: Sheet, out: Workbook)
    requires i < |wb| && wb[i].name == CompleteSheet && out == wb[i := NamedSheet(CompleteSheet, ws)]
    ensures |out| == |wb|
    ensures forall j :: 0 <= j < |wb| ==> out[j].name == wb[j].name && (j != i ==> out[j] == wb[j])
  {
  }
}
