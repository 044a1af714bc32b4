/**
 * `_extract_last_activity_datetime_for_match`: of the first 400 activity blocks of a
 * ticket, those whose normalised text satisfies a predicate are dated (from the heading,
 * else from the block's own text) and the latest date is returned as
 * `dd/mm/yyyy HH:MM`, or "" when no block qualifies.
 *
 * The page is given as data: the blocks the selector finds, each with its text and
 * the texts its two heading selectors find.
 */
module Activity {
  import opened Wrappers
  import opened Text
  import opened ActivityTime
  import ActivityText

  /**
   * One activity block: its text content (`None` when reading it raised) and, for each
   * heading selector in order, the text it found (`""` when it found none or raised).
   */
  datatype Block = Block(text: Option<string>, headings: seq<string>)

  /** Only the first 400 blocks are looked at. */
  const MaxBlocks: nat := 400

  /** The blocks of the ticket's scope, or those of the whole page when the scope has none. */
  function PickBlocks(inScope: Option<seq<Block>>, onPage: seq<Block>): (r: seq<Block>)
    ensures inScope.Some? && inScope.value != [] ==> r == inScope.value
    ensures inScope.None? || inScope.value == [] ==> r == onPage
  {
    if inScope.Some? && inScope.value != [] then inScope.value else onPage
  }

  /** The first heading text that is not blank, stripped; "" when all are blank. */
  function HeadingStamp(headings: seq<string>): (r: string)
    ensures r == [] <==> forall k :: 0 <= k < |headings| ==> Strip(headings[k]) == []
    ensures r != [] ==>
              exists k :: && 0 <= k < |headings| && r == Strip(headings[k])
                          && forall j :: 0 <= j < k ==> Strip(headings[j]) == []
  {
    if headings == [] then []
    else if Strip(headings[0]) != [] then Strip(headings[0])
    else
      var r := HeadingStamp(headings[1..]);
      assert forall k :: 0 < k < |headings| ==> headings[1..][k - 1] == headings[k];
      r
  }

  /** The heading loop: tries the selectors in order and stops at the first non-blank text. */
  method ReadHeading(headings: seq<string>) returns (raw: string)
    ensures raw == HeadingStamp(headings)
  {
    raw := "";
    var k := 0;
    while k < |headings| && raw == []
      invariant 0 <= k <= |headings|
      invariant raw == [] ==> HeadingStamp(headings) == HeadingStamp(headings[k..])
      invariant raw != [] ==> raw == HeadingStamp(headings)
    {
      assert headings[k..][1..] == headings[k + 1..];
      raw := Strip(headings[k]);
      k := k + 1;
    }
    if raw == [] {
      assert headings[k..] == [];
    }
  }

  /**
   * The date of a block that qualifies: the heading's, or failing that the one in the
   * block's text.  `None` when the block cannot be read, does not qualify or has no date.
   */
  function BlockDate(b: Block, matches: string -> bool): (r: Option<DateTime>)
    ensures r.Some? ==> ValidDateTime(r.value)
    ensures r.Some? ==> b.text.Some? && matches(NormText(b.text.value))
  {
    if b.text.None? || !matches(NormText(b.text.value)) then None
    else
      var fromHeading := ParseActivityDateTime(HeadingStamp(b.headings));
      if fromHeading.Some? then fromHeading else ParseActivityDateTime(b.text.value)
  }

  /** The work on one block inside the scan. */
  method DateOfBlock(blk: Block, matches: string -> bool) returns (dt: Option<DateTime>)
    ensures dt == BlockDate(blk, matches)
  {
    dt := None;
    if blk.text.Some? && matches(NormText(blk.text.value)) {
      var raw := ReadHeading(blk.headings);
      dt := ParseActivityDateTime(raw);
      if dt.None? {
        dt := ParseActivityDateTime(blk.text.value);
      }
    }
  }

  /** One step of the scan: a strictly later date replaces the best so far. */
  function Later(best: Option<DateTime>, dt: Option<DateTime>): Option<DateTime>
  {
    if dt.Some? && (best.None? || Earlier(best.value, dt.value)) then dt else best
  }

  /** The dates of the first `n` blocks, in order. */
  function Dates(blocks: seq<Block>, matches: string -> bool, n: nat): (ds: seq<Option<DateTime>>)
    requires n <= |blocks|
    ensures |ds| == n
    ensures forall i :: 0 <= i < n ==> ds[i] == BlockDate(blocks[i], matches)
  {
    seq(n, i requires 0 <= i < n => BlockDate(blocks[i], matches))
  }

  /** The scan's result over a sequence of dates. */
  function BestOf(ds: seq<Option<DateTime>>): (r: Option<DateTime>)
    ensures (forall i :: 0 <= i < |ds| && ds[i].Some? ==> ValidDateTime(ds[i].value)) ==>
              r.None? || ValidDateTime(r.value)
  {
    if ds == [] then None else Later(BestOf(ds[..|ds| - 1]), ds[|ds| - 1])
  }

  function Scanned(blocks: seq<Block>): (n: nat)
    ensures n <= |blocks| && n <= MaxBlocks
  {
    if |blocks| < MaxBlocks then |blocks| else MaxBlocks
  }

  /** What `_extract_last_activity_datetime_for_match` returns. */
  function LastActivity(blocks: seq<Block>, matches: string -> bool): string
  {
    var best := BestOf(Dates(blocks, matches, Scanned(blocks)));
    if best.None? then "" else Render(best.value)
  }

  /** The scan over the blocks, keeping the best date and its rendering. */
  method ExtractLastActivity(blocks: seq<Block>, matches: string -> bool) returns (bestStr: string)
    ensures bestStr == LastActivity(blocks, matches)
  {
    var n := if |blocks| < MaxBlocks then |blocks| else MaxBlocks;
    var best: Option<DateTime> := None;
    bestStr := "";
    var i := 0;
    while i < n
      invariant 0 <= i <= n == Scanned(blocks)
      invariant best == BestOf(Dates(blocks, matches, i))
      invariant best.Some? ==> ValidDateTime(best.value)
      invariant bestStr == if best.None? then "" else Render(best.value)
    {
      var dt := DateOfBlock(blocks[i], matches);
      BestOfStep(blocks, matches, i);
      best, bestStr := KeepLater(best, bestStr, dt);
      i := i + 1;
    }
  }

  /**
   * `_extract_last_activity_datetime_for_match` from the block lookup on: the blocks of the
   * ticket's scope (`None` when counting them raised), else those of the page, scanned.
   */
  method ExtractLastActivityOn(inScope: Option<seq<Block>>, onPage: seq<Block>, matches: string -> bool)
    returns (bestStr: string)
    ensures bestStr == LastActivity(PickBlocks(inScope, onPage), matches)
  {
    var blocks := onPage;
    if inScope.Some? && inScope.value != [] {
      blocks := inScope.value;
    }
    bestStr := ExtractLastActivity(blocks, matches);
  }

  /** The comparison inside the scan: a strictly later date and its rendering replace the best. */
  method KeepLater(best: Option<DateTime>, bestStr: string, dt: Option<DateTime>)
    returns (best': Option<DateTime>, bestStr': string)
    requires best.Some? ==> ValidDateTime(best.value)
    requires dt.Some? ==> ValidDateTime(dt.value)
    requires bestStr == if best.None? then "" else Render(best.value)
    ensures best' == Later(best, dt)
    ensures bestStr' == if best'.None? then "" else Render(best'.value)
  {
    best', bestStr' := best, bestStr;
    if dt.Some? && (best.None? || Earlier(best.value, dt.value)) {
      best' := dt;
      bestStr' := Render(dt.value);
    }
  }

  /** Scanning one more block folds its date into the best so far. */
  lemma BestOfStep(blocks: seq<Block>, matches: string -> bool, i: nat)
    requires i < |blocks|
    ensures BestOf(Dates(blocks, matches, i + 1)) ==
            Later(BestOf(Dates(blocks, matches, i)), BlockDate(blocks[i], matches))
  {
    var ds := Dates(blocks, matches, i + 1);
    assert ds[..i] == Dates(blocks, matches, i);
  }

  /** `_extract_last_escalation_om`. */
  function LastEscalationOM(blocks: seq<Block>): string
  {
    LastActivity(blocks, ActivityText.IsEscalationOM)
  }

  /** `_extract_last_resuelto`. */
  function LastResuelto(blocks: seq<Block>): string
  {
    LastActivity(blocks, ActivityText.IsResuelto)
  }

  /** `_extract_last_closed`. */
  function LastClosed(blocks: seq<Block>): string
  {
    LastActivity(blocks, ActivityText.IsClosed)
  }

  /** Some entry of `ds` is the date `d`. */
  predicate Among(ds: seq<Option<DateTime>>, d: DateTime)
  {
    exists i :: 0 <= i < |ds| && ds[i] == Some(d)
  }

  /** No entry of `ds` is later than `d`. */
  predicate NoneLater(ds: seq<Option<DateTime>>, d: DateTime)
  {
    forall i :: 0 <= i < |ds| && ds[i].Some? ==> !Earlier(d, ds[i].value)
  }

  /** The scan finds the latest of the dates, and nothing when there is none. */
  lemma {:induction false} BestIsLatest(ds: seq<Option<DateTime>>)
    ensures BestOf(ds).None? <==> forall i :: 0 <= i < |ds| ==> ds[i].None?
    ensures BestOf(ds).Some? ==> Among(ds, BestOf(ds).value) && NoneLater(ds, BestOf(ds).value)
  {
    if ds != [] {
      var init := ds[..|ds| - 1];
      BestIsLatest(init);
      assert forall i :: 0 <= i < |init| ==> init[i] == ds[i];
      var prev := BestOf(init);
      var dt := ds[|ds| - 1];
      var r := BestOf(ds);
      if r.Some? {
        if r == dt && (prev.None? || Earlier(prev.value, dt.value)) {
          assert ds[|ds| - 1] == Some(r.value);
          forall i | 0 <= i < |ds| && ds[i].Some?
            ensures !Earlier(r.value, ds[i].value)
          {
            var e := ds[i].value;
            EarlierIrreflexive(e);
            if i < |ds| - 1 {
              assert !Earlier(prev.value, e);
              EarlierTotal(prev.value, e);
              if Earlier(r.value, e) {
                EarlierTransitive(prev.value, r.value, e);
              }
            }
          }
        } else {
          assert r == prev;
          var i0 :| 0 <= i0 < |init| && init[i0] == Some(r.value);
          assert ds[i0] == Some(r.value);
          if dt.Some? {
            assert !Earlier(r.value, dt.value);
          }
        }
      }
    }
  }

  /**
   * The result is "" exactly when none of the first 400 blocks qualifies with a date;
   * otherwise it is the rendering of the latest such date.
   */
  lemma LastActivityIsLatest(blocks: seq<Block>, matches: string -> bool)
    ensures LastActivity(blocks, matches) == "" <==>
      forall i :: 0 <= i < Scanned(blocks) ==> BlockDate(blocks[i], matches).None?
    ensures LastActivity(blocks, matches) != "" ==>
      exists d :: && Among(Dates(blocks, matches, Scanned(blocks)), d)
                  && NoneLater(Dates(blocks, matches, Scanned(blocks)), d)
                  && ValidDateTime(d) && LastActivity(blocks, matches) == Render(d)
  {
    var ds := Dates(blocks, matches, Scanned(blocks));
    BestIsLatest(ds);
  }

  /**
   * When the ticket's scope has blocks, the page's play no part: the result is "" exactly
   * when none of the scope's first 400 blocks qualifies with a date, else the latest one.
   */
  lemma ScopeBlocksDecide(scope: seq<Block>, onPage: seq<Block>, matches: string -> bool)
    requires scope != []
    ensures LastActivity(PickBlocks(Some(scope), onPage), matches) == "" <==>
      forall i :: 0 <= i < Scanned(scope) ==> BlockDate(scope[i], matches).None?
    ensures LastActivity(PickBlocks(Some(scope), onPage), matches) != "" ==>
      exists d :: && Among(Dates(scope, matches, Scanned(scope)), d)
                  && NoneLater(Dates(scope, matches, Scanned(scope)), d)
                  && LastActivity(PickBlocks(Some(scope), onPage), matches) == Render(d)
  {
    LastActivityIsLatest(scope, matches);
  }

  /**
   * When the scope has no blocks, or counting them raised, the page's blocks decide: the
   * result is "" exactly when none of the page's first 400 qualifies with a date.
   */
  lemma PageBlocksDecide(inScope: Option<seq<Block>>, onPage: seq<Block>, matches: string -> bool)
    requires inScope.None? || inScope.value == []
    ensures LastActivity(PickBlocks(inScope, onPage), matches) == "" <==>
      forall i :: 0 <= i < Scanned(onPage) ==> BlockDate(onPage[i], matches).None?
    ensures LastActivity(PickBlocks(inScope, onPage), matches) != "" ==>
      exists d :: && Among(Dates(onPage, matches, Scanned(onPage)), d)
                  && NoneLater(Dates(onPage, matches, Scanned(onPage)), d)
                  && LastActivity(PickBlocks(inScope, onPage), matches) == Render(d)
  {
    LastActivityIsLatest(onPage, matches);
  }

  /** Blocks after the 400th never change the result. */
  lemma BlocksPastLimitIgnored(blocks: seq<Block>, matches: string -> bool)
    requires |blocks| > MaxBlocks
    ensures LastActivity(blocks, matches) == LastActivity(blocks[..MaxBlocks], matches)
  {
    assert Dates(blocks, matches, MaxBlocks) == Dates(blocks[..MaxBlocks], matches, MaxBlocks);
  }

  /** A heading date is preferred to a date found in the block's text. */
  lemma HeadingDatePreferred(b: Block, matches: string -> bool)
    requires b.text.Some? && matches(NormText(b.text.value))
    requires ParseActivityDateTime(HeadingStamp(b.headings)).Some?
    ensures BlockDate(b, matches) == ParseActivityDateTime(HeadingStamp(b.headings))
  {
  }
}
