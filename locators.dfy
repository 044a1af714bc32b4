/**
 * How a configured step finds its element: a selector string is split on `||` into
 * candidates, and `_click_any` / `_fill_any` / `_press_any` try the candidates in
 * order until one works, re-raising the last error when none does.  `_run_step` first
 * tries inside the ticket's frame and then, when that fails and the frame is not the
 * page itself, on the whole page; the two waiting actions (`_wait_enabled_any`,
 * `_wait_nonempty_any`) try the candidates in the same order.
 *
 * What one attempt on one selector does in the browser is not modelled: it is given
 * as an outcome per selector.
 */
module Locators {
  import opened Wrappers
  import opened Text

  // ---------------------------------------------------------------------------------
  // Splitting on `||`

  /** The index of the first `||` in `s` at or after `from`. */
  function FindSep(s: string, from: nat): (r: Option<nat>)
    ensures r.Some? ==> from <= r.value && r.value + 2 <= |s| && s[r.value] == '|' && s[r.value + 1] == '|'
    ensures r.Some? ==> forall j :: from <= j < r.value ==> !(s[j] == '|' && s[j + 1] == '|')
    ensures r.None? ==> forall j :: from <= j && j + 1 < |s| ==> !(s[j] == '|' && s[j + 1] == '|')
    decreases |s| - from
  {
    if from + 2 > |s| then None
    else if s[from] == '|' && s[from + 1] == '|' then Some(from)
    else FindSep(s, from + 1)
  }

  /** `s.split("||")`: the pieces between the separators, from left to right. */
  function Split(s: string): (parts: seq<string>)
    ensures |parts| >= 1
    decreases |s|
  {
    match FindSep(s, 0)
    case None => [s]
    case Some(i) => [s[..i]] + Split(s[i + 2..])
  }

  /** `"||".join(parts)`. */
  function Join(parts: seq<string>): string
  {
    if parts == [] then ""
    else if |parts| == 1 then parts[0]
    else parts[0] + "||" + Join(parts[1..])
  }

  /** Splitting and joining back gives the original string. */
  lemma {:induction false} JoinSplit(s: string)
    ensures Join(Split(s)) == s
    decreases |s|
  {
    match FindSep(s, 0)
    case None =>
    case Some(i) =>
      JoinSplit(s[i + 2..]);
      var rest := Split(s[i + 2..]);
      assert Split(s)[1..] == rest;
      assert s == s[..i] + "||" + s[i + 2..];
  }

  predicate NoBar(c: string)
  {
    forall k :: 0 <= k < |c| ==> c[k] != '|'
  }

  lemma FindSepAfterBarless(a: string, b: string)
    requires NoBar(a)
    ensures FindSep(a + "||" + b, 0) == Some(|a|)
  {
    var s := a + "||" + b;
    assert s[|a|] == '|' && s[|a| + 1] == '|';
    forall j | 0 <= j < |a|
      ensures !(s[j] == '|' && s[j + 1] == '|')
    {
      assert s[j] == a[j];
    }
  }

  /** Pieces without a `|` of their own come back unchanged from joining and splitting. */
  lemma {:induction false} SplitJoin(parts: seq<string>)
    requires parts != []
    requires forall i :: 0 <= i < |parts| ==> NoBar(parts[i])
    ensures Split(Join(parts)) == parts
  {
    if |parts| == 1 {
      assert FindSep(parts[0], 0).None?;
    } else {
      var rest := Join(parts[1..]);
      FindSepAfterBarless(parts[0], rest);
      var s := parts[0] + "||" + rest;
      assert Join(parts) == s;
      assert s[..|parts[0]|] == parts[0];
      assert s[|parts[0]| + 2..] == rest;
      assert Split(s) == [parts[0]] + Split(rest);
      SplitJoin(parts[1..]);
      assert parts == [parts[0]] + parts[1..];
    }
  }

  /** `[p.strip() for p in pieces if p.strip()]`. */
  function Clean(pieces: seq<string>): (cs: seq<string>)
    ensures |cs| <= |pieces|
    ensures forall i :: 0 <= i < |cs| ==> cs[i] != [] && !IsSpace(cs[i][0]) && !IsSpace(cs[i][|cs[i]| - 1])
  {
    if pieces == [] then []
    else
      var c := Strip(pieces[0]);
      if c == [] then Clean(pieces[1..]) else [c] + Clean(pieces[1..])
  }

  /** The candidates of a selector string: the pieces between `||`, stripped, blank ones dropped. */
  function Candidates(selector: string): (cs: seq<string>)
    ensures |cs| <= |Split(selector)|
    ensures forall i :: 0 <= i < |cs| ==> cs[i] != [] && !IsSpace(cs[i][0]) && !IsSpace(cs[i][|cs[i]| - 1])
  {
    Clean(Split(selector))
  }

  /** Blank or stripped non-empty text: what `Strip` leaves alone. */
  predicate Trimmed(c: string)
  {
    c != [] && !IsSpace(c[0]) && !IsSpace(c[|c| - 1])
  }

  lemma {:induction false} CleanKeepsTrimmed(cs: seq<string>)
    requires forall i :: 0 <= i < |cs| ==> Trimmed(cs[i])
    ensures Clean(cs) == cs
  {
    if cs != [] {
      StripFixpoint(cs[0]);
      CleanKeepsTrimmed(cs[1..]);
    }
  }

  /**
   * The candidates of `"a || b || c"` are `a`, `b`, `c`: joining trimmed, non-empty
   * candidates without a `|` of their own and splitting them again gives them back.
   */
  lemma CandidatesOfJoin(cs: seq<string>)
    requires cs != []
    requires forall i :: 0 <= i < |cs| ==> Trimmed(cs[i]) && NoBar(cs[i])
    ensures Candidates(Join(cs)) == cs
  {
    SplitJoin(cs);
    CleanKeepsTrimmed(cs);
  }

  /** A selector with nothing but whitespace and separators has no candidates. */
  lemma {:induction false} BlankPiecesNoCandidates(pieces: seq<string>)
    requires forall i :: 0 <= i < |pieces| ==> IsBlank(pieces[i])
    ensures Clean(pieces) == []
  {
    if pieces != [] {
      StripEmptyIffBlank(pieces[0]);
      BlankPiecesNoCandidates(pieces[1..]);
    }
  }

  // ---------------------------------------------------------------------------------
  // Trying candidates in order

  /** What one attempt, or a whole step, comes to: done, or the error it raised. */
  datatype Outcome = Done | Raised(error: string)

  /** The index of the first selector whose attempt succeeds. */
  function FirstDone(sels: seq<string>, attempt: string -> Outcome): (r: Option<nat>)
    ensures r.Some? ==> r.value < |sels| && attempt(sels[r.value]).Done?
    ensures r.Some? ==> forall j :: 0 <= j < r.value ==> attempt(sels[j]).Raised?
    ensures r.None? ==> forall j :: 0 <= j < |sels| ==> attempt(sels[j]).Raised?
  {
    if sels == [] then None
    else if attempt(sels[0]).Done? then Some(0)
    else match FirstDone(sels[1..], attempt)
      case None => None
      case Some(k) => Some(k + 1)
  }

  /** The outcome of `_click_any` and its siblings. */
  function TryAny(sels: seq<string>, attempt: string -> Outcome): Outcome
  {
    if sels == [] || FirstDone(sels, attempt).Some? then Done else attempt(sels[|sels| - 1])
  }

  /**
   * The loop of `_click_any` / `_fill_any` / `_press_any`.  `tried` is how many
   * selectors were attempted: up to and including the first that works, else all.
   */
  method TryInOrder(sels: seq<string>, attempt: string -> Outcome) returns (r: Outcome, tried: nat)
    ensures r == TryAny(sels, attempt)
    ensures tried <= |sels|
    ensures FirstDone(sels, attempt).Some? ==> tried == FirstDone(sels, attempt).value + 1
    ensures FirstDone(sels, attempt).None? ==> tried == |sels|
  {
    var lastExc: Option<string> := None;
    tried := 0;
    while tried < |sels|
      invariant 0 <= tried <= |sels|
      invariant forall j :: 0 <= j < tried ==> attempt(sels[j]).Raised?
      invariant tried == 0 <==> lastExc.None?
      invariant tried > 0 ==> lastExc == Some(attempt(sels[tried - 1]).error)
    {
      var out := attempt(sels[tried]);
      if out.Done? {
        tried := tried + 1;
        return Done, tried;
      }
      lastExc := Some(out.error);
      tried := tried + 1;
    }
    if lastExc.Some? {
      return Raised(lastExc.value), tried;
    }
    return Done, tried;
  }

  /** The outcome is an error exactly when there were candidates and every one failed. */
  lemma TryAnyRaisesIff(sels: seq<string>, attempt: string -> Outcome)
    ensures TryAny(sels, attempt).Raised? <==>
      sels != [] && forall j :: 0 <= j < |sels| ==> attempt(sels[j]).Raised?
    ensures TryAny(sels, attempt).Raised? ==> TryAny(sels, attempt) == attempt(sels[|sels| - 1])
  {
    if sels != [] && forall j :: 0 <= j < |sels| ==> attempt(sels[j]).Raised? {
      assert FirstDone(sels, attempt).None?;
    }
  }

  // ---------------------------------------------------------------------------------
  // `_run_step`

  /** A configured step: a bare selector string (a click), a dictionary, or anything else. */
  datatype Step =
    | Text(text: string)
    | Dict(action: string, selector: Selector, timeout: Timeout)
    | Other

  /**
   * The `selector` entry of a dictionary step: absent or falsy, a string, a list of
   * selectors, or a truthy value that cannot be iterated (a number, `True`).
   */
  datatype Selector = NoSelector | One(s: string) | Many(items: seq<string>) | NotIterable

  /** The `timeout_ms` entry of a dictionary step, as `int(...)` sees it. */
  datatype Timeout =
    | DefaultTimeout  // no entry
    | Millis(ms: int) // a number, or text that `int` reads as one
    | Unreadable      // text that `int` cannot read
    | NotANumber      // `None`, a list, a dictionary

  const TypeError := "TypeError"
  const ValueError := "ValueError"

  datatype Action = Click | Fill | Press | WaitEnabled | WaitNonEmpty

  /** `str(step.get("action", "click")).lower()`; anything unknown is a click. */
  function ActionOf(action: string): (a: Action)
    ensures a == Fill <==> LowerAll(action) == "fill"
    ensures a == Press <==> LowerAll(action) == "press"
    ensures a == WaitEnabled <==> LowerAll(action) == "wait_enabled"
    ensures a == WaitNonEmpty <==> LowerAll(action) == "wait_nonempty"
  {
    var a := LowerAll(action);
    if a == "fill" then Fill
    else if a == "press" then Press
    else if a == "wait_enabled" then WaitEnabled
    else if a == "wait_nonempty" then WaitNonEmpty
    else Click
  }

  /** The action a step performs: a bare string clicks. */
  function StepAction(step: Step): Action
  {
    if step.Dict? then ActionOf(step.action) else Click
  }

  /**
   * The candidates of a step, or `None` when `_run_step` builds none: it returns at once
   * for a dictionary without a (non-empty) selector or a step that is neither a string
   * nor a dictionary, and it raises for a selector it cannot iterate (`StepError`).
   */
  function StepCandidates(step: Step): (r: Option<seq<string>>)
    ensures r.Some? ==> forall i :: 0 <= i < |r.value| ==> r.value[i] != []
    ensures r.None? <==>
      step.Other? ||
      (step.Dict? && (step.selector.NoSelector? || step.selector.NotIterable? ||
                      step.selector == One([]) || step.selector == Many([])))
  {
    match step
    case Text(t) => Some(Candidates(t))
    case Dict(_, sel, _) =>
      (match sel
       case NoSelector => None
       case One(s) => if s == [] then None else Some(Candidates(s))
       case Many(items) => if items == [] then None else Some(Clean(items))
       case NotIterable => None)
    case Other => None
  }

  /**
   * `int(step.get("timeout_ms", default))` in a wait: 120 000 ms by default for
   * `wait_enabled` and 300 000 for `wait_nonempty`, else the number given; text `int`
   * cannot read raises ValueError, a value that is not a number or text TypeError.
   */
  function WaitTimeout(act: Action, t: Timeout): (r: Result<int, string>)
    requires act == WaitEnabled || act == WaitNonEmpty
    ensures r.Ok? <==> t.DefaultTimeout? || t.Millis?
    ensures t.DefaultTimeout? ==> r == Ok(if act == WaitEnabled then 120000 else 300000)
    ensures t.Millis? ==> r == Ok(t.ms)
    ensures r.Err? ==> r.error == (if t.Unreadable? then ValueError else TypeError)
  {
    match t
    case DefaultTimeout => Ok(if act == WaitEnabled then 120000 else 300000)
    case Millis(ms) => Ok(ms)
    case Unreadable => Err(ValueError)
    case NotANumber => Err(TypeError)
  }

  /**
   * The error `_run_step` raises outside every `try`, before any candidate is tried: a
   * selector it cannot iterate, or the timeout of a wait with candidates that `int`
   * rejects.
   */
  function StepError(step: Step): (e: Option<string>)
    ensures e.Some? <==>
      step.Dict? &&
      (step.selector.NotIterable? ||
       (StepCandidates(step).Some? && (StepAction(step) == WaitEnabled || StepAction(step) == WaitNonEmpty) &&
        (step.timeout.Unreadable? || step.timeout.NotANumber?)))
    ensures e.Some? ==> e.value == TypeError || e.value == ValueError
  {
    if !step.Dict? then None
    else if step.selector.NotIterable? then Some(TypeError)
    else if StepCandidates(step).None? then None
    else
      var act := StepAction(step);
      if act != WaitEnabled && act != WaitNonEmpty then None
      else match WaitTimeout(act, step.timeout)
        case Ok(_) => None
        case Err(err) => Some(err)
  }

  /**
   * The outcome of `_run_step`.  `inFrame` and `onPage` give what one attempt of each
   * action on each selector does inside the frame and on the whole page; every action,
   * the two waits included, tries the candidates in order (`_click_any`, `_fill_any`,
   * `_press_any`, `_wait_enabled_any`, `_wait_nonempty_any`), first in the frame and
   * then, when that raised and the frame is not the page, on the page.  The errors
   * raised before that, outside the `try`, come first (`StepError`).
   */
  function RunStep(step: Step, frameIsPage: bool,
                   inFrame: (Action, string) -> Outcome, onPage: (Action, string) -> Outcome): Outcome
  {
    var cands := StepCandidates(step);
    if StepError(step).Some? then Raised(StepError(step).value)
    else if cands.None? then Done
    else
      var act := StepAction(step);
      var cs := cands.value;
      var first := TryAny(cs, sel => inFrame(act, sel));
      if first.Done? || frameIsPage then first
      else TryAny(cs, sel => onPage(act, sel))
  }

  /**
   * Whatever the step and its action: an error raised before the candidates are tried
   * is the outcome; otherwise the step fails exactly when it has candidates, every
   * attempt in the frame failed and, unless the frame is the page, every attempt on the
   * page failed too, and the error is the one the last candidate raised, on the page
   * when the page was tried.
   */
  lemma RunStepFallback(step: Step, frameIsPage: bool,
                        inFrame: (Action, string) -> Outcome, onPage: (Action, string) -> Outcome)
    ensures StepError(step).Some? ==> RunStep(step, frameIsPage, inFrame, onPage) == Raised(StepError(step).value)
    ensures var cands := StepCandidates(step);
      var act := StepAction(step);
      StepError(step).None? ==>
        (RunStep(step, frameIsPage, inFrame, onPage).Raised? <==>
          && cands.Some? && cands.value != []
          && (forall j :: 0 <= j < |cands.value| ==> inFrame(act, cands.value[j]).Raised?)
          && (!frameIsPage ==> forall j :: 0 <= j < |cands.value| ==> onPage(act, cands.value[j]).Raised?))
    ensures var cands := StepCandidates(step);
      var act := StepAction(step);
      StepError(step).None? && RunStep(step, frameIsPage, inFrame, onPage).Raised? ==>
        RunStep(step, frameIsPage, inFrame, onPage) ==
          (if frameIsPage then inFrame(act, cands.value[|cands.value| - 1]) else onPage(act, cands.value[|cands.value| - 1]))
  {
    var cands := StepCandidates(step);
    if cands.Some? {
      var act := StepAction(step);
      TryAnyRaisesIff(cands.value, sel => inFrame(act, sel));
      TryAnyRaisesIff(cands.value, sel => onPage(act, sel));
    }
  }
}
