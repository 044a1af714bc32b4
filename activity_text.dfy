/**
 * The predicates that decide which ticket activity counts as an escalation to
 * "Operación y Mantenimiento", a change to "Resuelto" or a closure.  Each reads the
 * activity's text after `_norm_text` (`Text.NormText`).
 */
module ActivityText {
  import opened Wrappers
  import opened Text

  /** `w` occurs in `s` starting at index `i`. */
  predicate OccursAt(s: string, w: string, i: int)
  {
    0 <= i && i + |w| <= |s| && s[i..i + |w|] == w
  }

  /** Python's `w in s` on strings. */
  predicate Contains(s: string, w: string)
  {
    exists i | 0 <= i <= |s| - |w| :: OccursAt(s, w, i)
  }

  /** `w` occurs at `i` with no letter or digit of `[a-z0-9]` right before or right after it. */
  predicate WordAt(s: string, w: string, i: int)
  {
    && OccursAt(s, w, i)
    && (i == 0 || !IsLowerAlnum(s[i - 1]))
    && (i + |w| == |s| || !IsLowerAlnum(s[i + |w|]))
  }

  /**
   * `re.search(r"(?<![a-z0-9])" + re.escape(w) + r"(?![a-z0-9])", s)` started at `from`:
   * the leftmost index at or after `from` where `w` occurs as a whole word.
   */
  function SearchWord(s: string, w: string, from: nat): (r: Option<nat>)
    ensures r.Some? ==> from <= r.value && WordAt(s, w, r.value)
    ensures r.Some? ==> forall j :: from <= j < r.value ==> !WordAt(s, w, j)
    ensures r.None? ==> forall j :: from <= j ==> !WordAt(s, w, j)
    decreases |s| + 1 - from
  {
    if from + |w| > |s| then None
    else if WordAt(s, w, from) then Some(from)
    else SearchWord(s, w, from + 1)
  }

  /** `_has_word`: the stripped, lower-cased `word` occurs in `norm` as a whole word. */
  predicate HasWord(norm: string, word: string)
  {
    var w := LowerAll(Strip(word));
    w != [] && SearchWord(norm, w, 0).Some?
  }

  /** `_has_word` holds exactly when the (non-empty) word occurs somewhere between word boundaries. */
  lemma HasWordIff(norm: string, word: string)
    ensures HasWord(norm, word) <==>
      var w := LowerAll(Strip(word));
      w != [] && exists i :: WordAt(norm, w, i)
  {
  }

  /** A whole-word occurrence is in particular an occurrence. */
  lemma HasWordContains(norm: string, word: string)
    requires HasWord(norm, word)
    ensures Contains(norm, LowerAll(Strip(word)))
  {
    var w := LowerAll(Strip(word));
    var i := SearchWord(norm, w, 0).value;
    assert OccursAt(norm, w, i);
  }

  /** `any(k in n for k in subs)`. */
  predicate AnyContains(n: string, subs: seq<string>)
  {
    exists k :: k in subs && Contains(n, k)
  }

  const GroupChanges: seq<string> := ["changed group", "cambiado grupo", "cambio grupo"]
  const MaintenanceGroups: seq<string> := ["operacion y mantenimiento", "operación y mantenimiento"]

  const StatusChanges: seq<string> :=
    ["changed status", "status changed", "cambiado estado", "cambio estado", "cambiar el estado"]

  const ClosureContexts: seq<string> :=
    ["changed status", "status changed", "ticket closed", "closed ticket", "cambiado estado",
     "cambio estado", "cambiar el estado", "ticket cerrado", "cerrado el ticket"]

  /** The predicate of `_extract_last_escalation_om`. */
  predicate IsEscalationOM(norm: string)
  {
    AnyContains(norm, GroupChanges) && AnyContains(norm, MaintenanceGroups)
  }

  /** The predicate of `_extract_last_resuelto`. */
  predicate IsResuelto(norm: string)
  {
    HasWord(norm, "resuelto")
    && (AnyContains(norm, StatusChanges) || Contains(norm, "status") || Contains(norm, "estado"))
  }

  /** The predicate of `_extract_last_closed`. */
  predicate IsClosed(norm: string)
  {
    AnyContains(norm, ClosureContexts) && (HasWord(norm, "closed") || HasWord(norm, "cerrado"))
  }

  /** Containment is transitive. */
  lemma ContainsTrans(n: string, a: string, b: string)
    requires Contains(n, a) && Contains(a, b)
    ensures Contains(n, b)
  {
    var i :| 0 <= i <= |n| - |a| && OccursAt(n, a, i);
    var j :| 0 <= j <= |a| - |b| && OccursAt(a, b, j);
    forall k | 0 <= k < |b|
      ensures n[i + j..i + j + |b|][k] == b[k]
    {
      assert b[k] == a[j + k] == n[i..i + |a|][j + k];
    }
    assert OccursAt(n, b, i + j);
  }

  /** Each status-change phrase mentions "status" or "estado". */
  lemma StatusChangesMention(k: string)
    requires k in StatusChanges
    ensures Contains(k, "status") || Contains(k, "estado")
  {
    if k == "changed status" {
      assert OccursAt(k, "status", 8);
    } else if k == "status changed" {
      assert OccursAt(k, "status", 0);
    } else if k == "cambiado estado" {
      assert OccursAt(k, "estado", 9);
    } else if k == "cambio estado" {
      assert OccursAt(k, "estado", 7);
    } else {
      assert OccursAt(k, "estado", 11);
    }
  }

  /**
   * The status-change phrases of `_extract_last_resuelto` add nothing: the activity counts
   * exactly when "resuelto" is a whole word and the text mentions "status" or "estado".
   */
  lemma ResueltoIff(norm: string)
    ensures IsResuelto(norm) <==>
      HasWord(norm, "resuelto") && (Contains(norm, "status") || Contains(norm, "estado"))
  {
    if AnyContains(norm, StatusChanges) {
      var k :| k in StatusChanges && Contains(norm, k);
      StatusChangesMention(k);
      if Contains(k, "status") {
        ContainsTrans(norm, k, "status");
      } else {
        ContainsTrans(norm, k, "estado");
      }
    }
  }

  /** "closed" and "cerrado" are their own stripped, lower-cased forms. */
  lemma ClosureWordsKeys()
    ensures LowerAll(Strip("closed")) == "closed" && LowerAll(Strip("cerrado")) == "cerrado"
  {
    StripFixpoint("closed");
    StripFixpoint("cerrado");
  }

  /** A text the closed-date predicate accepts contains "closed" or "cerrado". */
  lemma ClosedMentionsWord(norm: string)
    requires IsClosed(norm)
    ensures Contains(norm, "closed") || Contains(norm, "cerrado")
  {
    ClosureWordsKeys();
    if HasWord(norm, "closed") {
      HasWordContains(norm, "closed");
    } else {
      HasWordContains(norm, "cerrado");
    }
  }

  /** A folded text holds no accented Latin-1 letter, so "ó" never occurs in it. */
  lemma FoldedHasNoAccent(n: string)
    requires AllFolded(n)
    ensures !Contains(n, "operación y mantenimiento")
  {
    var w := "operación y mantenimiento";
    forall i | 0 <= i <= |n| - |w|
      ensures !OccursAt(n, w, i)
    {
      assert Fold(n[i + 7]) == n[i + 7] != w[7];
      assert n[i..i + |w|][7] == n[i + 7];
    }
  }

  /**
   * The accented spelling of "operación y mantenimiento" in `_extract_last_escalation_om`
   * can never match: the text it is tested against has been through `_norm_text`.
   */
  lemma EscalationAccentedNeverMatches(txt: string)
    ensures !Contains(NormText(txt), "operación y mantenimiento")
  {
    NormTextShape(txt);
    FoldedHasNoAccent(NormText(txt));
  }

  /** On a normalised text the escalation test needs only the unaccented spelling. */
  lemma EscalationIff(n: string)
    requires AllFolded(n)
    ensures IsEscalationOM(n) <==>
      AnyContains(n, GroupChanges) && Contains(n, "operacion y mantenimiento")
  {
    FoldedHasNoAccent(n);
  }
}
