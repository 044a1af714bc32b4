/**
 * Character classes and string normalisation shared by the spreadsheet code and the
 * browser session: Python's `str.strip()`, `str.lower()`, NFKD accent stripping and
 * `re.sub(r"\s+", " ", s)`.
 *
 * Characters are Unicode scalar values.  Lower-casing covers ASCII and the Latin-1
 * capitals; accent stripping covers the Latin-1 letters that NFKD decomposes into a
 * base letter and a combining mark (the accented letters of Spanish among them).
 */
module Text {

  /** Python's `str.isspace()` (which is also what `\s`, `strip()` and `split()` use). */
  predicate IsSpace(c: char)
  {
    || ('\t' <= c <= '\r')                // tab, line feed, vertical tab, form feed, carriage return
    || ('\U{1C}' <= c <= ' ')              // the four information separators and the space
    || c == '\U{85}' || c == '\U{A0}' || c == '\U{1680}'
    || ('\U{2000}' <= c <= '\U{200A}')
    || c == '\U{2028}' || c == '\U{2029}' || c == '\U{202F}' || c == '\U{205F}' || c == '\U{3000}'
  }

  predicate IsDigit(c: char)
  {
    '0' <= c <= '9'
  }

  /** The class `[a-z0-9]` of the header-key and word-boundary regular expressions. */
  predicate IsLowerAlnum(c: char)
  {
    'a' <= c <= 'z' || IsDigit(c)
  }

  predicate IsUpperAscii(c: char)
  {
    'A' <= c <= 'Z'
  }

  /** `str.lower()` on ASCII and Latin-1 capitals. */
  function Lower(c: char): (r: char)
    ensures IsSpace(r) <==> IsSpace(c)
    ensures IsDigit(r) <==> IsDigit(c)
    ensures !IsUpperAscii(r)
    ensures 'a' <= c <= 'z' ==> r == c
  {
    if IsUpperAscii(c) || ('\U{C0}' <= c <= '\U{DE}' && c != '\U{D7}') then
      (c as int + 32) as char
    else
      c
  }

  /** NFKD decomposition followed by dropping the combining marks, on Latin-1 small letters. */
  function StripAccent(c: char): char
  {
    if '\U{E0}' <= c <= '\U{E5}' then 'a'
    else if c == '\U{E7}' then 'c'
    else if '\U{E8}' <= c <= '\U{EB}' then 'e'
    else if '\U{EC}' <= c <= '\U{EF}' then 'i'
    else if c == '\U{F1}' then 'n'
    else if '\U{F2}' <= c <= '\U{F6}' then 'o'
    else if '\U{F9}' <= c <= '\U{FC}' then 'u'
    else if c == '\U{FD}' || c == '\U{FF}' then 'y'
    else c
  }

  /** Lower-case, then strip the accent. */
  function Fold(c: char): (r: char)
    ensures IsSpace(r) <==> IsSpace(c)
    ensures IsDigit(r) <==> IsDigit(c)
    ensures !IsUpperAscii(r)
  {
    StripAccent(Lower(c))
  }

  /** Folding an already folded character changes nothing. */
  lemma FoldIdempotent(c: char)
    ensures Fold(Fold(c)) == Fold(c)
  {
  }

  function FoldAll(s: string): (r: string)
    ensures |r| == |s|
    ensures forall i :: 0 <= i < |s| ==> r[i] == Fold(s[i])
  {
    if s == [] then [] else [Fold(s[0])] + FoldAll(s[1..])
  }

  /** `str.lower()` on a whole string. */
  function LowerAll(s: string): (r: string)
    ensures |r| == |s|
    ensures forall i :: 0 <= i < |s| ==> r[i] == Lower(s[i])
  {
    if s == [] then [] else [Lower(s[0])] + LowerAll(s[1..])
  }

  function TrimLeft(s: string): (r: string)
    ensures |r| <= |s|
    ensures r == [] || !IsSpace(r[0])
  {
    if s != [] && IsSpace(s[0]) then TrimLeft(s[1..]) else s
  }

  function TrimRight(s: string): (r: string)
    ensures |r| <= |s|
    ensures r == [] || !IsSpace(r[|r| - 1])
  {
    if s != [] && IsSpace(s[|s| - 1]) then TrimRight(s[..|s| - 1]) else s
  }

  /** `lstrip` removes a prefix made of whitespace only. */
  lemma {:induction false} TrimLeftSuffix(s: string)
    ensures TrimLeft(s) == s[|s| - |TrimLeft(s)|..]
    ensures forall i :: 0 <= i < |s| - |TrimLeft(s)| ==> IsSpace(s[i])
    decreases |s|
  {
    if s != [] && IsSpace(s[0]) {
      TrimLeftSuffix(s[1..]);
    }
  }

  /** `rstrip` removes a suffix made of whitespace only. */
  lemma {:induction false} TrimRightPrefix(s: string)
    ensures TrimRight(s) == s[..|TrimRight(s)|]
    ensures forall i :: |TrimRight(s)| <= i < |s| ==> IsSpace(s[i])
    decreases |s|
  {
    if s != [] && IsSpace(s[|s| - 1]) {
      TrimRightPrefix(s[..|s| - 1]);
    }
  }

  /** `str.strip()`: the longest infix that neither starts nor ends with whitespace. */
  function Strip(s: string): (r: string)
    ensures |r| <= |s|
    ensures r == [] || (!IsSpace(r[0]) && !IsSpace(r[|r| - 1]))
  {
    TrimRightPrefix(TrimLeft(s));
    TrimRight(TrimLeft(s))
  }

  predicate IsBlank(s: string)
  {
    forall i :: 0 <= i < |s| ==> IsSpace(s[i])
  }

  lemma {:induction false} TrimLeftBlank(s: string)
    requires IsBlank(s)
    ensures TrimLeft(s) == []
  {
    if s != [] {
      TrimLeftBlank(s[1..]);
    }
  }

  lemma StripEmptyIffBlank(s: string)
    ensures Strip(s) == [] <==> IsBlank(s)
  {
    if IsBlank(s) {
      TrimLeftBlank(s);
    } else {
      var i :| 0 <= i < |s| && !IsSpace(s[i]);
      var l := TrimLeft(s);
      TrimLeftSuffix(s);
      TrimRightPrefix(l);
      assert |l| > 0;
      assert !IsSpace(l[0]);
      assert |TrimRight(l)| > 0;
    }
  }

  /** Drops the whitespace at the front of `s`. */
  function DropSpaces(s: string): (r: string)
    ensures |r| <= |s|
    ensures r == [] || !IsSpace(r[0])
  {
    if s != [] && IsSpace(s[0]) then DropSpaces(s[1..]) else s
  }

  /** `re.sub(r"\s+", " ", s)`: every maximal run of whitespace becomes one space. */
  function Collapse(s: string): (r: string)
    ensures |r| <= |s|
    ensures s == [] <==> r == []
    ensures s != [] ==> r[0] == if IsSpace(s[0]) then ' ' else s[0]
    decreases |s|
  {
    if s == [] then []
    else if IsSpace(s[0]) then [' '] + Collapse(DropSpaces(s[1..]))
    else [s[0]] + Collapse(s[1..])
  }

  /** `_norm_header` / `_norm_text`: strip, lower-case, strip accents, collapse whitespace. */
  function NormText(s: string): string
  {
    Collapse(FoldAll(Strip(s)))
  }

  /** The collapsed form has one space between words and no other whitespace. */
  predicate Collapsed(s: string)
  {
    && (forall i :: 0 <= i < |s| && IsSpace(s[i]) ==> s[i] == ' ')
    && (forall i :: 0 <= i < |s| - 1 ==> !(s[i] == ' ' && s[i + 1] == ' '))
  }

  predicate AllFolded(s: string)
  {
    forall i :: 0 <= i < |s| ==> Fold(s[i]) == s[i]
  }

  lemma {:induction false} CollapseIsCollapsed(s: string)
    ensures Collapsed(Collapse(s))
    decreases |s|
  {
    if s == [] {
    } else if IsSpace(s[0]) {
      CollapseIsCollapsed(DropSpaces(s[1..]));
    } else {
      CollapseIsCollapsed(s[1..]);
    }
  }

  lemma {:induction false} CollapseLast(s: string)
    requires s != [] && !IsSpace(s[|s| - 1])
    ensures Collapse(s)[|Collapse(s)| - 1] == s[|s| - 1]
    decreases |s|
  {
    if IsSpace(s[0]) {
      var t := DropSpaces(s[1..]);
      DropSpacesSuffix(s[1..]);
      assert t != [] && t[|t| - 1] == s[|s| - 1];
      CollapseLast(t);
    } else if |s| > 1 {
      assert s[1..][|s[1..]| - 1] == s[|s| - 1];
      CollapseLast(s[1..]);
    }
  }

  lemma {:induction false} CollapseFolded(s: string)
    requires AllFolded(s)
    ensures AllFolded(Collapse(s))
    decreases |s|
  {
    if s == [] {
    } else if IsSpace(s[0]) {
      var rest := DropSpaces(s[1..]);
      DropSpacesSuffix(s[1..]);
      assert AllFolded(rest);
      CollapseFolded(rest);
      assert Fold(' ') == ' ';
      FoldedCons(' ', Collapse(rest));
      assert Collapse(s) == [' '] + Collapse(rest);
    } else {
      CollapseFolded(s[1..]);
      FoldedCons(s[0], Collapse(s[1..]));
      assert Collapse(s) == [s[0]] + Collapse(s[1..]);
    }
  }

  /** Prepending a folded character keeps a string folded. */
  lemma FoldedCons(c: char, t: string)
    requires Fold(c) == c && AllFolded(t)
    ensures AllFolded([c] + t)
  {
    var s := [c] + t;
    forall i | 0 <= i < |s|
      ensures Fold(s[i]) == s[i]
    {
      if i > 0 {
        assert s[i] == t[i - 1];
      }
    }
  }

  lemma {:induction false} DropSpacesSuffix(s: string)
    ensures DropSpaces(s) == s[|s| - |DropSpaces(s)|..]
    ensures forall i :: 0 <= i < |s| - |DropSpaces(s)| ==> IsSpace(s[i])
  {
    if s != [] && IsSpace(s[0]) {
      DropSpacesSuffix(s[1..]);
    }
  }

  /**
   * A normalised header has no whitespace at either end, no run of two spaces, no
   * whitespace other than a space, no capital letter and no accented Latin-1 letter,
   * and normalising it again changes nothing.
   */
  lemma NormTextShape(s: string)
    ensures var r := NormText(s);
      && Collapsed(r) && AllFolded(r)
      && (r == [] || (r[0] != ' ' && r[|r| - 1] != ' '))
  {
    var t := FoldAll(Strip(s));
    forall i | 0 <= i < |t| ensures Fold(t[i]) == t[i] {
      FoldIdempotent(Strip(s)[i]);
    }
    CollapseIsCollapsed(t);
    CollapseFolded(t);
    if t != [] {
      CollapseLast(t);
    }
  }

  lemma {:induction false} CollapseFixpoint(s: string)
    requires Collapsed(s)
    ensures Collapse(s) == s
    decreases |s|
  {
    if s != [] {
      assert Collapsed(s[1..]);
      if IsSpace(s[0]) {
        assert s[1..] == [] || !IsSpace(s[1]);
        assert DropSpaces(s[1..]) == s[1..];
      }
      CollapseFixpoint(s[1..]);
    }
  }

  lemma StripFixpoint(s: string)
    requires s == [] || (!IsSpace(s[0]) && !IsSpace(s[|s| - 1]))
    ensures Strip(s) == s
  {
  }

  lemma FoldAllFixpoint(s: string)
    requires AllFolded(s)
    ensures FoldAll(s) == s
  {
  }

  /** `_norm_header` / `_norm_text` is idempotent. */
  lemma NormTextIdempotent(s: string)
    ensures NormText(NormText(s)) == NormText(s)
  {
    var r := NormText(s);
    NormTextShape(s);
    assert r == [] || (!IsSpace(r[0]) && !IsSpace(r[|r| - 1]));
    StripFixpoint(r);
    FoldAllFixpoint(r);
    CollapseFixpoint(r);
  }

  lemma {:induction false} FoldAllTrimLeft(s: string)
    ensures FoldAll(TrimLeft(s)) == TrimLeft(FoldAll(s))
  {
    var f := FoldAll(s);
    if s != [] && IsSpace(s[0]) {
      assert IsSpace(f[0]);
      assert f[1..] == FoldAll(s[1..]);
      FoldAllTrimLeft(s[1..]);
    } else if s != [] {
      assert !IsSpace(f[0]);
    }
  }

  lemma {:induction false} FoldAllTrimRight(s: string)
    ensures FoldAll(TrimRight(s)) == TrimRight(FoldAll(s))
    decreases |s|
  {
    var f := FoldAll(s);
    if s != [] && IsSpace(s[|s| - 1]) {
      assert IsSpace(f[|f| - 1]);
      assert f[..|s| - 1] == FoldAll(s[..|s| - 1]);
      FoldAllTrimRight(s[..|s| - 1]);
    } else if s != [] {
      assert !IsSpace(f[|f| - 1]);
    }
  }

  /**
   * Two headers that agree once lower-cased and stripped of accents have the same
   * normal form, whatever their case or accents.
   */
  lemma NormTextFoldInsensitive(s: string, t: string)
    requires FoldAll(s) == FoldAll(t)
    ensures NormText(s) == NormText(t)
  {
    FoldAllTrimLeft(s);
    FoldAllTrimRight(TrimLeft(s));
    FoldAllTrimLeft(t);
    FoldAllTrimRight(TrimLeft(t));
  }

  /** Whitespace around a header does not change its normal form. */
  lemma {:induction false} NormTextIgnoresPadding(s: string, pre: string, post: string)
    requires IsBlank(pre) && IsBlank(post)
    ensures NormText(pre + s + post) == NormText(s)
  {
    TrimLeftPadding(pre, s + post);
    if TrimLeft(s) == [] {
      TrimLeftBlankTail(s, post);
      assert TrimLeft(pre + s + post) == TrimLeft(post) by {
        assert pre + s + post == pre + (s + post);
      }
      TrimLeftBlank(post);
      StripEmptyIffBlank(s);
    } else {
      TrimLeftTail(s, post);
      assert pre + s + post == pre + (s + post);
      TrimRightPadding(TrimLeft(s), post);
    }
  }

  lemma {:induction false} TrimLeftPadding(pre: string, s: string)
    requires IsBlank(pre)
    ensures TrimLeft(pre + s) == TrimLeft(s)
  {
    if pre != [] {
      assert (pre + s)[0] == pre[0];
      assert (pre + s)[1..] == pre[1..] + s;
      TrimLeftPadding(pre[1..], s);
    } else {
      assert pre + s == s;
    }
  }

  lemma {:induction false} TrimLeftBlankTail(s: string, post: string)
    requires TrimLeft(s) == [] && IsBlank(post)
    ensures TrimLeft(s + post) == TrimLeft(post)
    decreases |s|
  {
    if s != [] {
      assert IsSpace(s[0]);
      assert (s + post)[0] == s[0];
      assert (s + post)[1..] == s[1..] + post;
      TrimLeftBlankTail(s[1..], post);
    } else {
      assert s + post == post;
    }
  }

  lemma {:induction false} TrimLeftTail(s: string, post: string)
    requires TrimLeft(s) != []
    ensures TrimLeft(s + post) == TrimLeft(s) + post
  {
    if IsSpace(s[0]) {
      assert (s + post)[1..] == s[1..] + post;
      TrimLeftTail(s[1..], post);
    }
  }

  lemma {:induction false} TrimRightPadding(s: string, post: string)
    requires IsBlank(post)
    ensures TrimRight(s + post) == TrimRight(s)
    decreases |post|
  {
    if post != [] {
      assert (s + post)[|s + post| - 1] == post[|post| - 1];
      assert (s + post)[..|s + post| - 1] == s + post[..|post| - 1];
      TrimRightPadding(s, post[..|post| - 1]);
    } else {
      assert s + post == s;
    }
  }
}
