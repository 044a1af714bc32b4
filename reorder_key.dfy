/**
 * `_norm_key`, the tolerant header key of the column reordering: strip, lower-case, strip
 * accents, turn every run of characters outside `[a-z0-9]` into one space, split into
 * words, drop the Spanish stop-words, and join the words with single spaces.
 */
module ReorderKey {
  import opened Text

  const StopWords: set<string> := {"de", "del", "la", "el", "los", "las", "y", "a", "al"}

  /** The accent stripping applied to an already lower-cased string. */
  function StripAccents(s: string): (r: string)
    ensures |r| == |s|
    ensures forall i :: 0 <= i < |s| ==> r[i] == StripAccent(s[i])
  {
    seq(|s|, i requires 0 <= i < |s| => StripAccent(s[i]))
  }

  /** Drops the characters outside `[a-z0-9]` at the front of `s`. */
  function SkipOthers(s: string): (r: string)
    ensures |r| <= |s|
    ensures r == [] || IsLowerAlnum(r[0])
  {
    if s != [] && !IsLowerAlnum(s[0]) then SkipOthers(s[1..]) else s
  }

  /** `re.sub(r"[^a-z0-9]+", " ", s)`. */
  function SubOthers(s: string): (r: string)
    decreases |s|
  {
    if s == [] then []
    else if IsLowerAlnum(s[0]) then [s[0]] + SubOthers(s[1..])
    else [' '] + SubOthers(SkipOthers(s[1..]))
  }

  /** The length of the leading run of non-whitespace characters. */
  function WordLen(s: string): (n: nat)
    ensures n <= |s|
    ensures forall i :: 0 <= i < n ==> !IsSpace(s[i])
    ensures n < |s| ==> IsSpace(s[n])
  {
    if s == [] || IsSpace(s[0]) then 0 else 1 + WordLen(s[1..])
  }

  /** `str.split()` with no separator: the maximal runs of non-whitespace characters. */
  function Split(s: string): (ws: seq<string>)
    decreases |s|
  {
    if s == [] then []
    else if IsSpace(s[0]) then Split(s[1..])
    else
      var n := WordLen(s);
      [s[..n]] + Split(s[n..])
  }

  /** `[t for t in tokens if t not in stop]`. */
  function DropStopWords(ts: seq<string>): (r: seq<string>)
    ensures |r| <= |ts|
  {
    if ts == [] then []
    else (if ts[0] in StopWords then [] else [ts[0]]) + DropStopWords(ts[1..])
  }

  /** `" ".join(tokens)`. */
  function JoinWords(ts: seq<string>): string
  {
    if ts == [] then ""
    else if |ts| == 1 then ts[0]
    else ts[0] + " " + JoinWords(ts[1..])
  }

  /** The words `_norm_key` joins: the non-stop-words of a non-blank header. */
  function KeyWords(value: string): seq<string>
  {
    var s := LowerAll(Strip(value));
    if s == "" then [] else DropStopWords(Split(SubOthers(StripAccents(s))))
  }

  /** `_norm_key(value)`. */
  function NormKey(value: string): string
  {
    var s := LowerAll(Strip(value));
    if s == "" then "" else JoinWords(DropStopWords(Split(SubOthers(StripAccents(s)))))
  }

  // ---- properties ----

  /** A word of a key: non-empty, made of `[a-z0-9]`, and not a stop-word. */
  predicate KeyWord(t: string)
  {
    t != "" && (forall i :: 0 <= i < |t| ==> IsLowerAlnum(t[i])) && t !in StopWords
  }

  /** Only `[a-z0-9]` and the space. */
  predicate AlnumOrSpace(s: string)
  {
    forall i :: 0 <= i < |s| ==> IsLowerAlnum(s[i]) || s[i] == ' '
  }

  lemma {:induction false} SubOthersAlnumOrSpace(s: string)
    ensures AlnumOrSpace(SubOthers(s))
    decreases |s|
  {
    if s != [] {
      var r := SubOthers(s);
      if IsLowerAlnum(s[0]) {
        SubOthersAlnumOrSpace(s[1..]);
        assert forall i :: 1 <= i < |r| ==> r[i] == SubOthers(s[1..])[i - 1];
      } else {
        SubOthersAlnumOrSpace(SkipOthers(s[1..]));
        assert forall i :: 1 <= i < |r| ==> r[i] == SubOthers(SkipOthers(s[1..]))[i - 1];
      }
    }
  }

  /** Splitting a string of `[a-z0-9]` and spaces gives non-empty `[a-z0-9]` words. */
  lemma {:induction false} SplitAlnumWords(s: string)
    requires AlnumOrSpace(s)
    ensures forall j :: 0 <= j < |Split(s)| ==>
      Split(s)[j] != "" && forall i :: 0 <= i < |Split(s)[j]| ==> IsLowerAlnum(Split(s)[j][i])
    decreases |s|
  {
    if s != [] {
      if IsSpace(s[0]) {
        SplitAlnumWords(s[1..]);
      } else {
        var n := WordLen(s);
        SplitAlnumWords(s[n..]);
        assert forall j :: 1 <= j < |Split(s)| ==> Split(s)[j] == Split(s[n..])[j - 1];
        assert forall i :: 0 <= i < n ==> s[..n][i] == s[i] && s[i] != ' ';
      }
    }
  }

  lemma {:induction false} DropStopWordsKeeps(ts: seq<string>)
    requires forall j :: 0 <= j < |ts| ==> ts[j] != "" && forall i :: 0 <= i < |ts[j]| ==> IsLowerAlnum(ts[j][i])
    ensures forall j :: 0 <= j < |DropStopWords(ts)| ==> KeyWord(DropStopWords(ts)[j])
  {
    if ts != [] {
      DropStopWordsKeeps(ts[1..]);
      var r := DropStopWords(ts);
      if ts[0] !in StopWords {
        assert forall j :: 1 <= j < |r| ==> r[j] == DropStopWords(ts[1..])[j - 1];
      }
    }
  }

  /** The words of a key are key words, and the key is exactly those words joined by single spaces. */
  lemma NormKeyWords(value: string)
    ensures forall j :: 0 <= j < |KeyWords(value)| ==> KeyWord(KeyWords(value)[j])
    ensures NormKey(value) == JoinWords(KeyWords(value))
  {
    var s := LowerAll(Strip(value));
    if s != "" {
      var sub := SubOthers(StripAccents(s));
      SubOthersAlnumOrSpace(StripAccents(s));
      SplitAlnumWords(sub);
      DropStopWordsKeeps(Split(sub));
    }
  }

  /** A blank header has the empty key. */
  lemma NormKeyBlank(value: string)
    requires IsBlank(value)
    ensures NormKey(value) == ""
  {
    StripEmptyIffBlank(value);
  }

  /** Joined key words use only `[a-z0-9]` and single spaces, and neither start nor end with a space. */
  lemma {:induction false} JoinWordsShape(ts: seq<string>)
    requires forall j :: 0 <= j < |ts| ==> KeyWord(ts[j])
    ensures var r := JoinWords(ts);
      AlnumOrSpace(r) && (r == "" <==> ts == []) &&
      (r != "" ==> IsLowerAlnum(r[0]) && IsLowerAlnum(r[|r| - 1]))
  {
    if |ts| > 1 {
      JoinWordsShape(ts[1..]);
      var r := JoinWords(ts);
      var rest := JoinWords(ts[1..]);
      assert r == ts[0] + " " + rest;
      assert forall i :: 0 <= i < |ts[0]| ==> r[i] == ts[0][i];
      assert r[|ts[0]|] == ' ';
      assert forall i :: |ts[0]| < i < |r| ==> r[i] == rest[i - |ts[0]| - 1];
    }
  }

  /** The key has no whitespace at either end and no double space. */
  lemma {:induction false} JoinWordsSingleSpaces(ts: seq<string>)
    requires forall j :: 0 <= j < |ts| ==> KeyWord(ts[j])
    ensures var r := JoinWords(ts); forall i :: 0 <= i < |r| - 1 ==> !(r[i] == ' ' && r[i + 1] == ' ')
  {
    if |ts| > 1 {
      JoinWordsSingleSpaces(ts[1..]);
      JoinWordsShape(ts[1..]);
      var r := JoinWords(ts);
      var rest := JoinWords(ts[1..]);
      assert r == ts[0] + " " + rest;
      assert forall i :: 0 <= i < |ts[0]| ==> r[i] == ts[0][i];
      assert forall i :: |ts[0]| < i < |r| ==> r[i] == rest[i - |ts[0]| - 1];
    }
  }

  /**
   * What the key looks like: lower-case letters and digits in words separated by single
   * spaces, no stop-word among the words, empty exactly when there are no words.
   */
  lemma NormKeyShape(value: string)
    ensures var k := NormKey(value);
      AlnumOrSpace(k) && (k != "" ==> IsLowerAlnum(k[0]) && IsLowerAlnum(k[|k| - 1])) &&
      (forall i :: 0 <= i < |k| - 1 ==> !(k[i] == ' ' && k[i + 1] == ' ')) &&
      (k == "" <==> KeyWords(value) == [])
  {
    NormKeyWords(value);
    JoinWordsShape(KeyWords(value));
    JoinWordsSingleSpaces(KeyWords(value));
  }

  lemma {:induction false} SplitJoinWords(ts: seq<string>)
    requires forall j :: 0 <= j < |ts| ==> KeyWord(ts[j])
    ensures Split(JoinWords(ts)) == ts
  {
    if |ts| == 1 {
      var s := ts[0];
      assert WordLen(s) == |s|;
      assert s[..|s|] == s && s[|s|..] == [];
    } else if |ts| > 1 {
      var rest := JoinWords(ts[1..]);
      var s := JoinWords(ts);
      assert s == ts[0] + " " + rest;
      var n := |ts[0]|;
      assert forall i :: 0 <= i < n ==> s[i] == ts[0][i] && IsLowerAlnum(s[i]);
      assert s[n] == ' ';
      assert WordLen(s) == n;
      assert s[..n] == ts[0];
      assert s[n..] == " " + rest;
      assert (" " + rest)[1..] == rest;
      SplitJoinWords(ts[1..]);
    }
  }

  lemma {:induction false} DropStopWordsNone(ts: seq<string>)
    requires forall j :: 0 <= j < |ts| ==> ts[j] !in StopWords
    ensures DropStopWords(ts) == ts
  {
    if ts != [] {
      DropStopWordsNone(ts[1..]);
    }
  }

  lemma {:induction false} SubOthersFixpoint(s: string)
    requires AlnumOrSpace(s)
    requires forall i :: 0 <= i < |s| - 1 ==> !(s[i] == ' ' && s[i + 1] == ' ')
    ensures SubOthers(s) == s
    decreases |s|
  {
    if s != [] {
      assert AlnumOrSpace(s[1..]);
      SubOthersFixpoint(s[1..]);
      if !IsLowerAlnum(s[0]) {
        assert SkipOthers(s[1..]) == s[1..] by {
          if |s| > 1 { assert s[1] != ' '; assert IsLowerAlnum(s[1..][0]); }
        }
      }
      assert s == [s[0]] + s[1..];
    }
  }

  lemma LowerAllFixed(k: string)
    requires AlnumOrSpace(k)
    ensures LowerAll(k) == k
  {
    forall i | 0 <= i < |k| ensures LowerAll(k)[i] == k[i] {
      assert IsLowerAlnum(k[i]) || k[i] == ' ';
    }
  }

  lemma StripAccentsFixed(k: string)
    requires AlnumOrSpace(k)
    ensures StripAccents(k) == k
  {
    forall i | 0 <= i < |k| ensures StripAccents(k)[i] == k[i] {
      assert IsLowerAlnum(k[i]) || k[i] == ' ';
    }
  }

  /** A string shaped like a key passes the first steps of the normalisation unchanged. */
  lemma KeyPrefixSteps(k: string)
    requires k != "" && AlnumOrSpace(k) && IsLowerAlnum(k[0]) && IsLowerAlnum(k[|k| - 1])
    requires forall i :: 0 <= i < |k| - 1 ==> !(k[i] == ' ' && k[i + 1] == ' ')
    ensures LowerAll(Strip(k)) == k
    ensures SubOthers(StripAccents(k)) == k
  {
    StripFixpoint(k);
    LowerAllFixed(k);
    StripAccentsFixed(k);
    SubOthersFixpoint(k);
  }

  /** A key is its own key: normalising again changes nothing. */
  lemma NormKeyIdempotent(value: string)
    ensures NormKey(NormKey(value)) == NormKey(value)
  {
    var k := NormKey(value);
    var ts := KeyWords(value);
    NormKeyWords(value);
    NormKeyShape(value);
    if k != "" {
      KeyPrefixSteps(k);
      SplitJoinWords(ts);
      DropStopWordsNone(ts);
    }
  }
}
