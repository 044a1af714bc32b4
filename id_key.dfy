/**
 * `_id_key`: the canonical identifier key that lets a ticket's customer reference and
 * a customer's ID be compared whatever form the spreadsheet stored them in (an int, a
 * scientific-notation string, a prefixed code such as "R135921", padded text).
 *
 * The merge engine and the browser session carry two textually identical copies of
 * this function; it is modelled once here.  Float cells are not modelled (a cell is
 * `None`, a boolean, an int or a string).
 */
module IdKeys {
  import opened Text
  import opened Sheets
  import opened Wrappers

  predicate AllDigits(s: string)
  {
    forall i :: 0 <= i < |s| ==> IsDigit(s[i])
  }

  predicate HasDigit(s: string)
  {
    exists i :: 0 <= i < |s| && IsDigit(s[i])
  }

  /** A key as `_id_key` produces it from text: digits, no leading zero unless it is "0". */
  predicate IsCanonical(k: string)
  {
    k != "" && AllDigits(k) && (k[0] == '0' ==> k == "0")
  }

  function DigitPrefixLen(s: string): (n: nat)
    ensures n <= |s|
    ensures forall i :: 0 <= i < n ==> IsDigit(s[i])
    ensures n < |s| ==> !IsDigit(s[n])
  {
    if s != [] && IsDigit(s[0]) then 1 + DigitPrefixLen(s[1..]) else 0
  }

  /** `re.findall(r"\d+", s)`: the maximal runs of digits, from left to right. */
  function DigitRuns(s: string): (rs: seq<string>)
    ensures forall i :: 0 <= i < |rs| ==> rs[i] != "" && AllDigits(rs[i])
    decreases |s|
  {
    if s == [] then []
    else if !IsDigit(s[0]) then DigitRuns(s[1..])
    else
      var n := DigitPrefixLen(s);
      [s[..n]] + DigitRuns(s[n..])
  }

  lemma {:induction false} DigitRunsEmpty(s: string)
    ensures DigitRuns(s) == [] <==> !HasDigit(s)
    decreases |s|
  {
    if s != [] {
      if !IsDigit(s[0]) {
        DigitRunsEmpty(s[1..]);
        assert HasDigit(s) <==> HasDigit(s[1..]) by {
          if HasDigit(s) {
            var i :| 0 <= i < |s| && IsDigit(s[i]);
            assert s[1..][i - 1] == s[i];
          }
          if HasDigit(s[1..]) {
            var i :| 0 <= i < |s[1..]| && IsDigit(s[1..][i]);
            assert s[i + 1] == s[1..][i];
          }
        }
      } else {
        assert IsDigit(s[0]);
      }
    }
  }

  /** The position `max(matches, key=len)` picks: the first of the longest. */
  function LongestIndex(rs: seq<string>): (k: nat)
    requires rs != []
    ensures k < |rs|
    ensures forall i :: 0 <= i < |rs| ==> |rs[i]| <= |rs[k]|
    ensures forall j :: 0 <= j < k ==> |rs[j]| < |rs[k]|
  {
    if |rs| == 1 then 0
    else
      var b := LongestIndex(rs[..|rs| - 1]);
      if |rs[|rs| - 1]| > |rs[b]| then |rs| - 1 else b
  }

  /** `_digits`: the longest run of digits (the first one on ties), or "" when there is none. */
  function Digits(s: string): (d: string)
    ensures AllDigits(d)
  {
    var rs := DigitRuns(s);
    if rs == [] then "" else rs[LongestIndex(rs)]
  }

  /** `d.lstrip("0")`. */
  function StripZeros(d: string): (r: string)
    ensures |r| <= |d| && r == d[|d| - |r|..]
    ensures r == "" || r[0] != '0'
    ensures forall i :: 0 <= i < |d| - |r| ==> d[i] == '0'
  {
    if d != "" && d[0] == '0' then StripZeros(d[1..]) else d
  }

  /** `d2 if d2 else "0"` with `d2 = d.lstrip("0")`. */
  function Canon(d: string): (r: string)
    requires AllDigits(d)
    ensures IsCanonical(r)
  {
    var d2 := StripZeros(d);
    if d2 == "" then "0" else d2
  }

  // ---- scientific notation ----

  /** The parts of a string matching `[-+]?\d+(?:\.\d+)?[eE][-+]?\d+`. */
  datatype SciLiteral = SciLiteral(negative: bool, whole: string, frac: string, expNegative: bool, exp: string)

  predicate ValidLiteral(lit: SciLiteral)
  {
    lit.whole != "" && AllDigits(lit.whole) && AllDigits(lit.frac) && lit.exp != "" && AllDigits(lit.exp)
  }

  /** An optional leading `-` or `+` removed. */
  function DropSign(s: string): (r: string)
    ensures |r| <= |s|
  {
    if |s| > 0 && (s[0] == '-' || s[0] == '+') then s[1..] else s
  }

  /** `_SCI_RE.match(s)` on an already stripped string, returning the matched parts. */
  function ParseSci(s: string): (r: Option<SciLiteral>)
    ensures r.Some? ==> ValidLiteral(r.value)
  {
    var s1 := DropSign(s);
    var n1 := DigitPrefixLen(s1);
    if n1 == 0 then None
    else ParseFraction(|s| > 0 && s[0] == '-', s1[..n1], s1[n1..])
  }

  /** The optional `\.\d+` after the integer digits. */
  function ParseFraction(negative: bool, whole: string, rest: string): (r: Option<SciLiteral>)
    requires whole != "" && AllDigits(whole)
    ensures r.Some? ==> ValidLiteral(r.value)
  {
    if |rest| > 0 && rest[0] == '.' then
      var fracLen := DigitPrefixLen(rest[1..]);
      if fracLen == 0 then None
      else ParseExponent(negative, whole, rest[1..1 + fracLen], rest[1 + fracLen..])
    else ParseExponent(negative, whole, "", rest)
  }

  /** The `[eE][-+]?\d+` that must end the string. */
  function ParseExponent(negative: bool, whole: string, frac: string, rest: string): (r: Option<SciLiteral>)
    requires whole != "" && AllDigits(whole) && AllDigits(frac)
    ensures r.Some? ==> ValidLiteral(r.value)
  {
    if |rest| == 0 || (rest[0] != 'e' && rest[0] != 'E') then None
    else
      var digits := DropSign(rest[1..]);
      if digits == "" || DigitPrefixLen(digits) != |digits| then None
      else Some(SciLiteral(negative, whole, frac, |rest| > 1 && rest[1] == '-', digits))
  }

  function DigitValue(c: char): nat
    requires IsDigit(c)
  {
    c as int - '0' as int
  }

  /** The number a string of decimal digits denotes. */
  function DigitsValue(s: string): nat
    requires AllDigits(s)
  {
    if s == "" then 0 else 10 * DigitsValue(s[..|s| - 1]) + DigitValue(s[|s| - 1])
  }

  function Zeros(n: nat): (r: string)
    ensures |r| == n && AllDigits(r)
  {
    seq(n, _ => '0')
  }

  /** Where the decimal point of `whole.frac` lands once the exponent is applied. */
  function Point(lit: SciLiteral): int
    requires ValidLiteral(lit)
  {
    var e := DigitsValue(lit.exp);
    if lit.expNegative then |lit.whole| - e else |lit.whole| + e
  }

  /**
   * The digits of `int(Decimal(s))` (truncation toward zero) for a scientific literal:
   * the digits of `whole.frac` left of the moved decimal point.
   */
  function IntPart(lit: SciLiteral): (r: string)
    requires ValidLiteral(lit)
    ensures AllDigits(r)
  {
    var d := lit.whole + lit.frac;
    var p := Point(lit);
    if p <= 0 then ""
    else if p <= |d| then d[..p]
    else d + Zeros(p - |d|)
  }

  /** `str(int(Decimal(s)))`: a minus sign for a negative non-zero value, then the digits. */
  function SciToIntString(lit: SciLiteral): string
    requires ValidLiteral(lit)
  {
    var mag := Canon(IntPart(lit));
    if lit.negative && mag != "0" then "-" + mag else mag
  }

  /**
   * The most digits Python writes when turning an integer into text
   * (`sys.int_info.default_max_str_digits`); beyond it `str` raises `ValueError`.
   */
  const MaxStrDigits: nat := 4300

  /**
   * The text `_id_key` goes on with after matching a scientific literal:
   * `str(int(Decimal(s)))`, or `s` itself when `str` raises `ValueError` because the
   * integer has more than `MaxStrDigits` digits.
   */
  function SciText(s: string, lit: SciLiteral): string
    requires ValidLiteral(lit)
  {
    if |Canon(IntPart(lit))| > MaxStrDigits then s else SciToIntString(lit)
  }

  /** The key of text once a scientific literal in it is rewritten: its longest digit run, canonical. */
  function DigitKey(t: string): (k: string)
    ensures k == "" || IsCanonical(k)
  {
    var d := Digits(t);
    if d == "" then "" else Canon(d)
  }

  /**
   * `_id_key(value)` for a cell value (the float branch is not modelled): no key for an
   * empty or boolean cell, and otherwise a canonical digit string, except that a
   * negative int keeps its sign.
   */
  function IdKey(c: Cell): (k: string)
    ensures c.Null? || c.Bool? ==> k == ""
    ensures k == "" || (c.Int? && c.n < 0) || IsCanonical(k)
  {
    match c
    case Null => ""
    case Bool(_) => ""
    case Int(n) => IntToString(n)
    case Str(x) =>
      var s := Strip(x);
      if s == "" then ""
      else
        DigitKey(match ParseSci(s) case Some(lit) => SciText(s, lit) case None => s)
  }

  /** The ID key of row `r`: `_id_key(ws.cell(row=r, column=col).value)`. */
  function RowId(ws: Sheet, col: nat, r: nat): string
  {
    IdKey(CellAt(ws, r, col))
  }

  /** The ID keys of column `col`, row by row. */
  function RowIds(ws: Sheet, col: nat): nat -> string
  {
    (r: nat) => RowId(ws, col, r)
  }

  // ---- properties ----

  function Pow10(n: nat): (r: nat)
    ensures r >= 1
  {
    if n == 0 then 1 else 10 * Pow10(n - 1)
  }

  lemma AllDigitsAppend(a: string, b: string)
    requires AllDigits(a) && AllDigits(b)
    ensures AllDigits(a + b)
  {
    forall i | 0 <= i < |a + b| ensures IsDigit((a + b)[i]) {
      if i < |a| { assert (a + b)[i] == a[i]; } else { assert (a + b)[i] == b[i - |a|]; }
    }
  }

  lemma MulShift(x: nat, y: nat)
    ensures 10 * (x * y) == x * (10 * y)
  {
  }

  lemma {:induction false} DigitsValueAppend(a: string, b: string)
    requires AllDigits(a) && AllDigits(b)
    ensures AllDigits(a + b)
    ensures DigitsValue(a + b) == DigitsValue(a) * Pow10(|b|) + DigitsValue(b)
    decreases |b|
  {
    AllDigitsAppend(a, b);
    if b == "" {
      assert a + b == a;
    } else {
      var b' := b[..|b| - 1];
      var c := b[|b| - 1];
      assert (a + b)[..|a + b| - 1] == a + b';
      assert (a + b)[|a + b| - 1] == c;
      DigitsValueAppend(a, b');
      var x, y := DigitsValue(a), Pow10(|b'|);
      calc {
        DigitsValue(a + b);
        10 * DigitsValue(a + b') + DigitValue(c);
        10 * (x * y + DigitsValue(b')) + DigitValue(c);
        10 * (x * y) + DigitsValue(b);
        { MulShift(x, y); }
        x * Pow10(|b|) + DigitsValue(b);
      }
    }
  }

  lemma {:induction false} DigitsValueBound(s: string)
    requires AllDigits(s)
    ensures DigitsValue(s) < Pow10(|s|)
    decreases |s|
  {
    if s != "" {
      DigitsValueBound(s[..|s| - 1]);
    }
  }

  lemma {:induction false} ZerosValue(n: nat)
    ensures DigitsValue(Zeros(n)) == 0
  {
    if n > 0 {
      assert Zeros(n)[..n - 1] == Zeros(n - 1);
      ZerosValue(n - 1);
    }
  }

  /** Dropping leading zeros keeps the number a digit string denotes. */
  lemma CanonValue(d: string)
    requires AllDigits(d)
    ensures DigitsValue(Canon(d)) == DigitsValue(d)
  {
    var r := StripZeros(d);
    var z := |d| - |r|;
    assert d == Zeros(z) + r;
    DigitsValueAppend(Zeros(z), r);
    ZerosValue(z);
  }

  lemma {:induction false} LeadingNonZeroValue(k: string)
    requires k != "" && AllDigits(k) && k[0] != '0'
    ensures DigitsValue(k) >= 1
    decreases |k|
  {
    if |k| > 1 {
      LeadingNonZeroValue(k[..|k| - 1]);
    }
  }

  /** A canonical key is exactly Python's `str` of the number it denotes. */
  lemma {:induction false} CanonicalIsNatToString(k: string)
    requires IsCanonical(k)
    ensures NatToString(DigitsValue(k)) == k
    decreases |k|
  {
    var v := DigitsValue(k);
    if |k| == 1 {
      assert k == [k[0]];
    } else {
      var k' := k[..|k| - 1];
      assert k'[0] == k[0];
      LeadingNonZeroValue(k');
      CanonicalIsNatToString(k');
      assert v / 10 == DigitsValue(k') && v % 10 == DigitValue(k[|k| - 1]);
      assert k == k' + [k[|k| - 1]];
    }
  }

  /** Two digit strings get the same canonical form exactly when they denote the same number. */
  lemma CanonSameIffSameValue(d1: string, d2: string)
    requires AllDigits(d1) && AllDigits(d2)
    ensures Canon(d1) == Canon(d2) <==> DigitsValue(d1) == DigitsValue(d2)
  {
    CanonValue(d1);
    CanonValue(d2);
    CanonicalIsNatToString(Canon(d1));
    CanonicalIsNatToString(Canon(d2));
  }

  lemma CanonOfCanonical(k: string)
    requires IsCanonical(k)
    ensures Canon(k) == k
  {
  }

  lemma {:induction false} DigitRunsOfDigits(k: string)
    requires k != "" && AllDigits(k)
    ensures DigitRuns(k) == [k]
  {
    var n := DigitPrefixLen(k);
    assert n == |k|;
    assert k[n..] == "";
    assert k[..n] == k;
  }

  lemma {:induction false} ParseSciOfDigits(k: string)
    requires k != "" && AllDigits(k)
    ensures ParseSci(k).None?
  {
    assert DropSign(k) == k;
    assert DigitPrefixLen(k) == |k|;
    assert k[|k|..] == "";
  }

  lemma {:induction false} ParseSciOfSignedDigits(k: string)
    requires k != "" && AllDigits(k)
    ensures ParseSci("-" + k).None?
  {
    assert DropSign("-" + k) == k;
    assert DigitPrefixLen(k) == |k|;
    assert k[|k|..] == "";
  }

  lemma {:induction false} DigitsOfDigits(k: string)
    requires k != "" && AllDigits(k)
    ensures Digits(k) == k
  {
    DigitRunsOfDigits(k);
  }

  lemma {:induction false} DigitsOfSignedDigits(k: string)
    requires k != "" && AllDigits(k)
    ensures Digits("-" + k) == k
  {
    assert ("-" + k)[1..] == k;
    DigitRunsOfDigits(k);
  }

  /** An empty cell, a boolean and blank text have no key. */
  lemma IdKeyEmpty(x: string)
    ensures IdKey(Null) == "" && IdKey(Bool(false)) == "" && IdKey(Bool(true)) == ""
    ensures IsBlank(x) ==> IdKey(Str(x)) == ""
  {
    StripEmptyIffBlank(x);
  }

  /**
   * For text that is not in scientific notation: no key iff the text has no digit;
   * otherwise the key is the number its first longest digit run denotes, written
   * without leading zeros.
   */
  lemma IdKeyOfText(x: string)
    requires ParseSci(Strip(x)).None?
    ensures IdKey(Str(x)) == "" <==> !HasDigit(Strip(x))
    ensures HasDigit(Strip(x)) ==> IdKey(Str(x)) == NatToString(DigitsValue(Digits(Strip(x))))
  {
    var s := Strip(x);
    DigitRunsEmpty(s);
    if HasDigit(s) {
      var d := Digits(s);
      CanonValue(d);
      CanonicalIsNatToString(Canon(d));
    }
  }

  /** Text that matches the scientific pattern has a digit run. */
  lemma SciHasDigits(s: string)
    requires ParseSci(s).Some?
    ensures Digits(s) != ""
  {
    var s1 := DropSign(s);
    assert DigitPrefixLen(s1) > 0;
    var i := |s| - |s1|;
    assert s[i] == s1[0];
    DigitRunsEmpty(s);
  }

  /** Below the 4300-digit limit the key of a scientific literal is its truncated magnitude. */
  lemma ScientificKey(x: string, lit: SciLiteral)
    requires ParseSci(Strip(x)) == Some(lit) && |Canon(IntPart(lit))| <= MaxStrDigits
    ensures IdKey(Str(x)) == NatToString(DigitsValue(IntPart(lit)))
  {
    SciKeyText(x, lit);
    DigitsOfSciString(lit);
    CanonValue(IntPart(lit));
    MagnitudeKey(SciToIntString(lit), Canon(IntPart(lit)), DigitsValue(IntPart(lit)));
  }

  /** The key of text matching the scientific pattern is the key of `SciText`. */
  lemma SciKeyText(x: string, lit: SciLiteral)
    requires ParseSci(Strip(x)) == Some(lit)
    ensures IdKey(Str(x)) == DigitKey(SciText(Strip(x), lit))
  {
  }

  /** The digits of `str(int(Decimal(s)))` are the canonical magnitude. */
  lemma DigitsOfSciString(lit: SciLiteral)
    requires ValidLiteral(lit)
    ensures Digits(SciToIntString(lit)) == Canon(IntPart(lit))
  {
    var mag := Canon(IntPart(lit));
    if lit.negative && mag != "0" {
      DigitsOfSignedDigits(mag);
    } else {
      DigitsOfDigits(mag);
    }
  }

  lemma MagnitudeKey(t: string, mag: string, v: nat)
    requires IsCanonical(mag) && Digits(t) == mag && DigitsValue(mag) == v
    ensures DigitKey(t) == NatToString(v)
  {
    CanonOfCanonical(mag);
    CanonicalIsNatToString(mag);
  }

  /** Above the limit `str` raises, and the key falls back to the text's longest digit run. */
  lemma OversizedScientificKey(x: string, lit: SciLiteral)
    requires ParseSci(Strip(x)) == Some(lit) && |Canon(IntPart(lit))| > MaxStrDigits
    ensures IdKey(Str(x)) == Canon(Digits(Strip(x)))
  {
    SciHasDigits(Strip(x));
  }

  /**
   * For a scientific literal the key is the truncated magnitude `int(Decimal(s))`
   * written without sign; when that magnitude has more than 4300 digits, `str` raises,
   * the error is caught, and the key is the text's own longest digit run.
   */
  lemma IdKeyOfScientific(x: string, lit: SciLiteral)
    requires ParseSci(Strip(x)) == Some(lit)
    ensures |Canon(IntPart(lit))| <= MaxStrDigits ==> IdKey(Str(x)) == NatToString(DigitsValue(IntPart(lit)))
    ensures |Canon(IntPart(lit))| > MaxStrDigits ==> IdKey(Str(x)) == Canon(Digits(Strip(x)))
  {
    if |Canon(IntPart(lit))| <= MaxStrDigits {
      ScientificKey(x, lit);
    } else {
      OversizedScientificKey(x, lit);
    }
  }

  /** Keeping the first `p` digits of `d` is the floor of `d / 10^(|d| - p)`. */
  lemma {:induction false} PrefixTruncates(d: string, p: nat)
    requires AllDigits(d) && p < |d|
    ensures DigitsValue(d[..p]) * Pow10(|d| - p) <= DigitsValue(d)
    ensures DigitsValue(d) < (DigitsValue(d[..p]) + 1) * Pow10(|d| - p)
  {
    var hi, lo := d[..p], d[p..];
    AllDigitsSplit(d, p);
    var v1, v2, m := DigitsValue(hi), DigitsValue(lo), Pow10(|d| - p);
    assert DigitsValue(d) == v1 * m + v2 by {
      assert d == hi + lo;
      DigitsValueAppend(hi, lo);
    }
    assert v2 < m by {
      DigitsValueBound(lo);
    }
    SplitBounds(v1, v2, m);
  }

  lemma AllDigitsSplit(d: string, p: nat)
    requires AllDigits(d) && p <= |d|
    ensures AllDigits(d[..p]) && AllDigits(d[p..])
  {
    assert forall k :: 0 <= k < |d[p..]| ==> d[p..][k] == d[p + k];
  }

  /** With `0 <= low < m`, `high * m + low` lies in `[high * m, (high + 1) * m)`. */
  lemma SplitBounds(high: nat, low: nat, m: nat)
    requires low < m
    ensures high * m <= high * m + low < (high + 1) * m
  {
    assert (high + 1) * m == high * m + m;
  }

  /**
   * `IntPart` is the truncation of `whole.frac × 10^exp`: the digits times a power of
   * ten when the point moves past them; otherwise the largest number whose product with
   * the power of ten of the dropped digits does not exceed the digits.
   */
  lemma IntPartTruncates(lit: SciLiteral)
    requires ValidLiteral(lit)
    ensures AllDigits(lit.whole + lit.frac)
    ensures var d := lit.whole + lit.frac; var p := Point(lit);
      p >= |d| ==> DigitsValue(IntPart(lit)) == DigitsValue(d) * Pow10(p - |d|)
    ensures var d := lit.whole + lit.frac; var p := Point(lit);
      p < |d| ==> (DigitsValue(IntPart(lit)) * Pow10(|d| - p) <= DigitsValue(d) &&
                   DigitsValue(d) < (DigitsValue(IntPart(lit)) + 1) * Pow10(|d| - p))
  {
    var d := lit.whole + lit.frac;
    AllDigitsAppend(lit.whole, lit.frac);
    var p := Point(lit);
    if p <= 0 {
      DigitsValueBound(d);
      PowMonotone(|d|, |d| - p);
    } else if p < |d| {
      PrefixTruncates(d, p);
    } else if p == |d| {
      assert d[..p] == d;
    } else {
      DigitsValueAppend(d, Zeros(p - |d|));
      ZerosValue(p - |d|);
    }
  }

  lemma {:induction false} PowMonotone(m: nat, n: nat)
    requires m <= n
    ensures Pow10(m) <= Pow10(n)
    decreases n
  {
    if m < n {
      PowMonotone(m, n - 1);
    }
  }

  /**
   * The point of the key: an int cell and a text cell holding the same number in its
   * longest digit run (with a prefix, padding or leading zeros) get the same key.
   */
  lemma SameNumberSameKey(n: nat, x: string)
    requires ParseSci(Strip(x)).None? && HasDigit(Strip(x))
    requires DigitsValue(Digits(Strip(x))) == n
    ensures IdKey(Str(x)) == IdKey(Int(n))
  {
    IdKeyOfText(x);
  }

  /** Re-keying a key changes nothing (for every cell except a negative int). */
  lemma IdKeyIdempotent(c: Cell)
    requires !(c.Int? && c.n < 0)
    ensures IdKey(Str(IdKey(c))) == IdKey(c)
  {
    var k := IdKey(c);
    if k != "" {
      StripFixpoint(k);
      ParseSciOfDigits(k);
      DigitsOfDigits(k);
    }
  }

  /** A negative int keeps its sign in the key, while the same text loses it. */
  lemma NegativeIntKeepsSign()
    ensures IdKey(Int(-5)) == "-5"
    ensures IdKey(Str("-5")) == "5"
  {
    assert DigitChar(5) == '5';
    assert NatToString(5) == "5";
    StripFixpoint("-5");
    assert "-" + "5" == "-5";
    ParseSciOfSignedDigits("5");
    DigitsOfSignedDigits("5");
    DigitsOfDigits("5");
  }

  lemma {:induction false} DigitPrefixLenOf(k: string, rest: string)
    requires AllDigits(k) && (rest == "" || !IsDigit(rest[0]))
    ensures DigitPrefixLen(k + rest) == |k|
    decreases |k|
  {
    if k == "" {
      assert k + rest == rest;
    } else {
      assert (k + rest)[1..] == k[1..] + rest;
      DigitPrefixLenOf(k[1..], rest);
    }
  }

  lemma ExponentExample()
    ensures ParseExponent(false, "1", "35921", "E+05") == Some(SciLiteral(false, "1", "35921", false, "05"))
  {
    var e := "E+05";
    assert e[1..] == "+05" && DropSign(e[1..]) == "05";
    DigitPrefixLenOf("05", "");
    assert "05" + "" == "05";
  }

  lemma FractionExample()
    ensures ParseFraction(false, "1", ".35921E+05") == Some(SciLiteral(false, "1", "35921", false, "05"))
  {
    var rest := ".35921E+05";
    assert rest[1..] == "35921" + "E+05";
    DigitPrefixLenOf("35921", "E+05");
    assert rest[1..6] == "35921" && rest[6..] == "E+05";
    ExponentExample();
  }

  lemma ParseExample()
    ensures ParseSci("1.35921E+05") == Some(SciLiteral(false, "1", "35921", false, "05"))
  {
    var x := "1.35921E+05";
    assert DropSign(x) == x;
    assert x == "1" + ".35921E+05";
    DigitPrefixLenOf("1", ".35921E+05");
    assert x[..1] == "1" && x[1..] == ".35921E+05";
    FractionExample();
  }

  lemma IntPartExample()
    ensures IntPart(SciLiteral(false, "1", "35921", false, "05")) == "135921"
  {
    assert DigitsValue("05") == 5 by {
      assert "05"[..1] == "0";
      assert "0"[..0] == "";
    }
    assert "1" + "35921" == "135921";
    assert "135921"[..6] == "135921";
  }

  lemma ValueExample()
    ensures DigitsValue("135921") == 135921
  {
    assert "135921"[..5] == "13592";
    assert "13592"[..4] == "1359";
    assert "1359"[..3] == "135";
    assert "135"[..2] == "13";
    assert "13"[..1] == "1";
    assert "1"[..0] == "";
  }

  /** A customer ID exported as "1.35921E+05" meets the same ID typed as 135921. */
  lemma ScientificExample()
    ensures IdKey(Str("1.35921E+05")) == IdKey(Int(135921))
  {
    var x := "1.35921E+05";
    StripFixpoint(x);
    var lit := SciLiteral(false, "1", "35921", false, "05");
    ParseExample();
    IntPartExample();
    IdKeyOfScientific(x, lit);
    ValueExample();
  }

  lemma LeadingOneCanon(n: nat)
    ensures |Canon("1" + Zeros(n))| == n + 1
  {
    assert ("1" + Zeros(n))[0] == '1';
  }

  lemma OversizedParse()
    ensures ParseSci("1E+5000") == Some(SciLiteral(false, "1", "", false, "5000"))
  {
    var x := "1E+5000";
    assert DropSign(x) == x;
    assert x == "1" + "E+5000";
    DigitPrefixLenOf("1", "E+5000");
    assert x[..1] == "1" && x[1..] == "E+5000";
    var e := "E+5000";
    assert e[1..] == "+5000" && DropSign(e[1..]) == "5000";
    DigitPrefixLenOf("5000", "");
    assert "5000" + "" == "5000";
  }

  lemma OversizedMagnitude()
    ensures |Canon(IntPart(SciLiteral(false, "1", "", false, "5000")))| == 5001
  {
    var lit := SciLiteral(false, "1", "", false, "5000");
    assert DigitsValue("5000") == 5000 by {
      assert "5000"[..3] == "500" && "500"[..2] == "50" && "50"[..1] == "5" && "5"[..0] == "";
    }
    assert IntPart(lit) == "1" + Zeros(5000) by {
      assert lit.whole + lit.frac == "1";
    }
    LeadingOneCanon(5000);
  }

  lemma OversizedDigits()
    ensures Digits("1E+5000") == "5000"
  {
    var x := "1E+5000";
    assert x == "1" + "E+5000";
    DigitPrefixLenOf("1", "E+5000");
    assert x[..1] == "1" && x[1..] == "E+5000";
    assert "E+5000"[1..] == "+5000" && "+5000"[1..] == "5000";
    assert "5000" == "5000" + "";
    DigitPrefixLenOf("5000", "");
    assert "5000"[4..] == "";
    assert DigitRuns("5000") == ["5000"];
    assert DigitRuns(x) == ["1", "5000"];
  }

  /**
   * "1E+5000" denotes a 5001-digit integer, which Python refuses to write as text;
   * the error is caught and the key is the text's longest digit run, "5000".
   */
  lemma OversizedExample()
    ensures IdKey(Str("1E+5000")) == "5000"
  {
    var x := "1E+5000";
    StripFixpoint(x);
    OversizedParse();
    OversizedMagnitude();
    OversizedScientificKey(x, SciLiteral(false, "1", "", false, "5000"));
    OversizedDigits();
    assert Canon("5000") == "5000";
  }
}
