/**
 * What `_parse_activity_datetime` makes of the timestamps Splynx shows: it reads a
 * `dd/mm/yyyy HH:MM:SS` stamp back to the same date-time, bare or in parentheses, takes
 * the last of several stamps, and cannot read the `dd/mm/yyyy HH:MM` value it writes.
 */
module ActivityTimeProperties {
  import opened Wrappers
  import opened Text
  import Sheets
  import opened ActivityTime

  lemma Num2(s: string, i: nat, n: nat)
    requires n < 100 && i + 2 <= |s|
    requires s[i] == Sheets.DigitChar(n / 10) && s[i + 1] == Sheets.DigitChar(n % 10)
    ensures DigitsAt(s, i, 2) && Num(s, i, 2) == n
  {
    assert DigitsAt(s, i, 1);
    assert Num(s, i, 1) == n / 10;
  }

  lemma Num4(s: string, i: nat, n: nat)
    requires n < 10000 && i + 4 <= |s|
    requires s[i] == Sheets.DigitChar(n / 1000) && s[i + 1] == Sheets.DigitChar(n / 100 % 10)
    requires s[i + 2] == Sheets.DigitChar(n / 10 % 10) && s[i + 3] == Sheets.DigitChar(n % 10)
    ensures DigitsAt(s, i, 4) && Num(s, i, 4) == n
  {
    assert DigitsAt(s, i, 1) && DigitsAt(s, i, 2) && DigitsAt(s, i, 3);
    assert Num(s, i, 1) == n / 1000;
    assert Num(s, i, 2) == n / 100;
    assert Num(s, i, 3) == n / 10;
  }

  /** The characters of a stamp, position by position. */
  predicate StampAt(s: string, i: nat, dt: DateTime)
    requires ValidDateTime(dt)
  {
    i + 19 <= |s| && s[i..i + 19] == Stamp(dt)
  }

  /** The candidate a stamp yields. */
  function StampCandidate(dt: DateTime): (c: Candidate)
    requires ValidDateTime(dt)
    ensures ParseCandidate(c) == Some(dt)
  {
    Candidate(dt.day, dt.month, dt.year, dt.hour, dt.minute, dt.second, false, None)
  }

  /** The characters of a stamp: the digits of each field and the separators between them. */
  lemma StampLayout(dt: DateTime)
    requires ValidDateTime(dt)
    ensures var t := Stamp(dt);
      && t[0] == Sheets.DigitChar(dt.day / 10) && t[1] == Sheets.DigitChar(dt.day % 10) && t[2] == '/'
      && t[3] == Sheets.DigitChar(dt.month / 10) && t[4] == Sheets.DigitChar(dt.month % 10) && t[5] == '/'
      && t[6] == Sheets.DigitChar(dt.year / 1000) && t[7] == Sheets.DigitChar(dt.year / 100 % 10)
      && t[8] == Sheets.DigitChar(dt.year / 10 % 10) && t[9] == Sheets.DigitChar(dt.year % 10) && t[10] == ' '
      && t[11] == Sheets.DigitChar(dt.hour / 10) && t[12] == Sheets.DigitChar(dt.hour % 10) && t[13] == ':'
      && t[14] == Sheets.DigitChar(dt.minute / 10) && t[15] == Sheets.DigitChar(dt.minute % 10) && t[16] == ':'
      && t[17] == Sheets.DigitChar(dt.second / 10) && t[18] == Sheets.DigitChar(dt.second % 10)
  {
  }

  /** A two-digit field of the stamp found at `i` of `s`. */
  lemma Field2(s: string, i: nat, t: string, off: nat, n: nat)
    requires |t| == 19 && i + 19 <= |s| && s[i..i + 19] == t && off + 2 <= 19 && n < 100
    requires t[off] == Sheets.DigitChar(n / 10) && t[off + 1] == Sheets.DigitChar(n % 10)
    ensures DigitsAt(s, i + off, 2) && Num(s, i + off, 2) == n
  {
    assert s[i + off] == s[i..i + 19][off];
    assert s[i + off + 1] == s[i..i + 19][off + 1];
    Num2(s, i + off, n);
  }

  /** The four-digit year of the stamp found at `i` of `s`. */
  lemma Field4(s: string, i: nat, t: string, n: nat)
    requires |t| == 19 && i + 19 <= |s| && s[i..i + 19] == t && n < 10000
    requires t[6] == Sheets.DigitChar(n / 1000) && t[7] == Sheets.DigitChar(n / 100 % 10)
    requires t[8] == Sheets.DigitChar(n / 10 % 10) && t[9] == Sheets.DigitChar(n % 10)
    ensures DigitsAt(s, i + 6, 4) && Num(s, i + 6, 4) == n
  {
    assert s[i + 6] == s[i..i + 19][6];
    assert s[i + 7] == s[i..i + 19][7];
    assert s[i + 8] == s[i..i + 19][8];
    assert s[i + 9] == s[i..i + 19][9];
    Num4(s, i + 6, n);
  }

  /** The separators of the stamp found at `i` of `s`. */
  lemma Separators(s: string, i: nat, t: string)
    requires |t| == 19 && i + 19 <= |s| && s[i..i + 19] == t
    requires t[2] == '/' && t[5] == '/' && t[10] == ' ' && t[13] == ':' && t[16] == ':'
    ensures s[i + 2] == '/' && s[i + 5] == '/' && s[i + 10] == ' ' && s[i + 13] == ':' && s[i + 16] == ':'
  {
    assert s[i + 2] == s[i..i + 19][2];
    assert s[i + 5] == s[i..i + 19][5];
    assert s[i + 10] == s[i..i + 19][10];
    assert s[i + 13] == s[i..i + 19][13];
    assert s[i + 16] == s[i..i + 19][16];
  }

  lemma StampFields(s: string, i: nat, dt: DateTime)
    requires ValidDateTime(dt) && StampAt(s, i, dt)
    ensures DateAt(s, i) && Num(s, i, 2) == dt.day && Num(s, i + 3, 2) == dt.month
    ensures Num(s, i + 6, 4) == dt.year && s[i + 10] == ' '
    ensures IsDigit(s[i + 11]) && IsDigit(s[i + 12]) && TimeAt(s, i + 11, 2)
    ensures Num(s, i + 11, 2) == dt.hour && Num(s, i + 14, 2) == dt.minute && Num(s, i + 17, 2) == dt.second
  {
    var t := Stamp(dt);
    StampLayout(dt);
    Field2(s, i, t, 0, dt.day);
    Field2(s, i, t, 3, dt.month);
    Field4(s, i, t, dt.year);
    Field2(s, i, t, 11, dt.hour);
    Field2(s, i, t, 14, dt.minute);
    Field2(s, i, t, 17, dt.second);
    Separators(s, i, t);
    assert IsDigit(s[i + 11]) && IsDigit(s[i + 12]);
  }

  /**
   * Where a date, one space and a two-digit-hour time start at `i`, the pattern matches
   * there with those fields; only the whitespace and the marker after the seconds are
   * left to read.
   */
  lemma MatchAtStamp(s: string, i: nat)
    requires i + 19 <= |s| && DateAt(s, i) && s[i + 10] == ' ' && IsDigit(s[i + 11]) && IsDigit(s[i + 12])
    requires TimeAt(s, i + 11, 2)
    ensures var t := i + 19; var u := t + SpaceRun(s, t); var mer := Meridiem(s, u);
      MatchCore(s, i) == Some(Match(Candidate(Num(s, i, 2), Num(s, i + 3, 2), Num(s, i + 6, 4), Num(s, i + 11, 2),
                                              Num(s, i + 14, 2), Num(s, i + 17, 2), mer.Some? && u > t, mer),
                                    if mer.Some? then u + 2 else u))
  {
    assert SpaceRun(s, i + 10) == 1 by {
      assert SpaceRun(s, i + 11) == 0;
    }
  }

  /**
   * At a stamp the pattern matches with the stamp's fields; the match runs over the
   * whitespace after it, and stops there when no AM/PM follows.
   */
  lemma MatchStamp(s: string, i: nat, dt: DateTime)
    requires ValidDateTime(dt) && StampAt(s, i, dt)
    requires Meridiem(s, i + 19 + SpaceRun(s, i + 19)).None?
    ensures MatchCore(s, i) == Some(Match(StampCandidate(dt), i + 19 + SpaceRun(s, i + 19)))
  {
    StampFields(s, i, dt);
    MatchAtStamp(s, i);
  }

  /** With no `(` from `i` on, the parenthesised pattern finds nothing. */
  lemma {:induction false} NoParenNoCandidate(s: string, i: nat)
    requires i <= |s|
    requires forall k :: i <= k < |s| ==> s[k] != '('
    ensures FindAll(s, i, true) == []
    decreases |s| - i
  {
    if i < |s| {
      assert MatchAt(s, i, true).None?;
      NoParenNoCandidate(s, i + 1);
    }
  }

  lemma StampHasNoParen(dt: DateTime, k: int)
    requires ValidDateTime(dt) && 0 <= k < 19
    ensures Stamp(dt)[k] != '(' && Stamp(dt)[k] != ')'
  {
  }

  lemma StampIsStripped(dt: DateTime)
    requires ValidDateTime(dt)
    ensures Strip(Stamp(dt)) == Stamp(dt)
  {
    var t := Stamp(dt);
    assert IsDigit(t[0]) && IsDigit(t[18]);
    StripFixpoint(t);
  }

  /** A stamp on its own is read back to the date-time it shows. */
  lemma ParseStamp(dt: DateTime)
    requires ValidDateTime(dt)
    ensures ParseActivityDateTime(Stamp(dt)) == Some(dt)
  {
    var s := Stamp(dt);
    StampIsStripped(dt);
    forall k | 0 <= k < |s|
      ensures s[k] != '('
    {
      StampHasNoParen(dt, k);
    }
    NoParenNoCandidate(s, 0);
    assert s[0..19] == s;
    MatchStamp(s, 0, dt);
    assert FindAll(s, 0, false) == [StampCandidate(dt)];
  }

  /** In parentheses, as in an activity heading, the stamp is read back the same way. */
  lemma ParseStampInParens(dt: DateTime)
    requires ValidDateTime(dt)
    ensures ParseActivityDateTime("(" + Stamp(dt) + ")") == Some(dt)
  {
    var s := "(" + Stamp(dt) + ")";
    assert Strip(s) == s by {
      StripFixpoint(s);
    }
    assert s[1..20] == Stamp(dt);
    MatchStamp(s, 1, dt);
    assert MatchAt(s, 0, true) == Some(Match(StampCandidate(dt), 21));
    assert FindAll(s, 0, true) == [StampCandidate(dt)];
  }

  /** Of two stamps the later in the text wins, whatever their order in time. */
  lemma ParseTakesLastStamp(a: DateTime, b: DateTime)
    requires ValidDateTime(a) && ValidDateTime(b)
    ensures ParseActivityDateTime(Stamp(a) + " " + Stamp(b)) == Some(b)
  {
    TwoStampsCandidates(a, b);
    assert LastParsed([StampCandidate(a), StampCandidate(b)]) == Some(b);
  }

  /** Two stamps separated by a space are stripped already and yield one candidate each. */
  lemma TwoStampsCandidates(a: DateTime, b: DateTime)
    requires ValidDateTime(a) && ValidDateTime(b)
    ensures var s := Stamp(a) + " " + Stamp(b);
      Strip(s) == s && Candidates(s) == [StampCandidate(a), StampCandidate(b)]
  {
    var s := Stamp(a) + " " + Stamp(b);
    TwoStampsShape(a, b);
    assert Strip(s) == s by {
      assert s[0] == Stamp(a)[0] && s[38] == Stamp(b)[18];
      StripFixpoint(s);
    }
    TwoStampsNoParen(a, b);
    NoParenNoCandidate(s, 0);
    TwoStampsFound(s, a, b);
  }

  /** The bare pattern finds the first stamp, then the second. */
  lemma TwoStampsFound(s: string, a: DateTime, b: DateTime)
    requires ValidDateTime(a) && ValidDateTime(b)
    requires |s| == 39 && s[0..19] == Stamp(a) && s[19] == ' ' && s[20..39] == Stamp(b)
    ensures FindAll(s, 0, false) == [StampCandidate(a), StampCandidate(b)]
  {
    assert StampAt(s, 20, b);
    LastStampFound(s, 20, b);
    FirstStampMatched(s, a, b);
  }

  /** A stamp that ends the text is the last thing the bare pattern finds. */
  lemma LastStampFound(s: string, i: nat, dt: DateTime)
    requires ValidDateTime(dt) && StampAt(s, i, dt) && i + 19 == |s|
    ensures FindAll(s, i, false) == [StampCandidate(dt)]
  {
    assert MatchAt(s, i, false) == Some(Match(StampCandidate(dt), |s|)) by {
      assert SpaceRun(s, |s|) == 0;
      MatchStamp(s, i, dt);
    }
    assert FindAll(s, |s|, false) == [];
  }

  /** The first stamp matches up to the start of the second: the space is taken, no marker. */
  lemma FirstStampMatched(s: string, a: DateTime, b: DateTime)
    requires ValidDateTime(a) && ValidDateTime(b)
    requires |s| == 39 && s[0..19] == Stamp(a) && s[19] == ' ' && s[20..39] == Stamp(b)
    ensures MatchAt(s, 0, false) == Some(Match(StampCandidate(a), 20))
  {
    assert IsDigit(s[20]) by {
      StampStartsWithDigit(b);
      assert s[20] == s[20..39][0];
    }
    assert SpaceRun(s, 19) == 1 by {
      assert SpaceRun(s, 20) == 0;
    }
    assert Meridiem(s, 20).None? by {
      assert s[20..22][0] == s[20];
    }
    assert StampAt(s, 0, a) && 0 + 19 + SpaceRun(s, 19) == 20;
    MatchStamp(s, 0, a);
  }

  lemma StampStartsWithDigit(dt: DateTime)
    requires ValidDateTime(dt)
    ensures IsDigit(Stamp(dt)[0])
  {
    StampLayout(dt);
  }

  /** Two stamps separated by a space: where each one sits. */
  lemma TwoStampsShape(a: DateTime, b: DateTime)
    requires ValidDateTime(a) && ValidDateTime(b)
    ensures var s := Stamp(a) + " " + Stamp(b);
      |s| == 39 && s[0..19] == Stamp(a) && s[19] == ' ' && s[20..39] == Stamp(b)
  {
  }

  /** Two stamps separated by a space contain no `(`. */
  lemma TwoStampsNoParen(a: DateTime, b: DateTime)
    requires ValidDateTime(a) && ValidDateTime(b)
    ensures var s := Stamp(a) + " " + Stamp(b);
      forall k :: 0 <= k < |s| ==> s[k] != '('
  {
    var s := Stamp(a) + " " + Stamp(b);
    forall k | 0 <= k < |s|
      ensures s[k] != '('
    {
      if k < 19 {
        StampHasNoParen(a, k);
      } else if k > 19 {
        assert s[k] == Stamp(b)[k - 20];
        StampHasNoParen(b, k - 20);
      }
    }
  }

  /** The hour on a 12-hour clock: 12 for midnight and for noon. */
  function ClockFace(hour: int): (h: int)
    requires 0 <= hour <= 23
    ensures 1 <= h <= 12
  {
    if hour % 12 == 0 then 12 else hour % 12
  }

  /** The clock face and the half of the day give the hour back. */
  lemma ClockFaceBack(hour: int)
    requires 0 <= hour <= 23
    ensures ClockFace(hour) % 12 + (if hour >= 12 then 12 else 0) == hour
  {
    if hour < 12 {
      assert hour % 12 == hour;
    } else {
      assert hour % 12 == hour - 12;
    }
  }

  /** A 12-hour timestamp, `dd/mm/yyyy hh:MM:SS AM` or `... PM`. */
  function Stamp12(dt: DateTime): (r: string)
    requires ValidDateTime(dt)
    ensures |r| == 22
  {
    Stamp(dt.(hour := ClockFace(dt.hour))) + " " + (if dt.hour < 12 then "AM" else "PM")
  }

  /** At a 12-hour stamp the pattern matches with its fields and takes the marker too. */
  lemma MatchStamp12(s: string, i: nat, dt: DateTime)
    requires ValidDateTime(dt) && i + 22 <= |s| && s[i..i + 22] == Stamp12(dt)
    ensures var face := dt.(hour := ClockFace(dt.hour));
      MatchCore(s, i) == Some(Match(Candidate(dt.day, dt.month, dt.year, face.hour, dt.minute,
                                              dt.second, true, Some(dt.hour >= 12)), i + 22))
  {
    var face := dt.(hour := ClockFace(dt.hour));
    assert StampAt(s, i, face) by {
      assert s[i..i + 19] == s[i..i + 22][..19];
    }
    StampFields(s, i, face);
    MatchAtStamp(s, i);
    assert SpaceRun(s, i + 19) == 1 && Meridiem(s, i + 20) == Some(dt.hour >= 12) by {
      Stamp12Tail(s, i, dt);
    }
  }

  /** After the seconds of a 12-hour stamp: one space, then the marker. */
  lemma Stamp12Tail(s: string, i: nat, dt: DateTime)
    requires ValidDateTime(dt) && i + 22 <= |s| && s[i..i + 22] == Stamp12(dt)
    ensures SpaceRun(s, i + 19) == 1 && Meridiem(s, i + 20) == Some(dt.hour >= 12)
  {
    assert s[i + 19] == s[i..i + 22][19] == ' ';
    assert s[i + 20..i + 22] == s[i..i + 22][20..22];
    assert SpaceRun(s, i + 19) == 1 by {
      assert SpaceRun(s, i + 20) == 0;
    }
  }

  /** A 12-hour stamp yields exactly one candidate, with the clock-face hour and the marker. */
  lemma Stamp12Candidates(dt: DateTime)
    requires ValidDateTime(dt)
    ensures Strip(Stamp12(dt)) == Stamp12(dt)
    ensures Candidates(Stamp12(dt)) ==
      [Candidate(dt.day, dt.month, dt.year, ClockFace(dt.hour), dt.minute, dt.second, true, Some(dt.hour >= 12))]
  {
    var s := Stamp12(dt);
    var face := dt.(hour := ClockFace(dt.hour));
    assert Strip(s) == s by {
      assert s[0] == Stamp(face)[0];
      StripFixpoint(s);
    }
    forall k | 0 <= k < |s|
      ensures s[k] != '('
    {
      if k < 19 {
        StampHasNoParen(face, k);
      }
    }
    NoParenNoCandidate(s, 0);
    assert s[0..22] == s;
    MatchStamp12(s, 0, dt);
    var c := Candidate(dt.day, dt.month, dt.year, ClockFace(dt.hour), dt.minute, dt.second, true, Some(dt.hour >= 12));
    assert MatchAt(s, 0, false) == Some(Match(c, 22));
    assert FindAll(s, 22, false) == [];
    assert FindAll(s, 0, false) == [c];
  }

  /** A 12-hour stamp is read back to the 24-hour date-time: 12 AM is midnight, 12 PM noon. */
  lemma ParseStamp12(dt: DateTime)
    requires ValidDateTime(dt)
    ensures ParseActivityDateTime(Stamp12(dt)) == Some(dt)
  {
    Stamp12Candidates(dt);
    var c := Candidate(dt.day, dt.month, dt.year, ClockFace(dt.hour), dt.minute, dt.second, true, Some(dt.hour >= 12));
    ClockFaceBack(dt.hour);
    assert ClockHour(c) == Some(dt.hour);
    assert ParseCandidate(c) == Some(dt);
  }

  /** With no match of the bare pattern from `i` on, it finds nothing. */
  lemma {:induction false} NoMatchNoCandidate(s: string, i: nat)
    requires i <= |s|
    requires forall j :: i <= j < |s| ==> MatchCore(s, j).None?
    ensures FindAll(s, i, false) == []
    decreases |s| - i
  {
    if i < |s| {
      NoMatchNoCandidate(s, i + 1);
    }
  }

  /**
   * The value written to the workbook, `dd/mm/yyyy HH:MM`, has no seconds, so the
   * parser cannot read it back.
   */
  lemma RenderNotReparsed(dt: DateTime)
    requires ValidDateTime(dt)
    ensures ParseActivityDateTime(Render(dt)) == None
  {
    var s := Render(dt);
    assert Strip(s) == s by {
      assert IsDigit(s[0]) && IsDigit(s[15]);
      StripFixpoint(s);
    }
    assert forall k :: 0 <= k < 16 ==> s[k] != '(' && (k == 2 || k == 5 || k == 10 || k == 13 || IsDigit(s[k]));
    NoParenNoCandidate(s, 0);
    forall j | 0 <= j < |s|
      ensures MatchCore(s, j).None?
    {
      if j == 0 {
        assert SpaceRun(s, 10) == 1 by {
          assert SpaceRun(s, 11) == 0;
        }
        assert !TimeAt(s, 11, 2);
      } else {
        assert !DateAt(s, j);
      }
    }
    NoMatchNoCandidate(s, 0);
  }
}
