/**
 * `_parse_activity_datetime`: pulls the date of a ticket activity out of its heading or
 * text.  Candidates come from `re.findall` with
 *   `\(` D `\)`   and, when that finds nothing,   D
 * where D is `\d{2}/\d{2}/\d{4}\s+\d{1,2}:\d{2}:\d{2}\s*(?:AM|PM)?`.  The candidates are
 * tried from the last to the first with `datetime.strptime` and the formats
 * `%d/%m/%Y %I:%M:%S %p`, `%d/%m/%Y %H:%M:%S`, `%d/%m/%Y %I:%M:%S%p`, `%d/%m/%Y %H:%M` and
 * `%d/%m/%Y %I:%M %p`; the first success is the answer.
 *
 * Digits are the ASCII digits.  The regular expression is deterministic on its input:
 * every repetition in it is greedy and nothing after a repetition can match what the
 * repetition gave up, so the model computes the one match at each position directly.
 */
module ActivityTime {
  import opened Wrappers
  import opened Text
  import Sheets

  /** A naive `datetime` without microseconds. */
  datatype DateTime = DateTime(year: int, month: int, day: int, hour: int, minute: int, second: int)

  predicate IsLeap(y: int)
  {
    y % 4 == 0 && (y % 100 != 0 || y % 400 == 0)
  }

  function DaysInMonth(y: int, m: int): (n: int)
    requires 1 <= m <= 12
    ensures 28 <= n <= 31
  {
    if m == 2 then (if IsLeap(y) then 29 else 28)
    else if m == 4 || m == 6 || m == 9 || m == 11 then 30
    else 31
  }

  /** The values the `datetime` constructor accepts. */
  predicate ValidDateTime(dt: DateTime)
  {
    && 1 <= dt.year <= 9999
    && 1 <= dt.month <= 12
    && 1 <= dt.day <= DaysInMonth(dt.year, dt.month)
    && 0 <= dt.hour <= 23
    && 0 <= dt.minute <= 59
    && 0 <= dt.second <= 59
  }

  /** `a < b` on `datetime`: the order of the fields from the year down to the second. */
  predicate Earlier(a: DateTime, b: DateTime)
  {
    || a.year < b.year
    || (a.year == b.year && a.month < b.month)
    || (a.year == b.year && a.month == b.month && a.day < b.day)
    || (a.year == b.year && a.month == b.month && a.day == b.day && a.hour < b.hour)
    || (a.year == b.year && a.month == b.month && a.day == b.day && a.hour == b.hour
        && a.minute < b.minute)
    || (a.year == b.year && a.month == b.month && a.day == b.day && a.hour == b.hour
        && a.minute == b.minute && a.second < b.second)
  }

  lemma EarlierIrreflexive(a: DateTime)
    ensures !Earlier(a, a)
  {
  }

  lemma EarlierTransitive(a: DateTime, b: DateTime, c: DateTime)
    requires Earlier(a, b) && Earlier(b, c)
    ensures Earlier(a, c)
  {
  }

  /** Two different date-times are ordered one way or the other. */
  lemma EarlierTotal(a: DateTime, b: DateTime)
    ensures a == b || Earlier(a, b) || Earlier(b, a)
  {
  }

  // ---------------------------------------------------------------------------------
  // The regular expression

  /** `n` ASCII digits start at `i`. */
  predicate DigitsAt(s: string, i: nat, n: nat)
  {
    i + n <= |s| && forall k :: i <= k < i + n ==> IsDigit(s[k])
  }

  function DigitValue(c: char): nat
    requires IsDigit(c)
  {
    c as int - '0' as int
  }

  /** The number the `n` digits at `i` spell. */
  function Num(s: string, i: nat, n: nat): nat
    requires DigitsAt(s, i, n)
  {
    if n == 0 then 0 else 10 * Num(s, i, n - 1) + DigitValue(s[i + n - 1])
  }

  /** The length of the run of whitespace at `i`: what a greedy `\s*` takes. */
  function SpaceRun(s: string, i: nat): (n: nat)
    requires i <= |s|
    ensures i + n <= |s|
    ensures forall k :: i <= k < i + n ==> IsSpace(s[k])
    ensures i + n == |s| || !IsSpace(s[i + n])
    decreases |s| - i
  {
    if i < |s| && IsSpace(s[i]) then 1 + SpaceRun(s, i + 1) else 0
  }

  /**
   * What a candidate holds: the numbers in its fields, whether whitespace separates the
   * seconds from the AM/PM marker, and the marker itself (`Some(true)` for PM).
   */
  datatype Candidate = Candidate(
    day: nat, month: nat, year: nat, hour: nat, minute: nat, second: nat,
    gap: bool, meridiem: Option<bool>)

  /** A match of the pattern: the captured candidate and the index just past the match. */
  datatype Match = Match(cand: Candidate, end: nat)

  /** The optional `(?:AM|PM)` at `u`. */
  function Meridiem(s: string, u: nat): Option<bool>
  {
    if u + 2 <= |s| && s[u..u + 2] == "AM" then Some(false)
    else if u + 2 <= |s| && s[u..u + 2] == "PM" then Some(true)
    else None
  }

  /** The date part `\d{2}/\d{2}/\d{4}` at `i`. */
  predicate DateAt(s: string, i: nat)
  {
    DigitsAt(s, i, 2) && i + 2 < |s| && s[i + 2] == '/' && DigitsAt(s, i + 3, 2)
    && i + 5 < |s| && s[i + 5] == '/' && DigitsAt(s, i + 6, 4)
  }

  /** The time part `\d{1,2}:\d{2}:\d{2}` at `k`, its hour `h` digits long. */
  predicate TimeAt(s: string, k: nat, h: nat)
  {
    DigitsAt(s, k, h) && k + h < |s| && s[k + h] == ':' && DigitsAt(s, k + h + 1, 2)
    && k + h + 3 < |s| && s[k + h + 3] == ':' && DigitsAt(s, k + h + 4, 2)
  }

  /**
   * The match of D starting exactly at `i`, if there is one.  The hour takes two digits
   * when two are there (one digit would leave a digit where the `:` must be).
   */
  function MatchCore(s: string, i: nat): (r: Option<Match>)
    requires i <= |s|
    ensures r.Some? ==> i < r.value.end <= |s|
  {
    if !DateAt(s, i) then None
    else
      var k := i + 10 + SpaceRun(s, i + 10);
      if k == i + 10 then None
      else
        var h := if k + 1 < |s| && IsDigit(s[k + 1]) then 2 else 1;
        if !TimeAt(s, k, h) then None
        else
          var t := k + h + 6;
          var u := t + SpaceRun(s, t);
          var mer := Meridiem(s, u);
          var c := Candidate(Num(s, i, 2), Num(s, i + 3, 2), Num(s, i + 6, 4), Num(s, k, h),
                             Num(s, k + h + 1, 2), Num(s, k + h + 4, 2), mer.Some? && u > t, mer);
          Some(Match(c, if mer.Some? then u + 2 else u))
  }

  /** The match at `i` of the parenthesised pattern (`paren`) or of the bare one. */
  function MatchAt(s: string, i: nat, paren: bool): (r: Option<Match>)
    requires i <= |s|
    ensures r.Some? ==> i < r.value.end <= |s|
  {
    if !paren then MatchCore(s, i)
    else if i < |s| && s[i] == '(' then
      var m := MatchCore(s, i + 1);
      if m.Some? && m.value.end < |s| && s[m.value.end] == ')' then Some(Match(m.value.cand, m.value.end + 1))
      else None
    else None
  }

  /** `re.findall` from `i`: the leftmost match, then the search goes on where it ended. */
  function FindAll(s: string, i: nat, paren: bool): seq<Candidate>
    requires i <= |s|
    decreases |s| - i
  {
    if i == |s| then []
    else
      match MatchAt(s, i, paren)
      case Some(m) => [m.cand] + FindAll(s, m.end, paren)
      case None => FindAll(s, i + 1, paren)
  }

  /** The parenthesised candidates, or the bare ones when there are none. */
  function Candidates(text: string): seq<Candidate>
  {
    var inParens := FindAll(text, 0, true);
    if inParens != [] then inParens else FindAll(text, 0, false)
  }

  // ---------------------------------------------------------------------------------
  // strptime

  /**
   * The hour once the format has matched.  A candidate with no AM/PM marker can only
   * match `%d/%m/%Y %H:%M:%S` (hours 0 to 23).  One with the marker after whitespace can
   * only match `%d/%m/%Y %I:%M:%S %p`, one with the marker right after the seconds only
   * `%d/%m/%Y %I:%M:%S%p`; both take hours 1 to 12, with 12 AM as midnight and 12 PM as
   * noon.  The two formats without seconds can never match, since every candidate has
   * seconds.
   */
  function ClockHour(c: Candidate): (r: Option<int>)
    ensures r.Some? ==> 0 <= r.value <= 23
  {
    match c.meridiem
    case None => if c.hour <= 23 then Some(c.hour) else None
    case Some(pm) => if 1 <= c.hour <= 12 then Some(c.hour % 12 + (if pm then 12 else 0)) else None
  }

  /** The field ranges of strptime's own patterns for `%d`, `%m`, `%M` and `%S`. */
  predicate FieldsInRange(c: Candidate)
  {
    1 <= c.day <= 31 && 1 <= c.month <= 12 && c.minute <= 59 && c.second <= 61
  }

  /** `datetime.strptime(c, fmt)` for the format the candidate's shape selects. */
  function ParseCandidate(c: Candidate): (r: Option<DateTime>)
    ensures r.Some? ==> ValidDateTime(r.value)
    ensures r.Some? ==>
              && r.value.year == c.year && r.value.month == c.month && r.value.day == c.day
              && r.value.minute == c.minute && r.value.second == c.second
  {
    var hour := ClockHour(c);
    if hour.None? || !FieldsInRange(c) then None
    // the `datetime` constructor: year 1 to 9999, a real day of the month, no leap second
    else if c.year < 1 || c.year > 9999 || c.day > DaysInMonth(c.year, c.month) || c.second > 59 then None
    else Some(DateTime(c.year, c.month, c.day, hour.value, c.minute, c.second))
  }

  /** The candidates tried from the last one back: the last one that parses. */
  function LastParsed(cs: seq<Candidate>): (r: Option<DateTime>)
    ensures r.Some? ==> ValidDateTime(r.value)
  {
    if cs == [] then None
    else
      var p := ParseCandidate(cs[|cs| - 1]);
      if p.Some? then p else LastParsed(cs[..|cs| - 1])
  }

  /**
   * There is a result exactly when some candidate parses, and it is the parse of a
   * candidate after which none parses.
   */
  lemma {:induction false} LastParsedSpec(cs: seq<Candidate>)
    ensures LastParsed(cs).Some? <==> exists i :: 0 <= i < |cs| && ParseCandidate(cs[i]).Some?
    ensures LastParsed(cs).Some? ==>
              exists i :: && 0 <= i < |cs| && ParseCandidate(cs[i]) == LastParsed(cs)
                          && forall j :: i < j < |cs| ==> ParseCandidate(cs[j]).None?
  {
    if cs != [] {
      var n := |cs| - 1;
      var init := cs[..n];
      if ParseCandidate(cs[n]).Some? {
        assert ParseCandidate(cs[n]) == LastParsed(cs);
      } else {
        LastParsedSpec(init);
        assert forall i :: 0 <= i < n ==> init[i] == cs[i];
        if LastParsed(cs).Some? {
          var i :| && 0 <= i < n && ParseCandidate(init[i]) == LastParsed(init)
                   && forall j :: i < j < n ==> ParseCandidate(init[j]).None?;
          assert ParseCandidate(cs[i]) == LastParsed(cs);
        }
      }
    }
  }

  /** `_parse_activity_datetime`. */
  function ParseActivityDateTime(s: string): (r: Option<DateTime>)
    ensures r.Some? ==> ValidDateTime(r.value)
  {
    var text := Strip(s);
    if text == [] then None else LastParsed(Candidates(text))
  }

  // ---------------------------------------------------------------------------------
  // Rendering

  function Pad2(n: nat): (r: string)
    requires n < 100
    ensures |r| == 2
  {
    [Sheets.DigitChar(n / 10), Sheets.DigitChar(n % 10)]
  }

  function Pad4(n: nat): (r: string)
    requires n < 10000
    ensures |r| == 4
  {
    [Sheets.DigitChar(n / 1000), Sheets.DigitChar(n / 100 % 10), Sheets.DigitChar(n / 10 % 10),
     Sheets.DigitChar(n % 10)]
  }

  /** `dt.strftime("%d/%m/%Y %H:%M")`: the value written to the workbook (seconds dropped). */
  function Render(dt: DateTime): (r: string)
    requires ValidDateTime(dt)
    ensures |r| == 16
  {
    Pad2(dt.day) + "/" + Pad2(dt.month) + "/" + Pad4(dt.year) + " " + Pad2(dt.hour) + ":" + Pad2(dt.minute)
  }

  /** A 24-hour timestamp with seconds, `dd/mm/yyyy HH:MM:SS`, as Splynx shows it. */
  function Stamp(dt: DateTime): (r: string)
    requires ValidDateTime(dt)
    ensures |r| == 19
  {
    Pad2(dt.day) + "/" + Pad2(dt.month) + "/" + Pad4(dt.year) + " "
      + Pad2(dt.hour) + ":" + Pad2(dt.minute) + ":" + Pad2(dt.second)
  }
}
