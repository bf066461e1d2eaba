/** The crime loader's timestamp handling: `pd.to_datetime(col,
    format="%m/%d/%Y %I:%M:%S %p", errors="coerce")`, where anything that does
    not parse becomes NaT, and the derived fields `month` (the "YYYY-MM"
    period string), `hour` (0..23) and `dow` (0..6, Monday = 0). */
module Timestamps {
  import opened Wrappers
  import opened Text

  /** A timestamp at one-second resolution (the format has no fraction). */
  datatype DateTime = DateTime(year: int, month: int, day: int, hour: int, minute: int, second: int)

  // ---------------------------------------------------------------------------
  // Calendar (proleptic Gregorian, as Python's `datetime.date`)
  // ---------------------------------------------------------------------------

  predicate IsLeap(y: int)
  {
    y % 4 == 0 && (y % 100 != 0 || y % 400 == 0)
  }

  function DaysInMonth(y: int, m: int): int
    requires 1 <= m <= 12
  {
    if m == 2 then (if IsLeap(y) then 29 else 28)
    else if m == 4 || m == 6 || m == 9 || m == 11 then 30
    else 31
  }

  /** Days of the year before the first of month `m`. */
  function DaysBeforeMonth(y: int, m: int): int
    requires 1 <= m <= 12
  {
    [0, 31, 59, 90, 120, 151, 181, 212, 243, 273, 304, 334][m - 1]
      + (if m > 2 && IsLeap(y) then 1 else 0)
  }

  /** Days before 1 January of year `y`, counted from 1 January of year 1. */
  function DaysBeforeYear(y: int): int
    requires y >= 1
  {
    (y - 1) * 365 + (y - 1) / 4 - (y - 1) / 100 + (y - 1) / 400
  }

  /** `date.toordinal()`: 1 January of year 1 is day 1. */
  function Ordinal(y: int, m: int, d: int): int
    requires y >= 1 && 1 <= m <= 12
  {
    DaysBeforeYear(y) + DaysBeforeMonth(y, m) + d
  }

  /** `Timestamp.dayofweek`: Monday is 0 and Sunday is 6. */
  function Weekday(y: int, m: int, d: int): (w: int)
    requires y >= 1 && 1 <= m <= 12
    ensures 0 <= w <= 6
  {
    (Ordinal(y, m, d) + 6) % 7
  }

  predicate ValidDate(y: int, m: int, d: int)
  {
    y >= 1 && 1 <= m <= 12 && 1 <= d <= DaysInMonth(y, m)
  }

  /** The calendar day after a valid date. */
  function NextDay(y: int, m: int, d: int): (r: (int, int, int))
    requires ValidDate(y, m, d)
    ensures ValidDate(r.0, r.1, r.2)
  {
    if d < DaysInMonth(y, m) then (y, m, d + 1)
    else if m < 12 then (y, m + 1, 1)
    else (y + 1, 1, 1)
  }

  /** A year has 366 days exactly when it is a leap year. */
  lemma YearLength(y: int)
    requires y >= 1
    ensures DaysBeforeYear(y + 1) - DaysBeforeYear(y) == if IsLeap(y) then 366 else 365
  {
    Div4Step(y);
    Div100Step(y);
    Div400Step(y);
  }

  /** Going from `y - 1` to `y`, the quotient by 4, 100 or 400 grows by
      one exactly when the divisor divides `y`. */
  lemma Div4Step(y: int)
    ensures y / 4 - (y - 1) / 4 == if y % 4 == 0 then 1 else 0
  {
  }

  lemma Div100Step(y: int)
    ensures y / 100 - (y - 1) / 100 == if y % 100 == 0 then 1 else 0
  {
  }

  lemma Div400Step(y: int)
    ensures y / 400 - (y - 1) / 400 == if y % 400 == 0 then 1 else 0
  {
  }

  /** The remainder by 7 of a successor. */
  lemma Mod7Step(o: int)
    ensures (o + 1) % 7 == (o % 7 + 1) % 7
  {
  }

  /** Consecutive days have consecutive ordinals. */
  lemma OrdinalNextDay(y: int, m: int, d: int)
    requires ValidDate(y, m, d)
    ensures var n := NextDay(y, m, d); Ordinal(n.0, n.1, n.2) == Ordinal(y, m, d) + 1
  {
    if d == DaysInMonth(y, m) && m == 12 {
      YearLength(y);
    }
  }

  /** The weekday advances by one each day, Sunday (6) wrapping to Monday (0). */
  lemma WeekdayNextDay(y: int, m: int, d: int)
    requires ValidDate(y, m, d)
    ensures var n := NextDay(y, m, d); Weekday(n.0, n.1, n.2) == (Weekday(y, m, d) + 1) % 7
  {
    OrdinalNextDay(y, m, d);
    Mod7Step(Ordinal(y, m, d) + 6);
  }

  /** Anchors: 1 January 2024 was a Monday, 1 January 1970 a Thursday. */
  lemma WeekdayAnchors()
    ensures Weekday(2024, 1, 1) == 0
    ensures Weekday(1970, 1, 1) == 3
  {
  }

  // ---------------------------------------------------------------------------
  // pandas' nanosecond Timestamp range
  // ---------------------------------------------------------------------------

  function Fields(t: DateTime): seq<int>
  {
    [t.year, t.month, t.day, t.hour, t.minute, t.second]
  }

  /** Lexicographic order on equally long field lists. */
  predicate LexLess(a: seq<int>, b: seq<int>)
    requires |a| == |b|
  {
    |a| > 0 && (a[0] < b[0] || (a[0] == b[0] && LexLess(a[1..], b[1..])))
  }

  /** Chronological order, field by field. */
  predicate Earlier(a: DateTime, b: DateTime)
  {
    LexLess(Fields(a), Fields(b))
  }

  /** The first and last whole seconds a nanosecond Timestamp can hold
      (1677-09-21 00:12:43.145224193 and 2262-04-11 23:47:16.854775807). */
  const FirstTimestamp := DateTime(1677, 9, 21, 0, 12, 44)
  const LastTimestamp := DateTime(2262, 4, 11, 23, 47, 16)

  predicate InTimestampRange(t: DateTime)
  {
    !Earlier(t, FirstTimestamp) && !Earlier(LastTimestamp, t)
  }

  /** What the parser accepts: a real calendar date and clock time inside the
      Timestamp range. */
  predicate ValidDateTime(t: DateTime)
  {
    && ValidDate(t.year, t.month, t.day)
    && 0 <= t.hour <= 23 && 0 <= t.minute <= 59 && 0 <= t.second <= 59
    && InTimestampRange(t)
  }

  lemma RangeYears(t: DateTime)
    requires InTimestampRange(t)
    ensures 1677 <= t.year <= 2262
  {
  }

  // ---------------------------------------------------------------------------
  // Parsing "%m/%d/%Y %I:%M:%S %p"
  // ---------------------------------------------------------------------------

  /** Length of the run of digits that starts `s`. */
  function DigitRun(s: string): (n: nat)
    ensures n <= |s| && AllDigits(s[..n])
    ensures n == |s| || !IsDigit(s[n])
  {
    if s != [] && IsDigit(s[0]) then
      var n := 1 + DigitRun(s[1..]);
      assert s[..n] == [s[0]] + s[1..][..n - 1];
      n
    else 0
  }

  /** A one- or two-digit field whose value lies in `lo..hi`, with the rest of
      the input. Each such directive is followed by a non-digit in this format,
      so the field is the whole digit run; its pattern (`1[0-2]|0[1-9]|[1-9]`
      for %m and %I, `[0-5]\d|\d` for %M, ...) admits exactly the one- and
      two-digit spellings of the values in range. */
  function Field2(s: string, lo: int, hi: int): Option<(int, string)>
  {
    var n := DigitRun(s);
    if 1 <= n <= 2 && lo <= DigitsValue(s[..n]) <= hi then Some((DigitsValue(s[..n]), s[n..]))
    else None
  }

  /** %d: as `Field2` for 1..31, or a space followed by one digit 1..9. */
  function DayField(s: string): Option<(int, string)>
  {
    if s != [] && s[0] == ' ' then
      (if DigitRun(s[1..]) == 1 && 1 <= DigitsValue(s[1..2]) then Some((DigitsValue(s[1..2]), s[2..])) else None)
    else Field2(s, 1, 31)
  }

  /** %Y: exactly four digits. */
  function YearField(s: string): Option<(int, string)>
  {
    if DigitRun(s) == 4 then Some((DigitsValue(s[..4]), s[4..])) else None
  }

  /** A literal separator character. */
  function Literal(s: string, c: char): Option<string>
  {
    if s != [] && s[0] == c then Some(s[1..]) else None
  }

  function SpaceRun(s: string): (n: nat)
    ensures n <= |s|
  {
    if s != [] && IsSpace(s[0]) then 1 + SpaceRun(s[1..]) else 0
  }

  /** A blank in the format matches one or more whitespace characters. */
  function Blanks(s: string): Option<string>
  {
    var n := SpaceRun(s);
    if n >= 1 then Some(s[n..]) else None
  }

  /** %p at the very end of the input: "AM" or "PM" in any letter case; the
      result is true for PM. */
  function Meridiem(s: string): Option<bool>
  {
    if Lower(s) == "am" then Some(false)
    else if Lower(s) == "pm" then Some(true)
    else None
  }

  /** %I with %p on a 12-hour clock: 12 AM is hour 0, 12 PM is hour 12. */
  function Hour24(h12: int, pm: bool): int
  {
    if pm then (if h12 == 12 then 12 else h12 + 12)
    else (if h12 == 12 then 0 else h12)
  }

  /** The 12-hour conversion covers the day exactly once: hours 1..12 with
      AM or PM give 0..23, the afternoon flag is "hour >= 12", and the clock
      face shows the hour modulo 12. */
  lemma Hour24Spec(h12: int, pm: bool)
    requires 1 <= h12 <= 12
    ensures 0 <= Hour24(h12, pm) <= 23
    ensures Hour24(h12, pm) >= 12 <==> pm
    ensures Hour24(h12, pm) % 12 == h12 % 12
  {
  }

  /** "%m/%d/%Y": month, day and year, with the rest of the input. */
  function DatePart(s: string): Option<(int, int, int, string)>
  {
    var (month, s1) :- Field2(s, 1, 12);
    var s2 :- Literal(s1, '/');
    var (day, s3) :- DayField(s2);
    var s4 :- Literal(s3, '/');
    var (year, s5) :- YearField(s4);
    Some((month, day, year, s5))
  }

  /** "%I:%M:%S": the 12-hour clock hour, minute and second, with the rest
      of the input. */
  function TimePart(s: string): Option<(int, int, int, string)>
  {
    var (h12, s1) :- Field2(s, 1, 12);
    var s2 :- Literal(s1, ':');
    var (minute, s3) :- Field2(s2, 0, 59);
    var s4 :- Literal(s3, ':');
    var (second, s5) :- Field2(s4, 0, 59);
    Some((h12, minute, second, s5))
  }

  /** " %I:%M:%S %p" up to the end of the input: hour (0..23), minute and
      second. */
  function ClockPart(s: string): Option<(int, int, int)>
  {
    var s1 :- Blanks(s);
    var (h12, minute, second, s2) :- TimePart(s1);
    var s3 :- Blanks(s2);
    var pm :- Meridiem(s3);
    Some((Hour24(h12, pm), minute, second))
  }

  /** `pd.to_datetime(s, format="%m/%d/%Y %I:%M:%S %p", errors="coerce")`
      for one value: `None` stands for NaT. */
  function ParseTimestamp(s: string): (r: Option<DateTime>)
    ensures r.Some? ==> ValidDateTime(r.value)
  {
    var (month, day, year, rest) :- DatePart(s);
    var (hour, minute, second) :- ClockPart(rest);
    var t := DateTime(year, month, day, hour, minute, second);
    if ValidDateTime(t) then Some(t) else None
  }

  // ---------------------------------------------------------------------------
  // The canonical spelling and the round trip
  // ---------------------------------------------------------------------------

  function Hour12(h: int): int
  {
    if h % 12 == 0 then 12 else h % 12
  }

  /** The Chicago data portal's spelling of a timestamp, e.g.
      "01/05/2024 09:30:00 PM". */
  function FormatTimestamp(t: DateTime): string
    requires t.year >= 0 && t.month >= 0 && t.day >= 0 && t.minute >= 0 && t.second >= 0
  {
    ZeroPad(t.month, 2) + ("/" + (ZeroPad(t.day, 2) + ("/" + (ZeroPad(t.year, 4)
      + (" " + (ZeroPad(Hour12(t.hour), 2) + (":" + (ZeroPad(t.minute, 2)
      + (":" + (ZeroPad(t.second, 2) + (" " + (if t.hour >= 12 then "PM" else "AM"))))))))))))
  }

  lemma {:induction false} DigitRunConcat(a: string, b: string)
    requires AllDigits(a) && (b == [] || !IsDigit(b[0]))
    ensures DigitRun(a + b) == |a|
    decreases |a|
  {
    if a == [] {
      assert a + b == b;
    } else {
      var ab := a + b;
      assert ab[0] == a[0] && IsDigit(a[0]);
      assert ab[1..] == a[1..] + b;
      assert AllDigits(a[1..]) by {
        forall i | 0 <= i < |a| - 1 ensures IsDigit(a[1..][i]) {
          assert a[1..][i] == a[i + 1];
        }
      }
      DigitRunConcat(a[1..], b);
    }
  }

  /** A zero-padded two-digit field reads back as its value. */
  lemma Field2Padded(n: int, lo: int, hi: int, rest: string)
    requires 0 <= lo <= n <= hi && n < 100
    requires rest == [] || !IsDigit(rest[0])
    ensures Field2(ZeroPad(n, 2) + rest, lo, hi) == Some((n, rest))
  {
    var a := ZeroPad(n, 2);
    ZeroPadWidth(n, 2);
    ZeroPadRoundTrip(n, 2);
    DigitRunConcat(a, rest);
    assert (a + rest)[..2] == a;
    assert (a + rest)[2..] == rest;
  }

  lemma YearPadded(y: int, rest: string)
    requires 1000 <= y < 10000
    requires rest == [] || !IsDigit(rest[0])
    ensures YearField(ZeroPad(y, 4) + rest) == Some((y, rest))
  {
    var a := ZeroPad(y, 4);
    ZeroPadWidth(y, 4);
    ZeroPadRoundTrip(y, 4);
    DigitRunConcat(a, rest);
    assert (a + rest)[..4] == a;
    assert (a + rest)[4..] == rest;
  }

  lemma OneBlank(rest: string)
    requires rest != [] && !IsSpace(rest[0])
    ensures Blanks(" " + rest) == Some(rest)
  {
    assert (" " + rest)[1..] == rest;
    assert SpaceRun(rest) == 0;
    assert SpaceRun(" " + rest) == 1;
  }

  lemma DatePartPadded(t: DateTime, rest: string)
    requires ValidDateTime(t)
    requires rest != [] && !IsDigit(rest[0])
    ensures DatePart(ZeroPad(t.month, 2) + ("/" + (ZeroPad(t.day, 2) + ("/" + (ZeroPad(t.year, 4) + rest)))))
            == Some((t.month, t.day, t.year, rest))
  {
    RangeYears(t);
    var yy := ZeroPad(t.year, 4) + rest;
    var s2 := "/" + yy;
    var dd := ZeroPad(t.day, 2) + s2;
    var s1 := "/" + dd;
    Field2Padded(t.month, 1, 12, s1);
    assert Literal(s1, '/') == Some(dd);
    Field2Padded(t.day, 1, 31, s2);
    assert DayField(dd) == Field2(dd, 1, 31);
    assert Literal(s2, '/') == Some(yy);
    YearPadded(t.year, rest);
  }

  lemma TimePartPadded(h12: int, minute: int, second: int, rest: string)
    requires 1 <= h12 <= 12 && 0 <= minute <= 59 && 0 <= second <= 59
    requires rest != [] && !IsDigit(rest[0])
    ensures TimePart(ZeroPad(h12, 2) + (":" + (ZeroPad(minute, 2) + (":" + (ZeroPad(second, 2) + rest)))))
            == Some((h12, minute, second, rest))
  {
    var c2 := ":" + (ZeroPad(second, 2) + rest);
    var c1 := ":" + (ZeroPad(minute, 2) + c2);
    Field2Padded(h12, 1, 12, c1);
    assert Literal(c1, ':') == Some(ZeroPad(minute, 2) + c2);
    Field2Padded(minute, 0, 59, c2);
    assert Literal(c2, ':') == Some(ZeroPad(second, 2) + rest);
    Field2Padded(second, 0, 59, rest);
  }

  lemma MeridiemSpelled(pm: bool)
    ensures Meridiem(if pm then "PM" else "AM") == Some(pm)
  {
    assert Lower("PM") == "pm";
    assert Lower("AM") == "am";
  }

  lemma ClockPartPadded(hour: int, minute: int, second: int)
    requires 0 <= hour <= 23 && 0 <= minute <= 59 && 0 <= second <= 59
    ensures ClockPart(" " + (ZeroPad(Hour12(hour), 2) + (":" + (ZeroPad(minute, 2)
              + (":" + (ZeroPad(second, 2) + (" " + (if hour >= 12 then "PM" else "AM"))))))))
            == Some((hour, minute, second))
  {
    var mer := if hour >= 12 then "PM" else "AM";
    var hh := ZeroPad(Hour12(hour), 2) + (":" + (ZeroPad(minute, 2) + (":" + (ZeroPad(second, 2) + (" " + mer)))));
    ZeroPadWidth(Hour12(hour), 2);
    OneBlank(hh);
    TimePartPadded(Hour12(hour), minute, second, " " + mer);
    OneBlank(mer);
    MeridiemSpelled(hour >= 12);
    Hour12RoundTrip(hour);
    assert Blanks(" " + hh) == Some(hh);
    assert TimePart(hh) == Some((Hour12(hour), minute, second, " " + mer));
    assert Blanks(" " + mer) == Some(mer);
  }

  /** Reading the clock face back with its AM/PM flag gives the hour. */
  lemma Hour12RoundTrip(hour: int)
    requires 0 <= hour <= 23
    ensures 1 <= Hour12(hour) <= 12
    ensures Hour24(Hour12(hour), hour >= 12) == hour
  {
  }

  /** Parsing inverts the portal's spelling: every timestamp the parser can
      return is read back from its canonical text. */
  lemma ParseFormatRoundTrip(t: DateTime)
    requires ValidDateTime(t)
    ensures ParseTimestamp(FormatTimestamp(t)) == Some(t)
  {
    var clock := " " + (ZeroPad(Hour12(t.hour), 2) + (":" + (ZeroPad(t.minute, 2)
              + (":" + (ZeroPad(t.second, 2) + (" " + (if t.hour >= 12 then "PM" else "AM")))))));
    DatePartPadded(t, clock);
    ClockPartPadded(t.hour, t.minute, t.second);
  }

  // ---------------------------------------------------------------------------
  // Derived fields
  // ---------------------------------------------------------------------------

  /** `date.dt.to_period("M").astype(str)`: "YYYY-MM". */
  function MonthPeriod(t: DateTime): string
    requires t.year >= 0 && t.month >= 0
  {
    ZeroPad(t.year, 4) + "-" + ZeroPad(t.month, 2)
  }

  /** `date.dt.dayofweek`. */
  function DayOfWeek(t: DateTime): int
    requires ValidDateTime(t)
  {
    Weekday(t.year, t.month, t.day)
  }

  /** The period string has the shape YYYY-MM and reads back as the year and
      month it was made from. */
  lemma MonthPeriodSpec(t: DateTime)
    requires ValidDateTime(t)
    ensures var p := MonthPeriod(t);
      && |p| == 7 && p[4] == '-'
      && AllDigits(p[..4]) && DigitsValue(p[..4]) == t.year
      && AllDigits(p[5..]) && DigitsValue(p[5..]) == t.month
  {
    RangeYears(t);
    ZeroPadWidth(t.year, 4);
    ZeroPadWidth(t.month, 2);
    ZeroPadRoundTrip(t.year, 4);
    ZeroPadRoundTrip(t.month, 2);
    var p := MonthPeriod(t);
    assert p[..4] == ZeroPad(t.year, 4);
    assert p[5..] == ZeroPad(t.month, 2);
  }
}
