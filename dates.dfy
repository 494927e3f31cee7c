/**
 * Date arguments of the `--before` and `--after` filters: an RFC 3339
 * timestamp, or else a bare `YYYY-MM-DD` calendar date read as midnight UTC.
 */
module Dates {
  import opened Wrappers

  /** A point in time as Go's `time.Time` exposes it, with its zone offset in seconds. */
  datatype Time = Time(year: int, month: int, day: int,
                       hour: int, minute: int, second: int, nanosecond: int,
                       offsetSeconds: int)

  /** The start of a calendar day in UTC. */
  function Midnight(year: int, month: int, day: int): Time {
    Time(year, month, day, 0, 0, 0, 0, 0)
  }

  predicate IsMidnightUtc(t: Time) {
    t.hour == 0 && t.minute == 0 && t.second == 0 && t.nanosecond == 0 && t.offsetSeconds == 0
  }

  /** Leap years of the proleptic Gregorian calendar. */
  predicate IsLeapYear(year: int) {
    year % 4 == 0 && (year % 100 != 0 || year % 400 == 0)
  }

  function DaysIn(month: int, year: int): (n: int)
    requires 1 <= month <= 12
    ensures 28 <= n <= 31
  {
    if month == 2 then (if IsLeapYear(year) then 29 else 28)
    else if month == 4 || month == 6 || month == 9 || month == 11 then 30
    else 31
  }

  predicate IsCalendarDate(year: int, month: int, day: int) {
    1 <= month <= 12 && 1 <= day <= DaysIn(month, year)
  }

  predicate IsDigit(c: char) {
    '0' <= c <= '9'
  }

  function DigitValue(c: char): (d: nat)
    requires IsDigit(c)
    ensures d < 10
  {
    (c as int) - ('0' as int)
  }

  function DigitChar(d: nat): (c: char)
    requires d < 10
    ensures IsDigit(c) && DigitValue(c) == d
  {
    ((('0' as int) + d) as char)
  }

  /** The two-digit decimal number `s[i..i + 2]`. */
  function TwoDigits(s: string, i: nat): (n: nat)
    requires i + 2 <= |s| && IsDigit(s[i]) && IsDigit(s[i + 1])
    ensures n <= 99
  {
    10 * DigitValue(s[i]) + DigitValue(s[i + 1])
  }

  /** A number below 100 written with exactly two digits. */
  function FormatTwoDigits(n: nat): (s: string)
    requires n <= 99
    ensures |s| == 2 && IsDigit(s[0]) && IsDigit(s[1])
  {
    [DigitChar(n / 10), DigitChar(n % 10)]
  }

  lemma TwoDigitsRoundTrip(n: nat, s: string, i: nat)
    requires n <= 99 && i + 2 <= |s| && s[i..i + 2] == FormatTwoDigits(n)
    ensures TwoDigits(s, i) == n
  {
    assert s[i] == FormatTwoDigits(n)[0] && s[i + 1] == FormatTwoDigits(n)[1];
  }

  lemma FormatTwoDigitsRoundTrip(s: string, i: nat)
    requires i + 2 <= |s| && IsDigit(s[i]) && IsDigit(s[i + 1])
    ensures FormatTwoDigits(TwoDigits(s, i)) == s[i..i + 2]
  {
    var a, b := DigitValue(s[i]), DigitValue(s[i + 1]);
    assert (10 * a + b) / 10 == a && (10 * a + b) % 10 == b;
  }

  /** `s` has the shape `DDDD-DD-DD`. */
  predicate IsBareDateShape(s: string) {
    && |s| == 10
    && IsDigit(s[0]) && IsDigit(s[1]) && IsDigit(s[2]) && IsDigit(s[3])
    && s[4] == '-'
    && IsDigit(s[5]) && IsDigit(s[6])
    && s[7] == '-'
    && IsDigit(s[8]) && IsDigit(s[9])
  }

  function YearOf(s: string): (n: nat)
    requires IsBareDateShape(s)
    ensures n <= 9999
  {
    100 * TwoDigits(s, 0) + TwoDigits(s, 2)
  }

  /**
   * Go's `time.Parse("2006-01-02", s)`: exactly four year digits, two month
   * digits and two day digits separated by dashes, a month in 1..12 and a
   * day that exists in that month of that year; the result is midnight UTC.
   */
  function ParseBareDate(s: string): (r: Option<Time>)
    ensures r.Some? <==> IsBareDateShape(s) && IsCalendarDate(YearOf(s), TwoDigits(s, 5), TwoDigits(s, 8))
    ensures r.Some? ==> IsMidnightUtc(r.value) && IsCalendarDate(r.value.year, r.value.month, r.value.day)
    ensures r.Some? ==> 0 <= r.value.year <= 9999
  {
    if !IsBareDateShape(s) then None
    else
      var year, month, day := YearOf(s), TwoDigits(s, 5), TwoDigits(s, 8);
      if IsCalendarDate(year, month, day) then Some(Midnight(year, month, day)) else None
  }

  /** Go's `t.Format("2006-01-02")` for a four-digit year: the inverse of `ParseBareDate`. */
  function FormatBareDate(year: nat, month: nat, day: nat): (s: string)
    requires year <= 9999 && month <= 99 && day <= 99
    ensures IsBareDateShape(s)
  {
    FormatTwoDigits(year / 100) + FormatTwoDigits(year % 100) + "-" + FormatTwoDigits(month) + "-" + FormatTwoDigits(day)
  }

  /** Formatting a calendar date and parsing it back gives midnight UTC of that date. */
  lemma ParseFormatBareDate(year: nat, month: nat, day: nat)
    requires year <= 9999 && IsCalendarDate(year, month, day)
    ensures ParseBareDate(FormatBareDate(year, month, day)) == Some(Midnight(year, month, day))
  {
    var s := FormatBareDate(year, month, day);
    TwoDigitsRoundTrip(year / 100, s, 0);
    TwoDigitsRoundTrip(year % 100, s, 2);
    TwoDigitsRoundTrip(month, s, 5);
    TwoDigitsRoundTrip(day, s, 8);
  }

  /** Every string `ParseBareDate` accepts is the formatting of the date it yields. */
  lemma FormatParseBareDate(s: string)
    requires ParseBareDate(s).Some?
    ensures var t := ParseBareDate(s).value; FormatBareDate(t.year, t.month, t.day) == s
  {
    var t := ParseBareDate(s).value;
    FormatTwoDigitsRoundTrip(s, 0);
    FormatTwoDigitsRoundTrip(s, 2);
    FormatTwoDigitsRoundTrip(s, 5);
    FormatTwoDigitsRoundTrip(s, 8);
    assert t.year / 100 == TwoDigits(s, 0) && t.year % 100 == TwoDigits(s, 2);
    assert s == s[0..2] + s[2..4] + "-" + s[5..7] + "-" + s[8..10];
  }

  /** February 29 exists in leap years only; a one-digit month is not a bare date. */
  lemma BareDateExamples()
    ensures ParseBareDate("2026-01-15") == Some(Midnight(2026, 1, 15))
    ensures ParseBareDate("2024-02-29") == Some(Midnight(2024, 2, 29))
    ensures ParseBareDate("2023-02-29") == None
    ensures ParseBareDate("1900-02-29") == None
    ensures ParseBareDate("2026-1-15") == None
  {
    assert YearOf("2026-01-15") == 2026;
    assert YearOf("2024-02-29") == 2024;
    assert YearOf("2023-02-29") == 2023;
    assert YearOf("1900-02-29") == 1900;
  }

  /**
   * `parseDate`: the RFC 3339 reading of `s` when the library accepts it,
   * otherwise the bare-date reading; when neither applies, the RFC 3339
   * parser's error is reported, not the bare-date one.
   */
  function ParseDate(s: string, rfc3339: string -> Result<Time, string>): (r: Result<Time, string>)
    ensures r.Ok? <==> rfc3339(s).Ok? || ParseBareDate(s).Some?
    ensures rfc3339(s).Ok? ==> r == rfc3339(s)
    ensures r.Ok? && rfc3339(s).Err? ==> ParseBareDate(s) == Some(r.value) && IsMidnightUtc(r.value)
    ensures r.Err? ==> r.error == rfc3339(s).error
  {
    match rfc3339(s)
    case Ok(t) => Ok(t)
    case Err(e) =>
      match ParseBareDate(s)
      case Some(t) => Ok(t)
      case None => Err(e)
  }
}
