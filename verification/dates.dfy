/**
 * Calendar days as the show registration uses them: a date string in the layout
 * "2006-01-02" is parsed to midnight of that day, compared with Before/After,
 * advanced one day at a time and formatted back in the same layout.
 *
 * A day of the proleptic Gregorian calendar is a `Date`; `DayNumber` counts the
 * days since 0000-01-01, so that comparing two parsed times is comparing their
 * day numbers and `Next` (adding one day) adds one to the day number.
 */
module Dates {
  import opened Wrappers

  datatype Date = Date(year: int, month: int, day: int)

  predicate IsLeapYear(year: int) {
    year % 4 == 0 && (year % 100 != 0 || year % 400 == 0)
  }

  function DaysInMonth(month: int, year: int): int {
    if month == 2 then (if IsLeapYear(year) then 29 else 28)
    else if month == 4 || month == 6 || month == 9 || month == 11 then 30
    else 31
  }

  function DaysInYear(year: int): int {
    if IsLeapYear(year) then 366 else 365
  }

  /** A day that exists in the calendar, in a year without a sign. */
  predicate ValidDate(d: Date) {
    0 <= d.year && 1 <= d.month <= 12 && 1 <= d.day <= DaysInMonth(d.month, d.year)
  }

  /** The day after `d`: what AddDate(0, 0, 1) does to a midnight time. */
  function Next(d: Date): Date {
    if d.day < DaysInMonth(d.month, d.year) then Date(d.year, d.month, d.day + 1)
    else if d.month < 12 then Date(d.year, d.month + 1, 1)
    else Date(d.year + 1, 1, 1)
  }

  function DaysBeforeYear(year: nat): nat {
    if year == 0 then 0 else DaysBeforeYear(year - 1) + DaysInYear(year - 1)
  }

  function DaysBeforeMonth(month: int, year: int): int {
    var common :=
      if month <= 1 then 0 else if month == 2 then 31 else if month == 3 then 59
      else if month == 4 then 90 else if month == 5 then 120 else if month == 6 then 151
      else if month == 7 then 181 else if month == 8 then 212 else if month == 9 then 243
      else if month == 10 then 273 else if month == 11 then 304 else 334;
    common + (if month > 2 && IsLeapYear(year) then 1 else 0)
  }

  /** Days elapsed from 0000-01-01 to `d`. */
  function DayNumber(d: Date): int
    requires ValidDate(d)
  {
    DaysBeforeYear(d.year) + DaysBeforeMonth(d.month, d.year) + d.day - 1
  }

  /** time.Time.Before on two parsed dates. */
  predicate Before(a: Date, b: Date)
    requires ValidDate(a) && ValidDate(b)
  {
    DayNumber(a) < DayNumber(b)
  }

  /** time.Time.After on two parsed dates. */
  predicate After(a: Date, b: Date)
    requires ValidDate(a) && ValidDate(b)
  {
    Before(b, a)
  }

  lemma DaysBeforeMonthStep(month: int, year: int)
    requires 1 <= month < 12
    ensures DaysBeforeMonth(month + 1, year) == DaysBeforeMonth(month, year) + DaysInMonth(month, year)
  {
  }

  /** Adding one day keeps a date valid and advances its day number by exactly one. */
  lemma NextIsFollowingDay(d: Date)
    requires ValidDate(d)
    ensures ValidDate(Next(d))
    ensures DayNumber(Next(d)) == DayNumber(d) + 1
  {
    if d.day < DaysInMonth(d.month, d.year) {
    } else if d.month < 12 {
      DaysBeforeMonthStep(d.month, d.year);
    } else {
      assert DaysBeforeYear(d.year + 1) == DaysBeforeYear(d.year) + DaysInYear(d.year);
    }
  }

  /** The day `n` days after `start`: valid, and `n` day numbers later. */
  function DayAfter(start: Date, n: nat): (d: Date)
    requires ValidDate(start)
    ensures ValidDate(d)
    ensures DayNumber(d) == DayNumber(start) + n
  {
    if n == 0 then start
    else
      var prev := DayAfter(start, n - 1);
      NextIsFollowingDay(prev);
      Next(prev)
  }

  lemma {:induction false} DaysBeforeYearGrows(y1: nat, y2: nat)
    requires y1 < y2
    ensures DaysBeforeYear(y1) + DaysInYear(y1) <= DaysBeforeYear(y2)
  {
    if y1 + 1 < y2 {
      DaysBeforeYearGrows(y1, y2 - 1);
    }
  }

  lemma DayWithinYear(d: Date)
    requires ValidDate(d)
    ensures DaysBeforeYear(d.year) <= DayNumber(d) < DaysBeforeYear(d.year) + DaysInYear(d.year)
  {
  }

  /** A later day never lies in an earlier year. */
  lemma YearMonotone(a: Date, b: Date)
    requires ValidDate(a) && ValidDate(b)
    requires DayNumber(a) <= DayNumber(b)
    ensures a.year <= b.year
  {
    if a.year > b.year {
      DayWithinYear(a);
      DayWithinYear(b);
      DaysBeforeYearGrows(b.year, a.year);
    }
  }

  // ---------------------------------------------------------------------------
  // The layout "2006-01-02": four year digits, two month digits, two day digits.

  function Pow10(n: nat): nat {
    if n == 0 then 1 else 10 * Pow10(n - 1)
  }

  predicate IsDigit(c: char) {
    '0' <= c <= '9'
  }

  predicate AllDigits(s: string) {
    forall i | 0 <= i < |s| :: IsDigit(s[i])
  }

  function DigitChar(n: int): char
    requires 0 <= n < 10
  {
    ('0' as int + n) as char
  }

  function DigitValue(c: char): int
    requires IsDigit(c)
  {
    c as int - '0' as int
  }

  /**
   * The decimal digits of `n`, left-padded with zeros to at least `width`
   * characters, as time.Format writes years, months and days.
   */
  function Digits(n: nat, width: nat): string
    decreases n + width
  {
    if n == 0 && width == 0 then ""
    else Digits(n / 10, if width > 0 then width - 1 else 0) + [DigitChar(n % 10)]
  }

  /** The value of a string of decimal digits. */
  function Number(s: string): nat
    requires AllDigits(s)
  {
    if s == [] then 0 else 10 * Number(s[..|s| - 1]) + DigitValue(s[|s| - 1])
  }

  /** time.Format(d, "2006-01-02"). */
  function Format(d: Date): string
    requires ValidDate(d)
  {
    Digits(d.year, 4) + "-" + Digits(d.month, 2) + "-" + Digits(d.day, 2)
  }

  /**
   * time.Parse("2006-01-02", s): exactly four, two and two digits separated by
   * dashes, naming a day that exists; anything else is a parse error.
   */
  function Parse(s: string): (r: Option<Date>)
    ensures r.Some? ==> ValidDate(r.value) && r.value.year <= 9999
  {
    if |s| == 10 && s[4] == '-' && s[7] == '-'
       && AllDigits(s[..4]) && AllDigits(s[5..7]) && AllDigits(s[8..])
    then
      var d := Date(Number(s[..4]), Number(s[5..7]), Number(s[8..]));
      NumberBound(s[..4]);
      if ValidDate(d) then Some(d) else None
    else None
  }

  lemma {:induction false} NumberBound(s: string)
    requires AllDigits(s)
    ensures Number(s) < Pow10(|s|)
  {
    if s != [] {
      NumberBound(s[..|s| - 1]);
    }
  }

  /** Writing `n` in exactly `width` digits and reading it back gives `n`. */
  lemma {:induction false} NumberOfDigits(n: nat, width: nat)
    requires n < Pow10(width)
    ensures |Digits(n, width)| == width
    ensures AllDigits(Digits(n, width))
    ensures Number(Digits(n, width)) == n
    decreases width
  {
    if width > 0 {
      var prefix := Digits(n / 10, width - 1);
      NumberOfDigits(n / 10, width - 1);
      var s := Digits(n, width);
      assert s == prefix + [DigitChar(n % 10)];
      assert s[..|s| - 1] == prefix;
    }
  }

  /** Reading a digit string and writing it back in as many digits gives it back. */
  lemma {:induction false} DigitsOfNumber(s: string)
    requires AllDigits(s)
    ensures Digits(Number(s), |s|) == s
  {
    if s != [] {
      var prefix := s[..|s| - 1];
      DigitsOfNumber(prefix);
      var n := Number(s);
      assert n / 10 == Number(prefix) && n % 10 == DigitValue(s[|s| - 1]);
      assert s == prefix + [s[|s| - 1]];
    }
  }

  /** Parsing a formatted date gives that date back. */
  lemma ParseFormat(d: Date)
    requires ValidDate(d) && d.year <= 9999
    ensures Parse(Format(d)) == Some(d)
  {
    var y, m, dd := Digits(d.year, 4), Digits(d.month, 2), Digits(d.day, 2);
    NumberOfDigits(d.year, 4);
    NumberOfDigits(d.month, 2);
    NumberOfDigits(d.day, 2);
    var s := Format(d);
    assert s == y + "-" + m + "-" + dd;
    assert s[..4] == y;
    assert s[5..7] == m;
    assert s[8..] == dd;
  }

  /** A string that parses is the formatted form of the date it parses to. */
  lemma FormatParse(s: string)
    requires Parse(s).Some?
    ensures Format(Parse(s).value) == s
  {
    DigitsOfNumber(s[..4]);
    DigitsOfNumber(s[5..7]);
    DigitsOfNumber(s[8..]);
    assert s == s[..4] + "-" + s[5..7] + "-" + s[8..];
  }

  /** Two dates of years 0 to 9999 with the same formatted form are the same date. */
  lemma FormatInjective(a: Date, b: Date)
    requires ValidDate(a) && a.year <= 9999
    requires ValidDate(b) && b.year <= 9999
    requires Format(a) == Format(b)
    ensures a == b
  {
    ParseFormat(a);
    ParseFormat(b);
  }
}
