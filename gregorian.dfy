/**
 * The proleptic Gregorian calendar that JavaScript's `Date` implements:
 * month lengths, the weekday of a day (0 = Sunday, as `Date.getDay()`), and
 * the en-US form of `Date.toLocaleDateString()`.
 */
module Gregorian {
  import opened Types
  import opened Text

  predicate IsLeapYear(y: int) {
    y % 4 == 0 && (y % 100 != 0 || y % 400 == 0)
  }

  /** The number of days in month `m` (0-based) of year `y`. */
  function DaysInMonth(y: int, m: int): (n: int)
    requires 0 <= m < 12
    ensures 28 <= n <= 31
    ensures n == 29 <==> m == 1 && IsLeapYear(y)
  {
    if m == 1 then (if IsLeapYear(y) then 29 else 28)
    else if m == 3 || m == 5 || m == 8 || m == 10 then 30
    else 31
  }

  function DaysInYear(y: int): int {
    if IsLeapYear(y) then 366 else 365
  }

  /** Days from 1 January of year `y` to the first of month `m`. */
  function DaysBeforeMonth(y: int, m: int): int
    requires 0 <= m <= 12
  {
    if m == 0 then 0 else DaysBeforeMonth(y, m - 1) + DaysInMonth(y, m - 1)
  }

  /** Days from 1 January of year 1 to 1 January of year `y` (negative before year 1). */
  function DaysBeforeYear(y: int): int {
    365 * (y - 1) + (y - 1) / 4 - (y - 1) / 100 + (y - 1) / 400
  }

  predicate ValidDate(d: Date) {
    0 <= d.month < 12 && 1 <= d.day <= DaysInMonth(d.year, d.month)
  }

  function DayNumber(y: int, m: int, d: int): int
    requires 0 <= m < 12
  {
    DaysBeforeYear(y) + DaysBeforeMonth(y, m) + d - 1
  }

  /** `new Date(y, m, d).getDay()`; 1 January of year 1 was a Monday. */
  function Weekday(y: int, m: int, d: int): (w: int)
    requires 0 <= m < 12
    ensures 0 <= w < 7
  {
    (DayNumber(y, m, d) + 1) % 7
  }

  /** The day after a day of the month falls on the next weekday. */
  lemma NextDayWeekday(y: int, m: int, d: int)
    requires 0 <= m < 12
    ensures Weekday(y, m, d + 1) == (Weekday(y, m, d) + 1) % 7
  {
    WeekdayShift(DayNumber(y, m, d), 1);
  }

  /**
   * Known days, which `Weekday` with `NextDayWeekday` and `NextMonthWeekday`
   * pins down: 1 January 1970 was a Thursday, 29 February 2000 a Tuesday,
   * 1 January 2024 a Monday and 14 October 2026 a Wednesday.
   */
  lemma WeekdayAnchors()
    ensures Weekday(1970, 0, 1) == 4
    ensures Weekday(2000, 1, 29) == 2
    ensures Weekday(2024, 0, 1) == 1
    ensures Weekday(2026, 9, 14) == 3
  {
    assert DayNumber(1970, 0, 1) == 719162;
    assert DaysBeforeMonth(2000, 1) == 31;
    assert DayNumber(2000, 1, 29) == 730178;
    assert DayNumber(2024, 0, 1) == 738885;
    assert DaysBeforeMonth(2026, 9) == 273;
    assert DayNumber(2026, 9, 14) == 739902;
  }

  /** A year holds its twelve months. */
  lemma MonthsFillYear(y: int)
    ensures DaysBeforeMonth(y, 12) == DaysInYear(y)
  {
    var feb := DaysInMonth(y, 1);
    assert DaysBeforeMonth(y, 1) == 31;
    assert DaysBeforeMonth(y, 2) == 31 + feb;
    assert DaysBeforeMonth(y, 3) == 62 + feb;
    assert DaysBeforeMonth(y, 4) == 92 + feb;
    assert DaysBeforeMonth(y, 5) == 123 + feb;
    assert DaysBeforeMonth(y, 6) == 153 + feb;
    assert DaysBeforeMonth(y, 7) == 184 + feb;
    assert DaysBeforeMonth(y, 8) == 215 + feb;
    assert DaysBeforeMonth(y, 9) == 245 + feb;
    assert DaysBeforeMonth(y, 10) == 276 + feb;
    assert DaysBeforeMonth(y, 11) == 306 + feb;
  }

  /** Consecutive years are a year's worth of days apart. */
  lemma YearStep(y: int)
    ensures DaysBeforeYear(y + 1) == DaysBeforeYear(y) + DaysInYear(y)
  {
    var q4, q100, q400 := (y - 1) / 4, (y - 1) / 100, (y - 1) / 400;
    assert y / 4 == q4 + (if y % 4 == 0 then 1 else 0);
    assert y / 100 == q100 + (if y % 100 == 0 then 1 else 0);
    assert y / 400 == q400 + (if y % 400 == 0 then 1 else 0);
  }

  lemma WeekdayShift(n: int, d: int)
    ensures (n + d + 1) % 7 == ((n + 1) % 7 + d) % 7
  {
    var q := (n + 1) / 7;
    assert n + 1 == 7 * q + (n + 1) % 7;
    assert n + d + 1 == 7 * q + ((n + 1) % 7 + d);
  }

  /**
   * The weekday and month-length functions agree: the first of the next month
   * falls `DaysInMonth` days after the first of this one.
   */
  lemma NextMonthWeekday(y: int, m: int)
    requires 0 <= m < 12
    ensures m < 11 ==> Weekday(y, m + 1, 1) == (Weekday(y, m, 1) + DaysInMonth(y, m)) % 7
    ensures m == 11 ==> Weekday(y + 1, 0, 1) == (Weekday(y, m, 1) + DaysInMonth(y, m)) % 7
  {
    var n := DayNumber(y, m, 1);
    var d := DaysInMonth(y, m);
    WeekdayShift(n, d);
    if m == 11 {
      YearStep(y);
      MonthsFillYear(y);
      assert DayNumber(y + 1, 0, 1) == n + d;
    } else {
      assert DayNumber(y, m + 1, 1) == n + d;
    }
  }

  /** `date.toLocaleDateString()` in the en-US locale: "M/D/YYYY". */
  function LocaleDateString(d: Date): (r: string)
    requires 0 <= d.month < 12 && d.day >= 1
    ensures '/' in r
  {
    NatToString(d.month + 1) + "/" + NatToString(d.day) + "/" + IntToString(d.year)
  }

  /** The three fields of the date text, none holding a '/'. */
  function DateFields(d: Date): (parts: seq<string>)
    requires 0 <= d.month < 12 && d.day >= 1
    ensures |parts| == 3 && Join(parts, '/') == LocaleDateString(d)
    ensures forall i :: 0 <= i < |parts| ==> '/' !in parts[i]
  {
    var m, n, y := NatToString(d.month + 1), NatToString(d.day), IntToString(d.year);
    var parts := [m, n, y];
    assert parts[1..] == [n, y] && [n, y][1..] == [y];
    assert Join([n, y], '/') == n + ['/'] + y;
    parts
  }

  /** The date text names exactly one day, so looking plans up by it is looking them up by day. */
  lemma LocaleDateStringInjective(a: Date, b: Date)
    requires 0 <= a.month < 12 && a.day >= 1
    requires 0 <= b.month < 12 && b.day >= 1
    ensures LocaleDateString(a) == LocaleDateString(b) <==> a == b
  {
    var pa, pb := DateFields(a), DateFields(b);
    JoinInjective(pa, pb, '/');
    if LocaleDateString(a) == LocaleDateString(b) {
      assert pa[0] == pb[0] && pa[1] == pb[1] && pa[2] == pb[2];
      NatToStringInjective(a.month + 1, b.month + 1);
      NatToStringInjective(a.day, b.day);
      IntToStringInjective(a.year, b.year);
    }
  }
}
