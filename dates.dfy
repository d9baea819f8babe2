/** Civil dates of the proleptic Gregorian calendar, the calendar JavaScript's
    `Date` and Python's `datetime` both use.  Months are numbered 0..11, as
    `Date.getMonth` numbers them (0 = January); the Python side prints month
    `m` as `m + 1`. */
module Dates {

  datatype Date = Date(year: int, month: int, day: int)

  /** A wall-clock instant at second precision in one fixed time zone. */
  datatype DateTime = DateTime(date: Date, hour: int, minute: int, second: int)

  predicate IsLeapYear(y: int) {
    y % 4 == 0 && (y % 100 != 0 || y % 400 == 0)
  }

  function YearLength(y: int): int {
    if IsLeapYear(y) then 366 else 365
  }

  /** Number of days of month `m` of year `y`, which the calendar script obtains
      as "day 0 of the following month". */
  function DaysInMonth(y: int, m: int): (n: int)
    requires 0 <= m < 12
    ensures 28 <= n <= 31
    ensures n < 30 <==> m == 1
    ensures m == 1 ==> (n == 29 <==> IsLeapYear(y))
    ensures n == 30 <==> m in {3, 5, 8, 10}
    ensures n == 31 <==> m in {0, 2, 4, 6, 7, 9, 11}
  {
    if m == 1 then (if IsLeapYear(y) then 29 else 28)
    else if m == 3 || m == 5 || m == 8 || m == 10 then 30
    else 31
  }

  predicate ValidDate(d: Date) {
    0 <= d.month < 12 && 1 <= d.day <= DaysInMonth(d.year, d.month)
  }

  predicate ValidDateTime(t: DateTime) {
    ValidDate(t.date) && 0 <= t.hour < 24 && 0 <= t.minute < 60 && 0 <= t.second < 60
  }

  /** Days from 1 January of year 1 to 1 January of year `y` (negative before
      year 1); `/` is floor division here since every divisor is positive. */
  function DaysBeforeYear(y: int): int {
    var p := y - 1;
    365 * p + p / 4 - p / 100 + p / 400
  }

  /** Days from 1 January to the first day of month `m` of year `y`. */
  function DaysBeforeMonth(y: int, m: int): int
    requires 0 <= m < 12
  {
    [0, 31, 59, 90, 120, 151, 181, 212, 243, 273, 304, 334][m]
      + (if m >= 2 && IsLeapYear(y) then 1 else 0)
  }

  /** Days elapsed since 1 January of year 1. */
  function DayNumber(d: Date): int
    requires 0 <= d.month < 12
  {
    DaysBeforeYear(d.year) + DaysBeforeMonth(d.year, d.month) + d.day - 1
  }

  /** Weekday index as `Date.getDay` returns it: 0 = Sunday .. 6 = Saturday
      (1 January of year 1 was a Monday). */
  function Weekday(d: Date): (w: int)
    requires 0 <= d.month < 12
    ensures 0 <= w < 7
  {
    (DayNumber(d) + 1) % 7
  }

  /** Seconds elapsed since midnight of 1 January of year 1; comparing two
      instants is comparing these numbers. */
  function Seconds(t: DateTime): int
    requires 0 <= t.date.month < 12
  {
    DayNumber(t.date) * 86400 + t.hour * 3600 + t.minute * 60 + t.second
  }

  /** The calendar day that follows `d`. */
  function NextDay(d: Date): (r: Date)
    requires ValidDate(d)
    ensures ValidDate(r)
  {
    if d.day < DaysInMonth(d.year, d.month) then d.(day := d.day + 1)
    else if d.month < 11 then Date(d.year, d.month + 1, 1)
    else Date(d.year + 1, 0, 1)
  }

  // ---------------------------------------------------------------------
  // Month navigation: the month before and after, with year wrap-around
  // ---------------------------------------------------------------------

  /** The month before `(y, m)`: `new Date(y, m - 1, ...)` normalises to it. */
  function PreviousMonth(y: int, m: int): (r: (int, int))
    requires 0 <= m < 12
    ensures 0 <= r.1 < 12
    ensures 12 * r.0 + r.1 == 12 * y + m - 1
  {
    if m == 0 then (y - 1, 11) else (y, m - 1)
  }

  /** The month after `(y, m)`: `new Date(y, m + 1, ...)` normalises to it. */
  function FollowingMonth(y: int, m: int): (r: (int, int))
    requires 0 <= m < 12
    ensures 0 <= r.1 < 12
    ensures 12 * r.0 + r.1 == 12 * y + m + 1
  {
    if m == 11 then (y + 1, 0) else (y, m + 1)
  }

  /** Going back a month and forward again (or the reverse) is the identity. */
  lemma MonthRoundTrip(y: int, m: int)
    requires 0 <= m < 12
    ensures var p := PreviousMonth(y, m); FollowingMonth(p.0, p.1) == (y, m)
    ensures var f := FollowingMonth(y, m); PreviousMonth(f.0, f.1) == (y, m)
  {
  }

  // ---------------------------------------------------------------------
  // The day count is consistent with the successor of a day
  // ---------------------------------------------------------------------

  /** Floor division by a leap-rule divisor gains one exactly at multiples. */
  lemma DivStep(p: int, k: int)
    requires k == 4 || k == 100 || k == 400
    ensures (p + 1) / k == p / k + (if (p + 1) % k == 0 then 1 else 0)
  {
    if k == 4 {
      assert p == 4 * (p / 4) + p % 4;
    } else if k == 100 {
      assert p == 100 * (p / 100) + p % 100;
    } else {
      assert p == 400 * (p / 400) + p % 400;
    }
  }

  /** A year holds 365 days, or 366 in a leap year. */
  lemma YearStep(y: int)
    ensures DaysBeforeYear(y + 1) == DaysBeforeYear(y) + YearLength(y)
  {
    var p := y - 1;
    DivStep(p, 4);
    DivStep(p, 100);
    DivStep(p, 400);
  }

  lemma MonthStep(y: int, m: int)
    requires 0 <= m < 11
    ensures DaysBeforeMonth(y, m + 1) == DaysBeforeMonth(y, m) + DaysInMonth(y, m)
  {
  }

  lemma LastMonthEndsYear(y: int)
    ensures DaysBeforeMonth(y, 11) + DaysInMonth(y, 11) == YearLength(y)
  {
  }

  /** The day count advances by exactly one from a day to the next, across
      month and year ends and on 29 February alike. */
  lemma NextDayNumber(d: Date)
    requires ValidDate(d)
    ensures DayNumber(NextDay(d)) == DayNumber(d) + 1
  {
    if d.day == DaysInMonth(d.year, d.month) {
      if d.month < 11 {
        MonthStep(d.year, d.month);
      } else {
        LastMonthEndsYear(d.year);
        YearStep(d.year);
      }
    }
  }

  /** The first day of a month is the day after the last day of the month
      before it. */
  lemma FirstFollowsLast(y: int, m: int)
    requires 0 <= m < 12
    ensures var p := PreviousMonth(y, m);
            var last := Date(p.0, p.1, DaysInMonth(p.0, p.1));
            ValidDate(last) && NextDay(last) == Date(y, m, 1)
            && DayNumber(Date(y, m, 1)) == DayNumber(last) + 1
  {
    var p := PreviousMonth(y, m);
    var last := Date(p.0, p.1, DaysInMonth(p.0, p.1));
    NextDayNumber(last);
  }

  /** Fixed points of the calendar: 1 January 1970 was a Thursday and
      1 January 2024 a Monday. */
  lemma WeekdayAnchors()
    ensures Weekday(Date(1970, 0, 1)) == 4
    ensures Weekday(Date(2024, 0, 1)) == 1
  {
  }

  /** The weekday advances cyclically with the day count. */
  lemma WeekdayShift(a: Date, b: Date, k: int)
    requires 0 <= a.month < 12 && 0 <= b.month < 12
    requires DayNumber(b) == DayNumber(a) + k
    ensures Weekday(b) == (Weekday(a) + k) % 7
  {
  }
}
