/**
 * Days of the proleptic Gregorian calendar, as java.time.LocalDate represents
 * them, and the order LocalDate.isAfter uses.
 */
module CalendarDates {

  /** A year, month and day; nothing says these form a real date (see ValidDate). */
  datatype Date = Date(year: int, month: int, day: int)

  /** Gregorian leap years: every fourth year, except centuries not divisible by 400. */
  predicate IsLeapYear(y: int) {
    y % 4 == 0 && (y % 100 != 0 || y % 400 == 0)
  }

  function DaysInMonth(y: int, m: int): (n: int)
    ensures 28 <= n <= 31
    ensures n == 31 <==> m != 2 && m != 4 && m != 6 && m != 9 && m != 11
    ensures m == 2 ==> (n == 29 <==> IsLeapYear(y))
    ensures m == 2 && !IsLeapYear(y) ==> n == 28
    ensures m == 4 || m == 6 || m == 9 || m == 11 ==> n == 30
  {
    if m == 2 then (if IsLeapYear(y) then 29 else 28)
    else if m == 4 || m == 6 || m == 9 || m == 11 then 30
    else 31
  }

  /** The largest year a four-digit year field can hold. */
  const MaxYear := 9999

  /** A real calendar day with a year of one to four digits. */
  predicate ValidDate(d: Date) {
    1 <= d.year <= MaxYear && 1 <= d.month <= 12 && 1 <= d.day <= DaysInMonth(d.year, d.month)
  }

  type CalendarDate = d: Date | ValidDate(d) witness Date(1970, 1, 1)

  /** LocalDate.isAfter: the year decides, then the month, then the day. */
  predicate IsAfter(a: Date, b: Date) {
    a.year > b.year ||
    (a.year == b.year && (a.month > b.month || (a.month == b.month && a.day > b.day)))
  }

  // An independent measure of time: the number of days since 1 January of year 1.

  function YearLength(y: int): int {
    if IsLeapYear(y) then 366 else 365
  }

  function DaysBeforeYear(y: int): nat
    decreases y
  {
    if y <= 1 then 0 else DaysBeforeYear(y - 1) + YearLength(y - 1)
  }

  function DaysBeforeMonth(y: int, m: int): nat
    decreases m
  {
    if m <= 1 then 0 else DaysBeforeMonth(y, m - 1) + DaysInMonth(y, m - 1)
  }

  /** Days elapsed from 0001-01-01 (day 0) to d. */
  function DayNumber(d: Date): int {
    DaysBeforeYear(d.year) + DaysBeforeMonth(d.year, d.month) + d.day - 1
  }

  /** The twelve months of a year add up to the year's length. */
  lemma MonthsFillYear(y: int)
    ensures DaysBeforeMonth(y, 13) == YearLength(y)
  {
    var feb := DaysInMonth(y, 2);
    assert DaysBeforeMonth(y, 3) == 31 + feb;
    assert DaysBeforeMonth(y, 5) == 92 + feb;
    assert DaysBeforeMonth(y, 7) == 153 + feb;
    assert DaysBeforeMonth(y, 9) == 215 + feb;
    assert DaysBeforeMonth(y, 11) == 276 + feb;
  }

  lemma {:induction false} DaysBeforeMonthGrows(y: int, m1: int, m2: int)
    requires 1 <= m1 < m2
    ensures DaysBeforeMonth(y, m1) + DaysInMonth(y, m1) <= DaysBeforeMonth(y, m2)
    decreases m2
  {
    if m1 + 1 < m2 {
      DaysBeforeMonthGrows(y, m1, m2 - 1);
    }
  }

  lemma {:induction false} DaysBeforeYearGrows(y1: int, y2: int)
    requires 1 <= y1 < y2
    ensures DaysBeforeYear(y1) + YearLength(y1) <= DaysBeforeYear(y2)
    decreases y2
  {
    if y1 + 1 < y2 {
      DaysBeforeYearGrows(y1, y2 - 1);
    }
  }

  /** A valid date lies inside its own year. */
  lemma DayNumberWithinYear(d: CalendarDate)
    ensures DaysBeforeYear(d.year) <= DayNumber(d) < DaysBeforeYear(d.year) + YearLength(d.year)
  {
    if d.month < 12 {
      DaysBeforeMonthGrows(d.year, d.month, 13);
    }
    MonthsFillYear(d.year);
  }

  /** One valid date comes before another on the calendar when its day number is smaller. */
  lemma {:induction false} LaterMeansGreaterDayNumber(a: CalendarDate, b: CalendarDate)
    requires IsAfter(a, b)
    ensures DayNumber(a) > DayNumber(b)
  {
    if a.year > b.year {
      DayNumberWithinYear(a);
      DayNumberWithinYear(b);
      DaysBeforeYearGrows(b.year, a.year);
    } else if a.month > b.month {
      DaysBeforeMonthGrows(a.year, b.month, a.month);
    }
  }

  /**
   * On valid dates isAfter is exactly the chronological order: a is after b
   * if and only if more days separate a from the start of the calendar.
   */
  lemma ChronologicalOrder(a: CalendarDate, b: CalendarDate)
    ensures IsAfter(a, b) <==> DayNumber(a) > DayNumber(b)
  {
    if IsAfter(a, b) {
      LaterMeansGreaterDayNumber(a, b);
    } else if IsAfter(b, a) {
      LaterMeansGreaterDayNumber(b, a);
    }
  }

  /** isAfter is a strict total order on dates. */
  lemma IsAfterStrictTotalOrder(a: Date, b: Date, c: Date)
    ensures !IsAfter(a, a)
    ensures IsAfter(a, b) ==> !IsAfter(b, a)
    ensures IsAfter(a, b) && IsAfter(b, c) ==> IsAfter(a, c)
    ensures a != b ==> IsAfter(a, b) || IsAfter(b, a)
  {
  }
}
