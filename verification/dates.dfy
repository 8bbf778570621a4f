/** Proleptic Gregorian dates as Python's `datetime(year, month, day)`
    accepts them. */
module Dates {
  import opened Outcomes

  /** `datetime.MINYEAR` and `datetime.MAXYEAR`. */
  const MinYear: int := 1
  const MaxYear: int := 9999

  datatype Date = Date(year: int, month: int, day: int)

  predicate IsLeapYear(y: int)
  {
    y % 4 == 0 && (y % 100 != 0 || y % 400 == 0)
  }

  function DaysInMonth(y: int, m: int): nat
    requires 1 <= m <= 12
  {
    if m == 2 then (if IsLeapYear(y) then 29 else 28)
    else if m == 4 || m == 6 || m == 9 || m == 11 then 30
    else 31
  }

  /** A date that exists on the calendar within datetime's year range. */
  predicate ValidDate(d: Date)
  {
    && MinYear <= d.year <= MaxYear
    && 1 <= d.month <= 12
    && 1 <= d.day <= DaysInMonth(d.year, d.month)
  }

  /** Which argument `datetime()` rejected. */
  datatype DateError = YearOutOfRange(year: int) | MonthOutOfRange(month: int) | DayOutOfRange(day: int)

  /** The `datetime(year, month, day)` constructor: it checks the year,
      then the month, then the day, and raises on the first one out of
      range rather than normalising it. */
  function MakeDate(y: int, m: int, d: int): (r: Result<Date, DateError>)
    ensures r.Ok? <==> ValidDate(Date(y, m, d))
    ensures r.Ok? ==> r.value == Date(y, m, d)
    ensures r == Err(YearOutOfRange(y)) <==> !(MinYear <= y <= MaxYear)
    ensures r == Err(MonthOutOfRange(m)) <==> MinYear <= y <= MaxYear && !(1 <= m <= 12)
  {
    if !(MinYear <= y <= MaxYear) then Err(YearOutOfRange(y))
    else if !(1 <= m <= 12) then Err(MonthOutOfRange(m))
    else if !(1 <= d <= DaysInMonth(y, m)) then Err(DayOutOfRange(d))
    else Ok(Date(y, m, d))
  }

  /** Strictly earlier on the calendar. */
  predicate Before(a: Date, b: Date)
  {
    a.year < b.year
    || (a.year == b.year && a.month < b.month)
    || (a.year == b.year && a.month == b.month && a.day < b.day)
  }

  /** Days in the months of `y` before month `m`. */
  function DaysBefore(y: int, m: int): nat
    requires 1 <= m <= 13
    decreases m
  {
    if m == 1 then 0 else DaysBefore(y, m - 1) + DaysInMonth(y, m - 1)
  }

  /** The month lengths add up to the length of the year; February 29
      exists exactly in leap years. */
  lemma YearLength(y: int)
    ensures DaysBefore(y, 13) == if IsLeapYear(y) then 366 else 365
    ensures ValidDate(Date(y, 2, 29)) <==> MinYear <= y <= MaxYear && IsLeapYear(y)
  {
  }
}
