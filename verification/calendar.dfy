/** The proleptic Gregorian calendar of Python's `datetime.date`, years 1 to 9999. */
module Calendar {

  const MinYear := 1
  const MaxYear := 9999

  predicate IsLeapYear(y: int) {
    y % 4 == 0 && (y % 100 != 0 || y % 400 == 0)
  }

  function DaysInMonth(y: int, m: int): (n: int)
    requires 1 <= m <= 12
    ensures 28 <= n <= 31
    ensures n == 29 <==> m == 2 && IsLeapYear(y)
    ensures n == 28 <==> m == 2 && !IsLeapYear(y)
    ensures n == 30 <==> m == 4 || m == 6 || m == 9 || m == 11
  {
    if m == 2 then (if IsLeapYear(y) then 29 else 28)
    else if m == 4 || m == 6 || m == 9 || m == 11 then 30
    else 31
  }

  datatype Date = Date(year: int, month: int, day: int)

  /** The dates `datetime.date(year, month, day)` accepts without raising ValueError. */
  predicate ValidDate(d: Date) {
    && MinYear <= d.year <= MaxYear
    && 1 <= d.month <= 12
    && 1 <= d.day <= DaysInMonth(d.year, d.month)
  }

  /** Number of days in months 1 .. m - 1 of year y: between 28 and 31 days per month.
      `DaysBeforeMonthYears` shows how it depends on the year. */
  function DaysBeforeMonth(y: int, m: int): (n: int)
    requires 1 <= m <= 13
    ensures 28 * (m - 1) <= n <= 31 * (m - 1)
    ensures m <= 2 ==> n == 31 * (m - 1)
  {
    if m == 1 then 0 else DaysBeforeMonth(y, m - 1) + DaysInMonth(y, m - 1)
  }

  /** Only February's length depends on the year: two years have the same days before any
      month, except that from March on a leap year has one more. */
  lemma {:induction false} DaysBeforeMonthYears(y: int, z: int, m: int)
    requires 1 <= m <= 13
    ensures DaysBeforeMonth(y, m) - DaysBeforeMonth(z, m)
         == if m <= 2 then 0 else (if IsLeapYear(y) then 1 else 0) - (if IsLeapYear(z) then 1 else 0)
  {
    if m > 1 {
      DaysBeforeMonthYears(y, z, m - 1);
    }
  }

  /** The month lengths add up to a 366-day year exactly in leap years. */
  lemma YearLength(y: int)
    ensures DaysBeforeMonth(y, 13) == if IsLeapYear(y) then 366 else 365
  {
    assert DaysBeforeMonth(y, 2) == 31;
    assert DaysBeforeMonth(y, 3) == 31 + DaysInMonth(y, 2);
    assert DaysBeforeMonth(y, 4) == DaysBeforeMonth(y, 3) + 31;
    assert DaysBeforeMonth(y, 5) == DaysBeforeMonth(y, 3) + 61;
    assert DaysBeforeMonth(y, 6) == DaysBeforeMonth(y, 3) + 92;
    assert DaysBeforeMonth(y, 7) == DaysBeforeMonth(y, 3) + 122;
    assert DaysBeforeMonth(y, 8) == DaysBeforeMonth(y, 3) + 153;
    assert DaysBeforeMonth(y, 9) == DaysBeforeMonth(y, 3) + 184;
    assert DaysBeforeMonth(y, 10) == DaysBeforeMonth(y, 3) + 214;
    assert DaysBeforeMonth(y, 11) == DaysBeforeMonth(y, 3) + 245;
    assert DaysBeforeMonth(y, 12) == DaysBeforeMonth(y, 3) + 275;
    assert DaysBeforeMonth(y, 13) == DaysBeforeMonth(y, 3) + 306;
  }

  /** The Gregorian leap rule on the century years and their neighbours. */
  lemma LeapYearExamples()
    ensures IsLeapYear(2000) && IsLeapYear(2020) && IsLeapYear(2024)
    ensures !IsLeapYear(1900) && !IsLeapYear(2019) && !IsLeapYear(2100)
  {
  }
}
