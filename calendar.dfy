/** A reference proleptic Gregorian calendar, written independently of the
    driver: days are counted one by one from 1 January of year 1. It is the
    yardstick against which the driver's day-of-week formula is proved. */
module Calendar {

  predicate IsLeapYear(year: int)
  {
    year % 4 == 0 && (year % 100 != 0 || year % 400 == 0)
  }

  function DaysInYear(year: int): int
  {
    if IsLeapYear(year) then 366 else 365
  }

  function DaysInMonth(year: int, month: int): int
    requires 1 <= month <= 12
  {
    if month == 2 then (if IsLeapYear(year) then 29 else 28)
    else if month == 4 || month == 6 || month == 9 || month == 11 then 30
    else 31
  }

  /** The days of the years 1 .. year - 1. */
  function DaysBeforeYear(year: int): int
    requires year >= 1
  {
    if year == 1 then 0 else DaysBeforeYear(year - 1) + DaysInYear(year - 1)
  }

  /** The days of the months 1 .. month - 1 of a year. */
  function DaysBeforeMonth(year: int, month: int): int
    requires 1 <= month <= 12
  {
    if month == 1 then 0 else DaysBeforeMonth(year, month - 1) + DaysInMonth(year, month - 1)
  }

  /** The ordinal of a date: 1 January of year 1 is day 1, and that day was a
      Monday, so DayNumber % 7 counts weekdays from Sunday = 0. */
  function DayNumber(year: int, month: int, day: int): int
    requires year >= 1 && 1 <= month <= 12
  {
    DaysBeforeYear(year) + DaysBeforeMonth(year, month) + day
  }

  /** The number of leap years among 1 .. n. */
  function LeapYearsUpTo(n: int): int
  {
    n / 4 - n / 100 + n / 400
  }

  lemma LeapYearStep(n: int)
    requires n >= 1
    ensures LeapYearsUpTo(n) == LeapYearsUpTo(n - 1) + (if IsLeapYear(n) then 1 else 0)
  {
    QuotientStep4(n);
    QuotientStep100(n);
    QuotientStep400(n);
    NestedDivisors(n);
    var a, b, c := n % 4 == 0, n % 100 == 0, n % 400 == 0;
    assert IsLeapYear(n) == (a && (!b || c));
  }

  /** A multiple of 400 is one of 100, and a multiple of 100 is one of 4. */
  lemma NestedDivisors(n: int)
    ensures n % 400 == 0 ==> n % 100 == 0
    ensures n % 100 == 0 ==> n % 4 == 0
  {
    if n % 400 == 0 {
      MultipleOf400(n);
    }
    if n % 100 == 0 {
      MultipleOf100(n);
    }
  }

  lemma MultipleOf400(n: int)
    requires n % 400 == 0
    ensures n % 100 == 0
  {
    var k := 4 * (n / 400);
    assert n == 100 * k + 0;
  }

  lemma MultipleOf100(n: int)
    requires n % 100 == 0
    ensures n % 4 == 0
  {
    var k := 25 * (n / 100);
    assert n == 4 * k + 0;
  }

  /** Going from n - 1 to n, the quotient by 4 grows exactly when 4 divides n;
      likewise for 100 and 400. */
  lemma QuotientStep4(n: int)
    ensures n / 4 == (n - 1) / 4 + (if n % 4 == 0 then 1 else 0)
  {
  }

  lemma QuotientStep100(n: int)
    ensures n / 100 == (n - 1) / 100 + (if n % 100 == 0 then 1 else 0)
  {
  }

  lemma QuotientStep400(n: int)
    ensures n / 400 == (n - 1) / 400 + (if n % 400 == 0 then 1 else 0)
  {
  }

  /** The day count of whole years in closed form. */
  lemma {:induction false} DaysBeforeYearClosed(year: int)
    requires year >= 1
    ensures DaysBeforeYear(year) == 365 * (year - 1) + LeapYearsUpTo(year - 1)
  {
    if year > 1 {
      DaysBeforeYearClosed(year - 1);
      LeapYearStep(year - 1);
    }
  }

  /** Days before each month in a common year. */
  const CommonDaysBefore: seq<int> := [0, 31, 59, 90, 120, 151, 181, 212, 243, 273, 304, 334]

  /** The day count of whole months: the common-year table, plus one from
      March on in a leap year. */
  lemma {:induction false} DaysBeforeMonthClosed(year: int, month: int)
    requires 1 <= month <= 12
    ensures DaysBeforeMonth(year, month) ==
            CommonDaysBefore[month - 1] + (if month >= 3 && IsLeapYear(year) then 1 else 0)
  {
    if month > 1 {
      DaysBeforeMonthClosed(year, month - 1);
    }
  }
}
