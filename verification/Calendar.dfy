/** Proleptic Gregorian day arithmetic: ordinal 1 is Monday, 1 January of year 1. */
module Calendar {

  const MIN_YEAR := 1
  const MAX_YEAR := 9999

  predicate IsLeap(year: int) {
    year % 4 == 0 && (year % 100 != 0 || year % 400 == 0)
  }

  function DaysInMonth(year: int, month: int): int {
    if month == 2 then (if IsLeap(year) then 29 else 28)
    else if month == 4 || month == 6 || month == 9 || month == 11 then 30
    else 31
  }

  function DaysBeforeMonth(year: int, month: nat): int
    decreases month
  {
    if month <= 1 then 0 else DaysBeforeMonth(year, month - 1) + DaysInMonth(year, month - 1)
  }

  function YearLength(year: int): int {
    if IsLeap(year) then 366 else 365
  }

  /** Day count from the start of year 1: the sum of the lengths of the years between. */
  function DaysBeforeYear(year: int): int
    decreases if year >= 1 then year else 2 - year
  {
    if year == 1 then 0
    else if year > 1 then DaysBeforeYear(year - 1) + YearLength(year - 1)
    else DaysBeforeYear(year + 1) - YearLength(year)
  }

  function Ordinal(year: int, month: nat, day: int): int {
    DaysBeforeYear(year) + DaysBeforeMonth(year, month) + day
  }

  lemma MonthOffsets(year: int)
    ensures DaysBeforeMonth(year, 1) == 0
    ensures DaysBeforeMonth(year, 12) == YearLength(year) - 31
  {
    assert DaysBeforeMonth(year, 3) == YearLength(year) - 306 by {
      assert DaysBeforeMonth(year, 2) == 31;
    }
    assert DaysBeforeMonth(year, 6) == DaysBeforeMonth(year, 3) + 92 by {
      assert DaysBeforeMonth(year, 4) == DaysBeforeMonth(year, 3) + 31;
    }
    assert DaysBeforeMonth(year, 9) == DaysBeforeMonth(year, 6) + 92 by {
      assert DaysBeforeMonth(year, 7) == DaysBeforeMonth(year, 6) + 30;
    }
    assert DaysBeforeMonth(year, 12) == DaysBeforeMonth(year, 9) + 91 by {
      assert DaysBeforeMonth(year, 10) == DaysBeforeMonth(year, 9) + 30;
    }
  }

  /** Day 31 December is the day before the next 1 January, and a year has 365 or 366 days. */
  lemma YearBoundary(year: int)
    ensures Ordinal(year, 1, 1) == DaysBeforeYear(year) + 1
    ensures Ordinal(year, 12, 31) == DaysBeforeYear(year + 1)
    ensures DaysBeforeYear(year + 1) == DaysBeforeYear(year) + YearLength(year)
  {
    hide IsLeap;
    MonthOffsets(year);
  }

  lemma {:induction false} YearsIncrease(a: int, b: int)
    requires a <= b
    ensures DaysBeforeYear(b) >= DaysBeforeYear(a) + 365 * (b - a)
    decreases b - a
  {
    hide IsLeap;
    if a < b {
      YearsIncrease(a, b - 1);
      YearBoundary(b - 1);
    }
  }

  lemma YearGrows(year: int)
    ensures DaysBeforeYear(year) < DaysBeforeYear(year + 1)
  {
    hide IsLeap;
    YearBoundary(year);
  }

  /** The year an ordinal falls in, searched upward from a year that starts before it. */
  function YearFrom(year: int, ordinal: int): (r: int)
    requires DaysBeforeYear(year) < ordinal
    ensures year <= r && DaysBeforeYear(r) < ordinal <= DaysBeforeYear(r + 1)
    decreases ordinal - DaysBeforeYear(year)
  {
    YearGrows(year);
    if ordinal <= DaysBeforeYear(year + 1) then year else YearFrom(year + 1, ordinal)
  }

  function YearOf(ordinal: int): (r: int)
    requires ordinal >= 1
    ensures MIN_YEAR <= r && DaysBeforeYear(r) < ordinal <= DaysBeforeYear(r + 1)
  {
    YearFrom(MIN_YEAR, ordinal)
  }

  function DayOfYear(ordinal: int): int
    requires ordinal >= 1
  {
    ordinal - DaysBeforeYear(YearOf(ordinal))
  }

  lemma YearUnique(ordinal: int, year: int)
    requires ordinal >= 1
    requires DaysBeforeYear(year) < ordinal <= DaysBeforeYear(year + 1)
    ensures YearOf(ordinal) == year
  {
    hide IsLeap;
    var y := YearOf(ordinal);
    if y < year {
      YearsIncrease(y + 1, year);
    } else if year < y {
      YearsIncrease(year + 1, y);
    }
  }

  predicate InCalendar(ordinal: int) {
    1 <= ordinal <= DaysBeforeYear(MAX_YEAR + 1)
  }

  /** A day is in the calendar exactly when its year is between 1 and 9999. */
  lemma InCalendarByYear(ordinal: int, year: int)
    requires DaysBeforeYear(year) < ordinal <= DaysBeforeYear(year + 1)
    ensures InCalendar(ordinal) <==> MIN_YEAR <= year <= MAX_YEAR
  {
    hide IsLeap;
    if year < MIN_YEAR {
      YearsIncrease(year + 1, MIN_YEAR);
    } else {
      YearsIncrease(MIN_YEAR, year);
    }
    if year > MAX_YEAR {
      YearsIncrease(MAX_YEAR + 1, year);
    } else {
      YearsIncrease(year + 1, MAX_YEAR + 1);
    }
  }

  /** Monday is 1 and Sunday 7. */
  function IsoWeekday(ordinal: int): (r: int)
    ensures 1 <= r <= 7
  {
    (ordinal - 1) % 7 + 1
  }

  lemma WeekdayStep(ordinal: int)
    ensures IsoWeekday(ordinal + 1) == if IsoWeekday(ordinal) == 7 then 1 else IsoWeekday(ordinal) + 1
  {
  }

  predicate IsWeekday(ordinal: int) {
    IsoWeekday(ordinal) <= 5
  }

  /** How many of the days first..last are Monday to Friday, counted one by one. */
  function WeekdaysBetween(first: int, last: int): (n: nat)
    ensures first <= last + 1 ==> n <= last + 1 - first
    decreases last + 1 - first
  {
    if last < first then 0
    else WeekdaysBetween(first, last - 1) + (if IsWeekday(last) then 1 else 0)
  }

  /** The closed form of the same count, from ordinal 1 to the given day. */
  function BusinessNumber(ordinal: int): int {
    5 * ((ordinal - 1) / 7) + (if IsWeekday(ordinal) then IsoWeekday(ordinal) else 5)
  }

  lemma BusinessNumberStep(ordinal: int)
    ensures BusinessNumber(ordinal)
         == BusinessNumber(ordinal - 1) + (if IsWeekday(ordinal) then 1 else 0)
  {
    var q, r := (ordinal - 1) / 7, (ordinal - 1) % 7;
    if r == 0 {
      assert ordinal - 2 == 7 * (q - 1) + 6;
      assert (ordinal - 2) / 7 == q - 1 && (ordinal - 2) % 7 == 6;
    } else {
      assert ordinal - 2 == 7 * q + (r - 1);
      assert (ordinal - 2) / 7 == q && (ordinal - 2) % 7 == r - 1;
    }
  }

  lemma {:induction false} CountIsBusinessNumber(first: int, last: int)
    requires first <= last + 1
    ensures WeekdaysBetween(first, last) == BusinessNumber(last) - BusinessNumber(first - 1)
    decreases last + 1 - first
  {
    if first <= last {
      CountIsBusinessNumber(first, last - 1);
      BusinessNumberStep(last);
    }
  }
}
