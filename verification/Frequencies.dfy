/** Year/period conventions of the bridge and its index conversions (bridge/_frequencies.py). */
module Frequencies {
  import opened Wrappers
  import opened Calendar

  datatype Frequency =
    | Unit
    | Daily
    | BDaily
    | Weekly(endDay: int)
    | Monthly
    | Quarterly(endMonth: int)
    | HalfYearly(endMonth: int)
    | Yearly(endMonth: int)
  {
    predicate Valid() {
      match this
      case Weekly(day) => 1 <= day <= 7
      case Quarterly(month) => 1 <= month <= 3
      case HalfYearly(month) => 1 <= month <= 6
      case Yearly(month) => 1 <= month <= 12
      case _ => true
    }

    predicate IsYearPeriod() {
      Monthly? || Quarterly? || HalfYearly? || Yearly?
    }

    function PeriodsPerYear(): int
      requires IsYearPeriod()
    {
      match this
      case Monthly => 12
      case Quarterly(_) => 4
      case HalfYearly(_) => 2
      case Yearly(_) => 1
    }
  }

  datatype Moment = Moment(frequency: Frequency, value: int)

  datatype CalendarError = CaseMoment | OutOfRange | NoSuchPeriod | TooWide | NativeStatus

  // -- the calendar constructors the bridge relies on -----------------------

  /** The moment of the week that contains a day and ends on weekday `endDay`. */
  function WeekOf(ordinal: int, endDay: int): int {
    -((endDay - ordinal) / 7) + 1
  }

  function WeekEnd(week: int, endDay: int): int {
    7 * (week - 1) + endDay
  }

  /** A week's last day is the first day on or after `ordinal` that is an `endDay`. */
  lemma WeekOfContains(ordinal: int, endDay: int)
    requires 1 <= endDay <= 7
    ensures var end := WeekEnd(WeekOf(ordinal, endDay), endDay);
            ordinal <= end < ordinal + 7 && IsoWeekday(end) == endDay
  {
    var q := (endDay - ordinal) / 7;
    assert WeekEnd(WeekOf(ordinal, endDay), endDay) == endDay - 7 * q;
    assert (endDay - 7 * q - 1) == 7 * (-q) + (endDay - 1);
  }

  /** The day of the n-th business moment. */
  function BusinessDay(moment: int): int {
    7 * ((moment - 1) / 5) + (moment - 1) % 5 + 1
  }

  /** Business moments number the weekdays: a moment and its day determine each other. */
  lemma BusinessDayInverse(moment: int, ordinal: int)
    ensures IsWeekday(BusinessDay(moment))
    ensures BusinessDay(moment) == ordinal <==> IsWeekday(ordinal) && BusinessNumber(ordinal) == moment
  {
    var q, r := (moment - 1) / 5, (moment - 1) % 5;
    assert BusinessDay(moment) - 1 == 7 * q + r;
    assert (7 * q + r) / 7 == q && (7 * q + r) % 7 == r;
    if IsWeekday(ordinal) {
      var week, day := (ordinal - 1) / 7, (ordinal - 1) % 7;
      assert BusinessNumber(ordinal) - 1 == 5 * week + day;
      assert (5 * week + day) / 5 == week && (5 * week + day) % 5 == day;
    }
  }

  // -- conventions ------------------------------------------------------------

  function FirstBusinessDay(year: int): int {
    var first := Ordinal(year, 1, 1);
    var weekday := IsoWeekday(first);
    first + (if weekday > 5 then 8 - weekday else 0)
  }

  function BusinessDaysInYear(year: int): int {
    BusinessNumber(Ordinal(year, 12, 31)) - BusinessNumber(FirstBusinessDay(year)) + 1
  }

  function DaysInYear(year: int): int {
    Ordinal(year, 12, 31) - Ordinal(year, 1, 1) + 1
  }

  /** The last day of a moment for the day-based calendars. */
  function MomentDay(m: Moment): int {
    match m.frequency
    case BDaily => BusinessDay(m.value)
    case Weekly(endDay) => WeekEnd(m.value, endDay)
    case _ => m.value
  }

  function MitToYearPeriod(m: Moment): Result<(int, int), CalendarError> {
    if m.frequency.Unit? then Err(CaseMoment)
    else if m.frequency.IsYearPeriod() then
      var n := m.frequency.PeriodsPerYear();
      Ok((m.value / n, m.value % n + 1))
    else
      var day := MomentDay(m);
      if !InCalendar(day) then Err(OutOfRange)
      else
        var year := YearOf(day);
        if m.frequency.Daily? then Ok((year, DayOfYear(day)))
        else if m.frequency.BDaily? then Ok((year, WeekdaysBetween(Ordinal(year, 1, 1), day)))
        else Ok((year, -((-DayOfYear(day)) / 7)))
  }

  function YearPeriodToMit(f: Frequency, year: int, period: int): Result<Moment, CalendarError> {
    if f.Unit? then Err(CaseMoment)
    else if f.IsYearPeriod() then
      var n := f.PeriodsPerYear();
      if 1 <= period <= n then Ok(Moment(f, n * year + period - 1)) else Err(NoSuchPeriod)
    else if !(MIN_YEAR <= year <= MAX_YEAR) then Err(OutOfRange)
    else if f.Daily? then
      if 1 <= period <= DaysInYear(year) then Ok(Moment(f, Ordinal(year, 1, 1) + (period - 1)))
      else Err(NoSuchPeriod)
    else if f.BDaily? then
      if 1 <= period <= BusinessDaysInYear(year) then
        Ok(Moment(f, BusinessNumber(FirstBusinessDay(year)) + (period - 1)))
      else Err(NoSuchPeriod)
    else if !(1 <= period <= 53) then Err(NoSuchPeriod)
    else
      var m := Moment(f, WeekOf(Ordinal(year, 1, 1) + 7 * (period - 1), f.endDay));
      if MitToYearPeriod(m) == Ok((year, period)) then Ok(m) else Err(NoSuchPeriod)
  }

  // -- how many periods a year has, stated without the conversions -------------

  predicate WeekEndsOn(year: int, dayOfYear: int, endDay: int) {
    dayOfYear <= YearLength(year) && IsoWeekday(DaysBeforeYear(year) + dayOfYear) == endDay
  }

  function PeriodsInYear(f: Frequency, year: int): int
    requires !f.Unit?
  {
    if f.IsYearPeriod() then f.PeriodsPerYear()
    else if f.Daily? then YearLength(year)
    else if f.BDaily? then WeekdaysBetween(DaysBeforeYear(year) + 1, DaysBeforeYear(year + 1))
    else if WeekEndsOn(year, 365, f.endDay) || WeekEndsOn(year, 366, f.endDay) then 53
    else 52
  }

  predicate YearAllowed(f: Frequency, year: int) {
    f.IsYearPeriod() || MIN_YEAR <= year <= MAX_YEAR
  }

  lemma FirstBusinessDayIsFirst(year: int)
    ensures IsWeekday(FirstBusinessDay(year))
    ensures BusinessNumber(FirstBusinessDay(year)) == BusinessNumber(DaysBeforeYear(year)) + 1
    ensures FirstBusinessDay(year) <= DaysBeforeYear(year) + 3
  {
    hide IsLeap;
    hide DaysBeforeYear;
    hide IsoWeekday;
    hide BusinessNumber;
    hide DaysBeforeMonth;
    YearBoundary(year);
    var first := DaysBeforeYear(year) + 1;
    WeekdayStep(first);
    WeekdayStep(first + 1);
    BusinessNumberStep(first);
    BusinessNumberStep(first + 1);
    BusinessNumberStep(first + 2);
  }

  lemma BusinessYear(year: int)
    ensures PeriodsInYear(BDaily, year)
         == BusinessNumber(DaysBeforeYear(year + 1)) - BusinessNumber(DaysBeforeYear(year))
    ensures BusinessDaysInYear(year) == PeriodsInYear(BDaily, year) >= 1
  {
    hide IsLeap;
    hide DaysBeforeYear;
    hide IsoWeekday;
    hide BusinessNumber;
    hide DaysBeforeMonth;
    hide FirstBusinessDay;
    FirstBusinessDayIsFirst(year);
    YearBoundary(year);
    CountIsBusinessNumber(DaysBeforeYear(year) + 1, DaysBeforeYear(year + 1));
    BusinessNumberMonotone(FirstBusinessDay(year), DaysBeforeYear(year + 1));
  }

  /** The number of weekdays between two days separates them. */
  lemma {:induction false} BusinessNumberMonotone(a: int, b: int)
    requires a <= b
    ensures BusinessNumber(a) <= BusinessNumber(b)
  {
    CountIsBusinessNumber(a + 1, b);
  }

  lemma DailyPair(m: Moment, year: int, period: int)
    requires m.frequency.Daily?
    ensures MitToYearPeriod(m) == Ok((year, period))
       <==> MIN_YEAR <= year <= MAX_YEAR && 1 <= period <= YearLength(year)
            && m.value == DaysBeforeYear(year) + period
  {
    hide IsLeap;
    hide DaysBeforeYear;
    hide DaysBeforeMonth;
    YearBoundary(year);
    if MitToYearPeriod(m) == Ok((year, period)) {
      InCalendarByYear(m.value, year);
    } else if 1 <= period <= YearLength(year) && m.value == DaysBeforeYear(year) + period {
      InCalendarByYear(m.value, year);
      if MIN_YEAR <= year <= MAX_YEAR {
        YearUnique(m.value, year);
      }
    }
  }

  /** Within the calendar a business moment is its year and its count past the year's start. */
  lemma BusinessConvention(m: Moment, year: int)
    requires m.frequency.BDaily? && MIN_YEAR <= year <= MAX_YEAR
    requires DaysBeforeYear(year) < BusinessDay(m.value) <= DaysBeforeYear(year + 1)
    ensures MitToYearPeriod(m) == Ok((year, m.value - BusinessNumber(DaysBeforeYear(year))))
  {
    hide IsLeap;
    hide DaysBeforeYear;
    hide IsWeekday;
    var day := BusinessDay(m.value);
    BusinessDayInverse(m.value, BusinessDay(m.value));
    hide BusinessDay;
    hide BusinessNumber;
    InCalendarByYear(day, year);
    YearUnique(day, year);
    YearBoundary(year);
    CountIsBusinessNumber(DaysBeforeYear(year) + 1, day);
  }

  lemma BusinessWithin(m: Moment, year: int)
    requires m.frequency.BDaily?
    ensures DaysBeforeYear(year) < BusinessDay(m.value) <= DaysBeforeYear(year + 1)
       <==> 1 <= m.value - BusinessNumber(DaysBeforeYear(year)) <= PeriodsInYear(BDaily, year)
  {
    hide IsLeap;
    hide DaysBeforeYear;
    hide BusinessNumber;
    hide BusinessDay;
    hide IsoWeekday;
    hide PeriodsInYear;
    var day := BusinessDay(m.value);
    var before, last := DaysBeforeYear(year), DaysBeforeYear(year + 1);
    BusinessYear(year);
    BusinessDayInverse(m.value, BusinessDay(m.value));
    BusinessNumberStep(day);
    if before < day { BusinessNumberMonotone(before, day - 1); } else { BusinessNumberMonotone(day, before); }
    if day <= last { BusinessNumberMonotone(day, last); } else { BusinessNumberMonotone(last, day - 1); }
  }

  lemma BusinessPair(m: Moment, year: int, period: int)
    requires m.frequency.BDaily?
    ensures MitToYearPeriod(m) == Ok((year, period))
       <==> MIN_YEAR <= year <= MAX_YEAR && 1 <= period <= PeriodsInYear(BDaily, year)
            && m.value == BusinessNumber(DaysBeforeYear(year)) + period
  {
    hide IsLeap;
    hide DaysBeforeYear;
    hide DaysBeforeMonth;
    hide BusinessNumber;
    hide BusinessDay;
    hide PeriodsInYear;
    hide WeekdaysBetween;
    var day := BusinessDay(m.value);
    BusinessWithin(m, year);
    if MitToYearPeriod(m) == Ok((year, period)) {
      InCalendarByYear(day, year);
      BusinessConvention(m, year);
    } else if MIN_YEAR <= year <= MAX_YEAR && 1 <= period <= PeriodsInYear(BDaily, year)
              && m.value == BusinessNumber(DaysBeforeYear(year)) + period {
      BusinessConvention(m, year);
    }
  }

  /** Week p of a year is the week that ends on one of its days 7(p-1)+1 .. 7p. */
  lemma WeekPair(m: Moment, year: int, period: int)
    requires m.frequency.Weekly?
    ensures MitToYearPeriod(m) == Ok((year, period))
       <==> MIN_YEAR <= year <= MAX_YEAR
            && var d := WeekEnd(m.value, m.frequency.endDay) - DaysBeforeYear(year);
               7 * (period - 1) < d <= 7 * period && 1 <= d <= YearLength(year)
  {
    hide IsLeap;
    hide DaysBeforeYear;
    hide DaysBeforeMonth;
    YearBoundary(year);
    var end := WeekEnd(m.value, m.frequency.endDay);
    var d := end - DaysBeforeYear(year);
    assert 7 * (period - 1) < d <= 7 * period <==> period == -((-d) / 7);
    if MitToYearPeriod(m) == Ok((year, period)) {
      InCalendarByYear(end, year);
    } else if MIN_YEAR <= year <= MAX_YEAR && 1 <= d <= YearLength(year) {
      InCalendarByYear(end, year);
      YearUnique(end, year);
    }
  }

  /** Two days less than a week apart that fall on the same weekday are the same day. */
  lemma SameWeekday(a: int, b: int)
    requires IsoWeekday(a) == IsoWeekday(b) && -7 < a - b < 7
    ensures a == b
  {
    var k := (a - 1) / 7 - (b - 1) / 7;
    assert a - b == 7 * k;
  }

  lemma WeekEndWeekday(week: int, endDay: int)
    requires 1 <= endDay <= 7
    ensures IsoWeekday(WeekEnd(week, endDay)) == endDay
  {
    assert WeekEnd(week, endDay) - 1 == 7 * (week - 1) + (endDay - 1);
  }

  // -- the main results -------------------------------------------------------

  lemma YearPeriodsInvert(m: Moment, year: int, period: int)
    requires m.frequency.IsYearPeriod()
    ensures MitToYearPeriod(m) == Ok((year, period))
       <==> YearPeriodToMit(m.frequency, year, period) == Ok(m)
  {
    var n := m.frequency.PeriodsPerYear();
    if 1 <= period <= n && m.value == n * year + period - 1 {
      assert m.value / n == year && m.value % n == period - 1;
    }
  }

  lemma WeeksInvert(m: Moment, year: int, period: int)
    requires m.frequency.Weekly? && m.frequency.Valid()
    requires MitToYearPeriod(m) == Ok((year, period))
    ensures YearPeriodToMit(m.frequency, year, period) == Ok(m)
  {
    hide IsLeap;
    hide DaysBeforeYear;
    hide DaysBeforeMonth;
    hide IsoWeekday;
    hide WeekOf;
    hide MitToYearPeriod;
    var endDay := m.frequency.endDay;
    var start := DaysBeforeYear(year) + 1 + 7 * (period - 1);
    YearBoundary(year);
    WeekPair(m, year, period);
    WeekOfContains(start, endDay);
    WeekEndWeekday(m.value, endDay);
    SameWeekday(WeekEnd(m.value, endDay), WeekEnd(WeekOf(start, endDay), endDay));
  }

  /** A moment's year and period lead back to that moment, for every supported frequency. */
  lemma PeriodsInvert(m: Moment, year: int, period: int)
    requires m.frequency.Valid()
    ensures MitToYearPeriod(m) == Ok((year, period))
       <==> YearPeriodToMit(m.frequency, year, period) == Ok(m)
  {
    hide IsLeap;
    hide DaysBeforeYear;
    hide DaysBeforeMonth;
    hide BusinessNumber;
    hide FirstBusinessDay;
    hide WeekOf;
    hide MitToYearPeriod;
    YearBoundary(year);
    if m.frequency.IsYearPeriod() {
      YearPeriodsInvert(m, year, period);
    } else if m.frequency.Daily? {
      DailyPair(m, year, period);
    } else if m.frequency.BDaily? {
      BusinessYear(year);
      FirstBusinessDayIsFirst(year);
      BusinessPair(m, year, period);
    } else if m.frequency.Weekly? {
      WeekPair(m, year, period);
      if MitToYearPeriod(m) == Ok((year, period)) {
        WeeksInvert(m, year, period);
      }
    } else {
      UnitHasNoPeriod(m);
    }
  }

  lemma UnitHasNoPeriod(m: Moment)
    requires m.frequency.Unit?
    ensures MitToYearPeriod(m) == Err(CaseMoment)
  {
  }

  lemma AcceptedWeeks(f: Frequency, year: int, period: int)
    requires f.Weekly? && f.Valid() && 1 <= period <= 53 && MIN_YEAR <= year <= MAX_YEAR
    ensures YearPeriodToMit(f, year, period).Ok? <==> period <= PeriodsInYear(f, year)
  {
    hide IsLeap;
    hide DaysBeforeYear;
    hide DaysBeforeMonth;
    hide WeekOf;
    hide IsoWeekday;
    hide MitToYearPeriod;
    YearBoundary(year);
    var start := DaysBeforeYear(year) + 1 + 7 * (period - 1);
    var week := WeekOf(start, f.endDay);
    var end := WeekEnd(week, f.endDay);
    WeekOfContains(start, f.endDay);
    WeekPair(Moment(f, week), year, period);
    hide WeekEnd;
    if period == 53 {
      assert end == start || end == start + 1 || end > DaysBeforeYear(year + 1);
      if WeekEndsOn(year, 365, f.endDay) { SameWeekday(end, DaysBeforeYear(year) + 365); }
      if WeekEndsOn(year, 366, f.endDay) { SameWeekday(end, DaysBeforeYear(year) + 366); }
    }
  }

  /** The accepted periods of a year are exactly 1 .. PeriodsInYear. */
  lemma AcceptedPeriods(f: Frequency, year: int, period: int)
    requires f.Valid() && !f.Unit?
    ensures YearPeriodToMit(f, year, period).Ok?
       <==> YearAllowed(f, year) && 1 <= period <= PeriodsInYear(f, year)
  {
    hide IsLeap;
    hide DaysBeforeYear;
    hide DaysBeforeMonth;
    hide BusinessNumber;
    hide FirstBusinessDay;
    hide WeekOf;
    YearBoundary(year);
    BusinessYear(year);
    if f.Weekly? && YearAllowed(f, year) && 1 <= period <= 53 {
      AcceptedWeeks(f, year, period);
    }
  }

  /** The next moment is the next period of the year, or period 1 of the next year. */
  lemma NextPeriod(m: Moment, year: int, period: int)
    requires m.frequency.Valid() && MitToYearPeriod(m) == Ok((year, period))
    ensures var next := MitToYearPeriod(m.(value := m.value + 1));
            if period < PeriodsInYear(m.frequency, year) then next == Ok((year, period + 1))
            else if YearAllowed(m.frequency, year + 1) then next == Ok((year + 1, 1))
            else next == Err(OutOfRange)
  {
    hide IsLeap;
    hide DaysBeforeYear;
    hide DaysBeforeMonth;
    hide BusinessNumber;
    hide BusinessDay;
    hide IsoWeekday;
    var f, next := m.frequency, m.(value := m.value + 1);
    YearBoundary(year);
    YearBoundary(year + 1);
    if f.IsYearPeriod() {
      var n := f.PeriodsPerYear();
      if period < n {
        assert next.value == n * year + period;
      } else {
        assert next.value == n * (year + 1) + 0;
      }
    } else if f.Daily? {
      DailyPair(m, year, period);
      DailyPair(next, year, period + 1);
      DailyPair(next, year + 1, 1);
      InCalendarByYear(next.value, if period < YearLength(year) then year else year + 1);
    } else if f.BDaily? {
      NextBusiness(m, year, period);
    } else {
      NextWeek(m, year, period);
    }
  }

  lemma DayOutOfCalendar(m: Moment)
    requires m.frequency.Daily? || m.frequency.BDaily? || m.frequency.Weekly?
    requires !InCalendar(MomentDay(m))
    ensures MitToYearPeriod(m) == Err(OutOfRange)
  {
  }

  lemma BusinessBeyond(m: Moment)
    requires m.frequency.BDaily? && m.value > BusinessNumber(DaysBeforeYear(MAX_YEAR + 1))
    ensures !InCalendar(MomentDay(m))
  {
    hide IsLeap;
    hide DaysBeforeYear;
    hide IsWeekday;
    BusinessDayInverse(m.value, BusinessDay(m.value));
    hide BusinessNumber;
    hide BusinessDay;
    if BusinessDay(m.value) <= DaysBeforeYear(MAX_YEAR + 1) {
      BusinessNumberMonotone(BusinessDay(m.value), DaysBeforeYear(MAX_YEAR + 1));
    }
  }

  lemma NextBusiness(m: Moment, year: int, period: int)
    requires m.frequency.BDaily? && MitToYearPeriod(m) == Ok((year, period))
    ensures var next := MitToYearPeriod(m.(value := m.value + 1));
            if period < PeriodsInYear(BDaily, year) then next == Ok((year, period + 1))
            else if YearAllowed(BDaily, year + 1) then next == Ok((year + 1, 1))
            else next == Err(OutOfRange)
  {
    hide IsLeap;
    hide DaysBeforeYear;
    hide BusinessNumber;
    hide PeriodsInYear;
    hide MomentDay;
    hide InCalendar;
    hide MitToYearPeriod;
    var next := m.(value := m.value + 1);
    BusinessPair(m, year, period);
    BusinessPair(next, year, period + 1);
    BusinessPair(next, year + 1, 1);
    BusinessYear(year);
    BusinessYear(year + 1);
    if period == PeriodsInYear(BDaily, year) && !YearAllowed(BDaily, year + 1) {
      BusinessBeyond(next);
      DayOutOfCalendar(next);
    }
  }

  /** The week after a week that ends in a year ends in that year too, unless it was the last. */
  lemma LastWeek(year: int, period: int, end: int, endDay: int)
    requires 1 <= endDay <= 7 && IsoWeekday(end) == endDay == IsoWeekday(end + 7)
    requires var d := end - DaysBeforeYear(year);
             7 * (period - 1) < d <= 7 * period && 1 <= d <= YearLength(year)
    ensures period <= PeriodsInYear(Weekly(endDay), year)
    ensures period < PeriodsInYear(Weekly(endDay), year)
       <==> end + 7 <= DaysBeforeYear(year) + YearLength(year)
  {
    hide IsLeap;
    hide DaysBeforeYear;
    hide IsoWeekday;
    var start := DaysBeforeYear(year);
    if WeekEndsOn(year, 365, endDay) && period >= 52 {
      SameWeekday(if period == 52 then end + 7 else end, start + 365);
    }
    if WeekEndsOn(year, 366, endDay) && period >= 52 {
      SameWeekday(if period == 52 then end + 7 else end, start + 366);
    }
    if period == 52 && end + 7 <= start + YearLength(year) {
      assert WeekEndsOn(year, end + 7 - start, endDay);
    }
    if period == 53 {
      assert WeekEndsOn(year, end - start, endDay);
    }
  }

  lemma NextWeek(m: Moment, year: int, period: int)
    requires m.frequency.Weekly? && m.frequency.Valid() && MitToYearPeriod(m) == Ok((year, period))
    ensures var next := MitToYearPeriod(m.(value := m.value + 1));
            if period < PeriodsInYear(m.frequency, year) then next == Ok((year, period + 1))
            else if YearAllowed(m.frequency, year + 1) then next == Ok((year + 1, 1))
            else next == Err(OutOfRange)
  {
    hide IsLeap;
    hide DaysBeforeYear;
    hide IsoWeekday;
    hide PeriodsInYear;
    hide MitToYearPeriod;
    var f, next := m.frequency, m.(value := m.value + 1);
    var end := WeekEnd(m.value, f.endDay);
    YearBoundary(year);
    YearBoundary(year + 1);
    WeekPair(m, year, period);
    WeekPair(next, year, period + 1);
    WeekPair(next, year + 1, 1);
    WeekEndWeekday(m.value, f.endDay);
    WeekEndWeekday(next.value, f.endDay);
    LastWeek(year, period, end, f.endDay);
    if end + 7 > DaysBeforeYear(year + 1) && !YearAllowed(f, year + 1) {
      DayOutOfCalendar(next);
    }
  }

  // -- index conversions through the library --------------------------------------

  /** The library's own calendar: a status, or an answer. */
  datatype NativeCalendar = NativeCalendar(
    toIndex: (Frequency, int, int) -> Option<int>,
    toYearPeriod: (Frequency, int) -> Option<(int, int)>)
  {
    /** The library undoes its own conversion. */
    ghost predicate Consistent() {
      forall f: Frequency, y: int, p: int, i: int ::
        toIndex(f, y, p) == Some(i) ==> toYearPeriod(f, i) == Some((y, p))
    }
  }

  predicate FitsInt64(n: int) {
    -0x8000_0000_0000_0000 <= n < 0x8000_0000_0000_0000
  }

  predicate FitsInt32(n: int) {
    -0x8000_0000 <= n < 0x8000_0000
  }

  function MitToIndex(native: NativeCalendar, m: Moment): Result<int, CalendarError> {
    if m.frequency.Unit? then
      if FitsInt64(m.value) then Ok(m.value) else Err(TooWide)
    else
      var (year, period) :- MitToYearPeriod(m);
      if !FitsInt32(year) || !FitsInt32(period) then Err(TooWide)
      else match native.toIndex(m.frequency, year, period)
        case Some(index) => Ok(index)
        case None => Err(NativeStatus)
  }

  function IndexToMit(native: NativeCalendar, f: Frequency, index: int): Result<Moment, CalendarError> {
    if !FitsInt64(index) then Err(TooWide)
    else if f.Unit? then Ok(Moment(f, index))
    else match native.toYearPeriod(f, index)
      case Some(pair) => YearPeriodToMit(f, pair.0, pair.1)
      case None => Err(NativeStatus)
  }

  /** Whatever numbering the library uses, a moment survives the trip through its index. */
  lemma IndexRoundTrip(native: NativeCalendar, m: Moment, index: int)
    requires native.Consistent() && m.frequency.Valid()
    requires MitToIndex(native, m) == Ok(index) && FitsInt64(index)
    ensures IndexToMit(native, m.frequency, index) == Ok(m)
  {
    if !m.frequency.Unit? {
      var pair := MitToYearPeriod(m).value;
      PeriodsInvert(m, pair.0, pair.1);
    }
  }
}
