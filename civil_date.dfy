/**
 * The proleptic Gregorian calendar on integer day numbers.
 *
 * Day 0 is 1970-01-01, the epoch of JavaScript's `Date`; negative day
 * numbers are earlier days.  `DaysFromCivil` and `CivilFromDays` convert
 * between day numbers and year/month/day triples and are proved to be
 * inverse to each other, so day of week, ISO week numbers and ISO date
 * strings can all be defined as functions of the day number.
 */
module CivilDate {

  predicate IsLeapYear(y: int) {
    y % 4 == 0 && (y % 100 != 0 || y % 400 == 0)
  }

  function DaysInYear(y: int): int {
    if IsLeapYear(y) then 366 else 365
  }

  function DaysInMonth(y: int, m: int): (n: int)
    requires 1 <= m <= 12
    ensures 28 <= n <= 31
    ensures n == 29 <==> m == 2 && IsLeapYear(y)
  {
    if m == 2 then (if IsLeapYear(y) then 29 else 28)
    else if m == 4 || m == 6 || m == 9 || m == 11 then 30
    else 31
  }

  /** A calendar date; `month` is 1..12 and `day` is 1-based. */
  datatype Date = Date(year: int, month: int, day: int)

  predicate ValidDate(d: Date) {
    1 <= d.month <= 12 && 1 <= d.day <= DaysInMonth(d.year, d.month)
  }

  /** Day number of January 1 of year `y`. */
  function YearStart(y: int): int {
    365 * y + (y + 3) / 4 - (y + 99) / 100 + (y + 399) / 400 - 719528
  }

  lemma YearLength(y: int)
    ensures YearStart(y + 1) - YearStart(y) == DaysInYear(y)
  {
    Multiples4(y);
    Multiples100(y);
    Multiples400(y);
    MultipleOf100(y);
    MultipleOf400(y);
  }

  // The count of multiples of 4, 100 and 400 below a year grows by one exactly at a multiple.

  lemma Multiples4(y: int)
    ensures (y + 4) / 4 - (y + 3) / 4 == if y % 4 == 0 then 1 else 0
  {
    var q, r := y / 4, y % 4;
    assert y + 4 == 4 * (q + 1) + r;
    if r == 0 {
      assert y + 3 == 4 * q + 3;
    } else {
      assert y + 3 == 4 * (q + 1) + (r - 1);
    }
  }

  lemma Multiples100(y: int)
    ensures (y + 100) / 100 - (y + 99) / 100 == if y % 100 == 0 then 1 else 0
  {
    var q, r := y / 100, y % 100;
    assert y + 100 == 100 * (q + 1) + r;
    if r == 0 {
      assert y + 99 == 100 * q + 99;
    } else {
      assert y + 99 == 100 * (q + 1) + (r - 1);
    }
  }

  lemma Multiples400(y: int)
    ensures (y + 400) / 400 - (y + 399) / 400 == if y % 400 == 0 then 1 else 0
  {
    var q, r := y / 400, y % 400;
    assert y + 400 == 400 * (q + 1) + r;
    if r == 0 {
      assert y + 399 == 400 * q + 399;
    } else {
      assert y + 399 == 400 * (q + 1) + (r - 1);
    }
  }

  lemma MultipleOf100(y: int)
    ensures y % 100 == 0 ==> y % 4 == 0
  {
    if y % 100 == 0 {
      assert y == 4 * (25 * (y / 100));
    }
  }

  lemma MultipleOf400(y: int)
    ensures y % 400 == 0 ==> y % 100 == 0
  {
    if y % 400 == 0 {
      assert y == 100 * (4 * (y / 400));
    }
  }

  /** Days of the year that precede the first day of month `m`. */
  function DaysBeforeMonth(y: int, m: int): (n: int)
    requires 1 <= m <= 12
    ensures 0 <= n <= 335
  {
    var common :=
      match m
      case 1 => 0    case 2 => 31   case 3 => 59   case 4 => 90
      case 5 => 120  case 6 => 151  case 7 => 181  case 8 => 212
      case 9 => 243  case 10 => 273 case 11 => 304 case _ => 334;
    common + (if m > 2 && IsLeapYear(y) then 1 else 0)
  }

  lemma MonthsTile(y: int, m: int)
    requires 1 <= m <= 12
    ensures m < 12 ==> DaysBeforeMonth(y, m + 1) == DaysBeforeMonth(y, m) + DaysInMonth(y, m)
    ensures m == 12 ==> DaysBeforeMonth(y, m) + DaysInMonth(y, m) == DaysInYear(y)
  {
  }

  function DaysFromCivil(d: Date): int
    requires ValidDate(d)
  {
    YearStart(d.year) + DaysBeforeMonth(d.year, d.month) + d.day - 1
  }

  /** The year that contains day `n`. */
  function YearOf(n: int): (y: int)
    ensures YearStart(y) <= n < YearStart(y + 1)
  {
    // 146097 days make 400 Gregorian years, so this estimate is off by at most one year
    var y0 := (400 * (n + 719528)) / 146097;
    if n < YearStart(y0) then y0 - 1
    else if n >= YearStart(y0 + 1) then y0 + 1
    else y0
  }

  lemma YearOfUnique(n: int, y: int)
    requires YearStart(y) <= n < YearStart(y + 1)
    ensures YearOf(n) == y
  {
  }

  /** The month that contains day `doy` (0-based) of year `y`. */
  function MonthOf(y: int, doy: int): (m: int)
    requires 0 <= doy < DaysInYear(y)
    ensures 1 <= m <= 12
    ensures DaysBeforeMonth(y, m) <= doy < DaysBeforeMonth(y, m) + DaysInMonth(y, m)
  {
    if doy >= DaysBeforeMonth(y, 12) then 12
    else if doy >= DaysBeforeMonth(y, 11) then 11
    else if doy >= DaysBeforeMonth(y, 10) then 10
    else if doy >= DaysBeforeMonth(y, 9) then 9
    else if doy >= DaysBeforeMonth(y, 8) then 8
    else if doy >= DaysBeforeMonth(y, 7) then 7
    else if doy >= DaysBeforeMonth(y, 6) then 6
    else if doy >= DaysBeforeMonth(y, 5) then 5
    else if doy >= DaysBeforeMonth(y, 4) then 4
    else if doy >= DaysBeforeMonth(y, 3) then 3
    else if doy >= DaysBeforeMonth(y, 2) then 2
    else 1
  }

  lemma MonthOfUnique(y: int, doy: int, m: int)
    requires 1 <= m <= 12 && 0 <= doy < DaysInYear(y)
    requires DaysBeforeMonth(y, m) <= doy < DaysBeforeMonth(y, m) + DaysInMonth(y, m)
    ensures MonthOf(y, doy) == m
  {
  }

  function CivilFromDays(n: int): (d: Date)
    ensures ValidDate(d) && DaysFromCivil(d) == n
  {
    var y := YearOf(n);
    YearLength(y);
    var doy := n - YearStart(y);
    var m := MonthOf(y, doy);
    Date(y, m, doy - DaysBeforeMonth(y, m) + 1)
  }

  lemma CivilRoundTrip(d: Date)
    requires ValidDate(d)
    ensures CivilFromDays(DaysFromCivil(d)) == d
  {
    var n := DaysFromCivil(d);
    YearLength(d.year);
    MonthsTile(d.year, d.month);
    assert DaysBeforeMonth(d.year, d.month) + DaysInMonth(d.year, d.month) <= DaysInYear(d.year) by {
      if d.month < 12 { MonthsTile(d.year, 12); }
    }
    YearOfUnique(n, d.year);
    MonthOfUnique(d.year, n - YearStart(d.year), d.month);
  }

  /** Day of week with Sunday = 0 .. Saturday = 6; 1970-01-01 was a Thursday. */
  function DayOfWeek(n: int): (w: int)
    ensures 0 <= w < 7
  {
    (n + 4) % 7
  }

  /** ISO 8601 weekday: Monday = 1 .. Sunday = 7. */
  function IsoWeekday(n: int): (w: int)
    ensures 1 <= w <= 7
    ensures w == 1 <==> DayOfWeek(n) == 1
  {
    (DayOfWeek(n) + 6) % 7 + 1
  }

  /** The Thursday of the Monday-to-Sunday week that contains day `n`. */
  function WeekThursday(n: int): int {
    n - IsoWeekday(n) + 4
  }

  /** Week number, within its own year, of a week whose Thursday is day `t`. */
  function ThursdayWeek(t: int): (w: int)
    ensures 1 <= w <= 53
  {
    YearLength(YearOf(t));
    (t - YearStart(YearOf(t))) / 7 + 1
  }

  lemma ThursdayWeekIn(t: int, y: int)
    requires YearStart(y) <= t < YearStart(y + 1)
    ensures ThursdayWeek(t) == (t - YearStart(y)) / 7 + 1
  {
    YearOfUnique(t, y);
  }

  /**
   * ISO 8601 week number (section 4.1.4 of ISO 8601:2004): weeks run Monday
   * to Sunday, and a week belongs to the year that holds its Thursday, so
   * week 1 is the week with the year's first Thursday.
   */
  function IsoWeekNumber(n: int): (w: int)
    ensures 1 <= w <= 53
  {
    ThursdayWeek(WeekThursday(n))
  }

  /** January 4 always lies in week 1, whatever weekday the year starts on. */
  lemma IsoWeekOfJanuaryFourth(y: int)
    ensures IsoWeekNumber(DaysFromCivil(Date(y, 1, 4))) == 1
  {
    var n := DaysFromCivil(Date(y, 1, 4));
    YearLength(y);
    ThursdayWeekIn(WeekThursday(n), y);
  }

  /** All seven days from a Monday share that Monday's week number. */
  lemma IsoWeekConstantInWeek(monday: int, i: int)
    requires DayOfWeek(monday) == 1 && 0 <= i < 7
    ensures IsoWeekNumber(monday + i) == IsoWeekNumber(monday)
  {
    assert WeekThursday(monday + i) == WeekThursday(monday);
  }

  lemma DayOfWeekPeriodic(n: int)
    ensures DayOfWeek(n + 7) == DayOfWeek(n)
  {
    var a := n + 4;
    assert a + 7 == 7 * (a / 7 + 1) + a % 7;
  }

  lemma WeekThursdayNextWeek(n: int)
    ensures WeekThursday(n + 7) == WeekThursday(n) + 7
  {
    DayOfWeekPeriodic(n);
    assert IsoWeekday(n + 7) == IsoWeekday(n);
  }

  lemma ThursdayWeekStepWithinYear(t: int, y: int)
    requires YearStart(y) <= t && t + 7 < YearStart(y + 1)
    ensures ThursdayWeek(t + 7) == ThursdayWeek(t) + 1
  {
    ThursdayWeekIn(t, y);
    ThursdayWeekIn(t + 7, y);
  }

  lemma ThursdayWeekStepIntoNextYear(t: int, y: int)
    requires t < YearStart(y + 1) <= t + 7
    ensures ThursdayWeek(t + 7) == 1
  {
    YearLength(y + 1);
    ThursdayWeekIn(t + 7, y + 1);
  }

  /** Seven days after a Thursday of week `w` is week `w + 1`, or week 1 of the next year. */
  lemma ThursdayWeekStep(t: int)
    ensures ThursdayWeek(t + 7) == ThursdayWeek(t) + 1 || ThursdayWeek(t + 7) == 1
  {
    var y := YearOf(t);
    if t + 7 < YearStart(y + 1) {
      ThursdayWeekStepWithinYear(t, y);
    } else {
      ThursdayWeekStepIntoNextYear(t, y);
    }
  }

  /** The week after week `w` is week `w + 1`, or week 1 of the next week-year. */
  lemma IsoWeekSuccessor(monday: int)
    requires DayOfWeek(monday) == 1
    ensures IsoWeekNumber(monday + 7) == IsoWeekNumber(monday) + 1 || IsoWeekNumber(monday + 7) == 1
  {
    WeekThursdayNextWeek(monday);
    ThursdayWeekStep(WeekThursday(monday));
  }
}
