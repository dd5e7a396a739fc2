/**
 * `Date` objects and the helpers of src/dateUtils.ts.
 *
 * A `JsDate` holds a time value in milliseconds since 1970-01-01T00:00.
 * The model has a single calendar: the local calendar that `getDay`,
 * `getDate` and `setDate` read and write is the UTC calendar that
 * `toISOString` formats.
 */
module DateUtils {
  import opened Wrappers
  import opened CivilDate
  import IsoDate

  const MsPerDay: int := 86400000

  /** Largest magnitude of a valid JavaScript time value (100,000,000 days). */
  const MaxTime: int := 8640000000000000

  predicate ValidTime(t: int) {
    -MaxTime <= t <= MaxTime
  }

  /** The day number of time value `t` (floor division). */
  function DayOf(t: int): int {
    t / MsPerDay
  }

  /** Milliseconds since midnight. */
  function TimeOfDay(t: int): (ms: int)
    ensures 0 <= ms < MsPerDay
  {
    t % MsPerDay
  }

  lemma DayAndTime(d: int, ms: int)
    requires 0 <= ms < MsPerDay
    ensures DayOf(d * MsPerDay + ms) == d && TimeOfDay(d * MsPerDay + ms) == ms
  {
  }

  lemma TimeSplit(t: int)
    ensures t == DayOf(t) * MsPerDay + TimeOfDay(t)
  {
  }

  function CivilOf(t: int): (d: Date)
    ensures ValidDate(d)
  {
    CivilFromDays(DayOf(t))
  }

  /** `setDate(k)` on time value `t`: day `k` of t's month (counting on past its end), same time of day. */
  function SetDateTime(t: int, k: int): int {
    var d := CivilOf(t);
    (DaysFromCivil(Date(d.year, d.month, 1)) + k - 1) * MsPerDay + TimeOfDay(t)
  }

  class JsDate {
    var time: int

    /** `new Date(t)` */
    constructor FromTime(t: int)
      ensures time == t
    {
      time := t;
    }

    /** `new Date(other)`: a copy with the same time value. */
    constructor Copy(other: JsDate)
      ensures time == other.time
    {
      time := other.time;
    }

    /** `getDay()`: Sunday = 0 .. Saturday = 6. */
    function GetDay(): (w: int)
      reads this
      ensures 0 <= w < 7
    {
      DayOfWeek(DayOf(time))
    }

    /** `getDate()`: the day of the month, 1-based. */
    function GetDate(): (dom: int)
      reads this
      ensures 1 <= dom <= 31
    {
      CivilOf(time).day
    }

    function GetFullYear(): int
      reads this
    {
      CivilOf(time).year
    }

    /** `setDate(k)`: move to day `k` of the current month, keeping the time of day. */
    method SetDate(k: int)
      modifies this
      ensures time == SetDateTime(old(time), k)
    {
      time := SetDateTime(time, k);
    }
  }

  /**
   * The time value `getMondayOfWeek` promises: the Monday of the Monday-to-Sunday
   * week that contains `t`, moved by `weekOffset` whole weeks, at t's time of day.
   */
  function MondayOfWeek(t: int, weekOffset: int): (r: int)
    ensures DayOfWeek(DayOf(r)) == 1
    ensures TimeOfDay(r) == TimeOfDay(t)
    ensures DayOf(r) == DayOf(t) - (IsoWeekday(DayOf(t)) - 1) + 7 * weekOffset
    ensures weekOffset == 0 ==> DayOf(t) - 6 <= DayOf(r) <= DayOf(t)
    ensures weekOffset == 0 && DayOfWeek(DayOf(t)) == 0 ==> DayOf(r) == DayOf(t) - 6
  {
    var monday := DayOf(t) - (IsoWeekday(DayOf(t)) - 1) + 7 * weekOffset;
    DayAndTime(monday, TimeOfDay(t));
    monday * MsPerDay + TimeOfDay(t)
  }

  /** An offset of `k` weeks lands exactly `7 * k` days from the offset-0 Monday. */
  lemma MondayOffsetShift(t: int, k: int)
    ensures MondayOfWeek(t, k) == MondayOfWeek(t, 0) + 7 * k * MsPerDay
  {
  }

  /** `getMondayOfWeek(date, weekOffset)`: copy the date and `setDate` it back to Monday. */
  method GetMondayOfWeek(date: JsDate, weekOffset: int) returns (result: JsDate)
    ensures fresh(result)
    ensures result.time == MondayOfWeek(date.time, weekOffset)
    ensures date.time == old(date.time)
  {
    result := new JsDate.Copy(date);
    var day := date.GetDay();
    var diff := date.GetDate() - day + (if day == 0 then -6 else 1);
    result.SetDate(diff + weekOffset * 7);
    SetDateShift(date.time, diff + weekOffset * 7);
    MondayBySetDate(date.time, weekOffset);
  }

  /** The `getDate() - getDay() + (Sunday ? -6 : 1)` arithmetic reaches the same Monday. */
  lemma MondayBySetDate(t: int, weekOffset: int)
    ensures var day := DayOfWeek(DayOf(t));
            var diff := CivilOf(t).day - day + (if day == 0 then -6 else 1);
            (DayOf(t) + (diff + weekOffset * 7) - CivilOf(t).day) * MsPerDay + TimeOfDay(t)
              == MondayOfWeek(t, weekOffset)
  {
    MondayByDayOfMonth(t, weekOffset, CivilOf(t).day);
  }

  /** The same, for any day of the month `dom`: it cancels out. */
  lemma MondayByDayOfMonth(t: int, weekOffset: int, dom: int)
    ensures var day := DayOfWeek(DayOf(t));
            var diff := dom - day + (if day == 0 then -6 else 1);
            (DayOf(t) + (diff + weekOffset * 7) - dom) * MsPerDay + TimeOfDay(t)
              == MondayOfWeek(t, weekOffset)
  {
  }

  /** `setDate(k)` lands `k - getDate()` days away from `t`. */
  lemma SetDateShift(t: int, k: int)
    ensures SetDateTime(t, k) == (DayOf(t) + k - CivilOf(t).day) * MsPerDay + TimeOfDay(t)
  {
    var d := CivilOf(t);
    assert DaysFromCivil(d) == DayOf(t);
    assert DaysFromCivil(Date(d.year, d.month, 1)) == DayOf(t) - d.day + 1;
  }

  /**
   * The year `new Date(year, 0, 1)` builds: ECMAScript's MakeFullYear reads a
   * year in 0..99 as 1900 + year.
   */
  function FullYear(y: int): int {
    if 0 <= y <= 99 then 1900 + y else y
  }

  /**
   * `getWeekNumber(date)` as written: `ceil((past + weekday(Jan 1) + 1) / 7)`,
   * where `past` is the time since local midnight of `new Date(year, 0, 1)`,
   * in days (including the fraction of the current day).  Exact integer
   * arithmetic for the floating-point expression.  For years 0..99 that
   * reference day is January 1 of 1900 + year, which lies after the instant.
   */
  function GetWeekNumber(t: int): (w: int)
    ensures !(0 <= CivilOf(t).year <= 99) ==> w >= 1
  {
    var jan1 := DaysFromCivil(Date(FullYear(CivilOf(t).year), 1, 1));
    YearStartBracket(t);
    CeilWeeks((t - jan1 * MsPerDay) + (DayOfWeek(jan1) + 1) * MsPerDay)
  }

  /** `Math.ceil(x / 7)` for `x` in days, given here as `num` milliseconds. */
  function CeilWeeks(num: int): (w: int)
    ensures num > 0 ==> w >= 1
  {
    (num + 7 * MsPerDay - 1) / (7 * MsPerDay)
  }

  lemma CeilWeeksMonotone(a: int, b: int)
    requires a <= b
    ensures CeilWeeks(a) <= CeilWeeks(b)
  {
  }

  lemma CeilWeeksValue(num: int, w: int)
    requires 7 * (w - 1) * MsPerDay < num <= 7 * w * MsPerDay
    ensures CeilWeeks(num) == w
  {
  }

  /** `GetWeekNumber` unfolded, once the year is known. */
  lemma WeekNumberInYear(t: int, y: int)
    requires CivilOf(t).year == y
    ensures var n := YearStart(FullYear(y));
            GetWeekNumber(t) == CeilWeeks(t - n * MsPerDay + (DayOfWeek(n) + 1) * MsPerDay)
  {
    assert DaysFromCivil(Date(FullYear(y), 1, 1)) == YearStart(FullYear(y));
  }

  /** January 1 of an instant's own year is not after it. */
  lemma YearStartBracket(t: int)
    ensures DaysFromCivil(Date(CivilOf(t).year, 1, 1)) * MsPerDay <= t
  {
    var d := CivilOf(t);
    assert DaysFromCivil(Date(d.year, 1, 1)) <= DaysFromCivil(d) == DayOf(t);
    TimeSplit(t);
  }

  /** January 1 at midnight is in week 1, once the year is not read as 1900 + year. */
  lemma WeekNumberOfNewYear(y: int)
    requires !(0 <= y <= 99)
    ensures GetWeekNumber(DaysFromCivil(Date(y, 1, 1)) * MsPerDay) == 1
  {
    var n := YearStart(y);
    assert DaysFromCivil(Date(y, 1, 1)) == n;
    var t := n * MsPerDay;
    YearOfInstant(Date(y, 1, 1), 0, t);
    WeekNumberInYear(t, y);
    CeilWeeksValue(t - n * MsPerDay + (DayOfWeek(n) + 1) * MsPerDay, 1);
  }

  /** Within one calendar year the week number never decreases. */
  lemma WeekNumberMonotone(t1: int, t2: int)
    requires t1 <= t2 && CivilOf(t1).year == CivilOf(t2).year
    ensures GetWeekNumber(t1) <= GetWeekNumber(t2)
  {
    var n := DaysFromCivil(Date(FullYear(CivilOf(t1).year), 1, 1));
    var base := (DayOfWeek(n) + 1) * MsPerDay - n * MsPerDay;
    assert GetWeekNumber(t1) == CeilWeeks(t1 + base);
    assert GetWeekNumber(t2) == CeilWeeks(t2 + base);
    CeilWeeksMonotone(t1 + base, t2 + base);
  }

  /** January 1, 2000 is day 10957, a Saturday. */
  lemma NewYear2000()
    ensures YearStart(2000) == 10957 && DayOfWeek(10957) == 6
  {
  }

  /**
   * A two-digit year measures from January 1 of 1900 + year: midnight of
   * 0050-06-01 lies 693809 days before 1950-01-01, a Sunday, and gets
   * `ceil((-693809 + 0 + 1) / 7) = -99115`; its January 1 gets a negative week too.
   */
  lemma WeekNumberOfTwoDigitYear()
    ensures GetWeekNumber(DaysFromCivil(Date(50, 6, 1)) * MsPerDay) == -99115
    ensures GetWeekNumber(DaysFromCivil(Date(50, 1, 1)) * MsPerDay) < 0
  {
    var d := Date(50, 6, 1);
    var t := DaysFromCivil(d) * MsPerDay;
    assert DaysFromCivil(d) == -701114;
    assert YearStart(1950) == -7305 && DayOfWeek(-7305) == 0;
    YearOfInstant(d, 0, t);
    WeekNumberInYear(t, 50);
    CeilWeeksValue(t - YearStart(1950) * MsPerDay + (DayOfWeek(YearStart(1950)) + 1) * MsPerDay, -99115);
    var e := Date(50, 1, 1);
    var u := DaysFromCivil(e) * MsPerDay;
    YearOfInstant(e, 0, u);
    WeekNumberInYear(u, 50);
    CeilWeeksMonotone(u - YearStart(1950) * MsPerDay + (DayOfWeek(YearStart(1950)) + 1) * MsPerDay, -8 * MsPerDay);
  }

  /** The year of an instant on a given date. */
  lemma YearOfInstant(d: Date, ms: int, t: int)
    requires ValidDate(d) && 0 <= ms < MsPerDay && t == DaysFromCivil(d) * MsPerDay + ms
    ensures CivilOf(t).year == d.year
  {
    DayOfInstant(d, ms, t);
    CivilOfDay(d, t);
  }

  lemma DayOfInstant(d: Date, ms: int, t: int)
    requires ValidDate(d) && 0 <= ms < MsPerDay && t == DaysFromCivil(d) * MsPerDay + ms
    ensures DayOf(t) == DaysFromCivil(d)
  {
    DayAndTime(DaysFromCivil(d), ms);
  }

  /** The calendar date of an instant on day `DaysFromCivil(d)` is `d`. */
  lemma CivilOfDay(d: Date, t: int)
    requires ValidDate(d) && DayOf(t) == DaysFromCivil(d)
    ensures CivilOf(t) == d
  {
    CivilRoundTrip(d);
  }

  /**
   * The formula can reach 54: 2000 is a leap year that starts on a Saturday,
   * and its December 31 at midnight is `ceil((365 + 6 + 1) / 7) = 54`.
   */
  lemma WeekNumberReaches54()
    ensures GetWeekNumber(DaysFromCivil(Date(2000, 12, 31)) * MsPerDay) == 54
  {
    var d := Date(2000, 12, 31);
    var t := DaysFromCivil(d) * MsPerDay;
    YearOfInstant(d, 0, t);
    WeekNumberInYear(t, 2000);
    NewYear2000();
    assert DaysFromCivil(d) == 11322;
    CeilWeeksValue(t - YearStart(2000) * MsPerDay + (DayOfWeek(YearStart(2000)) + 1) * MsPerDay, 54);
  }

  /**
   * The fraction of the current day counts too: noon on January 1, 2000 (a
   * Saturday) is `ceil((0.5 + 6 + 1) / 7) = 2`, although midnight is week 1.
   */
  lemma WeekNumberDependsOnTimeOfDay()
    ensures GetWeekNumber(DaysFromCivil(Date(2000, 1, 1)) * MsPerDay + MsPerDay / 2) == 2
  {
    var d := Date(2000, 1, 1);
    var t := DaysFromCivil(d) * MsPerDay + MsPerDay / 2;
    YearOfInstant(d, MsPerDay / 2, t);
    WeekNumberInYear(t, 2000);
    NewYear2000();
    assert DaysFromCivil(d) == 10957;
    CeilWeeksValue(t - YearStart(2000) * MsPerDay + (DayOfWeek(YearStart(2000)) + 1) * MsPerDay, 2);
  }

  /** The ISO 8601 week number that the doc comment promises: 1..53, whatever the time of day. */
  function IsoWeekNumberOf(t: int): (w: int)
    ensures 1 <= w <= 53
  {
    IsoWeekNumber(DayOf(t))
  }

  /** The ISO week number does not change over the course of a day. */
  lemma IsoWeekNumberSameAllDay(d: int, ms: int)
    requires 0 <= ms < MsPerDay
    ensures IsoWeekNumberOf(d * MsPerDay + ms) == IsoWeekNumberOf(d * MsPerDay)
  {
    DayAndTime(d, ms);
    DayAndTime(d, 0);
  }

  /** December 31, 2000, the Sunday the formula puts in week 54, is in ISO week 52. */
  lemma IsoWeekOfDecember31In2000()
    ensures IsoWeekNumberOf(DaysFromCivil(Date(2000, 12, 31)) * MsPerDay) == 52
  {
    var n := DaysFromCivil(Date(2000, 12, 31));
    NewYear2000();
    assert n == 11322;
    DayAndTime(n, 0);
    YearLength(2000);
    ThursdayWeekIn(WeekThursday(n), 2000);
  }

  /** `isToday(s)`: whether `s` is today's date as `formatISODate` writes it. */
  function IsToday(dateString: string, today: int): (r: bool)
    requires ValidTime(today)
    ensures r ==> IsoDate.Parse(dateString) == Some(CivilOf(today))
  {
    dateString == FormatISODate(today)
  }

  /** `date.toISOString().split('T')[0]`. */
  function FormatISODate(t: int): (s: string)
    requires ValidTime(t)
    ensures IsoDate.Parse(s) == Some(CivilOf(t))
  {
    YearBound(DayOf(t));
    IsoDate.ParseFormat(CivilOf(t));
    IsoDate.Format(CivilOf(t))
  }

  /** A valid time value lies within six-digit years. */
  lemma YearBound(n: int)
    requires -100000000 <= n <= 100000000
    ensures IsoDate.InRange(CivilFromDays(n))
  {
  }

  /** `isToday` of a formatted date holds exactly when it is the same calendar day. */
  lemma IsTodayIffSameDay(t: int, today: int)
    requires ValidTime(t) && ValidTime(today)
    ensures IsToday(FormatISODate(t), today) <==> DayOf(t) == DayOf(today)
  {
    YearBound(DayOf(t));
    YearBound(DayOf(today));
    IsoDate.FormatInjective(CivilOf(t), CivilOf(today));
  }
}
