/**
 * The week navigation bar: previous and next week move the ISO date of the
 * displayed week's Monday by seven days, the weekend switch flips, and the
 * label shows the ISO week number of that date.
 */
module WeekNavigation {
  import opened Wrappers
  import opened Text
  import opened CivilDate
  import IsoDate
  import DateUtils

  /** Day numbers a date-time object can hold: 10^8 days either side of 1970-01-01. */
  const MaxDay: int := 100000000

  predicate InDayRange(n: int) {
    -MaxDay <= n <= MaxDay
  }

  /** `DateTime.fromISO(s)` on a calendar date: its day number, `None` for an invalid result. */
  function FromISO(s: string): (r: Option<int>)
    ensures r.Some? ==> InDayRange(r.value)
    ensures r.Some? <==> IsoDate.Parse(s).Some? && InDayRange(DaysFromCivil(IsoDate.Parse(s).value))
    ensures r.Some? ==> r.value == DaysFromCivil(IsoDate.Parse(s).value)
  {
    match IsoDate.Parse(s)
    case None => None
    case Some(d) =>
      var n := DaysFromCivil(d);
      if InDayRange(n) then Some(n) else None
  }

  /** `toISODate()` of the date with day number `n`. */
  function ToISODate(n: int): (s: string)
    requires InDayRange(n)
    ensures IsoDate.Parse(s) == Some(CivilFromDays(n))
  {
    DateUtils.YearBound(n);
    IsoDate.ParseFormat(CivilFromDays(n));
    IsoDate.Format(CivilFromDays(n))
  }

  /** Reading back a written date gives its day number. */
  lemma FromToISODate(n: int)
    requires InDayRange(n)
    ensures FromISO(ToISODate(n)) == Some(n)
  {
    DateUtils.YearBound(n);
    IsoDate.ParseFormat(CivilFromDays(n));
  }

  /** The date `days` days after `iso`; `None` where the source ends up with `null`. */
  function ShiftDays(iso: string, days: int): (r: Option<string>)
    ensures r.Some? <==> FromISO(iso).Some? && InDayRange(FromISO(iso).value + days)
  {
    match FromISO(iso)
    case None => None
    case Some(n) => if InDayRange(n + days) then Some(ToISODate(n + days)) else None
  }

  /** The start of the week before: seven days earlier, or `None` where the source gets `null`. */
  function GoToPreviousWeek(weekStartISO: string): (r: Option<string>)
    ensures r.Some? <==> FromISO(weekStartISO).Some? && InDayRange(FromISO(weekStartISO).value - 7)
    ensures r.Some? ==> FromISO(r.value) == Some(FromISO(weekStartISO).value - 7)
  {
    var r := ShiftDays(weekStartISO, -7);
    if r.Some? then ShiftDaysMoves(weekStartISO, -7); r else r
  }

  /** The start of the week after: seven days later, or `None` where the source gets `null`. */
  function GoToNextWeek(weekStartISO: string): (r: Option<string>)
    ensures r.Some? <==> FromISO(weekStartISO).Some? && InDayRange(FromISO(weekStartISO).value + 7)
    ensures r.Some? ==> FromISO(r.value) == Some(FromISO(weekStartISO).value + 7)
  {
    var r := ShiftDays(weekStartISO, 7);
    if r.Some? then ShiftDaysMoves(weekStartISO, 7); r else r
  }

  function ToggleWeekends(showWeekends: bool): (r: bool)
    ensures r != showWeekends
  {
    !showWeekends
  }

  /** The week number label; `None` where Luxon gives `NaN`. */
  function WeekNumber(weekStartISO: string): (r: Option<int>)
    ensures r.Some? <==> FromISO(weekStartISO).Some?
    ensures r.Some? ==> 1 <= r.value <= 53 && r.value == IsoWeekNumber(FromISO(weekStartISO).value)
  {
    match FromISO(weekStartISO)
    case None => None
    case Some(n) => Some(IsoWeekNumber(n))
  }

  /** A shifted date lies exactly `days` days from the original. */
  lemma ShiftDaysMoves(iso: string, days: int)
    requires FromISO(iso).Some? && InDayRange(FromISO(iso).value + days)
    ensures FromISO(ShiftDays(iso, days).value) == Some(FromISO(iso).value + days)
  {
    FromToISODate(FromISO(iso).value + days);
  }

  /** Next week and previous week undo each other, landing on the date as `toISODate` writes it. */
  lemma PreviousAfterNext(iso: string)
    requires FromISO(iso).Some? && InDayRange(FromISO(iso).value + 7)
    ensures GoToNextWeek(iso).Some?
    ensures GoToPreviousWeek(GoToNextWeek(iso).value) == Some(ToISODate(FromISO(iso).value))
  {
    ShiftDaysMoves(iso, 7);
  }

  lemma NextAfterPrevious(iso: string)
    requires FromISO(iso).Some? && InDayRange(FromISO(iso).value - 7)
    ensures GoToPreviousWeek(iso).Some?
    ensures GoToNextWeek(GoToPreviousWeek(iso).value) == Some(ToISODate(FromISO(iso).value))
  {
    ShiftDaysMoves(iso, -7);
  }

  /** A date already written as `toISODate` writes it comes back unchanged. */
  lemma CanonicalRoundTrip(iso: string)
    requires FromISO(iso).Some? && InDayRange(FromISO(iso).value + 7)
    requires iso == ToISODate(FromISO(iso).value)
    ensures GoToPreviousWeek(GoToNextWeek(iso).value) == Some(iso)
  {
    PreviousAfterNext(iso);
  }

  /** Moving a Monday by a week gives a Monday whose week number is the next one, or week 1. */
  lemma NextWeekOfMonday(iso: string)
    requires FromISO(iso).Some? && InDayRange(FromISO(iso).value + 7)
    requires DayOfWeek(FromISO(iso).value) == 1
    ensures GoToNextWeek(iso).Some?
    ensures FromISO(GoToNextWeek(iso).value) == Some(FromISO(iso).value + 7)
    ensures DayOfWeek(FromISO(iso).value + 7) == 1
    ensures var w := WeekNumber(iso).value;
            var w' := WeekNumber(GoToNextWeek(iso).value).value;
            w' == w + 1 || w' == 1
  {
    var n := FromISO(iso).value;
    MondayWeekLater(n);
    ShiftDaysMoves(iso, 7);
    var next := GoToNextWeek(iso).value;
    WeekNumberOfDay(iso, n);
    WeekNumberOfDay(next, n + 7);
  }

  lemma WeekNumberOfDay(iso: string, n: int)
    requires FromISO(iso) == Some(n)
    ensures WeekNumber(iso) == Some(IsoWeekNumber(n))
  {
  }

  lemma MondayWeekLater(n: int)
    requires DayOfWeek(n) == 1
    ensures DayOfWeek(n + 7) == 1
    ensures IsoWeekNumber(n + 7) == IsoWeekNumber(n) + 1 || IsoWeekNumber(n + 7) == 1
  {
    IsoWeekSuccessor(n);
  }

  lemma ParseAugust11()
    ensures IsoDate.Parse("2025-08-11") == Some(Date(2025, 8, 11))
  {
    FormatAugust11();
    IsoDate.ParseFormat(Date(2025, 8, 11));
  }

  lemma FormatAugust11()
    ensures IsoDate.Format(Date(2025, 8, 11)) == "2025-08-11"
  {
    Digits2025();
    TwoDigits8();
    TwoDigits11();
  }

  lemma TwoDigits8()
    ensures PadDigits(8, 2) == "08"
  {
  }

  lemma TwoDigits11()
    ensures PadDigits(11, 2) == "11"
  {
  }

  lemma TwoDigits18()
    ensures PadDigits(18, 2) == "18"
  {
  }

  lemma Digits2025()
    ensures IsoDate.FormatYear(2025) == "2025"
  {
    assert PadDigits(2025, 4) == "2025";
  }

  lemma FormatAugust18()
    ensures IsoDate.Format(Date(2025, 8, 18)) == "2025-08-18"
  {
    Digits2025();
    TwoDigits8();
    TwoDigits18();
  }

  lemma FromISOAugust11()
    ensures FromISO("2025-08-11") == Some(20311)
  {
    ParseAugust11();
    assert DaysFromCivil(Date(2025, 8, 11)) == 20311;
  }

  lemma ToISODateAugust18()
    ensures ToISODate(20318) == "2025-08-18"
  {
    var e := Date(2025, 8, 18);
    assert DaysFromCivil(e) == 20318;
    CivilRoundTrip(e);
    FormatAugust18();
  }

  /** From the Monday 2025-08-11 the next week starts on 2025-08-18. */
  lemma NextWeekOfAugust11()
    ensures GoToNextWeek("2025-08-11") == Some("2025-08-18")
  {
    FromISOAugust11();
    ToISODateAugust18();
  }
}
