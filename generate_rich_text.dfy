/**
 * The export builder the rich-text section uses: like the day-label builder,
 * but each heading is the day's date written in the chosen format, and
 * Saturdays and Sundays are skipped while weekends are hidden.
 */
module GenerateRichText {
  import opened Wrappers
  import opened Types
  import opened CivilDate
  import opened RichText
  import WeekNavigation

  /** Luxon's weekday (1 for Monday up to 7 for Sunday) modulo 7 counts from Sunday. */
  lemma LuxonWeekdayModSeven(n: int)
    ensures IsoWeekday(n) % 7 == DayOfWeek(n)
  {
    var w := DayOfWeek(n);
    if w == 0 {
      assert IsoWeekday(n) == 7;
    } else {
      assert (w + 6) % 7 == w - 1;
      assert IsoWeekday(n) == w;
    }
  }

  /**
   * `DateTime.fromISO(date).weekday % 7`: 0 for Sunday up to 6 for Saturday,
   * `None` for an invalid date, whose weekday is `NaN`.
   */
  function WeekdayIndex(date: string): (r: Option<int>)
    ensures r.Some? <==> WeekNavigation.FromISO(date).Some?
    ensures r.Some? ==> r.value == DayOfWeek(WeekNavigation.FromISO(date).value)
  {
    match WeekNavigation.FromISO(date)
    case None => None
    case Some(n) =>
      LuxonWeekdayModSeven(n);
      Some(IsoWeekday(n) % 7)
  }

  /** A day the export skips: a Saturday or Sunday while weekends are hidden. */
  predicate Skipped(showWeekends: bool, day: DayData) {
    !showWeekends && (WeekdayIndex(day.date) == Some(0) || WeekdayIndex(day.date) == Some(6))
  }

  /** Exactly the valid Saturdays and Sundays are skipped, and only while weekends are hidden. */
  lemma SkippedIff(showWeekends: bool, day: DayData)
    ensures Skipped(showWeekends, day) <==>
              !showWeekends && WeekNavigation.FromISO(day.date).Some? &&
              (DayOfWeek(WeekNavigation.FromISO(day.date).value) == 0 ||
               DayOfWeek(WeekNavigation.FromISO(day.date).value) == 6)
  {
  }

  /** The days the loop does not skip, in list order. */
  function KeptDays(weekDays: seq<DayData>, showWeekends: bool): (kept: seq<DayData>)
    ensures |kept| <= |weekDays|
    ensures forall k :: 0 <= k < |kept| ==> !Skipped(showWeekends, kept[k]) && kept[k] in weekDays
  {
    if weekDays == [] then []
    else
      var front := KeptDays(weekDays[..|weekDays| - 1], showWeekends);
      var last := weekDays[|weekDays| - 1];
      if Skipped(showWeekends, last) then front else front + [last]
  }

  /** With weekends shown every day is kept. */
  lemma {:induction false} KeptAll(weekDays: seq<DayData>)
    ensures KeptDays(weekDays, true) == weekDays
    decreases |weekDays|
  {
    if weekDays != [] {
      KeptAll(weekDays[..|weekDays| - 1]);
    }
  }

  /** Filtering two lists one after the other filters their concatenation: kept days keep their order. */
  lemma {:induction false} KeptDaysAppend(a: seq<DayData>, b: seq<DayData>, showWeekends: bool)
    ensures KeptDays(a + b, showWeekends) == KeptDays(a, showWeekends) + KeptDays(b, showWeekends)
    decreases |b|
  {
    if b == [] {
      assert a + b == a;
    } else {
      var c := b[..|b| - 1];
      assert (a + b)[..|a + b| - 1] == a + c;
      KeptDaysAppend(a, c, showWeekends);
    }
  }

  lemma KeptOne(d: DayData, showWeekends: bool)
    ensures KeptDays([d], showWeekends) == if Skipped(showWeekends, d) then [] else [d]
  {
    assert [d][..0] == [];
  }

  /** A day that is not skipped stays, between the kept days before it and those after it. */
  lemma KeptInPlace(a: seq<DayData>, d: DayData, b: seq<DayData>, showWeekends: bool)
    requires !Skipped(showWeekends, d)
    ensures KeptDays(a + [d] + b, showWeekends) == KeptDays(a, showWeekends) + [d] + KeptDays(b, showWeekends)
  {
    KeptDaysAppend(a + [d], b, showWeekends);
    KeptDaysAppend(a, [d], showWeekends);
    KeptOne(d, showWeekends);
  }

  /** A skipped day leaves no trace: the others are filtered as if it were not there. */
  lemma SkippedLeavesNoBlock(a: seq<DayData>, d: DayData, b: seq<DayData>, showWeekends: bool)
    requires Skipped(showWeekends, d)
    ensures KeptDays(a + [d] + b, showWeekends) == KeptDays(a + b, showWeekends)
  {
    KeptDaysAppend(a + [d], b, showWeekends);
    KeptDaysAppend(a, [d], showWeekends);
    KeptDaysAppend(a, b, showWeekends);
    KeptOne(d, showWeekends);
    assert KeptDays(a, showWeekends) + [] == KeptDays(a, showWeekends);
  }

  /**
   * The sections of the kept days: the date written by `toFormat` in the
   * chosen format over the items stored for it. `toFormat` stands for
   * Luxon's formatter applied to the date read from the ISO string.
   */
  function FormattedSections(days: seq<DayData>, items: map<string, seq<Item>>,
                             toFormat: (string, string) -> string, dateFormat: string): (ss: seq<Section>)
    ensures |ss| == |days|
    ensures forall k :: 0 <= k < |days| ==>
              ss[k] == Section(toFormat(days[k].date, dateFormat), Bucket(items, days[k].date))
  {
    seq(|days|, k requires 0 <= k < |days| => Section(toFormat(days[k].date, dateFormat), Bucket(items, days[k].date)))
  }

  /** The export `generateRichText` returns. */
  function Generated(weekDays: seq<DayData>, items: map<string, seq<Item>>, dateFormat: string,
                     headingLevel: string, showWeekends: bool, toFormat: (string, string) -> string): (r: string)
    ensures r == "" <==> KeptDays(weekDays, showWeekends) == []
  {
    Render(HeadingTag(headingLevel), FormattedSections(KeptDays(weekDays, showWeekends), items, toFormat, dateFormat))
  }

  /** `generateRichText`: one block per kept day, joined in list order. */
  method GenerateRichText(weekDays: seq<DayData>, items: map<string, seq<Item>>, dateFormat: string,
                          headingLevel: string, showWeekends: bool, toFormat: (string, string) -> string)
    returns (html: string)
    ensures html == Generated(weekDays, items, dateFormat, headingLevel, showWeekends, toFormat)
  {
    var headingTag := if headingLevel == "" then "h3" else headingLevel;
    var dayContents: seq<string> := [];
    for i := 0 to |weekDays|
      invariant dayContents ==
                Blocks(headingTag, FormattedSections(KeptDays(weekDays[..i], showWeekends), items, toFormat, dateFormat))
    {
      var day := weekDays[i];
      KeptStep(weekDays, i, showWeekends);
      var date := WeekNavigation.FromISO(day.date);
      var dayOfWeek := if date.Some? then Some(IsoWeekday(date.value) % 7) else None;
      if !showWeekends && (dayOfWeek == Some(0) || dayOfWeek == Some(6)) {
        continue;
      }
      var dayItems := if day.date in items then items[day.date] else [];
      var dayContent := BuildDayContent(headingTag, Section(toFormat(day.date, dateFormat), dayItems));
      SectionsStep(headingTag, KeptDays(weekDays[..i], showWeekends), day, items, toFormat, dateFormat);
      dayContents := dayContents + [dayContent];
    }
    assert weekDays[..|weekDays|] == weekDays;
    html := Concat(dayContents);
  }

  lemma KeptStep(weekDays: seq<DayData>, i: int, showWeekends: bool)
    requires 0 <= i < |weekDays|
    ensures KeptDays(weekDays[..i + 1], showWeekends) ==
            KeptDays(weekDays[..i], showWeekends) + (if Skipped(showWeekends, weekDays[i]) then [] else [weekDays[i]])
  {
    assert weekDays[..i + 1][..i] == weekDays[..i];
  }

  lemma SectionsStep(tag: string, days: seq<DayData>, d: DayData, items: map<string, seq<Item>>,
                     toFormat: (string, string) -> string, dateFormat: string)
    ensures Blocks(tag, FormattedSections(days + [d], items, toFormat, dateFormat)) ==
            Blocks(tag, FormattedSections(days, items, toFormat, dateFormat)) +
            [DayBlock(tag, Section(toFormat(d.date, dateFormat), Bucket(items, d.date)))]
  {
  }

  /** With weekends shown the export has a block for every day of the list. */
  lemma AllDaysWhenWeekendsShown(weekDays: seq<DayData>, items: map<string, seq<Item>>, dateFormat: string,
                                 headingLevel: string, toFormat: (string, string) -> string)
    ensures Generated(weekDays, items, dateFormat, headingLevel, true, toFormat) ==
            Render(HeadingTag(headingLevel), FormattedSections(weekDays, items, toFormat, dateFormat))
  {
    KeptAll(weekDays);
  }

  /** With weekends hidden no block belongs to a Saturday or a Sunday. */
  lemma NoWeekendWhenHidden(weekDays: seq<DayData>, k: int)
    requires 0 <= k < |KeptDays(weekDays, false)|
    ensures var day := KeptDays(weekDays, false)[k];
            var n := WeekNavigation.FromISO(day.date);
            n.Some? ==> DayOfWeek(n.value) != 0 && DayOfWeek(n.value) != 6
  {
    SkippedIff(false, KeptDays(weekDays, false)[k]);
  }
}
