/**
 * The export builder of the rich-text section: one block per entry of the
 * day list handed in, in that order, headed by the day's label.
 */
module RichTextSectionGenerate {
  import opened Types
  import opened RichText

  /** The sections the builder renders: each day's label and the items stored for its date. */
  function DaySections(weekDays: seq<DayData>, items: map<string, seq<Item>>): (ss: seq<Section>)
    ensures |ss| == |weekDays|
    ensures forall k :: 0 <= k < |weekDays| ==>
              ss[k] == Section(weekDays[k].dayName, Bucket(items, weekDays[k].date))
  {
    seq(|weekDays|, k requires 0 <= k < |weekDays| => Section(weekDays[k].dayName, Bucket(items, weekDays[k].date)))
  }

  /**
   * `generateRichText`: the blocks of all days joined in list order. The date
   * format and the weekend switch are accepted and not used.
   */
  method GenerateRichText(weekDays: seq<DayData>, items: map<string, seq<Item>>, dateFormat: string,
                          headingLevel: string, showWeekends: bool) returns (html: string)
    ensures html == Render(HeadingTag(headingLevel), DaySections(weekDays, items))
  {
    var headingTag := if headingLevel == "" then "h3" else headingLevel;
    var dayContents: seq<string> := [];
    for i := 0 to |weekDays|
      invariant |dayContents| == i
      invariant forall k :: 0 <= k < i ==>
                  dayContents[k] == DayBlock(headingTag, Section(weekDays[k].dayName, Bucket(items, weekDays[k].date)))
    {
      var day := weekDays[i];
      var dayItems := if day.date in items then items[day.date] else [];
      var dayContent := BuildDayContent(headingTag, Section(day.dayName, dayItems));
      dayContents := dayContents + [dayContent];
    }
    assert dayContents == Blocks(headingTag, DaySections(weekDays, items));
    html := Concat(dayContents);
  }

  /** The sections of two day lists one after the other are the sections of the joined list. */
  lemma DaySectionsAppend(a: seq<DayData>, b: seq<DayData>, items: map<string, seq<Item>>)
    ensures DaySections(a + b, items) == DaySections(a, items) + DaySections(b, items)
  {
  }

  /** The block one day gets: its label over the items stored for its date. */
  function DayOf(tag: string, day: DayData, items: map<string, seq<Item>>): string {
    DayBlock(tag, Section(day.dayName, Bucket(items, day.date)))
  }

  /**
   * Blocks follow the day list: the block of a day comes before that of any
   * later day, with exactly the blocks of the days between them in between.
   */
  lemma BlocksInListOrder(a: seq<DayData>, d: DayData, b: seq<DayData>, e: DayData, c: seq<DayData>,
                          items: map<string, seq<Item>>, tag: string)
    ensures Render(tag, DaySections(a + [d] + b + [e] + c, items)) ==
            Render(tag, DaySections(a, items)) + DayOf(tag, d, items) + Render(tag, DaySections(b, items))
            + DayOf(tag, e, items) + Render(tag, DaySections(c, items))
  {
    DaySectionsAppend(a + [d] + b + [e], c, items);
    DaySectionsAppend(a + [d] + b, [e], items);
    DaySectionsAppend(a + [d], b, items);
    DaySectionsAppend(a, [d], items);
    var sd, se := Section(d.dayName, Bucket(items, d.date)), Section(e.dayName, Bucket(items, e.date));
    assert DaySections([d], items) == [sd] && DaySections([e], items) == [se];
    RenderTwo(tag, DaySections(a, items), sd, DaySections(b, items), se, DaySections(c, items));
  }

  /** A day whose date has no items gets its label and a list with one empty entry. */
  lemma DayWithoutItems(weekDays: seq<DayData>, items: map<string, seq<Item>>, tag: string, k: int)
    requires 0 <= k < |weekDays| && Bucket(items, weekDays[k].date) == []
    ensures DayBlock(tag, DaySections(weekDays, items)[k]) ==
              Open(tag) + weekDays[k].dayName + Close(tag) + "\n<ul>\n  <li></li>\n</ul>\n\n"
  {
    EmptyDayBlock(tag, weekDays[k].dayName);
  }

  /** The output is the same whatever the date format and the weekend switch. */
  method IgnoresFormatAndWeekends(weekDays: seq<DayData>, items: map<string, seq<Item>>, headingLevel: string,
                                  format1: string, showWeekends1: bool, format2: string, showWeekends2: bool)
    returns (html1: string, html2: string)
    ensures html1 == html2
  {
    html1 := GenerateRichText(weekDays, items, format1, headingLevel, showWeekends1);
    html2 := GenerateRichText(weekDays, items, format2, headingLevel, showWeekends2);
  }
}
