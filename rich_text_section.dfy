/**
 * The content of the rich-text section: the export is always generated with
 * `h3` headings, and for any other selected level every `<h3>` and `</h3>`
 * in it is then rewritten into the selected tag.
 */
module RichTextSection {
  import opened Types
  import opened Text
  import opened RichText
  import opened GenerateRichText

  /** `richTextContent`: generate at `h3`, then rewrite the heading tags unless `h3` is selected. */
  function RichTextContent(weekDays: seq<DayData>, items: map<string, seq<Item>>, dateFormat: string,
                           showWeekends: bool, headingLevel: string,
                           toFormat: (string, string) -> string): (html: string)
    ensures headingLevel == "h3" ==> html == Generated(weekDays, items, dateFormat, headingLevel, showWeekends, toFormat)
  {
    var html := Generated(weekDays, items, dateFormat, "h3", showWeekends, toFormat);
    if headingLevel != "h3" then Retag(html, headingLevel) else html
  }

  /** The sections the content shows: the kept days with formatted headings. */
  function ShownSections(weekDays: seq<DayData>, items: map<string, seq<Item>>, dateFormat: string,
                         showWeekends: bool, toFormat: (string, string) -> string): seq<Section>
  {
    FormattedSections(KeptDays(weekDays, showWeekends), items, toFormat, dateFormat)
  }

  /**
   * When neither the headings nor the item texts contain `<`, the rewrite
   * gives exactly the export rendered with the selected tag; for an empty
   * selection that tag is the empty one, `<>` and `</>`.
   */
  lemma ContentAtLevel(weekDays: seq<DayData>, items: map<string, seq<Item>>, dateFormat: string,
                       showWeekends: bool, headingLevel: string, toFormat: (string, string) -> string)
    requires LevelOk(headingLevel)
    requires PlainSections(ShownSections(weekDays, items, dateFormat, showWeekends, toFormat))
    ensures RichTextContent(weekDays, items, dateFormat, showWeekends, headingLevel, toFormat) ==
            Render(headingLevel, ShownSections(weekDays, items, dateFormat, showWeekends, toFormat))
  {
    var ss := ShownSections(weekDays, items, dateFormat, showWeekends, toFormat);
    if headingLevel != "h3" {
      RetagRender(headingLevel, ss);
    }
  }

  /** A selected level other than the empty one gives what generating at that level directly would. */
  lemma ContentAsIfGeneratedAtLevel(weekDays: seq<DayData>, items: map<string, seq<Item>>, dateFormat: string,
                                    showWeekends: bool, headingLevel: string, toFormat: (string, string) -> string)
    requires LevelOk(headingLevel) && headingLevel != ""
    requires PlainSections(ShownSections(weekDays, items, dateFormat, showWeekends, toFormat))
    ensures RichTextContent(weekDays, items, dateFormat, showWeekends, headingLevel, toFormat) ==
            Generated(weekDays, items, dateFormat, headingLevel, showWeekends, toFormat)
  {
    ContentAtLevel(weekDays, items, dateFormat, showWeekends, headingLevel, toFormat);
  }

  /** Text without `<` passes through the rewrite unchanged, and what follows it is rewritten on its own. */
  lemma RetagSkipsPlainText(t: string, b: string, level: string)
    requires '<' !in t
    ensures Retag(t + b, level) == t + Retag(b, level)
  {
    var open, close := Open("h3"), Close("h3");
    assert open[0] == '<' && close[0] == '<';
    ReplaceAllSkipsFree(t, b, open, Open(level));
    ReplaceAllSkipsFree(t, ReplaceAll(b, open, Open(level)), close, Close(level));
  }
}
