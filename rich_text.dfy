/**
 * The HTML blocks the rich-text export is made of: per day a heading and an
 * unordered list of the day's item texts, the blocks joined without a
 * separator; and the heading-tag rewrite applied to such HTML.
 */
module RichText {
  import opened Types
  import opened Text

  /** `headingLevel || 'h3'`: the empty level falls back to `h3`. */
  function HeadingTag(headingLevel: string): (tag: string)
    ensures headingLevel == "" ==> tag == "h3"
    ensures headingLevel != "" ==> tag == headingLevel
  {
    if headingLevel == "" then "h3" else headingLevel
  }

  function Open(tag: string): string {
    "<" + tag + ">"
  }

  function Close(tag: string): string {
    "</" + tag + ">"
  }

  /** What one day contributes: its heading and its items. */
  datatype Section = Section(heading: string, items: seq<Item>)

  const EntryStart: string := "  <li>"
  const EntryEnd: string := "</li>\n"
  const EmptyEntry: string := "  <li></li>\n"
  const ListStart: string := "\n<ul>\n"
  const ListEnd: string := "</ul>\n\n"

  function ItemLine(item: Item): string {
    EntryStart + item.text + EntryEnd
  }

  /** One list entry per item, in bucket order. */
  function ItemLines(items: seq<Item>): string {
    if items == [] then "" else ItemLines(items[..|items| - 1]) + ItemLine(items[|items| - 1])
  }

  /** Item lines of two lists one after the other are the lines of the joined list. */
  lemma {:induction false} ItemLinesAppend(a: seq<Item>, b: seq<Item>)
    ensures ItemLines(a + b) == ItemLines(a) + ItemLines(b)
    decreases |b|
  {
    if b == [] {
      assert a + b == a;
    } else {
      var c, last := b[..|b| - 1], b[|b| - 1];
      assert (a + b)[..|a + b| - 1] == a + c && (a + b)[|a + b| - 1] == last;
      ItemLinesAppend(a, c);
      assert ItemLines(a + b) == (ItemLines(a) + ItemLines(c)) + ItemLine(last);
      assert ItemLines(b) == ItemLines(c) + ItemLine(last);
      Assoc(ItemLines(a), ItemLines(c), ItemLine(last));
    }
  }

  /** The list body: one empty entry for a day without items. */
  function ListBody(items: seq<Item>): string {
    if items == [] then EmptyEntry else ItemLines(items)
  }

  /** What follows a block's heading: the list of its items. */
  function BlockTail(items: seq<Item>): string {
    ListStart + (ListBody(items) + ListEnd)
  }

  /** A block with the given opening and closing heading tags. */
  function TaggedBlock(open: string, close: string, heading: string, items: seq<Item>): string {
    open + (heading + (close + BlockTail(items)))
  }

  function DayBlock(tag: string, s: Section): string {
    TaggedBlock(Open(tag), Close(tag), s.heading, s.items)
  }

  /**
   * The block of one day built as the export loop builds it: heading line,
   * then one `+=` per item (or the single empty entry), then the list end.
   */
  method BuildDayContent(tag: string, s: Section) returns (dayContent: string)
    ensures dayContent == DayBlock(tag, s)
  {
    var items := s.items;
    dayContent := Open(tag) + s.heading + Close(tag) + ListStart;
    ghost var head := dayContent;
    if |items| == 0 {
      dayContent := dayContent + EmptyEntry;
    } else {
      for j := 0 to |items|
        invariant dayContent == head + ItemLines(items[..j])
      {
        assert items[..j + 1][..j] == items[..j];
        AppendLine(head, ItemLines(items[..j]), items[j]);
        dayContent := dayContent + EntryStart + items[j].text + EntryEnd;
      }
      assert items[..|items|] == items;
    }
    dayContent := dayContent + ListEnd;
    BlockFromParts(Open(tag), s.heading, Close(tag), items);
  }

  lemma AppendLine(head: string, lines: string, item: Item)
    ensures head + lines + EntryStart + item.text + EntryEnd == head + (lines + ItemLine(item))
  {
    Assoc(head + lines, EntryStart, item.text);
    Assoc(head + lines, EntryStart + item.text, EntryEnd);
    Assoc(head, lines, ItemLine(item));
  }

  lemma BlockFromParts(open: string, heading: string, close: string, items: seq<Item>)
    ensures open + heading + close + ListStart + ListBody(items) + ListEnd == TaggedBlock(open, close, heading, items)
  {
    var body := ListBody(items);
    Assoc(open + heading + close + ListStart, body, ListEnd);
    Assoc(open + heading + close, ListStart, body + ListEnd);
    Assoc(open + heading, close, BlockTail(items));
    Assoc(open, heading, close + BlockTail(items));
  }

  /** The blocks of a list of sections, in the same order. */
  function Blocks(tag: string, ss: seq<Section>): (r: seq<string>)
    ensures |r| == |ss|
    ensures forall k :: 0 <= k < |ss| ==> r[k] == DayBlock(tag, ss[k])
  {
    seq(|ss|, k requires 0 <= k < |ss| => DayBlock(tag, ss[k]))
  }

  /** `join('')`. */
  function Concat(parts: seq<string>): string {
    if parts == [] then "" else Concat(parts[..|parts| - 1]) + parts[|parts| - 1]
  }

  lemma {:induction false} ConcatAppend(a: seq<string>, b: seq<string>)
    ensures Concat(a + b) == Concat(a) + Concat(b)
    decreases |b|
  {
    if b == [] {
      assert a + b == a;
    } else {
      var c, last := b[..|b| - 1], b[|b| - 1];
      assert (a + b)[..|a + b| - 1] == a + c && (a + b)[|a + b| - 1] == last;
      ConcatAppend(a, c);
      assert Concat(a + b) == (Concat(a) + Concat(c)) + last;
      assert Concat(b) == Concat(c) + last;
      Assoc(Concat(a), Concat(c), last);
    }
  }

  /** The export of a list of sections: their blocks joined in order. */
  function Render(tag: string, ss: seq<Section>): (r: string)
    ensures r == "" <==> ss == []
  {
    if ss == [] then Concat(Blocks(tag, ss))
    else
      BlockEndsWithBlankLine(tag, ss[|ss| - 1]);
      Concat(Blocks(tag, ss))
  }

  /** Rendering two lists of sections one after the other renders their concatenation. */
  lemma RenderAppend(tag: string, a: seq<Section>, b: seq<Section>)
    ensures Render(tag, a + b) == Render(tag, a) + Render(tag, b)
  {
    assert Blocks(tag, a + b) == Blocks(tag, a) + Blocks(tag, b);
    ConcatAppend(Blocks(tag, a), Blocks(tag, b));
  }

  /** In a list with two marked sections, the earlier one's block comes first, with the blocks in between separating them. */
  lemma RenderTwo(tag: string, a: seq<Section>, x: Section, b: seq<Section>, y: Section, c: seq<Section>)
    ensures Render(tag, a + [x] + b + [y] + c) ==
            Render(tag, a) + DayBlock(tag, x) + Render(tag, b) + DayBlock(tag, y) + Render(tag, c)
  {
    RenderAppend(tag, a + [x] + b + [y], c);
    RenderAppend(tag, a + [x] + b, [y]);
    RenderAppend(tag, a + [x], b);
    RenderAppend(tag, a, [x]);
    RenderOne(tag, x);
    RenderOne(tag, y);
  }

  lemma RenderOne(tag: string, s: Section)
    ensures Render(tag, [s]) == DayBlock(tag, s)
  {
    assert Blocks(tag, [s]) == [DayBlock(tag, s)];
    assert [DayBlock(tag, s)][..0] == [];
    assert Concat([DayBlock(tag, s)]) == Concat([]) + DayBlock(tag, s);
  }

  /** Every block ends with the end of its list followed by a blank line. */
  lemma BlockEndsWithBlankLine(tag: string, s: Section)
    ensures var block := DayBlock(tag, s);
            |block| >= |ListEnd| && block[|block| - |ListEnd|..] == ListEnd && ListEnd == "</ul>\n\n"
  {
    var open, h, close, body := Open(tag), s.heading, Close(tag), ListBody(s.items);
    var front := open + (h + (close + (ListStart + body)));
    Assoc(ListStart, body, ListEnd);
    Assoc(close, ListStart + body, ListEnd);
    Assoc(h, close + (ListStart + body), ListEnd);
    Assoc(open, h + (close + (ListStart + body)), ListEnd);
    assert DayBlock(tag, s) == front + ListEnd;
  }

  /** A day without items gets a list with one empty entry. */
  lemma EmptyDayBlock(tag: string, heading: string)
    ensures DayBlock(tag, Section(heading, [])) == Open(tag) + heading + Close(tag) + "\n<ul>\n  <li></li>\n</ul>\n\n"
  {
    BlockFromParts(Open(tag), heading, Close(tag), []);
    var fixed := ListStart + EmptyEntry + ListEnd;
    assert fixed == "\n<ul>\n  <li></li>\n</ul>\n\n";
    Assoc(Open(tag) + heading + Close(tag), ListStart, EmptyEntry);
    Assoc(Open(tag) + heading + Close(tag), ListStart + EmptyEntry, ListEnd);
  }

  /** A day with items gets one entry per item, in order: the entry of an item sits between those of the items around it. */
  lemma ItemLinesAround(a: seq<Item>, x: Item, c: seq<Item>)
    ensures ItemLines(a + [x] + c) == ItemLines(a) + ItemLine(x) + ItemLines(c)
  {
    ItemLinesAppend(a + [x], c);
    ItemLinesAppend(a, [x]);
    ItemLinesOne(x);
  }

  lemma ItemLinesOne(item: Item)
    ensures ItemLines([item]) == ItemLine(item)
  {
    assert [item][..0] == [];
    assert ItemLines([item]) == ItemLines([]) + ItemLine(item);
  }

  /**
   * The heading-level rewrite: every `<h3>` becomes `<level>`, then every
   * `</h3>` becomes `</level>`, wherever they occur.
   */
  function Retag(html: string, level: string): string {
    ReplaceAll(ReplaceAll(html, Open("h3"), Open(level)), Close("h3"), Close(level))
  }

  /** Rewriting to `h3` itself changes nothing, whatever the text. */
  lemma RetagAtH3(html: string)
    ensures Retag(html, "h3") == html
  {
    var once := ReplaceAll(html, Open("h3"), Open("h3"));
    assert once == html;
  }

  /** Levels whose opening tag the second pass cannot mistake for a closing `h3` tag. */
  predicate LevelOk(level: string) {
    '<' !in level && (level == [] || level[0] != '/')
  }

  /** Sections whose headings and item texts contain no `<`. */
  predicate PlainSection(s: Section) {
    '<' !in s.heading && forall j :: 0 <= j < |s.items| ==> '<' !in s.items[j].text
  }

  predicate PlainSections(ss: seq<Section>) {
    forall k :: 0 <= k < |ss| ==> PlainSection(ss[k])
  }

  lemma PlainSectionsInit(ss: seq<Section>)
    requires ss != [] && PlainSections(ss)
    ensures PlainSections(ss[..|ss| - 1]) && PlainSection(ss[|ss| - 1])
  {
    var init := ss[..|ss| - 1];
    forall k | 0 <= k < |init| ensures PlainSection(init[k]) {
      assert init[k] == ss[k];
    }
  }

  /** `pat` is replaced in `a + b` exactly as in `b`, with `a` copied in front, whatever follows. */
  ghost predicate Passes(a: string, pat: string, rep: string)
    requires pat != []
  {
    forall b :: ReplaceAll(a + b, pat, rep) == a + ReplaceAll(b, pat, rep)
  }

  lemma PassesFree(a: string, pat: string, rep: string)
    requires pat != [] && pat[0] !in a
    ensures Passes(a, pat, rep)
  {
    forall b ensures ReplaceAll(a + b, pat, rep) == a + ReplaceAll(b, pat, rep) {
      ReplaceAllSkipsFree(a, b, pat, rep);
    }
  }

  lemma PassesTag(tag: string, pat: string, rep: string)
    requires pat != [] && pat[0] == '<'
    requires tag != [] && tag[0] == '<' && '<' !in tag[1..]
    requires !(tag <= pat) && !(pat <= tag)
    ensures Passes(tag, pat, rep)
  {
    forall b ensures ReplaceAll(tag + b, pat, rep) == tag + ReplaceAll(b, pat, rep) {
      ReplaceAllSkipsTag(tag, b, pat, rep);
    }
  }

  lemma PassesJoin(a: string, c: string, pat: string, rep: string)
    requires pat != [] && Passes(a, pat, rep) && Passes(c, pat, rep)
    ensures Passes(a + c, pat, rep)
  {
    forall b ensures ReplaceAll(a + c + b, pat, rep) == a + c + ReplaceAll(b, pat, rep) {
      Assoc(a, c, b);
      UsePasses(a, c + b, pat, rep);
      UsePasses(c, b, pat, rep);
      Assoc(a, c, ReplaceAll(b, pat, rep));
    }
  }

  predicate HeadingPattern(pat: string) {
    pat == "<h3>" || pat == "</h3>"
  }

  /** Two strings that differ at some index are not prefixes of each other. */
  lemma Mismatch(a: string, b: string, i: int)
    requires 0 <= i < |a| && i < |b| && a[i] != b[i]
    ensures !(a <= b) && !(b <= a)
  {
  }

  /** A tag is told apart from either heading pattern by its second or third character. */
  lemma PassesListTag(tag: string, pat: string, rep: string)
    requires HeadingPattern(pat)
    requires tag == "<ul>" || tag == "</ul>" || tag == "<li>" || tag == "</li>"
    ensures Passes(tag, pat, rep)
  {
    if tag[1] != '/' || pat[1] != '/' {
      Mismatch(tag, pat, 1);
    } else {
      Mismatch(tag, pat, 2);
    }
    PassesTag(tag, pat, rep);
  }

  lemma PassesListStart(pat: string, rep: string)
    requires HeadingPattern(pat)
    ensures Passes(ListStart, pat, rep)
  {
    PassesFree("\n", pat, rep);
    PassesListTag("<ul>", pat, rep);
    PassesJoin("\n", "<ul>", pat, rep);
    PassesJoin("\n" + "<ul>", "\n", pat, rep);
    assert "\n" + "<ul>" + "\n" == ListStart;
  }

  lemma PassesListEnd(pat: string, rep: string)
    requires HeadingPattern(pat)
    ensures Passes(ListEnd, pat, rep)
  {
    PassesListTag("</ul>", pat, rep);
    PassesFree("\n\n", pat, rep);
    PassesJoin("</ul>", "\n\n", pat, rep);
    assert "</ul>" + "\n\n" == ListEnd;
  }

  lemma PassesEntryStart(pat: string, rep: string)
    requires HeadingPattern(pat)
    ensures Passes(EntryStart, pat, rep)
  {
    PassesFree("  ", pat, rep);
    PassesListTag("<li>", pat, rep);
    PassesJoin("  ", "<li>", pat, rep);
    assert "  " + "<li>" == EntryStart;
  }

  lemma PassesEntryEnd(pat: string, rep: string)
    requires HeadingPattern(pat)
    ensures Passes(EntryEnd, pat, rep)
  {
    PassesListTag("</li>", pat, rep);
    PassesFree("\n", pat, rep);
    PassesJoin("</li>", "\n", pat, rep);
    assert "</li>" + "\n" == EntryEnd;
  }

  lemma PassesItemLine(item: Item, pat: string, rep: string)
    requires HeadingPattern(pat) && '<' !in item.text
    ensures Passes(ItemLine(item), pat, rep)
  {
    PassesEntryStart(pat, rep);
    PassesFree(item.text, pat, rep);
    PassesEntryEnd(pat, rep);
    PassesJoin(EntryStart, item.text, pat, rep);
    PassesJoin(EntryStart + item.text, EntryEnd, pat, rep);
  }

  lemma {:induction false} PassesItemLines(items: seq<Item>, pat: string, rep: string)
    requires HeadingPattern(pat)
    requires forall j :: 0 <= j < |items| ==> '<' !in items[j].text
    ensures Passes(ItemLines(items), pat, rep)
    decreases |items|
  {
    if items == [] {
      PassesFree("", pat, rep);
    } else {
      var init, last := items[..|items| - 1], items[|items| - 1];
      PassesItemLines(init, pat, rep);
      PassesItemLine(last, pat, rep);
      PassesJoin(ItemLines(init), ItemLine(last), pat, rep);
    }
  }

  /** Everything of a block after its heading tags passes either rewrite pass unchanged. */
  lemma PassesBlockTail(items: seq<Item>, pat: string, rep: string)
    requires HeadingPattern(pat)
    requires forall j :: 0 <= j < |items| ==> '<' !in items[j].text
    ensures Passes(BlockTail(items), pat, rep)
  {
    if items == [] {
      PassesEntryStart(pat, rep);
      PassesEntryEnd(pat, rep);
      PassesJoin(EntryStart, EntryEnd, pat, rep);
      assert EntryStart + EntryEnd == EmptyEntry;
    } else {
      PassesItemLines(items, pat, rep);
    }
    PassesListStart(pat, rep);
    PassesListEnd(pat, rep);
    PassesJoin(ListBody(items), ListEnd, pat, rep);
    PassesJoin(ListStart, ListBody(items) + ListEnd, pat, rep);
  }

  /** The opening tag of a valid level passes the second pass unchanged. */
  lemma PassesOpenLevel(level: string, rep: string)
    requires LevelOk(level)
    ensures Passes(Open(level), "</h3>", rep)
  {
    var open := Open(level);
    assert open[1..] == level + ">";
    if level == [] {
      assert open[1] == '>';
    } else {
      assert open[1] == level[0];
    }
    Mismatch(open, "</h3>", 1);
    PassesTag(open, "</h3>", rep);
  }

  /** The first pass turns a block's opening `h3` tag into the level's. */
  lemma RetagBlockOpen(level: string, s: Section)
    requires PlainSection(s)
    ensures Maps(DayBlock("h3", s), TaggedBlock(Open(level), "</h3>", s.heading, s.items), "<h3>", Open(level))
  {
    forall b ensures ReplaceAll(DayBlock("h3", s) + b, "<h3>", Open(level))
                     == TaggedBlock(Open(level), "</h3>", s.heading, s.items) + ReplaceAll(b, "<h3>", Open(level)) {
      var pat, rep, close := "<h3>", Open(level), "</h3>";
      var h, t := s.heading, BlockTail(s.items);
      assert Open("h3") == pat && Close("h3") == close;
      var rest := h + (close + t);
      Assoc(pat, rest, b);
      Assoc(h, close + t, b);
      Assoc(close, t, b);
      ReplaceAllAtPattern(pat, rest + b, rep);
      PassesFree(h, pat, rep);
      UsePasses(h, (close + t) + b, pat, rep);
      Mismatch(close, pat, 1);
      PassesTag(close, pat, rep);
      UsePasses(close, t + b, pat, rep);
      PassesBlockTail(s.items, pat, rep);
      UsePasses(t, b, pat, rep);
      var rb := ReplaceAll(b, pat, rep);
      Assoc(rep, rest, rb);
      Assoc(h, close + t, rb);
      Assoc(close, t, rb);
    }
  }


  lemma UsePasses(a: string, b: string, pat: string, rep: string)
    requires pat != [] && Passes(a, pat, rep)
    ensures ReplaceAll(a + b, pat, rep) == a + ReplaceAll(b, pat, rep)
  {
  }
  /** Text `a` becomes `a2` under the rewrite, whatever follows it. */
  ghost predicate Maps(a: string, a2: string, pat: string, rep: string)
    requires pat != []
  {
    forall b :: ReplaceAll(a + b, pat, rep) == a2 + ReplaceAll(b, pat, rep)
  }

  lemma UseMaps(a: string, a2: string, b: string, pat: string, rep: string)
    requires pat != [] && Maps(a, a2, pat, rep)
    ensures ReplaceAll(a + b, pat, rep) == a2 + ReplaceAll(b, pat, rep)
  {
  }

  lemma MapsEmpty(pat: string, rep: string)
    requires pat != []
    ensures Maps("", "", pat, rep)
  {
    forall b ensures ReplaceAll("" + b, pat, rep) == "" + ReplaceAll(b, pat, rep) {
      assert "" + b == b && "" + ReplaceAll(b, pat, rep) == ReplaceAll(b, pat, rep);
    }
  }

  lemma MapsJoin(a: string, a2: string, c: string, c2: string, pat: string, rep: string)
    requires pat != [] && Maps(a, a2, pat, rep) && Maps(c, c2, pat, rep)
    ensures Maps(a + c, a2 + c2, pat, rep)
  {
    forall b ensures ReplaceAll(a + c + b, pat, rep) == a2 + c2 + ReplaceAll(b, pat, rep) {
      Assoc(a, c, b);
      UseMaps(a, a2, c + b, pat, rep);
      UseMaps(c, c2, b, pat, rep);
      Assoc(a2, c2, ReplaceAll(b, pat, rep));
    }
  }


  /** The second pass turns the remaining closing `h3` tag into the level's. */
  lemma RetagBlockClose(level: string, s: Section)
    requires LevelOk(level) && PlainSection(s)
    ensures Maps(TaggedBlock(Open(level), "</h3>", s.heading, s.items), DayBlock(level, s), "</h3>", Close(level))
  {
    forall b ensures ReplaceAll(TaggedBlock(Open(level), "</h3>", s.heading, s.items) + b, "</h3>", Close(level))
                     == DayBlock(level, s) + ReplaceAll(b, "</h3>", Close(level)) {
      var pat, rep, open := "</h3>", Close(level), Open(level);
      var h, t := s.heading, BlockTail(s.items);
      Assoc(open, h + (pat + t), b);
      Assoc(h, pat + t, b);
      Assoc(pat, t, b);
      PassesOpenLevel(level, rep);
      UsePasses(open, (h + (pat + t)) + b, pat, rep);
      PassesFree(h, pat, rep);
      UsePasses(h, (pat + t) + b, pat, rep);
      ReplaceAllAtPattern(pat, t + b, rep);
      PassesBlockTail(s.items, pat, rep);
      UsePasses(t, b, pat, rep);
      var rb := ReplaceAll(b, pat, rep);
      Assoc(open, h + (rep + t), rb);
      Assoc(h, rep + t, rb);
      Assoc(rep, t, rb);
    }
  }


  /** Blocks with the level's opening tag and a closing `h3` tag: the text between the two passes. */
  function HalfBlocks(level: string, ss: seq<Section>): (r: seq<string>)
    ensures |r| == |ss|
    ensures forall k :: 0 <= k < |ss| ==> r[k] == TaggedBlock(Open(level), "</h3>", ss[k].heading, ss[k].items)
  {
    seq(|ss|, k requires 0 <= k < |ss| => TaggedBlock(Open(level), "</h3>", ss[k].heading, ss[k].items))
  }

  /** The export of a non-empty list is that of all but its last section followed by the last block. */
  lemma RenderInit(tag: string, ss: seq<Section>)
    requires ss != []
    ensures Render(tag, ss) == Render(tag, ss[..|ss| - 1]) + DayBlock(tag, ss[|ss| - 1])
  {
    var blocks := Blocks(tag, ss);
    assert blocks[..|ss| - 1] == Blocks(tag, ss[..|ss| - 1]);
  }

  lemma HalvesInit(level: string, ss: seq<Section>)
    requires ss != []
    ensures var last := ss[|ss| - 1];
            Concat(HalfBlocks(level, ss)) ==
            Concat(HalfBlocks(level, ss[..|ss| - 1])) + TaggedBlock(Open(level), "</h3>", last.heading, last.items)
  {
    var halves := HalfBlocks(level, ss);
    assert halves[..|ss| - 1] == HalfBlocks(level, ss[..|ss| - 1]);
  }

  lemma {:induction false} RetagOpenAll(level: string, ss: seq<Section>)
    requires PlainSections(ss)
    ensures Maps(Render("h3", ss), Concat(HalfBlocks(level, ss)), "<h3>", Open(level))
    decreases |ss|
  {
    var pat, rep := "<h3>", Open(level);
    if ss == [] {
      MapsEmpty(pat, rep);
    } else {
      var init, last := ss[..|ss| - 1], ss[|ss| - 1];
      RenderInit("h3", ss);
      HalvesInit(level, ss);
      PlainSectionsInit(ss);
      RetagOpenAll(level, init);
      RetagBlockOpen(level, last);
      MapsJoin(Render("h3", init), Concat(HalfBlocks(level, init)),
               DayBlock("h3", last), TaggedBlock(Open(level), "</h3>", last.heading, last.items), pat, rep);
    }
  }

  lemma {:induction false} RetagCloseAll(level: string, ss: seq<Section>)
    requires LevelOk(level) && PlainSections(ss)
    ensures Maps(Concat(HalfBlocks(level, ss)), Render(level, ss), "</h3>", Close(level))
    decreases |ss|
  {
    var pat, rep := "</h3>", Close(level);
    if ss == [] {
      MapsEmpty(pat, rep);
    } else {
      var init, last := ss[..|ss| - 1], ss[|ss| - 1];
      RenderInit(level, ss);
      HalvesInit(level, ss);
      PlainSectionsInit(ss);
      RetagCloseAll(level, init);
      RetagBlockClose(level, last);
      MapsJoin(Concat(HalfBlocks(level, init)), Render(level, init),
               TaggedBlock(Open(level), "</h3>", last.heading, last.items), DayBlock(level, last), pat, rep);
    }
  }


  /**
   * Rewriting HTML generated with `h3` headings gives the HTML generated
   * with the chosen level, as long as no heading or item text contains `<`.
   */
  lemma RetagRender(level: string, ss: seq<Section>)
    requires LevelOk(level) && PlainSections(ss)
    ensures Retag(Render("h3", ss), level) == Render(level, ss)
  {
    var half := ReplaceAll(Render("h3", ss), Open("h3"), Open(level));
    FirstPass(level, ss);
    SecondPass(level, ss);
    assert Retag(Render("h3", ss), level) == ReplaceAll(half, Close("h3"), Close(level));
  }

  lemma FirstPass(level: string, ss: seq<Section>)
    requires PlainSections(ss)
    ensures ReplaceAll(Render("h3", ss), Open("h3"), Open(level)) == Concat(HalfBlocks(level, ss))
  {
    assert Open("h3") == "<h3>";
    var html, half := Render("h3", ss), Concat(HalfBlocks(level, ss));
    RetagOpenAll(level, ss);
    UseMaps(html, half, "", "<h3>", Open(level));
    assert html + "" == html && half + "" == half;
  }

  lemma SecondPass(level: string, ss: seq<Section>)
    requires LevelOk(level) && PlainSections(ss)
    ensures ReplaceAll(Concat(HalfBlocks(level, ss)), Close("h3"), Close(level)) == Render(level, ss)
  {
    assert Close("h3") == "</h3>";
    var half := Concat(HalfBlocks(level, ss));
    RetagCloseAll(level, ss);
    UseMaps(half, Render(level, ss), "", "</h3>", Close(level));
    assert half + "" == half && Render(level, ss) + "" == Render(level, ss);
  }

  /** The rewrite also reaches heading tags typed into an item's text. */
  lemma RetagReachesItemText()
    ensures Retag(ItemLine(Item("1", "<h3>")), "h1") == ItemLine(Item("1", "<h1>"))
  {
    var pat1, rep1, pat2, rep2 := "<h3>", "<h1>", "</h3>", "</h1>";
    assert Open("h3") == pat1 && Open("h1") == rep1 && Close("h3") == pat2 && Close("h1") == rep2;
    PassesEntryStart(pat1, rep1);
    PassesEntryEnd(pat1, rep1);
    assert ItemLine(Item("1", pat1)) == EntryStart + (pat1 + (EntryEnd + ""));
    ReplaceAllAtPattern(pat1, EntryEnd + "", rep1);
    var once := EntryStart + (rep1 + (EntryEnd + ""));
    assert ReplaceAll(ItemLine(Item("1", pat1)), pat1, rep1) == once;
    PassesEntryStart(pat2, rep2);
    PassesOpenLevel("h1", rep2);
    PassesEntryEnd(pat2, rep2);
    assert ItemLine(Item("1", rep1)) == once;
  }
}
