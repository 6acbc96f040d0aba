/** What the page layout promises: nothing that belongs together is ever separated. */
module LayoutGuarantees {
  import opened Wrappers
  import opened PaperLayout
  import LineWrap

  // ----- fresh pages -----

  function FreshTop(d: Design): real {
    NewPage(Cursor(0, TOP, []), d).y
  }

  /** A block of this height fits on a page with nothing but the repeated header. */
  predicate FitsFresh(d: Design, height: real) {
    FreshTop(d) - height >= CONTENT_BOTTOM
  }

  predicate TextFits(d: Design, text: string, style: Style) {
    FitsFresh(d, WrappedHeight(d, text, style))
  }

  predicate SchemeFits(d: Design, scheme: seq<string>, width: real) {
    forall i :: 0 <= i < |scheme| ==> TextFits(d, scheme[i], SchemeStyle(width))
  }

  predicate PartFits(d: Design, kind: Kind, p: Part) {
    && TextFits(d, PartBody(kind, p), PART_STYLE)
    && (kind.AnswerKey? ==> SchemeFits(d, p.scheme, CONTENT_WIDTH - 62.0))
  }

  predicate DiagramFits(d: Design, g: Diagram) {
    match g.rendered
    case Nothing => true
    case Failed => TextFits(d, "Diagram: " + g.alt, ALT_STYLE)
    case Image(height) =>
      0.0 <= height && FitsFresh(d, height + 26.0) && (g.caption != "" ==> TextFits(d, g.caption, CAPTION_STYLE))
  }

  /** Every block of the question fits on a fresh page by itself. */
  predicate BlocksFit(d: Design, kind: Kind, q: Question) {
    && TextFits(d, q.prompt, PROMPT_STYLE)
    && (forall i :: 0 <= i < |q.parts| ==> PartFits(d, kind, q.parts[i]))
    && (q.diagram.Some? ==> DiagramFits(d, q.diagram.value))
    && (kind.AnswerKey? ==>
          && (q.parts == [] ==> TextFits(d, OrNone(q.answer), ANSWER_STYLE))
          && SchemeFits(d, q.scheme, CONTENT_WIDTH - 36.0)
          && (q.source != "" ==> TextFits(d, SourceNote(q.source), SOURCE_STYLE)))
  }

  // ----- what a step adds -----

  predicate OfGroup(m: Mark, g: Group, page: nat) {
    m.group == g && m.low >= CONTENT_BOTTOM && (g != Loose ==> m.page == page)
  }

  /**
   Everything added belongs to `g` and stands above the bottom margin, or is a page header;
   if `g` is to be kept together, all of it is on the page the step ends on.
   */
  ghost predicate AddsOnly(c: Cursor, c': Cursor, g: Group) {
    && c.page <= c'.page
    && c.drawn <= c'.drawn
    && forall i :: |c.drawn| <= i < |c'.drawn| ==>
         c'.drawn[i].group == PageHeader || OfGroup(c'.drawn[i], g, c'.page)
  }

  lemma AddsBoth(c: Cursor, c1: Cursor, c2: Cursor, g: Group)
    requires AddsOnly(c, c1, g) && AddsOnly(c1, c2, g)
    requires g == Loose || c1.page == c2.page
    ensures AddsOnly(c, c2, g)
  {
  }

  lemma {:induction false} HeaderMarks(page: nat, y: real, lines: seq<string>, lineHeight: real)
    ensures forall i :: 0 <= i < |LineMarks(page, y, lines, lineHeight, PageHeader)| ==>
              LineMarks(page, y, lines, lineHeight, PageHeader)[i].group == PageHeader
    decreases |lines|
  {
    if lines != [] {
      HeaderMarks(page, y - lineHeight, lines[1..], lineHeight);
    }
  }

  lemma NewPageIsFresh(c: Cursor, d: Design, g: Group)
    ensures NewPage(c, d).y == FreshTop(d) && NewPage(c, d).page == c.page + 1
    ensures AddsOnly(c, NewPage(c, d), g)
  {
    HeaderMarks(c.page + 1, TOP, Lines(d, d.header, HEADER_STYLE), 11.0);
  }

  lemma EnsuresSpace(c: Cursor, d: Design, height: real, g: Group)
    ensures var c' := EnsureSpace(c, d, height);
      && AddsOnly(c, c', g)
      && (FitsFresh(d, height) ==> c'.y - height >= CONTENT_BOTTOM)
      && c' == (if c.y - height < CONTENT_BOTTOM then NewPage(c, d) else c)
      && (c'.page == c.page <==> c.y - height >= CONTENT_BOTTOM)
      && (c.y - height < CONTENT_BOTTOM ==> c'.y == FreshTop(d))
  {
    NewPageIsFresh(c, d, g);
  }

  lemma {:induction false} LineMarksStand(page: nat, y: real, lines: seq<string>, lineHeight: real, g: Group)
    requires lineHeight >= 0.0 && y - |lines| as real * lineHeight >= CONTENT_BOTTOM
    ensures var marks := LineMarks(page, y, lines, lineHeight, g);
      |marks| == |lines| && forall i :: 0 <= i < |marks| ==>
        OfGroup(marks[i], g, page) && marks[i].ink == Line(lines[i])
    decreases |lines|
  {
    if lines != [] {
      var n := |lines| as real;
      assert (n - 1.0) * lineHeight == n * lineHeight - lineHeight;
      assert (|lines| - 1) as real == n - 1.0;
      assert n * lineHeight >= lineHeight by {
        assert (n - 1.0) * lineHeight >= 0.0;
      }
      LineMarksStand(page, y - lineHeight, lines[1..], lineHeight, g);
    }
  }

  ghost predicate Reasonable(style: Style) {
    style.lineHeight >= 0.0 && style.gapAfter >= 0.0
  }

  /** A block of text lands whole on one page, and moves the cursor by its measured height. */
  lemma DrawnWrapped(c: Cursor, d: Design, text: string, style: Style, g: Group)
    requires Reasonable(style) && TextFits(d, text, style)
    ensures var c' := DrawWrapped(c, d, text, style, g);
      var height := WrappedHeight(d, text, style);
      && AddsOnly(c, c', g)
      && c'.y >= CONTENT_BOTTOM
      && (c'.page == c.page <==> c.y - height >= CONTENT_BOTTOM)
      && (c'.page == c.page ==> c'.y == c.y - height)
  {
    LinesTogether(c, d, Lines(d, text, style), style, WrappedHeight(d, text, style), g);
  }

  lemma LinesTogether(c: Cursor, d: Design, lines: seq<string>, style: Style, height: real, g: Group)
    requires Reasonable(style) && FitsFresh(d, height)
    requires height == |lines| as real * style.lineHeight + style.gapAfter
    ensures var c' := Down(DrawLines(EnsureSpace(c, d, height), lines, style.lineHeight, g), style.gapAfter);
      && AddsOnly(c, c', g)
      && c'.y >= CONTENT_BOTTOM
      && (c'.page == c.page <==> c.y - height >= CONTENT_BOTTOM)
      && (c'.page == c.page ==> c'.y == c.y - height)
  {
    var c1 := EnsureSpace(c, d, height);
    EnsuresSpace(c, d, height, g);
    DrawnLines(c1, lines, style, height, g);
    OnePage(c, c1, Down(DrawLines(c1, lines, style.lineHeight, g), style.gapAfter), height, g);
  }

  lemma OnePage(c: Cursor, c1: Cursor, c2: Cursor, height: real, g: Group)
    requires AddsOnly(c, c1, g) && AddsOnly(c1, c2, g)
    requires c1.page == c2.page && c2.y == c1.y - height && c2.y >= CONTENT_BOTTOM
    requires c1.page == c.page <==> c.y - height >= CONTENT_BOTTOM
    requires c1.page == c.page ==> c1 == c
    ensures AddsOnly(c, c2, g)
    ensures c2.page == c.page <==> c.y - height >= CONTENT_BOTTOM
    ensures c2.page == c.page ==> c2.y == c.y - height
  {
  }

  lemma DrawnLines(c: Cursor, lines: seq<string>, style: Style, height: real, g: Group)
    requires Reasonable(style)
    requires height == |lines| as real * style.lineHeight + style.gapAfter
    requires c.y - height >= CONTENT_BOTTOM
    ensures var c' := Down(DrawLines(c, lines, style.lineHeight, g), style.gapAfter);
      AddsOnly(c, c', g) && c'.page == c.page && c'.y == c.y - height
  {
    LineMarksStand(c.page, c.y, lines, style.lineHeight, g);
    var marks := LineMarks(c.page, c.y, lines, style.lineHeight, g);
    assert forall i :: 0 <= i < |marks| ==> (c.drawn + marks)[|c.drawn| + i] == marks[i];
  }

  lemma AtLeastOne(n: real, height: real)
    requires n >= 1.0 && height >= 0.0
    ensures n * height >= height
  {
    assert n * height == (n - 1.0) * height + height;
  }

  lemma TextHeight(d: Design, text: string, style: Style)
    requires Reasonable(style)
    ensures WrappedHeight(d, text, style) >= style.lineHeight + style.gapAfter >= 0.0
  {
    var font := if style.strong then d.bold else d.regular;
    LineWrap.EveryLineFits(text, style.width, s => font(s, style.size));
    var n := |Lines(d, text, style)| as real;
    assert n >= 1.0;
    AtLeastOne(n, style.lineHeight);
  }

  // ----- kept together -----

  predicate Kept(g: Group) {
    g.Head? || g.PartText?
  }

  ghost predicate Together(drawn: seq<Mark>) {
    forall i, j :: 0 <= i < |drawn| && 0 <= j < |drawn| ==>
      drawn[i].group == drawn[j].group && Kept(drawn[i].group) ==> drawn[i].page == drawn[j].page
  }

  ghost predicate AboveBottom(drawn: seq<Mark>) {
    forall i :: 0 <= i < |drawn| ==> drawn[i].group == PageHeader || drawn[i].low >= CONTENT_BOTTOM
  }

  /** Groups in the order they are drawn: a head, then its parts. `step` counts within a question. */
  predicate Earlier(g: Group, question: nat, step: nat) {
    match g
    case Head(q) => q < question || (q == question && 0 < step)
    case PartText(q, p) => q < question || (q == question && p + 1 < step)
    case _ => true
  }

  ghost predicate Tidy(c: Cursor, question: nat, step: nat) {
    && Together(c.drawn) && AboveBottom(c.drawn)
    && forall i :: 0 <= i < |c.drawn| ==> Earlier(c.drawn[i].group, question, step)
  }

  lemma TidyLoose(c: Cursor, c': Cursor, question: nat, step: nat)
    requires Tidy(c, question, step) && AddsOnly(c, c', Loose)
    ensures Tidy(c', question, step)
  {
    assert forall i :: 0 <= i < |c.drawn| ==> c'.drawn[i] == c.drawn[i];
  }

  lemma TidyBlock(c: Cursor, c': Cursor, g: Group, question: nat, step: nat)
    requires Tidy(c, question, step) && AddsOnly(c, c', g)
    requires g == if step == 0 then Head(question) else PartText(question, step - 1)
    ensures Tidy(c', question, step + 1)
  {
    assert forall i :: 0 <= i < |c.drawn| ==> c'.drawn[i] == c.drawn[i];
    assert forall i :: 0 <= i < |c.drawn| ==> c.drawn[i].group != g;
  }

  /** Everything of one group, in the order drawn. */
  function InksOf(drawn: seq<Mark>, g: Group): seq<Ink> {
    if drawn == [] then []
    else (if drawn[0].group == g then [drawn[0].ink] else []) + InksOf(drawn[1..], g)
  }

  lemma {:induction false} InksOfBoth(a: seq<Mark>, b: seq<Mark>, g: Group)
    ensures InksOf(a + b, g) == InksOf(a, g) + InksOf(b, g)
  {
    if a == [] {
      assert a + b == b;
    } else {
      assert (a + b)[1..] == a[1..] + b;
      InksOfBoth(a[1..], b, g);
      LineWrap.Regroup(if a[0].group == g then [a[0].ink] else [], InksOf(a[1..], g), InksOf(b, g));
    }
  }

  lemma {:induction false} InksOfNone(marks: seq<Mark>, g: Group)
    requires forall i :: 0 <= i < |marks| ==> marks[i].group != g
    ensures InksOf(marks, g) == []
  {
    if marks != [] {
      InksOfNone(marks[1..], g);
    }
  }

  /** A step that adds only to other groups leaves this one as it was. */
  lemma Untouched(c: Cursor, c': Cursor, other: Group, g: Group)
    requires AddsOnly(c, c', other) && g != other && g != PageHeader
    ensures InksOf(c'.drawn, g) == InksOf(c.drawn, g)
  {
    var more := c'.drawn[|c.drawn|..];
    assert c'.drawn == c.drawn + more;
    InksOfBoth(c.drawn, more, g);
    InksOfNone(more, g);
  }

  function LineInks(lines: seq<string>): (inks: seq<Ink>)
    ensures |inks| == |lines|
  {
    seq(|lines|, i requires 0 <= i < |lines| => Line(lines[i]))
  }

  lemma {:induction false} InksOfLines(page: nat, y: real, lines: seq<string>, lineHeight: real, g: Group)
    ensures InksOf(LineMarks(page, y, lines, lineHeight, g), g) == LineInks(lines)
    decreases |lines|
  {
    if lines != [] {
      InksOfLines(page, y - lineHeight, lines[1..], lineHeight, g);
      assert LineInks(lines) == [Line(lines[0])] + LineInks(lines[1..]);
    }
  }

  lemma InksOfWrapped(c: Cursor, d: Design, text: string, style: Style, g: Group)
    requires g != PageHeader
    ensures InksOf(DrawWrapped(c, d, text, style, g).drawn, g)
         == InksOf(c.drawn, g) + LineInks(Lines(d, text, style))
  {
    var lines := Lines(d, text, style);
    var c1 := EnsureSpace(c, d, WrappedHeight(d, text, style));
    InksOfLines(c1.page, c1.y, lines, style.lineHeight, g);
    InksOfBoth(c1.drawn, LineMarks(c1.page, c1.y, lines, style.lineHeight, g), g);
    InksOfEnsured(c, d, WrappedHeight(d, text, style), g);
  }

  lemma InksOfEnsured(c: Cursor, d: Design, height: real, g: Group)
    requires g != PageHeader
    ensures InksOf(EnsureSpace(c, d, height).drawn, g) == InksOf(c.drawn, g)
  {
    var other := if g == Loose then Head(0) else Loose;
    EnsuresSpace(c, d, height, other);
    Untouched(c, EnsureSpace(c, d, height), other, g);
  }

  lemma InksOfPut(c: Cursor, g: Group, ink: Ink)
    ensures InksOf(Put(c, g, ink).drawn, g) == InksOf(c.drawn, g) + [ink]
  {
    var mark := [Mark(c.page, c.y, g, ink)];
    InksOfBoth(c.drawn, mark, g);
    assert InksOf(mark, g) == [ink] + InksOf(mark[1..], g);
  }

  // ----- how far a step moves the cursor -----

  /**
   The step stays on its page exactly when `height` fits there, and then moves the cursor
   down by just that much; in any case it ends above the bottom margin.
   */
  ghost predicate Drops(c: Cursor, c': Cursor, height: real) {
    && c.page <= c'.page
    && c'.y >= CONTENT_BOTTOM
    && (c'.page == c.page <==> c.y - height >= CONTENT_BOTTOM)
    && (c'.page == c.page ==> c'.y == c.y - height)
  }

  lemma DropsBoth(c: Cursor, c1: Cursor, c2: Cursor, h1: real, h2: real)
    requires Drops(c, c1, h1) && Drops(c1, c2, h2) && h2 >= 0.0
    ensures Drops(c, c2, h1 + h2)
  {
  }

  lemma {:induction false} DrawnRules(c: Cursor, d: Design, n: nat)
    requires FitsFresh(d, 18.0) && c.y >= CONTENT_BOTTOM
    ensures var c' := DrawRules(c, d, n);
      AddsOnly(c, c', Loose) && Drops(c, c', n as real * 18.0)
    decreases n
  {
    if n > 0 {
      var c1, c2 := EnsureSpace(c, d, 18.0), DrawRule(c, d);
      EnsuresSpace(c, d, 18.0, Loose);
      AddsBoth(c, c1, c2, Loose);
      DrawnRules(c2, d, n - 1);
      AddsBoth(c, c2, DrawRules(c, d, n), Loose);
      DropsBoth(c, c2, DrawRules(c, d, n), 18.0, (n - 1) as real * 18.0);
    }
  }

  lemma {:induction false} SchemeHeightPositive(d: Design, scheme: seq<string>, width: real)
    ensures SchemeHeight(d, scheme, width) >= 0.0
  {
    if scheme != [] {
      TextHeight(d, scheme[0], SchemeStyle(width));
      SchemeHeightPositive(d, scheme[1..], width);
    }
  }

  lemma {:induction false} DrawnScheme(c: Cursor, d: Design, scheme: seq<string>, x: real)
    requires SchemeFits(d, scheme, A4_WIDTH - PAGE_MARGIN - x) && c.y >= CONTENT_BOTTOM
    ensures var c' := DrawScheme(c, d, scheme, x);
      AddsOnly(c, c', Loose) && Drops(c, c', SchemeHeight(d, scheme, A4_WIDTH - PAGE_MARGIN - x))
    decreases |scheme|
  {
    if scheme != [] {
      var width := A4_WIDTH - PAGE_MARGIN - x;
      var style := SchemeStyle(width);
      var height := WrappedHeight(d, scheme[0], style);
      var c1 := EnsureSpace(c, d, height);
      var c2 := DrawWrapped(c1, d, scheme[0], style, Loose);
      EnsuresSpace(c, d, height, Loose);
      DrawnWrapped(c1, d, scheme[0], style, Loose);
      AddsBoth(c, c1, c2, Loose);
      DrawnScheme(c2, d, scheme[1..], x);
      AddsBoth(c, c2, DrawScheme(c, d, scheme, x), Loose);
      SchemeHeightPositive(d, scheme[1..], width);
      DropsBoth(c, c2, DrawScheme(c, d, scheme, x), height, SchemeHeight(d, scheme[1..], width));
    }
  }

  // ----- one part -----

  function PartInks(d: Design, kind: Kind, p: Part): seq<Ink> {
    [PartLabel(p.name), Marks(p.marks)] + LineInks(Lines(d, PartBody(kind, p), PART_STYLE))
  }

  /** A label and a mark, then a text that fits below them: all on one page. */
  lemma DrawnLabelled(c: Cursor, d: Design, g: Group, first: Ink, second: Ink, text: string, style: Style)
    requires Reasonable(style) && TextFits(d, text, style)
    requires c.y - WrappedHeight(d, text, style) >= CONTENT_BOTTOM && g != PageHeader
    ensures var c' := DrawWrapped(Put(Put(c, g, first), g, second), d, text, style, g);
      && AddsOnly(c, c', g) && c'.page == c.page && c'.y == c.y - WrappedHeight(d, text, style)
      && c'.y >= CONTENT_BOTTOM
      && InksOf(c'.drawn, g) == InksOf(c.drawn, g) + ([first, second] + LineInks(Lines(d, text, style)))
  {
    var c1 := Put(Put(c, g, first), g, second);
    TextHeight(d, text, style);
    DrawnWrapped(c1, d, text, style, g);
    AddsBoth(c, c1, DrawWrapped(c1, d, text, style, g), g);
    InksOfPut(c, g, first);
    InksOfPut(Put(c, g, first), g, second);
    InksOfWrapped(c1, d, text, style, g);
    assert InksOf(c.drawn, g) + [first] + [second] + LineInks(Lines(d, text, style))
        == InksOf(c.drawn, g) + ([first, second] + LineInks(Lines(d, text, style)));
  }

  function DrawPartText(c: Cursor, d: Design, kind: Kind, p: Part, index: nat, part: nat): Cursor {
    var text := PartBody(kind, p);
    var first := if kind.QuestionPaper? && p.workingLines > 0 then 18.0 else 0.0;
    var c1 := EnsureSpace(c, d, WrappedHeight(d, text, PART_STYLE) + first);
    var g := PartText(index, part);
    DrawWrapped(Put(Put(c1, g, PartLabel(p.name)), g, Marks(p.marks)), d, text, PART_STYLE, g)
  }

  lemma PartTextTogether(c: Cursor, d: Design, kind: Kind, p: Part, index: nat, part: nat)
    requires PartFits(d, kind, p) && FitsFresh(d, 18.0)
    ensures var c' := DrawPartText(c, d, kind, p, index, part);
      var height := WrappedHeight(d, PartBody(kind, p), PART_STYLE);
      var first := if kind.QuestionPaper? && p.workingLines > 0 then 18.0 else 0.0;
      && AddsOnly(c, c', PartText(index, part)) && c'.y >= CONTENT_BOTTOM
      && (c'.page == c.page <==> c.y - (height + first) >= CONTENT_BOTTOM)
      && (c'.page == c.page ==> c'.y == c.y - height)
      && InksOf(c'.drawn, PartText(index, part))
         == InksOf(c.drawn, PartText(index, part)) + PartInks(d, kind, p)
  {
    var g := PartText(index, part);
    var text := PartBody(kind, p);
    var first := if kind.QuestionPaper? && p.workingLines > 0 then 18.0 else 0.0;
    var height := WrappedHeight(d, text, PART_STYLE);
    var c1 := EnsureSpace(c, d, height + first);
    EnsuresSpace(c, d, height + first, g);
    InksOfEnsured(c, d, height + first, g);
    DrawnLabelled(c1, d, g, PartLabel(p.name), Marks(p.marks), text, PART_STYLE);
    AddsBoth(c, c1, DrawPartText(c, d, kind, p, index, part), g);
  }

  /** A part keeps its label, mark and text on one page, and drops by its measured height. */
  lemma DrawnPart(c: Cursor, d: Design, kind: Kind, p: Part, index: nat, part: nat)
    requires PartFits(d, kind, p) && FitsFresh(d, 18.0)
    requires Tidy(c, index, part + 1)
    ensures var c' := DrawPart(c, d, kind, p, index, part);
      && Tidy(c', index, part + 2) && Drops(c, c', PartHeight(d, kind, p))
      && InksOf(c'.drawn, PartText(index, part))
         == InksOf(c.drawn, PartText(index, part)) + PartInks(d, kind, p)
      && forall g :: Kept(g) && g != PartText(index, part) ==> InksOf(c'.drawn, g) == InksOf(c.drawn, g)
  {
    var own := PartText(index, part);
    var c3, c' := DrawPartText(c, d, kind, p, index, part), DrawPart(c, d, kind, p, index, part);
    PartTextTogether(c, d, kind, p, index, part);
    if kind.QuestionPaper? {
      DrawnRules(c3, d, p.workingLines);
    } else {
      DrawnScheme(c3, d, p.scheme, PAGE_MARGIN + 62.0);
      SchemeHeightPositive(d, p.scheme, CONTENT_WIDTH - 62.0);
    }
    TidyBlock(c, c3, own, index, part + 1);
    TidyLoose(c3, c', index, part + 2);
    forall g | Kept(g) ensures InksOf(c'.drawn, g) == InksOf(c3.drawn, g) {
      Untouched(c3, c', Loose, g);
    }
    forall g | Kept(g) && g != own ensures InksOf(c3.drawn, g) == InksOf(c.drawn, g) {
      Untouched(c, c3, own, g);
    }
  }

  // ----- the parts of a question -----

  lemma {:induction false} PartsHeightPositive(d: Design, kind: Kind, parts: seq<Part>)
    ensures PartsHeight(d, kind, parts) >= 0.0
  {
    if parts != [] {
      TextHeight(d, PartBody(kind, parts[0]), PART_STYLE);
      SchemeHeightPositive(d, parts[0].scheme, CONTENT_WIDTH - 62.0);
      PartsHeightPositive(d, kind, parts[1..]);
    }
  }

  /** A group that belongs to part `from` of the question or a later one. */
  predicate OfPartsFrom(g: Group, index: nat, from: nat) {
    g.PartText? && g.question == index && g.part >= from
  }

  lemma {:induction false} DrawnParts(c: Cursor, d: Design, kind: Kind, q: Question, index: nat, part: nat)
    requires part <= |q.parts| && FitsFresh(d, 18.0) && c.y >= CONTENT_BOTTOM
    requires forall i :: 0 <= i < |q.parts| ==> PartFits(d, kind, q.parts[i])
    requires Tidy(c, index, part + 1)
    ensures var c' := DrawParts(c, d, kind, q, index, part);
      && Tidy(c', index, |q.parts| + 1) && Drops(c, c', PartsHeight(d, kind, q.parts[part..]))
      && (forall g :: Kept(g) && !OfPartsFrom(g, index, part) ==> InksOf(c'.drawn, g) == InksOf(c.drawn, g))
      && (forall i :: part <= i < |q.parts| ==>
            InksOf(c'.drawn, PartText(index, i))
            == InksOf(c.drawn, PartText(index, i)) + PartInks(d, kind, q.parts[i]))
    decreases |q.parts| - part
  {
    if part < |q.parts| {
      var p := q.parts[part];
      var c1 := DrawPart(c, d, kind, p, index, part);
      DrawnPart(c, d, kind, p, index, part);
      DrawnParts(c1, d, kind, q, index, part + 1);
      assert q.parts[part..][0] == p && q.parts[part..][1..] == q.parts[part + 1..];
      PartsHeightPositive(d, kind, q.parts[part + 1..]);
      DropsBoth(c, c1, DrawParts(c, d, kind, q, index, part),
                PartHeight(d, kind, p), PartsHeight(d, kind, q.parts[part + 1..]));
    }
  }

  // ----- a whole question -----

  function AnswerHeight(d: Design, kind: Kind, q: Question): real {
    (if kind.AnswerKey? && q.parts == [] then WrappedHeight(d, OrNone(q.answer), ANSWER_STYLE) else 0.0)
    + (if kind.AnswerKey? then SchemeHeight(d, q.scheme, CONTENT_WIDTH - 36.0) else 0.0)
  }

  function TailHeight(d: Design, kind: Kind, q: Question): real {
    (if q.parts == [] && kind.QuestionPaper? then q.workingLines as real * 18.0 else 0.0)
    + (if kind.AnswerKey? && q.source != "" then WrappedHeight(d, SourceNote(q.source), SOURCE_STYLE) else 0.0)
  }

  function BodyHeight(d: Design, kind: Kind, q: Question): real {
    AnswerHeight(d, kind, q) + PartsHeight(d, kind, q.parts) + TailHeight(d, kind, q)
  }

  lemma HeightsPositive(d: Design, kind: Kind, q: Question)
    ensures AnswerHeight(d, kind, q) >= 0.0 && TailHeight(d, kind, q) >= 0.0
    ensures PartsHeight(d, kind, q.parts) >= 0.0 && DiagramEstimate(d, q) >= 0.0
    ensures PromptHeight(d, q) >= 20.0
    ensures EstimatedHeight(d, kind, q)
         == PromptHeight(d, q) + 9.0 + DiagramEstimate(d, q) + BodyHeight(d, kind, q)
  {
    TextHeight(d, OrNone(q.answer), ANSWER_STYLE);
    SchemeHeightPositive(d, q.scheme, CONTENT_WIDTH - 36.0);
    TextHeight(d, SourceNote(q.source), SOURCE_STYLE);
    PartsHeightPositive(d, kind, q.parts);
    TextHeight(d, q.prompt, PROMPT_STYLE);
    if q.diagram.Some? {
      TextHeight(d, q.diagram.value.caption, CAPTION_STYLE);
    }
  }

  lemma DrawnAnswer(c: Cursor, d: Design, kind: Kind, q: Question)
    requires BlocksFit(d, kind, q) && c.y >= CONTENT_BOTTOM
    ensures var c' := DrawAnswer(c, d, kind, q);
      AddsOnly(c, c', Loose) && Drops(c, c', AnswerHeight(d, kind, q))
  {
    var c' := DrawAnswer(c, d, kind, q);
    if kind.AnswerKey? {
      var c1 := if q.parts == [] then DrawWrapped(c, d, OrNone(q.answer), ANSWER_STYLE, Loose) else c;
      if q.parts == [] {
        DrawnWrapped(c, d, OrNone(q.answer), ANSWER_STYLE, Loose);
      }
      DrawnScheme(c1, d, q.scheme, PAGE_MARGIN + 36.0);
      SchemeHeightPositive(d, q.scheme, CONTENT_WIDTH - 36.0);
      AddsBoth(c, c1, c', Loose);
    }
  }

  lemma DrawnTail(c: Cursor, d: Design, kind: Kind, q: Question)
    requires BlocksFit(d, kind, q) && FitsFresh(d, 18.0) && c.y >= CONTENT_BOTTOM
    ensures var c' := DrawTail(c, d, kind, q);
      AddsOnly(c, c', Loose) && Drops(c, c', TailHeight(d, kind, q))
  {
    if q.parts == [] && kind.QuestionPaper? {
      DrawnRules(c, d, q.workingLines);
    }
    if kind.AnswerKey? && q.source != "" {
      DrawnWrapped(c, d, SourceNote(q.source), SOURCE_STYLE, Loose);
    }
  }

  function CaptionHeight(d: Design, g: Diagram): real {
    if g.caption == "" then 0.0 else WrappedHeight(d, g.caption, CAPTION_STYLE)
  }

  /** How far a diagram moves the cursor on one page. */
  function FigureDrop(d: Design, q: Question): real {
    match q.diagram
    case None => 0.0
    case Some(g) =>
      match g.rendered
      case Nothing => 0.0
      case Failed => WrappedHeight(d, "Diagram: " + g.alt, ALT_STYLE)
      case Image(height) => height + 5.0 + CaptionHeight(d, g)
  }

  /** The room it takes to stay on its page: for a picture more is asked for than it uses. */
  function FigureNeed(d: Design, q: Question): real {
    if q.diagram.Some? && q.diagram.value.rendered.Image? && q.diagram.value.rendered.height + 26.0 > FigureDrop(d, q)
    then q.diagram.value.rendered.height + 26.0 else FigureDrop(d, q)
  }

  /** As `Drops`, where staying on the page takes more room than is used. */
  ghost predicate Falls(c: Cursor, c': Cursor, need: real, drop: real) {
    && c.page <= c'.page
    && c'.y >= CONTENT_BOTTOM
    && (c'.page == c.page <==> c.y - need >= CONTENT_BOTTOM)
    && (c'.page == c.page ==> c'.y == c.y - drop)
  }

  lemma DrawnFigure(c: Cursor, d: Design, kind: Kind, q: Question)
    requires BlocksFit(d, kind, q) && c.y >= CONTENT_BOTTOM
    ensures var c' := DrawFigure(c, d, q);
      AddsOnly(c, c', Loose) && Falls(c, c', FigureNeed(d, q), FigureDrop(d, q))
  {
    if q.diagram.Some? {
      var g := q.diagram.value;
      match g.rendered
      case Nothing =>
      case Failed => DrawnWrapped(c, d, "Diagram: " + g.alt, ALT_STYLE, Loose);
      case Image(height) => DrawnCaptioned(c, d, g, height);
    }
  }

  lemma FallsThenDrops(c: Cursor, c1: Cursor, c2: Cursor, need: real, drop: real, height: real)
    requires Falls(c, c1, need, drop) && Drops(c1, c2, height)
    ensures Falls(c, c2, if need > drop + height then need else drop + height, drop + height)
  {
  }

  lemma DrawnCaption(c: Cursor, d: Design, g: Diagram)
    requires g.caption != "" && TextFits(d, g.caption, CAPTION_STYLE)
    ensures var c' := DrawWrapped(c, d, g.caption, CAPTION_STYLE, Loose);
      AddsOnly(c, c', Loose) && Drops(c, c', CaptionHeight(d, g))
  {
    DrawnWrapped(c, d, g.caption, CAPTION_STYLE, Loose);
  }

  lemma DrawnCaptioned(c: Cursor, d: Design, g: Diagram, height: real)
    requires g.rendered == Image(height) && DiagramFits(d, g)
    ensures var c', drop := DrawDiagram(c, d, g), height + 5.0 + CaptionHeight(d, g);
      AddsOnly(c, c', Loose) && Falls(c, c', if height + 26.0 > drop then height + 26.0 else drop, drop)
  {
    var c3, c' := DrawImage(c, d, height), DrawDiagram(c, d, g);
    DrawnImage(c, d, height);
    if g.caption == "" {
      assert c' == c3;
    } else {
      assert c' == DrawWrapped(c3, d, g.caption, CAPTION_STYLE, Loose);
      DrawnCaption(c3, d, g);
      AddsBoth(c, c3, c', Loose);
      FallsThenDrops(c, c3, c', height + 26.0, height + 5.0, CaptionHeight(d, g));
    }
  }

  function DrawImage(c: Cursor, d: Design, height: real): Cursor {
    var c1 := EnsureSpace(c, d, height + 26.0);
    Down(c1.(drawn := c1.drawn + [Mark(c1.page, c1.y - height, Loose, Picture)]), height + 5.0)
  }

  lemma DrawnImage(c: Cursor, d: Design, height: real)
    requires 0.0 <= height && FitsFresh(d, height + 26.0)
    ensures var c' := DrawImage(c, d, height);
      AddsOnly(c, c', Loose) && Falls(c, c', height + 26.0, height + 5.0)
  {
    EnsuresSpace(c, d, height + 26.0, Loose);
    AddsBoth(c, EnsureSpace(c, d, height + 26.0), DrawImage(c, d, height), Loose);
  }

  /**
   The picture is absent, or drawn no taller than the 185 points it is scaled to fit, or
   the text drawn in its place is no taller than what was set aside for it.
   */
  predicate FigureAsExpected(d: Design, q: Question) {
    q.diagram.Some? ==>
      match q.diagram.value.rendered
      case Nothing => true
      case Image(height) => height <= 185.0
      case Failed => WrappedHeight(d, "Diagram: " + q.diagram.value.alt, ALT_STYLE) <= DiagramEstimate(d, q)
  }

  function HeadInks(d: Design, q: Question, index: nat): seq<Ink> {
    [Number(index + 1), Marks(q.marks)] + LineInks(Lines(d, q.prompt, PROMPT_STYLE))
  }

  /** A question's number, mark and whole prompt land on one page. */
  lemma DrawnHead(c: Cursor, d: Design, kind: Kind, q: Question, index: nat)
    requires BlocksFit(d, kind, q)
    ensures var c1, c' := EnsureSpace(c, d, SpaceWanted(d, kind, q)), DrawHead(c, d, kind, q, index);
      && AddsOnly(c, c', Head(index)) && c'.y >= CONTENT_BOTTOM
      && c'.page == c1.page && c'.y == c1.y - PromptHeight(d, q)
      && InksOf(c'.drawn, Head(index)) == InksOf(c.drawn, Head(index)) + HeadInks(d, q, index)
  {
    var g, wanted := Head(index), SpaceWanted(d, kind, q);
    var c1 := EnsureSpace(c, d, wanted);
    HeightsPositive(d, kind, q);
    assert wanted >= PromptHeight(d, q);
    EnsuresSpace(c, d, wanted, g);
    InksOfEnsured(c, d, wanted, g);
    DrawnLabelled(c1, d, g, Number(index + 1), Marks(q.marks), q.prompt, PROMPT_STYLE);
    AddsBoth(c, c1, DrawHead(c, d, kind, q, index), g);
  }

  /** Where the body of a question moves the cursor. */
  lemma BodyMoves(c: Cursor, d: Design, kind: Kind, q: Question, index: nat)
    requires BlocksFit(d, kind, q) && FitsFresh(d, 18.0) && c.y >= CONTENT_BOTTOM && Tidy(c, index, 1)
    ensures var c1, c' := DrawFigure(c, d, q), DrawBody(c, d, kind, q, index);
      Tidy(c', index, |q.parts| + 1) && Drops(c1, c', BodyHeight(d, kind, q))
  {
    var c1 := DrawFigure(c, d, q);
    var c2 := DrawAnswer(c1, d, kind, q);
    var c3 := DrawParts(c2, d, kind, q, index, 0);
    var c' := DrawTail(c3, d, kind, q);
    DrawnFigure(c, d, kind, q);
    DrawnAnswer(c1, d, kind, q);
    AddsBoth(c, c1, c2, Loose);
    TidyLoose(c, c2, index, 1);
    DrawnParts(c2, d, kind, q, index, 0);
    DrawnTail(c3, d, kind, q);
    TidyLoose(c3, c', index, |q.parts| + 1);
    AllDrop(c1, c2, c3, c', d, kind, q);
  }

  lemma AllDrop(c1: Cursor, c2: Cursor, c3: Cursor, c4: Cursor, d: Design, kind: Kind, q: Question)
    requires Drops(c1, c2, AnswerHeight(d, kind, q)) && Drops(c2, c3, PartsHeight(d, kind, q.parts[0..]))
    requires Drops(c3, c4, TailHeight(d, kind, q))
    ensures Drops(c1, c4, BodyHeight(d, kind, q))
  {
    assert q.parts[0..] == q.parts;
    HeightsPositive(d, kind, q);
    DropsBoth(c1, c2, c3, AnswerHeight(d, kind, q), PartsHeight(d, kind, q.parts));
    DropsBoth(c1, c3, c4, AnswerHeight(d, kind, q) + PartsHeight(d, kind, q.parts), TailHeight(d, kind, q));
  }

  /** What the body of a question draws of each kept group: the parts' texts, and nothing else. */
  lemma BodyInks(c: Cursor, d: Design, kind: Kind, q: Question, index: nat)
    requires BlocksFit(d, kind, q) && FitsFresh(d, 18.0) && c.y >= CONTENT_BOTTOM && Tidy(c, index, 1)
    ensures var drawn := DrawBody(c, d, kind, q, index).drawn;
      && (forall g :: Kept(g) && !OfPartsFrom(g, index, 0) ==> InksOf(drawn, g) == InksOf(c.drawn, g))
      && (forall i :: 0 <= i < |q.parts| ==>
            InksOf(drawn, PartText(index, i)) == InksOf(c.drawn, PartText(index, i)) + PartInks(d, kind, q.parts[i]))
  {
    var c1 := DrawFigure(c, d, q);
    var c2 := DrawAnswer(c1, d, kind, q);
    var c3 := DrawParts(c2, d, kind, q, index, 0);
    var c' := DrawTail(c3, d, kind, q);
    DrawnFigure(c, d, kind, q);
    DrawnAnswer(c1, d, kind, q);
    AddsBoth(c, c1, c2, Loose);
    TidyLoose(c, c2, index, 1);
    DrawnParts(c2, d, kind, q, index, 0);
    DrawnTail(c3, d, kind, q);
    OnlyLooseAdded(c, c2);
    OnlyLooseAdded(c3, c');
  }

  lemma OnlyLooseAdded(c: Cursor, c': Cursor)
    requires AddsOnly(c, c', Loose)
    ensures forall g :: Kept(g) ==> InksOf(c'.drawn, g) == InksOf(c.drawn, g)
  {
    forall g | Kept(g) ensures InksOf(c'.drawn, g) == InksOf(c.drawn, g) {
      Untouched(c, c', Loose, g);
    }
  }

  ghost predicate QuestionDrawn(d: Design, kind: Kind, q: Question, index: nat, drawn: seq<Mark>) {
    && InksOf(drawn, Head(index)) == HeadInks(d, q, index)
    && forall i :: 0 <= i < |q.parts| ==> InksOf(drawn, PartText(index, i)) == PartInks(d, kind, q.parts[i])
  }

  lemma {:induction false} NothingYet(drawn: seq<Mark>, g: Group, question: nat, step: nat)
    requires forall i :: 0 <= i < |drawn| ==> Earlier(drawn[i].group, question, step)
    requires !Earlier(g, question, step)
    ensures InksOf(drawn, g) == []
  {
    InksOfNone(drawn, g);
  }

  /** What is drawn of the question itself. */
  lemma QuestionInks(c: Cursor, d: Design, kind: Kind, q: Question, index: nat)
    requires BlocksFit(d, kind, q) && FitsFresh(d, 18.0) && Tidy(c, index, 0)
    ensures QuestionDrawn(d, kind, q, index, DrawQuestion(c, d, kind, q, index).drawn)
  {
    var c1 := DrawHead(c, d, kind, q, index);
    var drawn := DrawBody(c1, d, kind, q, index).drawn;
    DrawnHead(c, d, kind, q, index);
    TidyBlock(c, c1, Head(index), index, 0);
    BodyInks(c1, d, kind, q, index);
    NothingYet(c.drawn, Head(index), index, 0);
    assert [] + HeadInks(d, q, index) == HeadInks(d, q, index);
    forall i | 0 <= i < |q.parts| ensures InksOf(drawn, PartText(index, i)) == PartInks(d, kind, q.parts[i]) {
      NothingYet(c1.drawn, PartText(index, i), index, 1);
      assert [] + PartInks(d, kind, q.parts[i]) == PartInks(d, kind, q.parts[i]);
    }
  }

  /** And what was drawn of the questions before it stays. */
  lemma EarlierInks(c: Cursor, d: Design, kind: Kind, q: Question, index: nat)
    requires BlocksFit(d, kind, q) && FitsFresh(d, 18.0) && Tidy(c, index, 0)
    ensures forall g :: Kept(g) && Earlier(g, index, 0) ==>
              InksOf(DrawQuestion(c, d, kind, q, index).drawn, g) == InksOf(c.drawn, g)
  {
    var c1 := DrawHead(c, d, kind, q, index);
    DrawnHead(c, d, kind, q, index);
    TidyBlock(c, c1, Head(index), index, 0);
    BodyInks(c1, d, kind, q, index);
    forall g | Kept(g) && Earlier(g, index, 0) ensures InksOf(c1.drawn, g) == InksOf(c.drawn, g) {
      Untouched(c, c1, Head(index), g);
    }
  }

  lemma DrawnQuestion(c: Cursor, d: Design, kind: Kind, q: Question, index: nat)
    requires BlocksFit(d, kind, q) && Tidy(c, index, 0)
    ensures var c' := DrawQuestion(c, d, kind, q, index);
      && Tidy(c', index + 1, 0) && QuestionDrawn(d, kind, q, index, c'.drawn)
      && forall g :: Kept(g) && Earlier(g, index, 0) ==> InksOf(c'.drawn, g) == InksOf(c.drawn, g)
  {
    var c1 := DrawHead(c, d, kind, q, index);
    HeightsPositive(d, kind, q);
    DrawnHead(c, d, kind, q, index);
    TidyBlock(c, c1, Head(index), index, 0);
    BodyMoves(c1, d, kind, q, index);
    QuestionInks(c, d, kind, q, index);
    EarlierInks(c, d, kind, q, index);
    TidyNext(DrawBody(c1, d, kind, q, index), DrawQuestion(c, d, kind, q, index), index, |q.parts| + 1);
  }

  /** Down the page, the next question's groups are still to come. */
  lemma TidyNext(c: Cursor, c': Cursor, index: nat, step: nat)
    requires Tidy(c, index, step) && c'.drawn == c.drawn
    ensures Tidy(c', index + 1, 0)
  {
  }

  ghost predicate AllDrawn(d: Design, kind: Kind, questions: seq<Question>, drawn: seq<Mark>) {
    forall i :: 0 <= i < |questions| ==> QuestionDrawn(d, kind, questions[i], i, drawn)
  }

  lemma StillDrawn(d: Design, kind: Kind, q: Question, i: nat, before: seq<Mark>, after: seq<Mark>, index: nat)
    requires i < index && QuestionDrawn(d, kind, q, i, before)
    requires forall g :: Kept(g) && Earlier(g, index, 0) ==> InksOf(after, g) == InksOf(before, g)
    ensures QuestionDrawn(d, kind, q, i, after)
  {
    assert Kept(Head(i)) && Earlier(Head(i), index, 0);
    forall p | 0 <= p < |q.parts| ensures InksOf(after, PartText(i, p)) == PartInks(d, kind, q.parts[p]) {
      assert Kept(PartText(i, p)) && Earlier(PartText(i, p), index, 0);
    }
  }

  lemma NextDrawn(c: Cursor, d: Design, kind: Kind, questions: seq<Question>, index: nat)
    requires index < |questions| && Tidy(c, index, 0) && BlocksFit(d, kind, questions[index])
    requires AllDrawn(d, kind, questions[..index], c.drawn)
    ensures var c' := DrawQuestion(c, d, kind, questions[index], index);
      Tidy(c', index + 1, 0) && AllDrawn(d, kind, questions[..index + 1], c'.drawn)
  {
    var c' := DrawQuestion(c, d, kind, questions[index], index);
    DrawnQuestion(c, d, kind, questions[index], index);
    forall i | 0 <= i < index ensures QuestionDrawn(d, kind, questions[i], i, c'.drawn) {
      assert QuestionDrawn(d, kind, questions[..index][i], i, c.drawn);
      StillDrawn(d, kind, questions[i], i, c.drawn, c'.drawn, index);
    }
  }

  lemma {:induction false} DrawnQuestions(c: Cursor, d: Design, kind: Kind, questions: seq<Question>, index: nat)
    requires index <= |questions| && Tidy(c, index, 0)
    requires forall i :: 0 <= i < |questions| ==> BlocksFit(d, kind, questions[i])
    requires AllDrawn(d, kind, questions[..index], c.drawn)
    ensures var c' := DrawQuestions(c, d, kind, questions, index);
      Tidy(c', |questions|, 0) && AllDrawn(d, kind, questions, c'.drawn)
    decreases |questions| - index
  {
    if index == |questions| {
      assert questions[..index] == questions;
    } else {
      var c1 := DrawQuestion(c, d, kind, questions[index], index);
      NextDrawn(c, d, kind, questions, index);
      DrawnQuestions(c1, d, kind, questions, index + 1);
    }
  }

  // ----- main results -----

  /**
   For every paper whose text blocks each fit on a fresh page: a question's number, mark and
   whole prompt are drawn, on one page; so are each part's label, mark and text; and nothing
   in a question's body is drawn below the bottom margin. `c` is the cursor after the
   paper's own heading.
   */
  lemma NothingIsSeparated(c: Cursor, d: Design, kind: Kind, questions: seq<Question>)
    requires forall i :: 0 <= i < |c.drawn| ==> c.drawn[i].group == PageHeader
    requires forall i :: 0 <= i < |questions| ==> BlocksFit(d, kind, questions[i])
    ensures var drawn := DrawQuestions(c, d, kind, questions, 0).drawn;
      && Together(drawn)
      && AboveBottom(drawn)
      && AllDrawn(d, kind, questions, drawn)
  {
    DrawnQuestions(c, d, kind, questions, 0);
  }

  /** What a question really takes up on one page, the gap behind it left out. */
  function DrawnHeight(d: Design, kind: Kind, q: Question): real {
    PromptHeight(d, q) + FigureDrop(d, q) + BodyHeight(d, kind, q)
  }

  /** It stays on a page with this much room below its first line. */
  predicate StaysWithin(d: Design, kind: Kind, q: Question, room: real) {
    DrawnHeight(d, kind, q) <= room && PromptHeight(d, q) + FigureNeed(d, q) <= room
  }

  /**
   Measured height is drawn height. A question stays on the page it starts on exactly when
   what it takes up fits there, and the room asked for its picture does; and then it moves
   the cursor by just that, and the gap.
   */
  lemma MeasuredIsDrawn(c: Cursor, d: Design, kind: Kind, q: Question, index: nat)
    requires BlocksFit(d, kind, q) && Tidy(c, index, 0)
    ensures var start := EnsureSpace(c, d, SpaceWanted(d, kind, q));
      var end := DrawQuestion(c, d, kind, q, index);
      && start.page <= end.page
      && (end.page == start.page <==> StaysWithin(d, kind, q, start.y - CONTENT_BOTTOM))
      && (end.page == start.page ==> end.y == start.y - DrawnHeight(d, kind, q) - 9.0)
  {
    var c1 := DrawHead(c, d, kind, q, index);
    HeightsPositive(d, kind, q);
    DrawnHead(c, d, kind, q, index);
    TidyBlock(c, c1, Head(index), index, 0);
    DrawnFigure(c1, d, kind, q);
    BodyMoves(c1, d, kind, q, index);
    FigureDropPositive(d, q);
  }

  lemma FigureDropPositive(d: Design, q: Question)
    requires q.diagram.Some? ==> DiagramFits(d, q.diagram.value)
    ensures 0.0 <= FigureDrop(d, q) <= FigureNeed(d, q)
  {
    if q.diagram.Some? {
      TextHeight(d, "Diagram: " + q.diagram.value.alt, ALT_STYLE);
      TextHeight(d, q.diagram.value.caption, CAPTION_STYLE);
    }
  }

  /**
   The estimate is what a question without a diagram takes up, with the gap. A diagram drawn
   as expected takes no more than was estimated, and neither does the room asked for it.
   */
  lemma EstimateCovers(d: Design, kind: Kind, q: Question)
    requires BlocksFit(d, kind, q)
    ensures q.diagram.None? ==> EstimatedHeight(d, kind, q) == DrawnHeight(d, kind, q) + 9.0
    ensures FigureAsExpected(d, q) ==> StaysWithin(d, kind, q, EstimatedHeight(d, kind, q) - 9.0)
  {
    HeightsPositive(d, kind, q);
    if q.diagram.Some? {
      TextHeight(d, "Diagram: " + q.diagram.value.alt, ALT_STYLE);
      TextHeight(d, q.diagram.value.caption, CAPTION_STYLE);
    }
  }

  /** Where its estimate fits, a question with its diagram as expected stays, and moves the cursor no further. */
  lemma EstimateIsEnough(c: Cursor, d: Design, kind: Kind, q: Question, index: nat)
    requires BlocksFit(d, kind, q) && FigureAsExpected(d, q) && Tidy(c, index, 0)
    ensures var start := EnsureSpace(c, d, SpaceWanted(d, kind, q));
      var end := DrawQuestion(c, d, kind, q, index);
      start.y - EstimatedHeight(d, kind, q) >= CONTENT_BOTTOM ==>
        end.page == start.page && end.y >= start.y - EstimatedHeight(d, kind, q)
  {
    MeasuredIsDrawn(c, d, kind, q, index);
    EstimateCovers(d, kind, q);
  }

  /**
   A question whose estimate is within a page's capacity but that has no room where the
   cursor is starts a new page. It is then whole exactly when it fits below the repeated
   header, which the capacity it was compared with leaves out; without one, and with its
   diagram as expected, it always is.
   */
  lemma WholeOnNewPageIff(c: Cursor, d: Design, kind: Kind, q: Question, index: nat)
    requires BlocksFit(d, kind, q) && Tidy(c, index, 0)
    requires EstimatedHeight(d, kind, q) <= PAGE_CAPACITY
    requires c.y - EstimatedHeight(d, kind, q) < CONTENT_BOTTOM
    ensures DrawQuestion(c, d, kind, q, index).page == c.page + 1
       <==> StaysWithin(d, kind, q, FreshTop(d) - CONTENT_BOTTOM)
    ensures !d.repeatHeader && FigureAsExpected(d, q) ==> StaysWithin(d, kind, q, FreshTop(d) - CONTENT_BOTTOM)
  {
    MeasuredIsDrawn(c, d, kind, q, index);
    EnsuresSpace(c, d, SpaceWanted(d, kind, q), Loose);
    NewPageIsFresh(c, d, Loose);
    EstimateCovers(d, kind, q);
  }

  // ----- a question that is split although its estimate fits -----

  /** A regular font without width, and a bold one with room for one letter of the header on a line. */
  const NARROW := Design((text, size) => 0.0, (text, size) => if |text| <= 1 then 0.0 else 1000.0, "a b", true)

  const LONG_ANSWER := Question("?", 1, "", 39, [], None, "", [])

  lemma WordsOfTwo()
    ensures LineWrap.Words("a b") == ["a", "b"] && LineWrap.Words("?") == ["?"]
  {
    assert "a b"[1..] == " b" && " b"[1..] == "b" && "b"[1..] == "" && "?"[1..] == "";
    assert LineWrap.FirstWord("b") == "b" && LineWrap.FirstWord("?") == "?" && LineWrap.FirstWord("a b") == "a";
    assert LineWrap.Words("b") == ["b"] && LineWrap.Words("?") == ["?"];
    assert LineWrap.Words(" b") == LineWrap.Words("b");
    assert LineWrap.Words("a b") == ["a"] + LineWrap.Words(" b");
  }

  lemma TwoLines(width: real, font: LineWrap.Font)
    requires font("a") <= width && font("b") <= width && font("a b") > width
    ensures LineWrap.Wrapped("a b", width, font) == ["a", "b"]
  {
    WordsOfTwo();
    assert ["a", "b"][1..] == ["b"] && ["b"][1..] == [];
    assert LineWrap.Candidate("a", "b") == "a b";
    assert LineWrap.WrapFrom("b", [], width, font) == ["b"];
    assert LineWrap.WrapFrom("a", ["b"], width, font) == ["a"] + ["b"];
    assert LineWrap.WrapFrom("", ["a", "b"], width, font) == [] + (["a"] + ["b"]);
  }

  lemma OneLine(width: real, font: LineWrap.Font)
    requires font("?") <= width
    ensures LineWrap.Wrapped("?", width, font) == ["?"]
  {
    WordsOfTwo();
    assert ["?"][1..] == [];
    assert LineWrap.WrapFrom("", ["?"], width, font) == [] + ["?"];
  }

  lemma NarrowLines(header: Style, prompt: Style)
    requires header == HEADER_STYLE && prompt == PROMPT_STYLE
    ensures |Lines(NARROW, "a b", header)| == 2 && |Lines(NARROW, "?", prompt)| == 1
  {
    var bold := if header.strong then NARROW.bold else NARROW.regular;
    TwoLines(header.width, s => bold(s, header.size));
    var regular := if prompt.strong then NARROW.bold else NARROW.regular;
    OneLine(prompt.width, s => regular(s, prompt.size));
  }

  /** Below a header of two lines, 39 working lines are estimated at 731 points, and do not fit. */
  lemma HeaderSplitsQuestion(c: Cursor)
    requires Tidy(c, 0, 0) && c.y < CONTENT_BOTTOM + 731.0
    ensures EstimatedHeight(NARROW, QuestionPaper, LONG_ANSWER) == 731.0 <= PAGE_CAPACITY
    ensures DrawQuestion(c, NARROW, QuestionPaper, LONG_ANSWER, 0).page != c.page + 1
  {
    NarrowLines(HEADER_STYLE, PROMPT_STYLE);
    assert FreshTop(NARROW) == TOP - 2.0 * 11.0 - 7.0;
    assert WrappedHeight(NARROW, "?", PROMPT_STYLE) == 20.0;
    assert BlocksFit(NARROW, QuestionPaper, LONG_ANSWER);
    WholeOnNewPageIff(c, NARROW, QuestionPaper, LONG_ANSWER, 0);
    EstimateCovers(NARROW, QuestionPaper, LONG_ANSWER);
  }
}
