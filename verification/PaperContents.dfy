/**
 What the pages say: for any fonts, and wherever the page breaks fall, the marks of a paper
 read from top to bottom give exactly its text, its rules and its pictures, in order.
 */
module PaperContents {
  import opened Wrappers
  import opened PaperLayout
  import LineWrap

  // ----- reading what was drawn -----

  /** A letter that leaves ink, or one of the other things on a page. */
  datatype Sign = Letter(c: char) | Numbered(n: nat) | Marked(n: nat) | Labelled(name: string) | Ruled | Pictured

  function Letters(s: string): seq<Sign> {
    if s == "" then [] else (if s[0] == ' ' then [] else [Letter(s[0])]) + Letters(s[1..])
  }

  function SignsOf(ink: Ink): seq<Sign> {
    match ink
    case Number(n) => [Numbered(n)]
    case Marks(n) => [Marked(n)]
    case PartLabel(name) => [Labelled(name)]
    case Line(text) => Letters(text)
    case Rule => [Ruled]
    case Picture => [Pictured]
  }

  /** All that is drawn but the page headers, in the order drawn. */
  function Said(drawn: seq<Mark>): seq<Sign> {
    if drawn == [] then []
    else (if drawn[0].group == PageHeader then [] else SignsOf(drawn[0].ink)) + Said(drawn[1..])
  }

  /** Each mark stands on a later page than the one before it, or no higher on the same page. */
  predicate Follows(a: Mark, b: Mark) {
    a.page < b.page || (a.page == b.page && a.low >= b.low)
  }

  predicate AboveCursor(c: Cursor, m: Mark) {
    m.page < c.page || (m.page == c.page && m.low >= c.y)
  }

  /** The marks run down the pages, and the cursor is below them all. */
  ghost predicate InOrder(c: Cursor) {
    && (forall i, j :: 0 <= i < j < |c.drawn| ==> Follows(c.drawn[i], c.drawn[j]))
    && (forall i :: 0 <= i < |c.drawn| ==> AboveCursor(c, c.drawn[i]))
  }

  // ----- what is to be said -----

  function Repeat(n: nat): seq<Sign> {
    seq(n, i => Ruled)
  }

  function SchemeSays(scheme: seq<string>): seq<Sign> {
    if scheme == [] then [] else Letters(scheme[0]) + SchemeSays(scheme[1..])
  }

  /** The question to the students; the answer, or that there is none, and how it is marked to the teacher. */
  function PartSays(kind: Kind, p: Part): seq<Sign> {
    [Labelled(p.name), Marked(p.marks)]
    + match kind
      case QuestionPaper => Letters(p.prompt) + Repeat(p.workingLines)
      case AnswerKey => Letters(if p.answer == "" then "No answer supplied." else p.answer) + SchemeSays(p.scheme)
  }

  function PartsSay(kind: Kind, parts: seq<Part>): seq<Sign> {
    if parts == [] then [] else PartSays(kind, parts[0]) + PartsSay(kind, parts[1..])
  }

  function FigureSays(diagram: Option<Diagram>): seq<Sign> {
    match diagram
    case None => []
    case Some(g) =>
      match g.rendered
      case Nothing => []
      case Failed => Letters("Diagram: " + g.alt)
      case Image(_) => [Pictured] + Letters(g.caption)
  }

  function QuestionSays(kind: Kind, q: Question, index: nat): seq<Sign> {
    [Numbered(index + 1), Marked(q.marks)] + Letters(q.prompt) + FigureSays(q.diagram)
    + match kind
      case QuestionPaper =>
        PartsSay(kind, q.parts) + (if q.parts == [] then Repeat(q.workingLines) else [])
      case AnswerKey =>
        (if q.parts != [] then [] else Letters(if q.answer == "" then "No answer supplied." else q.answer))
        + SchemeSays(q.scheme)
        + PartsSay(kind, q.parts)
        + (if q.source == "" then [] else Letters("Source note: " + q.source))
  }

  function PaperSays(kind: Kind, questions: seq<Question>, index: nat): seq<Sign>
    requires index <= |questions|
    decreases |questions| - index
  {
    if index == |questions| then []
    else QuestionSays(kind, questions[index], index) + PaperSays(kind, questions, index + 1)
  }

  // ----- steps -----

  /** The step adds just these signs, and goes on down the pages. */
  ghost predicate Says(c: Cursor, c': Cursor, signs: seq<Sign>) {
    Said(c'.drawn) == Said(c.drawn) + signs && (InOrder(c) ==> InOrder(c'))
  }

  lemma SaysBoth(c: Cursor, c1: Cursor, c2: Cursor, a: seq<Sign>, b: seq<Sign>)
    requires Says(c, c1, a) && Says(c1, c2, b)
    ensures Says(c, c2, a + b)
  {
    LineWrap.Regroup(Said(c.drawn), a, b);
  }

  lemma {:induction false} SaidBoth(a: seq<Mark>, b: seq<Mark>)
    ensures Said(a + b) == Said(a) + Said(b)
  {
    if a == [] {
      assert a + b == b;
    } else {
      assert (a + b)[1..] == a[1..] + b;
      SaidBoth(a[1..], b);
    }
  }

  /** One mark below all others, and the cursor moved to it or below it. */
  lemma OneMark(c: Cursor, m: Mark, y: real)
    requires m.page == c.page && y <= m.low <= c.y
    ensures Says(c, Cursor(c.page, y, c.drawn + [m]), if m.group == PageHeader then [] else SignsOf(m.ink))
  {
    var c' := Cursor(c.page, y, c.drawn + [m]);
    SaidBoth(c.drawn, [m]);
    assert Said([m]) == (if m.group == PageHeader then [] else SignsOf(m.ink)) + Said([m][1..]);
    if InOrder(c) {
      StaysInOrder(c, m, y);
    }
  }

  lemma StaysInOrder(c: Cursor, m: Mark, y: real)
    requires InOrder(c) && m.page == c.page && y <= m.low <= c.y
    ensures InOrder(Cursor(c.page, y, c.drawn + [m]))
  {
    var c' := Cursor(c.page, y, c.drawn + [m]);
    forall i, j | 0 <= i < j < |c'.drawn| ensures Follows(c'.drawn[i], c'.drawn[j]) {
      assert AboveCursor(c, c.drawn[i]);
      assert j < |c.drawn| ==> Follows(c.drawn[i], c.drawn[j]);
    }
    forall i | 0 <= i < |c'.drawn| ensures AboveCursor(c', c'.drawn[i]) {
      assert i < |c.drawn| ==> AboveCursor(c, c.drawn[i]);
    }
  }

  lemma MovesDown(c: Cursor, height: real)
    requires height >= 0.0
    ensures Says(c, Down(c, height), [])
  {
    if InOrder(c) {
      forall i | 0 <= i < |c.drawn| ensures AboveCursor(Down(c, height), c.drawn[i]) {
        assert AboveCursor(c, c.drawn[i]);
      }
    }
  }

  function LinesSay(lines: seq<string>, group: Group): seq<Sign> {
    if group == PageHeader || lines == [] then [] else Letters(lines[0]) + LinesSay(lines[1..], group)
  }

  lemma {:induction false} LinesAreSaid(c: Cursor, lines: seq<string>, lineHeight: real, group: Group)
    requires lineHeight >= 0.0
    ensures Says(c, DrawLines(c, lines, lineHeight, group), LinesSay(lines, group))
    decreases |lines|
  {
    if lines == [] {
      assert c.drawn + [] == c.drawn;
    } else {
      var m := Mark(c.page, c.y, group, Line(lines[0]));
      var c1 := Cursor(c.page, c.y - lineHeight, c.drawn + [m]);
      OneMark(c, m, c.y - lineHeight);
      LinesAreSaid(c1, lines[1..], lineHeight, group);
      LineWrap.Regroup(c.drawn, [m], LineMarks(c.page, c.y - lineHeight, lines[1..], lineHeight, group));
      assert c.y - lineHeight - (|lines| - 1) as real * lineHeight == c.y - |lines| as real * lineHeight;
      assert DrawLines(c1, lines[1..], lineHeight, group) == DrawLines(c, lines, lineHeight, group);
      SaysBoth(c, c1, DrawLines(c, lines, lineHeight, group),
               if group == PageHeader then [] else Letters(lines[0]), LinesSay(lines[1..], group));
    }
  }

  // ----- the lines of a text say the text -----

  lemma {:induction false} LettersBoth(a: string, b: string)
    ensures Letters(a + b) == Letters(a) + Letters(b)
  {
    if a == "" {
      assert a + b == b;
    } else {
      assert (a + b)[1..] == a[1..] + b;
      LettersBoth(a[1..], b);
    }
  }

  lemma {:induction false} LettersOfInk(s: string)
    ensures Letters(s) == Letters(LineWrap.Ink(s))
  {
    if s != "" {
      LettersOfInk(s[1..]);
      var first := if s[0] == ' ' then "" else [s[0]];
      LettersBoth(first, LineWrap.Ink(s[1..]));
      assert s[0] != ' ' ==> Letters(first) == [Letter(s[0])] + Letters(first[1..]);
    }
  }

  lemma {:induction false} LettersOfLines(lines: seq<string>, group: Group)
    requires group != PageHeader
    ensures LinesSay(lines, group) == Letters(LineWrap.Concat(lines))
  {
    if lines != [] {
      LettersOfLines(lines[1..], group);
      LettersBoth(lines[0], LineWrap.Concat(lines[1..]));
    }
  }

  lemma TextIsKept(d: Design, text: string, style: Style, group: Group)
    ensures LinesSay(Lines(d, text, style), group) == if group == PageHeader then [] else Letters(text)
  {
    if group != PageHeader {
      var font := if style.strong then d.bold else d.regular;
      LineWrap.WrappingKeepsText(text, style.width, s => font(s, style.size));
      LettersOfLines(Lines(d, text, style), group);
      LettersOfInk(text);
      LettersOfInk(LineWrap.Concat(Lines(d, text, style)));
    }
  }

  // ----- pages and blocks of text -----

  lemma BlockOfLines(c: Cursor, lines: seq<string>, lineHeight: real, gapAfter: real, group: Group)
    requires lineHeight >= 0.0 && gapAfter >= 0.0
    ensures Says(c, Down(DrawLines(c, lines, lineHeight, group), gapAfter), LinesSay(lines, group))
  {
    var c1, signs := DrawLines(c, lines, lineHeight, group), LinesSay(lines, group);
    LinesAreSaid(c, lines, lineHeight, group);
    MovesDown(c1, gapAfter);
    SaysBoth(c, c1, Down(c1, gapAfter), signs, []);
    assert signs + [] == signs;
  }

  lemma TopOfPage(c: Cursor)
    ensures Says(c, Cursor(c.page + 1, TOP, c.drawn), [])
  {
    var top := Cursor(c.page + 1, TOP, c.drawn);
    if InOrder(c) {
      forall i | 0 <= i < |c.drawn| ensures AboveCursor(top, c.drawn[i]) {
        assert AboveCursor(c, c.drawn[i]);
      }
    }
  }

  lemma PageTurns(c: Cursor, d: Design)
    ensures Says(c, NewPage(c, d), [])
  {
    var top := Cursor(c.page + 1, TOP, c.drawn);
    TopOfPage(c);
    if d.repeatHeader && d.header != "" {
      var lines := Lines(d, d.header, HEADER_STYLE);
      BlockOfLines(top, lines, 11.0, 7.0, PageHeader);
      SaysBoth(c, top, Down(DrawLines(top, lines, 11.0, PageHeader), 7.0), [], []);
    }
  }

  /** What the page headers among the marks say. */
  function HeadersSay(drawn: seq<Mark>): seq<Sign> {
    if drawn == [] then []
    else (if drawn[0].group == PageHeader then SignsOf(drawn[0].ink) else []) + HeadersSay(drawn[1..])
  }

  lemma HeadersSayFirst(m: Mark, rest: seq<Mark>)
    requires m.group == PageHeader
    ensures HeadersSay([m] + rest) == SignsOf(m.ink) + HeadersSay(rest)
  {
    assert ([m] + rest)[1..] == rest;
  }

  lemma {:induction false} HeaderLines(page: nat, y: real, lines: seq<string>, lineHeight: real)
    ensures HeadersSay(LineMarks(page, y, lines, lineHeight, PageHeader)) == Letters(LineWrap.Concat(lines))
    decreases |lines|
  {
    if lines != [] {
      var rest := LineMarks(page, y - lineHeight, lines[1..], lineHeight, PageHeader);
      HeaderLines(page, y - lineHeight, lines[1..], lineHeight);
      HeadersSayFirst(Mark(page, y, PageHeader, Line(lines[0])), rest);
      LettersBoth(lines[0], LineWrap.Concat(lines[1..]));
    }
  }

  lemma {:induction false} HeaderMarksAre(page: nat, y: real, lines: seq<string>, lineHeight: real)
    ensures forall m <- LineMarks(page, y, lines, lineHeight, PageHeader) :: m.page == page && m.group == PageHeader
    decreases |lines|
  {
    if lines != [] {
      HeaderMarksAre(page, y - lineHeight, lines[1..], lineHeight);
    }
  }

  /** A new page starts with the header, if it is to be repeated, and with nothing else. */
  lemma HeaderIsRepeated(c: Cursor, d: Design) returns (header: seq<Mark>)
    ensures NewPage(c, d).drawn == c.drawn + header
    ensures HeadersSay(header) == if d.repeatHeader then Letters(d.header) else []
    ensures forall m <- header :: m.page == c.page + 1 && m.group == PageHeader
  {
    header := [];
    if d.repeatHeader && d.header != "" {
      header := LineMarks(c.page + 1, TOP, Lines(d, d.header, HEADER_STYLE), 11.0, PageHeader);
      HeaderMarksAre(c.page + 1, TOP, Lines(d, d.header, HEADER_STYLE), 11.0);
      HeaderIsWhole(c, d);
    }
  }

  lemma HeaderIsWhole(c: Cursor, d: Design)
    ensures HeadersSay(LineMarks(c.page + 1, TOP, Lines(d, d.header, HEADER_STYLE), 11.0, PageHeader)) == Letters(d.header)
  {
    var lines := Lines(d, d.header, HEADER_STYLE);
    HeaderLines(c.page + 1, TOP, lines, 11.0);
    TextIsKept(d, d.header, HEADER_STYLE, Loose);
    LettersOfLines(lines, Loose);
  }

  lemma SpaceIsMade(c: Cursor, d: Design, height: real)
    ensures Says(c, EnsureSpace(c, d, height), [])
  {
    PageTurns(c, d);
  }

  lemma TextIsSaid(c: Cursor, d: Design, text: string, style: Style, group: Group)
    requires style.lineHeight >= 0.0 && style.gapAfter >= 0.0 && group != PageHeader
    ensures Says(c, DrawWrapped(c, d, text, style, group), Letters(text))
  {
    TextIsKept(d, text, style, group);
    WrappedIsSaid(c, d, WrappedHeight(d, text, style), Lines(d, text, style), style, group, Letters(text));
  }

  lemma WrappedIsSaid(c: Cursor, d: Design, need: real, lines: seq<string>, style: Style, group: Group, signs: seq<Sign>)
    requires style.lineHeight >= 0.0 && style.gapAfter >= 0.0 && LinesSay(lines, group) == signs
    ensures Says(c, Down(DrawLines(EnsureSpace(c, d, need), lines, style.lineHeight, group), style.gapAfter), signs)
  {
    var c1 := EnsureSpace(c, d, need);
    SpaceIsMade(c, d, need);
    BlockOfLines(c1, lines, style.lineHeight, style.gapAfter, group);
    SaysBoth(c, c1, Down(DrawLines(c1, lines, style.lineHeight, group), style.gapAfter), [], signs);
    assert [] + signs == signs;
  }

  lemma SpacedTextIsSaid(c: Cursor, d: Design, need: real, text: string, style: Style)
    requires style.lineHeight >= 0.0 && style.gapAfter >= 0.0
    ensures Says(c, DrawWrapped(EnsureSpace(c, d, need), d, text, style, Loose), Letters(text))
  {
    var c1 := EnsureSpace(c, d, need);
    SpaceIsMade(c, d, need);
    TextIsSaid(c1, d, text, style, Loose);
    SaysBoth(c, c1, DrawWrapped(c1, d, text, style, Loose), [], Letters(text));
    assert [] + Letters(text) == Letters(text);
  }

  lemma {:induction false} SchemeIsSaid(c: Cursor, d: Design, scheme: seq<string>, x: real)
    ensures Says(c, DrawScheme(c, d, scheme, x), SchemeSays(scheme))
    decreases |scheme|
  {
    if scheme != [] {
      var style := SchemeStyle(A4_WIDTH - PAGE_MARGIN - x);
      var need := WrappedHeight(d, scheme[0], style);
      var c2 := DrawWrapped(EnsureSpace(c, d, need), d, scheme[0], style, Loose);
      SpacedTextIsSaid(c, d, need, scheme[0], style);
      SchemeIsSaid(c2, d, scheme[1..], x);
      SaysBoth(c, c2, DrawScheme(c, d, scheme, x), Letters(scheme[0]), SchemeSays(scheme[1..]));
    }
  }

  lemma {:induction false} RulesAreSaid(c: Cursor, d: Design, n: nat)
    ensures Says(c, DrawRules(c, d, n), Repeat(n))
    decreases n
  {
    if n > 0 {
      RuleIsSaid(c, d);
      RulesAreSaid(DrawRule(c, d), d, n - 1);
      SaysBoth(c, DrawRule(c, d), DrawRules(c, d, n), [Ruled], Repeat(n - 1));
      assert [Ruled] + Repeat(n - 1) == Repeat(n);
    } else {
      assert Repeat(0) == [];
    }
  }

  lemma RuleIsSaid(c: Cursor, d: Design)
    ensures Says(c, DrawRule(c, d), [Ruled])
  {
    var c1 := EnsureSpace(c, d, 18.0);
    SpaceIsMade(c, d, 18.0);
    OneMark(c1, Mark(c1.page, c1.y - 12.0, Loose, Rule), c1.y - 12.0 - 6.0);
    SaysBoth(c, c1, DrawRule(c, d), [], [Ruled]);
  }

  lemma PictureIsSaid(c: Cursor, height: real)
    requires height >= 0.0
    ensures Says(c, Cursor(c.page, c.y - (height + 5.0), c.drawn + [Mark(c.page, c.y - height, Loose, Picture)]), [Pictured])
  {
    OneMark(c, Mark(c.page, c.y - height, Loose, Picture), c.y - (height + 5.0));
  }

  lemma ImageIsSaid(c: Cursor, d: Design, height: real)
    requires height >= 0.0
    ensures var c1 := EnsureSpace(c, d, height + 26.0);
      var m := Mark(c1.page, c1.y - height, Loose, Picture);
      Says(c, Cursor(c1.page, c1.y - (height + 5.0), c1.drawn + [m]), [Pictured])
  {
    var c1 := EnsureSpace(c, d, height + 26.0);
    var m := Mark(c1.page, c1.y - height, Loose, Picture);
    SpaceIsMade(c, d, height + 26.0);
    PictureIsSaid(c1, height);
    SaysBoth(c, c1, Cursor(c1.page, c1.y - (height + 5.0), c1.drawn + [m]), [], [Pictured]);
  }

  lemma DiagramIsSaid(c: Cursor, d: Design, g: Diagram)
    requires g.rendered.Image? ==> g.rendered.height >= 0.0
    ensures Says(c, DrawDiagram(c, d, g), FigureSays(Some(g)))
  {
    match g.rendered
    case Nothing =>
    case Failed => TextIsSaid(c, d, "Diagram: " + g.alt, ALT_STYLE, Loose);
    case Image(height) =>
      var c1 := EnsureSpace(c, d, height + 26.0);
      var m := Mark(c1.page, c1.y - height, Loose, Picture);
      var c3 := Cursor(c1.page, c1.y - (height + 5.0), c1.drawn + [m]);
      ImageThenCaption(c, c3, d, g);
      ImageIsSaid(c, d, height);
      CaptionIsSaid(c, c3, d, g);
  }

  lemma ImageThenCaption(c: Cursor, c3: Cursor, d: Design, g: Diagram)
    requires g.rendered.Image?
    requires var height := g.rendered.height;
      var c1 := EnsureSpace(c, d, height + 26.0);
      c3 == Cursor(c1.page, c1.y - (height + 5.0), c1.drawn + [Mark(c1.page, c1.y - height, Loose, Picture)])
    ensures DrawDiagram(c, d, g)
         == if g.caption == "" then c3 else DrawWrapped(c3, d, g.caption, CAPTION_STYLE, Loose)
  {
  }

  lemma CaptionIsSaid(c: Cursor, c3: Cursor, d: Design, g: Diagram)
    requires Says(c, c3, [Pictured])
    ensures Says(c, if g.caption == "" then c3 else DrawWrapped(c3, d, g.caption, CAPTION_STYLE, Loose),
                 [Pictured] + Letters(g.caption))
  {
    if g.caption == "" {
      assert [Pictured] + Letters("") == [Pictured];
    } else {
      TextIsSaid(c3, d, g.caption, CAPTION_STYLE, Loose);
      SaysBoth(c, c3, DrawWrapped(c3, d, g.caption, CAPTION_STYLE, Loose), [Pictured], Letters(g.caption));
    }
  }

  /** Two marks at the cursor, and a text. */
  lemma LabelledIsSaid(c: Cursor, d: Design, group: Group, a: Ink, b: Ink, text: string, style: Style)
    requires style.lineHeight >= 0.0 && style.gapAfter >= 0.0 && group != PageHeader
    ensures Says(c, DrawWrapped(Put(Put(c, group, a), group, b), d, text, style, group),
                 SignsOf(a) + SignsOf(b) + Letters(text))
  {
    var c1 := Put(c, group, a);
    var c2 := Put(c1, group, b);
    OneMark(c, Mark(c.page, c.y, group, a), c.y);
    OneMark(c1, Mark(c.page, c.y, group, b), c.y);
    TextIsSaid(c2, d, text, style, group);
    SaysBoth(c, c1, c2, SignsOf(a), SignsOf(b));
    SaysBoth(c, c2, DrawWrapped(c2, d, text, style, group), SignsOf(a) + SignsOf(b), Letters(text));
  }

  /** Space, two marks, a text. */
  lemma BlockIsSaid(c: Cursor, d: Design, need: real, group: Group, a: Ink, b: Ink, text: string, style: Style)
    requires style.lineHeight >= 0.0 && style.gapAfter >= 0.0 && group != PageHeader
    ensures Says(c, DrawWrapped(Put(Put(EnsureSpace(c, d, need), group, a), group, b), d, text, style, group),
                 SignsOf(a) + SignsOf(b) + Letters(text))
  {
    var c1 := EnsureSpace(c, d, need);
    SpaceIsMade(c, d, need);
    LabelledIsSaid(c1, d, group, a, b, text, style);
    var signs := SignsOf(a) + SignsOf(b) + Letters(text);
    SaysBoth(c, c1, DrawWrapped(Put(Put(c1, group, a), group, b), d, text, style, group), [], signs);
    assert [] + signs == signs;
  }

  /** A part says its own question to the students, and its own answer and scheme to the teacher. */
  lemma PartIsSaid(c: Cursor, d: Design, kind: Kind, p: Part, index: nat, part: nat)
    ensures Says(c, DrawPart(c, d, kind, p, index, part), PartSays(kind, p))
  {
    var text := if kind.QuestionPaper? then p.prompt else if p.answer == "" then "No answer supplied." else p.answer;
    var first := if kind.QuestionPaper? && p.workingLines > 0 then 18.0 else 0.0;
    var need, g := WrappedHeight(d, text, PART_STYLE) + first, PartText(index, part);
    var c3 := DrawWrapped(Put(Put(EnsureSpace(c, d, need), g, PartLabel(p.name)), g, Marks(p.marks)),
                          d, text, PART_STYLE, g);
    BlockIsSaid(c, d, need, g, PartLabel(p.name), Marks(p.marks), text, PART_STYLE);
    PartRestIsSaid(c, c3, d, kind, p, text);
  }

  lemma PartRestIsSaid(c: Cursor, c3: Cursor, d: Design, kind: Kind, p: Part, text: string)
    requires text == if kind.QuestionPaper? then p.prompt else if p.answer == "" then "No answer supplied." else p.answer
    requires Says(c, c3, [Labelled(p.name)] + [Marked(p.marks)] + Letters(text))
    ensures Says(c, if kind.QuestionPaper? then DrawRules(c3, d, p.workingLines)
                    else DrawScheme(c3, d, p.scheme, PAGE_MARGIN + 62.0), PartSays(kind, p))
  {
    var head := [Labelled(p.name)] + [Marked(p.marks)] + Letters(text);
    PartInOrder(kind, p, text);
    if kind.QuestionPaper? {
      RulesAreSaid(c3, d, p.workingLines);
      SaysBoth(c, c3, DrawRules(c3, d, p.workingLines), head, Repeat(p.workingLines));
    } else {
      SchemeIsSaid(c3, d, p.scheme, PAGE_MARGIN + 62.0);
      SaysBoth(c, c3, DrawScheme(c3, d, p.scheme, PAGE_MARGIN + 62.0), head, SchemeSays(p.scheme));
    }
  }

  lemma PartInOrder(kind: Kind, p: Part, text: string)
    requires text == if kind.QuestionPaper? then p.prompt else if p.answer == "" then "No answer supplied." else p.answer
    ensures PartSays(kind, p) == [Labelled(p.name)] + [Marked(p.marks)] + Letters(text)
                                 + if kind.QuestionPaper? then Repeat(p.workingLines) else SchemeSays(p.scheme)
  {
    var rest := if kind.QuestionPaper? then Repeat(p.workingLines) else SchemeSays(p.scheme);
    assert [Labelled(p.name)] + [Marked(p.marks)] == [Labelled(p.name), Marked(p.marks)];
    LineWrap.Regroup([Labelled(p.name), Marked(p.marks)], Letters(text), rest);
  }

  lemma {:induction false} PartsAreSaid(c: Cursor, d: Design, kind: Kind, q: Question, index: nat, part: nat)
    requires part <= |q.parts|
    ensures Says(c, DrawParts(c, d, kind, q, index, part), PartsSay(kind, q.parts[part..]))
    decreases |q.parts| - part
  {
    if part < |q.parts| {
      var c1 := DrawPart(c, d, kind, q.parts[part], index, part);
      PartIsSaid(c, d, kind, q.parts[part], index, part);
      PartsAreSaid(c1, d, kind, q, index, part + 1);
      SaysBoth(c, c1, DrawParts(c, d, kind, q, index, part),
               PartSays(kind, q.parts[part]), PartsSay(kind, q.parts[part + 1..]));
      assert q.parts[part..][0] == q.parts[part] && q.parts[part..][1..] == q.parts[part + 1..];
    }
  }

  // ----- a question -----

  lemma HeadIsSaid(c: Cursor, d: Design, kind: Kind, q: Question, index: nat)
    ensures Says(c, DrawHead(c, d, kind, q, index), [Numbered(index + 1), Marked(q.marks)] + Letters(q.prompt))
  {
    BlockIsSaid(c, d, SpaceWanted(d, kind, q), Head(index), Number(index + 1), Marks(q.marks), q.prompt, PROMPT_STYLE);
    assert [Numbered(index + 1)] + [Marked(q.marks)] == [Numbered(index + 1), Marked(q.marks)];
  }

  function AnswerSays(kind: Kind, q: Question): seq<Sign> {
    if kind.QuestionPaper? then []
    else
      (if q.parts != [] then [] else Letters(if q.answer == "" then "No answer supplied." else q.answer))
      + SchemeSays(q.scheme)
  }

  function TailSays(kind: Kind, q: Question): seq<Sign> {
    if kind.QuestionPaper? then if q.parts == [] then Repeat(q.workingLines) else []
    else if q.source == "" then [] else Letters("Source note: " + q.source)
  }

  lemma AnswerIsSaid(c: Cursor, d: Design, kind: Kind, q: Question)
    ensures Says(c, DrawAnswer(c, d, kind, q), AnswerSays(kind, q))
  {
    if kind.AnswerKey? {
      var text := if q.answer == "" then "No answer supplied." else q.answer;
      var c1 := if q.parts == [] then DrawWrapped(c, d, text, ANSWER_STYLE, Loose) else c;
      if q.parts == [] {
        TextIsSaid(c, d, text, ANSWER_STYLE, Loose);
      }
      SchemeIsSaid(c1, d, q.scheme, PAGE_MARGIN + 36.0);
      SaysBoth(c, c1, DrawAnswer(c, d, kind, q), if q.parts != [] then [] else Letters(text), SchemeSays(q.scheme));
    }
  }

  lemma TailIsSaid(c: Cursor, d: Design, kind: Kind, q: Question)
    ensures Says(c, DrawTail(c, d, kind, q), TailSays(kind, q))
  {
    if kind.QuestionPaper? {
      RulesAreSaid(c, d, q.workingLines);
    } else if q.source != "" {
      TextIsSaid(c, d, "Source note: " + q.source, SOURCE_STYLE, Loose);
    }
  }

  predicate HasHeight(q: Question) {
    q.diagram.Some? && q.diagram.value.rendered.Image? ==> q.diagram.value.rendered.height >= 0.0
  }

  lemma QuestionIsSaid(c: Cursor, d: Design, kind: Kind, q: Question, index: nat)
    requires HasHeight(q)
    ensures Says(c, DrawQuestion(c, d, kind, q, index), QuestionSays(kind, q, index))
  {
    var head := [Numbered(index + 1), Marked(q.marks)] + Letters(q.prompt);
    var c1 := DrawHead(c, d, kind, q, index);
    var c2 := DrawFigure(c1, d, q);
    var c3 := DrawAnswer(c2, d, kind, q);
    var c4 := DrawParts(c3, d, kind, q, index, 0);
    var c5 := DrawTail(c4, d, kind, q);
    HeadIsSaid(c, d, kind, q, index);
    if q.diagram.Some? {
      DiagramIsSaid(c1, d, q.diagram.value);
    }
    AnswerIsSaid(c2, d, kind, q);
    PartsAreSaid(c3, d, kind, q, index, 0);
    assert q.parts[0..] == q.parts;
    TailIsSaid(c4, d, kind, q);
    SaysBoth(c, c1, c2, head, FigureSays(q.diagram));
    SaysBoth(c3, c4, c5, PartsSay(kind, q.parts), TailSays(kind, q));
    SaysBoth(c2, c3, c5, AnswerSays(kind, q), PartsSay(kind, q.parts) + TailSays(kind, q));
    SaysBoth(c, c2, c5, head + FigureSays(q.diagram), AnswerSays(kind, q) + (PartsSay(kind, q.parts) + TailSays(kind, q)));
    QuestionInOrder(kind, q, index);
    var c6 := DrawQuestion(c, d, kind, q, index);
    assert c6 == Down(c5, 14.0) || c6 == Down(c5, 9.0);
    MovesDown(c5, 14.0);
    MovesDown(c5, 9.0);
    SaysBoth(c, c5, c6, QuestionSays(kind, q, index), []);
  }

  lemma QuestionInOrder(kind: Kind, q: Question, index: nat)
    ensures QuestionSays(kind, q, index)
         == ([Numbered(index + 1), Marked(q.marks)] + Letters(q.prompt)) + FigureSays(q.diagram)
            + (AnswerSays(kind, q) + (PartsSay(kind, q.parts) + TailSays(kind, q)))
  {
    if kind.QuestionPaper? {
      assert [] + (PartsSay(kind, q.parts) + TailSays(kind, q)) == PartsSay(kind, q.parts) + TailSays(kind, q);
    } else {
      var answer := if q.parts != [] then [] else Letters(if q.answer == "" then "No answer supplied." else q.answer);
      LineWrap.Regroup(answer + SchemeSays(q.scheme), PartsSay(kind, q.parts), TailSays(kind, q));
    }
  }

  /**
   The questions of a paper, drawn anywhere on any page and in any fonts, say exactly what
   is in them, in order and down the pages: prompts and rules to the students, answers and
   schemes to the teacher.
   */
  lemma {:induction false} PaperIsSaid(c: Cursor, d: Design, kind: Kind, questions: seq<Question>, index: nat)
    requires index <= |questions|
    requires forall i :: index <= i < |questions| ==> HasHeight(questions[i])
    ensures Says(c, DrawQuestions(c, d, kind, questions, index), PaperSays(kind, questions, index))
    decreases |questions| - index
  {
    if index < |questions| {
      var c1 := DrawQuestion(c, d, kind, questions[index], index);
      QuestionIsSaid(c, d, kind, questions[index], index);
      PaperIsSaid(c1, d, kind, questions, index + 1);
      SaysBoth(c, c1, DrawQuestions(c, d, kind, questions, index),
               QuestionSays(kind, questions[index], index), PaperSays(kind, questions, index + 1));
    }
  }
}
