/**
 The worksheet PDF's page cursor and question layout (`createPaperPdf`). Coordinates are
 points measured upwards from the foot of the page; horizontal placement is left out.
 */
module PaperLayout {
  import opened Wrappers
  import LineWrap

  const A4_WIDTH := 595.28
  const A4_HEIGHT := 841.89
  const PAGE_MARGIN := 52.0
  const CONTENT_BOTTOM := 48.0
  const CONTENT_WIDTH := A4_WIDTH - PAGE_MARGIN * 2.0
  const TOP := A4_HEIGHT - PAGE_MARGIN
  const PAGE_CAPACITY := A4_HEIGHT - PAGE_MARGIN - CONTENT_BOTTOM
  const SCHEME_SIZE := 8.6
  const SCHEME_LINE_HEIGHT := 11.0

  // ----- what is laid out -----

  datatype Kind = QuestionPaper | AnswerKey

  /** How a picture came out: nothing to draw, an image scaled to some height, or an error. */
  datatype Rendered = Nothing | Image(height: real) | Failed

  datatype Diagram = Diagram(caption: string, alt: string, rendered: Rendered)

  /** `scheme` is the list of lines that `schemeLines` makes. */
  datatype Part = Part(name: string, prompt: string, marks: nat, answer: string,
                       workingLines: nat, scheme: seq<string>)

  datatype Question = Question(prompt: string, marks: nat, answer: string, workingLines: nat,
                               parts: seq<Part>, diagram: Option<Diagram>, source: string,
                               scheme: seq<string>)

  /** The fonts by text and size, and the teacher's header. */
  datatype Design = Design(regular: (string, real) -> real, bold: (string, real) -> real,
                           header: string, repeatHeader: bool)

  datatype Style = Style(width: real, size: real, lineHeight: real, strong: bool, gapAfter: real)

  // ----- what has been drawn -----

  /** What belongs together: a question's head, and each of its parts. */
  datatype Group = PageHeader | Head(question: nat) | PartText(question: nat, part: nat) | Loose

  datatype Ink = Number(n: nat) | Marks(n: nat) | PartLabel(name: string) | Line(text: string)
    | Rule | Picture

  /** `low` is the lowest point it is anchored at: a baseline, a rule, or a picture's foot. */
  datatype Mark = Mark(page: nat, low: real, group: Group, ink: Ink)

  datatype Cursor = Cursor(page: nat, y: real, drawn: seq<Mark>)

  // ----- text -----

  function Lines(d: Design, text: string, style: Style): seq<string> {
    var font := if style.strong then d.bold else d.regular;
    LineWrap.Wrapped(text, style.width, s => font(s, style.size))
  }

  function WrappedHeight(d: Design, text: string, style: Style): real {
    |Lines(d, text, style)| as real * style.lineHeight + style.gapAfter
  }

  function LineMarks(page: nat, y: real, lines: seq<string>, lineHeight: real, group: Group): seq<Mark>
    decreases |lines|
  {
    if lines == [] then []
    else
      [Mark(page, y, group, Line(lines[0]))] + LineMarks(page, y - lineHeight, lines[1..], lineHeight, group)
  }

  function DrawLines(c: Cursor, lines: seq<string>, lineHeight: real, group: Group): Cursor {
    Cursor(c.page, c.y - |lines| as real * lineHeight,
           c.drawn + LineMarks(c.page, c.y, lines, lineHeight, group))
  }

  function Put(c: Cursor, group: Group, ink: Ink): Cursor {
    c.(drawn := c.drawn + [Mark(c.page, c.y, group, ink)])
  }

  function Down(c: Cursor, height: real): Cursor {
    c.(y := c.y - height)
  }

  // ----- pages -----

  const HEADER_STYLE := Style(CONTENT_WIDTH, 8.5, 11.0, true, 7.0)

  function DrawCustomHeader(c: Cursor, d: Design): Cursor {
    if d.header == "" then c
    else Down(DrawLines(c, Lines(d, d.header, HEADER_STYLE), 11.0, PageHeader), 7.0)
  }

  function NewPage(c: Cursor, d: Design): Cursor {
    var top := Cursor(c.page + 1, TOP, c.drawn);
    if d.repeatHeader then DrawCustomHeader(top, d) else top
  }

  function EnsureSpace(c: Cursor, d: Design, height: real): Cursor {
    if c.y - height < CONTENT_BOTTOM then NewPage(c, d) else c
  }

  function DrawWrapped(c: Cursor, d: Design, text: string, style: Style, group: Group): Cursor {
    var c1 := EnsureSpace(c, d, WrappedHeight(d, text, style));
    Down(DrawLines(c1, Lines(d, text, style), style.lineHeight, group), style.gapAfter)
  }

  // ----- the styles of a question's blocks -----

  function Plain(width: real, size: real, gapAfter: real): Style {
    Style(width, size, size * 1.42, false, gapAfter)
  }

  const PROMPT_STYLE := Style(CONTENT_WIDTH - 70.0, 10.5, 15.0, false, 5.0)
  const CAPTION_STYLE := Style(CONTENT_WIDTH - 60.0, 8.0, 10.0, false, 4.0)
  const ANSWER_STYLE := Plain(CONTENT_WIDTH - 24.0, 9.8, 4.0)
  const PART_STYLE := Style(CONTENT_WIDTH - 96.0, 10.0, 14.2, false, 4.0)
  const SOURCE_STYLE := Plain(CONTENT_WIDTH - 24.0, 8.0, 0.0)
  const ALT_STYLE := Plain(CONTENT_WIDTH, 8.5, 4.0)

  function SchemeStyle(width: real): Style {
    Style(width, SCHEME_SIZE, SCHEME_LINE_HEIGHT, false, 1.0)
  }

  function OrNone(answer: string): string {
    if answer == "" then "No answer supplied." else answer
  }

  function PartBody(kind: Kind, p: Part): string {
    if kind.AnswerKey? then OrNone(p.answer) else p.prompt
  }

  function SourceNote(source: string): string {
    "Source note: " + source
  }

  // ----- the estimate -----

  function SchemeHeight(d: Design, scheme: seq<string>, width: real): real {
    if scheme == [] then 0.0
    else WrappedHeight(d, scheme[0], SchemeStyle(width)) + SchemeHeight(d, scheme[1..], width)
  }

  function PartHeight(d: Design, kind: Kind, p: Part): real {
    WrappedHeight(d, PartBody(kind, p), PART_STYLE)
    + (if kind.QuestionPaper? then p.workingLines as real * 18.0 else 0.0)
    + (if kind.AnswerKey? then SchemeHeight(d, p.scheme, CONTENT_WIDTH - 62.0) else 0.0)
  }

  function PartsHeight(d: Design, kind: Kind, parts: seq<Part>): real {
    if parts == [] then 0.0 else PartHeight(d, kind, parts[0]) + PartsHeight(d, kind, parts[1..])
  }

  function PromptHeight(d: Design, q: Question): real {
    WrappedHeight(d, q.prompt, PROMPT_STYLE)
  }

  function DiagramEstimate(d: Design, q: Question): real {
    match q.diagram
    case None => 0.0
    case Some(g) =>
      215.0 + if g.caption == "" then 0.0 else WrappedHeight(d, g.caption, CAPTION_STYLE)
  }

  function EstimatedHeight(d: Design, kind: Kind, q: Question): real {
    PromptHeight(d, q) + 9.0
    + DiagramEstimate(d, q)
    + (if kind.AnswerKey? && q.parts == [] then WrappedHeight(d, OrNone(q.answer), ANSWER_STYLE) else 0.0)
    + (if kind.AnswerKey? then SchemeHeight(d, q.scheme, CONTENT_WIDTH - 36.0) else 0.0)
    + PartsHeight(d, kind, q.parts)
    + (if q.parts == [] && kind.QuestionPaper? then q.workingLines as real * 18.0 else 0.0)
    + (if kind.AnswerKey? && q.source != "" then WrappedHeight(d, SourceNote(q.source), SOURCE_STYLE) else 0.0)
  }

  /** The room asked for before the question is started. */
  function SpaceWanted(d: Design, kind: Kind, q: Question): real {
    var estimate := EstimatedHeight(d, kind, q);
    if estimate <= PAGE_CAPACITY then estimate
    else if PromptHeight(d, q) + 20.0 > 80.0 then PromptHeight(d, q) + 20.0 else 80.0
  }

  // ----- drawing a question -----

  function DrawScheme(c: Cursor, d: Design, scheme: seq<string>, x: real): Cursor
    decreases |scheme|
  {
    if scheme == [] then c
    else
      var style := SchemeStyle(A4_WIDTH - PAGE_MARGIN - x);
      var c1 := EnsureSpace(c, d, WrappedHeight(d, scheme[0], style));
      DrawScheme(DrawWrapped(c1, d, scheme[0], style, Loose), d, scheme[1..], x)
  }

  function DrawRule(c: Cursor, d: Design): Cursor {
    Down(Put(Down(EnsureSpace(c, d, 18.0), 12.0), Loose, Rule), 6.0)
  }

  function DrawRules(c: Cursor, d: Design, n: nat): Cursor
    decreases n
  {
    if n == 0 then c else DrawRules(DrawRule(c, d), d, n - 1)
  }

  function DrawDiagram(c: Cursor, d: Design, g: Diagram): Cursor {
    match g.rendered
    case Nothing => c
    case Failed => DrawWrapped(c, d, "Diagram: " + g.alt, ALT_STYLE, Loose)
    case Image(height) =>
      var c1 := EnsureSpace(c, d, height + 26.0);
      var c2 := c1.(drawn := c1.drawn + [Mark(c1.page, c1.y - height, Loose, Picture)]);
      var c3 := Down(c2, height + 5.0);
      if g.caption == "" then c3 else DrawWrapped(c3, d, g.caption, CAPTION_STYLE, Loose)
  }

  function DrawHead(c: Cursor, d: Design, kind: Kind, q: Question, index: nat): Cursor {
    var c1 := EnsureSpace(c, d, SpaceWanted(d, kind, q));
    var c2 := Put(Put(c1, Head(index), Number(index + 1)), Head(index), Marks(q.marks));
    DrawWrapped(c2, d, q.prompt, PROMPT_STYLE, Head(index))
  }

  function DrawPart(c: Cursor, d: Design, kind: Kind, p: Part, index: nat, part: nat): Cursor {
    var text := PartBody(kind, p);
    var first := if kind.QuestionPaper? && p.workingLines > 0 then 18.0 else 0.0;
    var c1 := EnsureSpace(c, d, WrappedHeight(d, text, PART_STYLE) + first);
    var group := PartText(index, part);
    var c2 := Put(Put(c1, group, PartLabel(p.name)), group, Marks(p.marks));
    var c3 := DrawWrapped(c2, d, text, PART_STYLE, group);
    if kind.QuestionPaper? then DrawRules(c3, d, p.workingLines)
    else DrawScheme(c3, d, p.scheme, PAGE_MARGIN + 62.0)
  }

  function DrawParts(c: Cursor, d: Design, kind: Kind, q: Question, index: nat, part: nat): Cursor
    requires part <= |q.parts|
    decreases |q.parts| - part
  {
    if part == |q.parts| then c
    else DrawParts(DrawPart(c, d, kind, q.parts[part], index, part), d, kind, q, index, part + 1)
  }

  function DrawFigure(c: Cursor, d: Design, q: Question): Cursor {
    if q.diagram.Some? then DrawDiagram(c, d, q.diagram.value) else c
  }

  function DrawAnswer(c: Cursor, d: Design, kind: Kind, q: Question): Cursor {
    var c1 := if kind.AnswerKey? && q.parts == []
              then DrawWrapped(c, d, OrNone(q.answer), ANSWER_STYLE, Loose) else c;
    if kind.AnswerKey? then DrawScheme(c1, d, q.scheme, PAGE_MARGIN + 36.0) else c1
  }

  function DrawTail(c: Cursor, d: Design, kind: Kind, q: Question): Cursor {
    var c1 := if q.parts == [] && kind.QuestionPaper? then DrawRules(c, d, q.workingLines) else c;
    if kind.AnswerKey? && q.source != ""
    then DrawWrapped(c1, d, SourceNote(q.source), SOURCE_STYLE, Loose) else c1
  }

  function DrawBody(c: Cursor, d: Design, kind: Kind, q: Question, index: nat): Cursor {
    var c1 := DrawFigure(c, d, q);
    var c2 := DrawAnswer(c1, d, kind, q);
    DrawTail(DrawParts(c2, d, kind, q, index, 0), d, kind, q)
  }

  function DrawQuestion(c: Cursor, d: Design, kind: Kind, q: Question, index: nat): Cursor {
    var startY := EnsureSpace(c, d, SpaceWanted(d, kind, q)).y;
    var c1 := DrawBody(DrawHead(c, d, kind, q, index), d, kind, q, index);
    Down(c1, if startY == c1.y then 14.0 else 9.0)
  }

  function DrawQuestions(c: Cursor, d: Design, kind: Kind, questions: seq<Question>, index: nat): Cursor
    requires index <= |questions|
    decreases |questions| - index
  {
    if index == |questions| then c
    else DrawQuestions(DrawQuestion(c, d, kind, questions[index], index), d, kind, questions, index + 1)
  }
}
