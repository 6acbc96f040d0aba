/**
 `createPaperPdf` in its own form: one object holds the current page, the cursor and what
 has been drawn, and every step moves them. Each method is proved to do what the function
 of the same name in `PaperLayout` says.
 */
module PdfDocument {
  import opened Wrappers
  import opened PaperLayout
  import Layout = PaperLayout
  import LineWrap

  class PdfPages {
    var page: nat
    var y: real
    var drawn: seq<Mark>
    const design: Design
    const kind: Kind

    constructor (design: Design, kind: Kind)
      ensures this.design == design && this.kind == kind
      ensures State() == Cursor(0, TOP, [])
    {
      this.design, this.kind := design, kind;
      page, y, drawn := 0, TOP, [];
    }

    function State(): Cursor
      reads this
    {
      Cursor(page, y, drawn)
    }

    method DrawEach(lines: seq<string>, lineHeight: real, group: Group)
      modifies this
      ensures State() == Layout.DrawLines(old(State()), lines, lineHeight, group)
    {
      for i := 0 to |lines|
        invariant page == old(page)
        invariant y == old(y) - i as real * lineHeight
        invariant drawn + LineMarks(page, y, lines[i..], lineHeight, group)
               == old(drawn) + LineMarks(page, old(y), lines, lineHeight, group)
      {
        assert lines[i..][0] == lines[i] && lines[i..][1..] == lines[i + 1..];
        assert (i + 1) as real * lineHeight == i as real * lineHeight + lineHeight;
        LineWrap.Regroup(drawn, [Mark(page, y, group, Line(lines[i]))],
                         LineMarks(page, y - lineHeight, lines[i + 1..], lineHeight, group));
        drawn := drawn + [Mark(page, y, group, Line(lines[i]))];
        y := y - lineHeight;
      }
    }

    method DrawCustomHeader()
      modifies this
      ensures State() == Layout.DrawCustomHeader(old(State()), design)
    {
      if design.header == "" {
        return;
      }
      DrawEach(Lines(design, design.header, HEADER_STYLE), 11.0, PageHeader);
      y := y - 7.0;
    }

    method NewPage()
      modifies this
      ensures State() == Layout.NewPage(old(State()), design)
    {
      page := page + 1;
      y := TOP;
      if design.repeatHeader {
        DrawCustomHeader();
      }
    }

    method EnsureSpace(height: real)
      modifies this
      ensures State() == Layout.EnsureSpace(old(State()), design, height)
    {
      if y - height < CONTENT_BOTTOM {
        NewPage();
      }
    }

    method DrawWrapped(text: string, style: Style, group: Group)
      modifies this
      ensures State() == Layout.DrawWrapped(old(State()), design, text, style, group)
    {
      var lines := Lines(design, text, style);
      var height := |lines| as real * style.lineHeight + style.gapAfter;
      assert height == WrappedHeight(design, text, style);
      EnsureSpace(height);
      ghost var c1 := State();
      DrawEach(lines, style.lineHeight, group);
      assert State() == Layout.DrawLines(c1, lines, style.lineHeight, group);
      y := y - style.gapAfter;
    }

    method DrawScheme(scheme: seq<string>, x: real)
      modifies this
      ensures State() == Layout.DrawScheme(old(State()), design, scheme, x)
    {
      for i := 0 to |scheme|
        invariant Layout.DrawScheme(State(), design, scheme[i..], x)
               == Layout.DrawScheme(old(State()), design, scheme, x)
      {
        assert scheme[i..][0] == scheme[i] && scheme[i..][1..] == scheme[i + 1..];
        var style := SchemeStyle(A4_WIDTH - PAGE_MARGIN - x);
        EnsureSpace(WrappedHeight(design, scheme[i], style));
        DrawWrapped(scheme[i], style, Loose);
      }
    }

    method DrawRules(n: nat)
      modifies this
      ensures State() == Layout.DrawRules(old(State()), design, n)
    {
      for line := 0 to n
        invariant Layout.DrawRules(State(), design, n - line)
               == Layout.DrawRules(old(State()), design, n)
      {
        EnsureSpace(18.0);
        y := y - 12.0;
        drawn := drawn + [Mark(page, y, Loose, Rule)];
        y := y - 6.0;
      }
    }

    method DrawDiagram(g: Diagram)
      modifies this
      ensures State() == Layout.DrawDiagram(old(State()), design, g)
    {
      match g.rendered {
        case Nothing =>
        case Failed => DrawWrapped("Diagram: " + g.alt, ALT_STYLE, Loose);
        case Image(height) =>
          EnsureSpace(height + 26.0);
          drawn := drawn + [Mark(page, y - height, Loose, Picture)];
          y := y - (height + 5.0);
          if g.caption != "" {
            DrawWrapped(g.caption, CAPTION_STYLE, Loose);
          }
      }
    }

    /** `ensureSpace`, the number, the mark and the prompt. */
    method DrawHead(q: Question, index: nat) returns (startY: real)
      modifies this
      ensures State() == Layout.DrawHead(old(State()), design, kind, q, index)
      ensures startY == Layout.EnsureSpace(old(State()), design, SpaceWanted(design, kind, q)).y
    {
      var estimatedHeight := EstimatedHeight(design, kind, q);
      var promptHeight := PromptHeight(design, q);
      EnsureSpace(if estimatedHeight <= PAGE_CAPACITY then estimatedHeight
                  else if promptHeight + 20.0 > 80.0 then promptHeight + 20.0 else 80.0);
      startY := y;
      drawn := drawn + [Mark(page, y, Head(index), Number(index + 1))];
      drawn := drawn + [Mark(page, y, Head(index), Marks(q.marks))];
      DrawWrapped(q.prompt, PROMPT_STYLE, Head(index));
    }

    method DrawAnswer(q: Question)
      modifies this
      ensures State() == Layout.DrawAnswer(old(State()), design, kind, q)
    {
      if kind.AnswerKey? && |q.parts| == 0 {
        DrawWrapped(OrNone(q.answer), ANSWER_STYLE, Loose);
      }
      if kind.AnswerKey? {
        DrawScheme(q.scheme, PAGE_MARGIN + 36.0);
      }
    }

    method DrawTail(q: Question)
      modifies this
      ensures State() == Layout.DrawTail(old(State()), design, kind, q)
    {
      if |q.parts| == 0 && kind.QuestionPaper? {
        DrawRules(q.workingLines);
      }
      if kind.AnswerKey? && q.source != "" {
        DrawWrapped(SourceNote(q.source), SOURCE_STYLE, Loose);
      }
    }

    method DrawQuestion(q: Question, index: nat)
      modifies this
      ensures State() == Layout.DrawQuestion(old(State()), design, kind, q, index)
    {
      var startY := DrawHead(q, index);
      if q.diagram.Some? {
        DrawDiagram(q.diagram.value);
      }
      DrawAnswer(q);
      DrawAllParts(q, index);
      DrawTail(q);
      y := y - if startY == y then 14.0 else 9.0;
    }

    method DrawAllParts(q: Question, index: nat)
      modifies this
      ensures State() == DrawParts(old(State()), design, kind, q, index, 0)
    {
      for part := 0 to |q.parts|
        invariant DrawParts(State(), design, kind, q, index, part) == DrawParts(old(State()), design, kind, q, index, 0)
      {
        DrawPart(q.parts[part], index, part);
      }
    }

    method DrawPart(p: Part, index: nat, part: nat)
      modifies this
      ensures State() == Layout.DrawPart(old(State()), design, kind, p, index, part)
    {
      var partText := PartBody(kind, p);
      EnsureSpace(WrappedHeight(design, partText, PART_STYLE)
                  + if kind.QuestionPaper? && p.workingLines > 0 then 18.0 else 0.0);
      drawn := drawn + [Mark(page, y, PartText(index, part), PartLabel(p.name))];
      drawn := drawn + [Mark(page, y, PartText(index, part), Marks(p.marks))];
      DrawWrapped(partText, PART_STYLE, PartText(index, part));
      if kind.QuestionPaper? {
        DrawRules(p.workingLines);
      }
      if kind.AnswerKey? {
        DrawScheme(p.scheme, PAGE_MARGIN + 62.0);
      }
    }

    method DrawPaper(questions: seq<Question>)
      modifies this
      ensures State() == DrawQuestions(old(State()), design, kind, questions, 0)
    {
      for index := 0 to |questions|
        invariant DrawQuestions(State(), design, kind, questions, index)
               == DrawQuestions(old(State()), design, kind, questions, 0)
      {
        DrawQuestion(questions[index], index);
      }
    }
  }
}
