/** Plain notes become HTML documents (`textToHtml`). */
module NoteText {

  function ReplaceAll(s: string, c: char, with: string): string {
    if s == "" then "" else (if s[0] == c then with else [s[0]]) + ReplaceAll(s[1..], c, with)
  }

  function ThreeReplacements(s: string): string {
    ReplaceAll(ReplaceAll(ReplaceAll(s, '&', "&amp;"), '<', "&lt;"), '>', "&gt;")
  }

  /** `\r\n?` becomes `\n`; `afterReturn` says that a `\r` has just been replaced. */
  function NormalizeFrom(s: string, afterReturn: bool): string
    decreases |s|
  {
    if s == "" then ""
    else if s[0] == '\n' && afterReturn then NormalizeFrom(s[1..], false)
    else [if s[0] == '\r' then '\n' else s[0]] + NormalizeFrom(s[1..], s[0] == '\r')
  }

  function NormalizeBreaks(s: string): string {
    NormalizeFrom(s, false)
  }

  function SplitLines(s: string): (lines: seq<string>)
    ensures lines != []
  {
    if s == "" then [""]
    else
      var rest := SplitLines(s[1..]);
      if s[0] == '\n' then [""] + rest else [[s[0]] + rest[0]] + rest[1..]
  }

  function Paragraph(line: string): string {
    "<p>" + ((if line == "" then "<br>" else line) + "</p>")
  }

  function Paragraphs(lines: seq<string>): string {
    if lines == [] then "" else Paragraph(lines[0]) + Paragraphs(lines[1..])
  }

  function TextToHtml(text: string): string {
    Paragraphs(SplitLines(NormalizeBreaks(ThreeReplacements(text))))
  }

  // ----- escaping -----

  function Entity(c: char): string {
    if c == '&' then "&amp;" else if c == '<' then "&lt;" else if c == '>' then "&gt;" else [c]
  }

  /** Every character escaped in one pass. */
  function Escape(s: string): string {
    if s == "" then "" else Entity(s[0]) + Escape(s[1..])
  }

  lemma {:induction false} ReplaceBoth(a: string, b: string, c: char, with: string)
    ensures ReplaceAll(a + b, c, with) == ReplaceAll(a, c, with) + ReplaceAll(b, c, with)
  {
    if a == "" {
      assert a + b == b;
    } else {
      assert (a + b)[1..] == a[1..] + b;
      ReplaceBoth(a[1..], b, c, with);
    }
  }

  lemma {:induction false} ReplaceNone(s: string, c: char, with: string)
    requires forall i :: 0 <= i < |s| ==> s[i] != c
    ensures ReplaceAll(s, c, with) == s
  {
    if s != "" {
      ReplaceNone(s[1..], c, with);
    }
  }

  lemma ReplaceOne(x: char, c: char, with: string)
    ensures ReplaceAll([x], c, with) == if x == c then with else [x]
  {
    assert ReplaceAll([x], c, with) == (if x == c then with else [x]) + ReplaceAll([x][1..], c, with);
  }

  lemma EscapeOne(x: char)
    ensures ThreeReplacements([x]) == Entity(x)
  {
    ReplaceOne(x, '&', "&amp;");
    if x == '&' {
      ReplaceNone("&amp;", '<', "&lt;");
      ReplaceNone("&amp;", '>', "&gt;");
    } else if x == '<' {
      ReplaceOne(x, '<', "&lt;");
      ReplaceNone("&lt;", '>', "&gt;");
    } else {
      ReplaceOne(x, '<', "&lt;");
      ReplaceOne(x, '>', "&gt;");
    }
  }

  /** The three replacements in turn never touch each other's output. */
  lemma {:induction false} ReplacementsEscape(s: string)
    ensures ThreeReplacements(s) == Escape(s)
  {
    if s != "" {
      var a, b := [s[0]], s[1..];
      assert s == a + b;
      ReplaceBoth(a, b, '&', "&amp;");
      var a1, b1 := ReplaceAll(a, '&', "&amp;"), ReplaceAll(b, '&', "&amp;");
      ReplaceBoth(a1, b1, '<', "&lt;");
      ReplaceBoth(ReplaceAll(a1, '<', "&lt;"), ReplaceAll(b1, '<', "&lt;"), '>', "&gt;");
      EscapeOne(s[0]);
      ReplacementsEscape(b);
    }
  }

  lemma {:induction false} NormalizeEscaped(s: string, afterReturn: bool)
    ensures NormalizeFrom(Escape(s), afterReturn) == Escape(NormalizeFrom(s, afterReturn))
    decreases |s|
  {
    if s != "" {
      var c := s[0];
      NormalizeEscaped(s[1..], c == '\r');
      NormalizeEntity(c, Escape(s[1..]), afterReturn);
      EscapeFirst(if c == '\r' then '\n' else c, NormalizeFrom(s[1..], c == '\r'));
    }
  }

  lemma EscapeFirst(c: char, rest: string)
    ensures Escape([c] + rest) == Entity(c) + Escape(rest)
  {
    assert ([c] + rest)[1..] == rest;
  }

  lemma NormalizeEntity(c: char, rest: string, afterReturn: bool)
    ensures NormalizeFrom(Entity(c) + rest, afterReturn)
         == if c == '\n' && afterReturn then NormalizeFrom(rest, false)
            else Entity(if c == '\r' then '\n' else c) + NormalizeFrom(rest, c == '\r')
  {
    if c in "&<>" {
      NormalizePlain(Entity(c), rest, afterReturn);
    } else {
      assert ([c] + rest)[1..] == rest;
    }
  }

  lemma {:induction false} NormalizePlain(a: string, b: string, afterReturn: bool)
    requires forall i :: 0 <= i < |a| ==> a[i] != '\r' && a[i] != '\n'
    ensures NormalizeFrom(a + b, afterReturn) == a + NormalizeFrom(b, afterReturn && a == "")
    decreases |a|
  {
    if a == "" {
      assert a + b == b;
    } else {
      assert (a + b)[1..] == a[1..] + b;
      NormalizePlain(a[1..], b, false);
    }
  }

  function EscapeEach(lines: seq<string>): (escaped: seq<string>)
    ensures |escaped| == |lines|
  {
    if lines == [] then [] else [Escape(lines[0])] + EscapeEach(lines[1..])
  }

  lemma {:induction false} SplitEscaped(s: string)
    ensures SplitLines(Escape(s)) == EscapeEach(SplitLines(s))
  {
    if s == "" {
      assert EscapeEach([""]) == [Escape("")] + EscapeEach([""][1..]);
    } else {
      SplitEscaped(s[1..]);
      var rest := SplitLines(s[1..]);
      if s[0] == '\n' {
        assert Escape(s) == "\n" + Escape(s[1..]);
        assert Escape(s)[1..] == Escape(s[1..]);
        assert ([""] + rest)[1..] == rest;
      } else {
        SplitPlain(Entity(s[0]), Escape(s[1..]));
        var first := [s[0]] + rest[0];
        assert first[1..] == rest[0];
        assert ([first] + rest[1..])[1..] == rest[1..];
        assert Escape(first) == Entity(s[0]) + Escape(rest[0]);
      }
    }
  }

  lemma {:induction false} SplitPlain(a: string, b: string)
    requires forall i :: 0 <= i < |a| ==> a[i] != '\n'
    ensures SplitLines(a + b) == [a + SplitLines(b)[0]] + SplitLines(b)[1..]
    decreases |a|
  {
    var lines := SplitLines(b);
    if a == "" {
      assert a + b == b && a + lines[0] == lines[0];
    } else {
      assert (a + b)[1..] == a[1..] + b;
      SplitPlain(a[1..], b);
      assert [a[0]] + (a[1..] + lines[0]) == a + lines[0];
    }
  }

  // ----- reading the HTML back -----

  predicate StartsWith(s: string, prefix: string) {
    prefix <= s
  }

  /** Entities back to characters, in one pass. */
  function Unescape(s: string): string
    decreases |s|
  {
    if s == "" then ""
    else if StartsWith(s, "&amp;") then "&" + Unescape(s[5..])
    else if StartsWith(s, "&lt;") then "<" + Unescape(s[4..])
    else if StartsWith(s, "&gt;") then ">" + Unescape(s[4..])
    else [s[0]] + Unescape(s[1..])
  }

  /** The text up to the next tag. */
  function UpToTag(s: string): (t: string)
    ensures |t| <= |s|
  {
    if s == "" || s[0] == '<' then "" else [s[0]] + UpToTag(s[1..])
  }

  /** The lines of a document made of paragraphs; `<br>` alone is an empty line. */
  function ReadParagraphs(html: string): seq<string>
    decreases |html|
  {
    if !StartsWith(html, "<p>") then []
    else
      var content := UpToTag(html[3..]);
      var rest := html[3 + |content|..];
      if StartsWith(rest, "<br></p>") then [content] + ReadParagraphs(rest[8..])
      else if StartsWith(rest, "</p>") then [Unescape(content)] + ReadParagraphs(rest[4..])
      else [content]
  }

  function JoinLines(lines: seq<string>): string {
    if lines == [] then ""
    else if |lines| == 1 then lines[0]
    else lines[0] + ("\n" + JoinLines(lines[1..]))
  }

  function HtmlToText(html: string): string {
    JoinLines(ReadParagraphs(html))
  }

  lemma UnescapeEntity(c: char, rest: string)
    ensures Unescape(Entity(c) + rest) == [c] + Unescape(rest)
  {
    var s := Entity(c) + rest;
    assert s[|Entity(c)|..] == rest;
    if c == '&' {
      assert "&amp;" <= s;
    } else if c == '<' {
      assert "&lt;" <= s && s[1] != 'a';
    } else if c == '>' {
      assert "&gt;" <= s && s[1] != 'a' && s[1] != 'l';
    } else {
      assert s[0] == c;
    }
  }

  lemma {:induction false} UnescapeEscaped(s: string)
    ensures Unescape(Escape(s)) == s
  {
    if s != "" {
      UnescapeEscaped(s[1..]);
      UnescapeEntity(s[0], Escape(s[1..]));
    }
  }

  lemma {:induction false} EscapedIsPlain(s: string)
    ensures forall i :: 0 <= i < |Escape(s)| ==> Escape(s)[i] != '<' && Escape(s)[i] != '>'
    ensures s != "" ==> Escape(s) != ""
  {
    if s != "" {
      EscapedIsPlain(s[1..]);
    }
  }

  lemma {:induction false} UpToTagPlain(a: string, b: string)
    requires forall i :: 0 <= i < |a| ==> a[i] != '<'
    requires b != "" && b[0] == '<'
    ensures UpToTag(a + b) == a
    decreases |a|
  {
    if a == "" {
      assert a + b == b;
    } else {
      assert (a + b)[1..] == a[1..] + b;
      UpToTagPlain(a[1..], b);
    }
  }

  lemma ReadEmptyParagraph(more: string)
    ensures ReadParagraphs(Paragraph("") + more) == [""] + ReadParagraphs(more)
  {
    var html, rest := Paragraph("") + more, "<br></p>" + more;
    assert "<p>" <= html && html[3..] == rest;
    assert UpToTag(rest) == "";
    assert rest[8..] == more && "<br></p>" <= rest;
  }

  lemma ReadFullParagraph(content: string, more: string)
    requires content != "" && forall i :: 0 <= i < |content| ==> content[i] != '<'
    ensures ReadParagraphs(Paragraph(content) + more) == [Unescape(content)] + ReadParagraphs(more)
  {
    var html, rest := Paragraph(content) + more, "</p>" + more;
    assert "<p>" <= html && html[3..] == content + rest;
    UpToTagPlain(content, rest);
    assert html[3 + |content|..] == rest;
    assert rest[4..] == more && "</p>" <= rest && rest[1] == '/';
    assert !("<br></p>" <= rest);
  }

  lemma ReadOneParagraph(line: string, more: string)
    ensures ReadParagraphs(Paragraph(Escape(line)) + more) == [line] + ReadParagraphs(more)
  {
    if line == "" {
      ReadEmptyParagraph(more);
    } else {
      EscapedIsPlain(line);
      UnescapeEscaped(line);
      ReadFullParagraph(Escape(line), more);
    }
  }

  lemma {:induction false} ReadAllParagraphs(lines: seq<string>)
    ensures ReadParagraphs(Paragraphs(EscapeEach(lines))) == lines
  {
    if lines != [] {
      ReadAllParagraphs(lines[1..]);
      ReadOneParagraph(lines[0], Paragraphs(EscapeEach(lines[1..])));
      assert lines == [lines[0]] + lines[1..];
    }
  }

  lemma {:induction false} JoinSplit(s: string)
    ensures JoinLines(SplitLines(s)) == s
  {
    if s != "" {
      JoinSplit(s[1..]);
      var rest := SplitLines(s[1..]);
      if s[0] == '\n' {
        assert ([""] + rest)[1..] == rest;
      } else {
        var lines := [[s[0]] + rest[0]] + rest[1..];
        assert lines[1..] == rest[1..];
        if |rest| > 1 {
          assert [s[0]] + (rest[0] + ("\n" + JoinLines(rest[1..]))) == ([s[0]] + rest[0]) + ("\n" + JoinLines(rest[1..]));
        }
      }
    }
  }

  /** Reading the document back gives the note's text, with its line endings normalised. */
  lemma TextSurvives(text: string)
    ensures HtmlToText(TextToHtml(text)) == NormalizeBreaks(text)
  {
    ReplacementsEscape(text);
    NormalizeEscaped(text, false);
    SplitEscaped(NormalizeBreaks(text));
    ReadAllParagraphs(SplitLines(NormalizeBreaks(text)));
    JoinSplit(NormalizeBreaks(text));
  }

  // ----- nothing but generated tags -----

  /** Every `<` starts a generated tag. */
  ghost predicate OnlyOwnTags(html: string) {
    forall i :: 0 <= i < |html| && html[i] == '<' ==>
      StartsWith(html[i..], "<p>") || StartsWith(html[i..], "</p>") || StartsWith(html[i..], "<br>")
  }

  lemma OwnTagsBoth(a: string, b: string)
    requires OnlyOwnTags(a) && OnlyOwnTags(b)
    ensures OnlyOwnTags(a + b)
  {
    forall i | 0 <= i < |a + b| && (a + b)[i] == '<'
      ensures || StartsWith((a + b)[i..], "<p>") || StartsWith((a + b)[i..], "</p>")
              || StartsWith((a + b)[i..], "<br>")
    {
      if i < |a| {
        assert (a + b)[i..] == a[i..] + b;
      } else {
        assert (a + b)[i..] == b[i - |a|..];
      }
    }
  }

  lemma ParagraphOwnTags(line: string)
    ensures OnlyOwnTags(Paragraph(Escape(line)))
  {
    EscapedIsPlain(line);
    var content := if Escape(line) == "" then "<br>" else Escape(line);
    assert "<p>"[0..] == "<p>" && "</p>"[0..] == "</p>" && "<br>"[0..] == "<br>";
    OwnTagsBoth(content, "</p>");
    OwnTagsBoth("<p>", content + "</p>");
  }

  lemma {:induction false} ParagraphsOwnTags(lines: seq<string>)
    ensures OnlyOwnTags(Paragraphs(EscapeEach(lines)))
  {
    if lines != [] {
      ParagraphsOwnTags(lines[1..]);
      ParagraphOwnTags(lines[0]);
      OwnTagsBoth(Paragraph(Escape(lines[0])), Paragraphs(EscapeEach(lines[1..])));
    }
  }

  ghost predicate PlainLine(line: string) {
    forall i :: 0 <= i < |line| ==> line[i] != '<' && line[i] != '>'
  }

  ghost predicate PlainLines(lines: seq<string>) {
    forall i :: 0 <= i < |lines| ==> PlainLine(lines[i])
  }

  lemma EscapedArePlain(lines: seq<string>)
    ensures PlainLines(EscapeEach(lines))
  {
    forall i | 0 <= i < |lines| ensures PlainLine(EscapeEach(lines)[i]) {
      EscapedIsPlain(lines[i]);
    }
  }

  function Openings(s: string): nat {
    if s == "" then 0 else (if s[0] == '<' then 1 else 0) + Openings(s[1..])
  }

  lemma {:induction false} OpeningsBoth(a: string, b: string)
    ensures Openings(a + b) == Openings(a) + Openings(b)
  {
    if a == "" {
      assert a + b == b;
    } else {
      assert (a + b)[1..] == a[1..] + b;
      OpeningsBoth(a[1..], b);
    }
  }

  lemma {:induction false} PlainHasNoOpening(line: string)
    requires PlainLine(line)
    ensures Openings(line) == 0
  {
    if line != "" {
      PlainHasNoOpening(line[1..]);
    }
  }

  lemma TagsOpenOnce()
    ensures Openings("<p>") == 1 && Openings("</p>") == 1 && Openings("<br>") == 1
  {
    assert "<p>"[1..] == "p>" && "p>"[1..] == ">" && ">"[1..] == "";
    assert "</p>"[1..] == "/p>" && "/p>"[1..] == "p>";
    assert "<br>"[1..] == "br>" && "br>"[1..] == "r>" && "r>"[1..] == ">";
  }

  function EmptyLines(lines: seq<string>): nat {
    if lines == [] then 0 else (if lines[0] == "" then 1 else 0) + EmptyLines(lines[1..])
  }

  lemma {:induction false} OpeningsOfParagraphs(lines: seq<string>)
    requires PlainLines(lines)
    ensures Openings(Paragraphs(lines)) == 2 * |lines| + EmptyLines(lines)
  {
    if lines != [] {
      var content := if lines[0] == "" then "<br>" else lines[0];
      TagsOpenOnce();
      PlainHasNoOpening(lines[0]);
      OpeningsBoth(content, "</p>");
      OpeningsBoth("<p>", content + "</p>");
      OpeningsBoth(Paragraph(lines[0]), Paragraphs(lines[1..]));
      OpeningsOfParagraphs(lines[1..]);
    }
  }

  /**
   Whatever the note holds, the document is one paragraph for each line of the text, whose
   contents hold no angle bracket: each `<` belongs to a generated tag, and there are two of
   them for a paragraph and one more for an empty one.
   */
  lemma {:induction false} NoTagFromTheNote(text: string)
    ensures OnlyOwnTags(TextToHtml(text))
    ensures exists lines ::
      && |lines| == |SplitLines(NormalizeBreaks(text))| && PlainLines(lines)
      && TextToHtml(text) == Paragraphs(lines)
      && Openings(TextToHtml(text)) == 2 * |lines| + EmptyLines(lines)
  {
    var lines := SplitLines(NormalizeBreaks(text));
    ReplacementsEscape(text);
    NormalizeEscaped(text, false);
    SplitEscaped(NormalizeBreaks(text));
    ParagraphsOwnTags(lines);
    EscapedArePlain(lines);
    OpeningsOfParagraphs(EscapeEach(lines));
    assert |EscapeEach(lines)| == |lines| && TextToHtml(text) == Paragraphs(EscapeEach(lines));
  }
}
