/**
 Greedy word wrapping for the worksheet PDF (`wrapLine`). Text arrives here already
 reduced to printable characters, whose only white space is the blank. A font is its
 measuring function at the chosen size.
 */
module LineWrap {

  type Font = string -> real

  // ----- words -----

  function FirstWord(s: string): (w: string)
    ensures |w| <= |s| && w == s[..|w|]
    ensures forall i :: 0 <= i < |w| ==> w[i] != ' '
    ensures |w| < |s| ==> s[|w|] == ' '
  {
    if s == "" || s[0] == ' ' then "" else [s[0]] + FirstWord(s[1..])
  }

  /** `text.trim().split(/\s+/).filter(Boolean)` */
  function Words(s: string): (words: seq<string>)
    decreases |s|
  {
    if s == "" then []
    else if s[0] == ' ' then Words(s[1..])
    else
      var w := FirstWord(s);
      [w] + Words(s[|w|..])
  }

  // ----- wrapping -----

  /** A word too long for any line, cut where the next character would not fit. */
  function Cut(fragment: string, rest: string, maxWidth: real, font: Font): (pieces: (seq<string>, string))
    decreases |rest|
  {
    if rest == "" then ([], fragment)
    else
      var longer := fragment + [rest[0]];
      if font(longer) > maxWidth && fragment != "" then
        var (full, last) := Cut([rest[0]], rest[1..], maxWidth, font);
        ([fragment] + full, last)
      else Cut(longer, rest[1..], maxWidth, font)
  }

  function Candidate(line: string, word: string): string {
    if line == "" then word else line + " " + word
  }

  function Pushed(line: string): seq<string> {
    if line == "" then [] else [line]
  }

  /** One turn of the loop: the lines it pushes, and the line it leaves open. */
  function Advance(line: string, word: string, maxWidth: real, font: Font): (seq<string>, string) {
    if font(Candidate(line, word)) <= maxWidth then ([], Candidate(line, word))
    else if font(word) <= maxWidth then (Pushed(line), word)
    else
      var (full, last) := Cut("", word, maxWidth, font);
      (Pushed(line) + full, last)
  }

  /** The lines still to come, from the open line and the words left. */
  function WrapFrom(line: string, words: seq<string>, maxWidth: real, font: Font): seq<string>
    decreases |words|
  {
    if words == [] then Pushed(line)
    else
      var (pushed, open) := Advance(line, words[0], maxWidth, font);
      pushed + WrapFrom(open, words[1..], maxWidth, font)
  }

  function Wrapped(text: string, maxWidth: real, font: Font): seq<string> {
    if Words(text) == [] then [""] else WrapFrom("", Words(text), maxWidth, font)
  }

  method WrapLine(text: string, maxWidth: real, font: Font) returns (lines: seq<string>)
    ensures lines == Wrapped(text, maxWidth, font)
  {
    var words := Words(text);
    if |words| == 0 {
      return [""];
    }
    lines := [];
    var line := "";
    for i := 0 to |words|
      invariant lines + WrapFrom(line, words[i..], maxWidth, font) == WrapFrom("", words, maxWidth, font)
    {
      NextWord(lines, line, words, i, maxWidth, font);
      lines, line := PlaceWord(lines, line, words[i], maxWidth, font);
    }
    if line != "" {
      lines := lines + [line];
    }
  }

  /** The body of the loop over words. */
  method PlaceWord(lines: seq<string>, line: string, word: string, maxWidth: real, font: Font)
    returns (lines': seq<string>, line': string)
    ensures lines' == lines + Advance(line, word, maxWidth, font).0
    ensures line' == Advance(line, word, maxWidth, font).1
  {
    lines', line' := lines, line;
    var candidate := if line != "" then line + " " + word else word;
    if font(candidate) <= maxWidth {
      line' := candidate;
      return;
    }
    if line != "" {
      lines' := lines' + [line];
    }
    if font(word) <= maxWidth {
      line' := word;
      return;
    }
    ghost var before := lines';
    var fragment := "";
    for j := 0 to |word|
      invariant before + Cut("", word, maxWidth, font).0
             == lines' + Cut(fragment, word[j..], maxWidth, font).0
      invariant Cut("", word, maxWidth, font).1 == Cut(fragment, word[j..], maxWidth, font).1
    {
      var character := word[j];
      CutNext(lines', fragment, word, j, maxWidth, font);
      var candidateFragment := fragment + [character];
      if font(candidateFragment) > maxWidth && fragment != "" {
        lines' := lines' + [fragment];
        fragment := [character];
      } else {
        fragment := candidateFragment;
      }
    }
    assert word[|word|..] == "";
    assert lines' + [] == lines';
    line' := fragment;
  }

  lemma CutNext(lines: seq<string>, fragment: string, word: string, j: nat, maxWidth: real, font: Font)
    requires j < |word|
    ensures var longer := fragment + [word[j]];
      var pieces := Cut(fragment, word[j..], maxWidth, font);
      if font(longer) > maxWidth && fragment != "" then
        var pieces' := Cut([word[j]], word[j + 1..], maxWidth, font);
        lines + pieces.0 == (lines + [fragment]) + pieces'.0 && pieces.1 == pieces'.1
      else pieces == Cut(longer, word[j + 1..], maxWidth, font)
  {
    assert word[j..][0] == word[j] && word[j..][1..] == word[j + 1..];
    Regroup(lines, [fragment], Cut([word[j]], word[j + 1..], maxWidth, font).0);
  }

  lemma NextWord(lines: seq<string>, line: string, words: seq<string>, i: nat, maxWidth: real, font: Font)
    requires i < |words|
    ensures var (pushed, open) := Advance(line, words[i], maxWidth, font);
      lines + WrapFrom(line, words[i..], maxWidth, font)
      == (lines + pushed) + WrapFrom(open, words[i + 1..], maxWidth, font)
  {
    assert words[i..][0] == words[i] && words[i..][1..] == words[i + 1..];
    var (pushed, open) := Advance(line, words[i], maxWidth, font);
    Regroup(lines, pushed, WrapFrom(open, words[i + 1..], maxWidth, font));
  }

  lemma Regroup<T>(a: seq<T>, b: seq<T>, c: seq<T>)
    ensures a + (b + c) == (a + b) + c
  {
  }

  // ----- no character lost or moved -----

  /** The characters of a text that leave ink. */
  function Ink(s: string): string {
    if s == "" then "" else (if s[0] == ' ' then "" else [s[0]]) + Ink(s[1..])
  }

  function Concat(parts: seq<string>): string {
    if parts == [] then "" else parts[0] + Concat(parts[1..])
  }

  lemma {:induction false} InkBoth(a: string, b: string)
    ensures Ink(a + b) == Ink(a) + Ink(b)
  {
    if a == "" {
      assert a + b == b;
    } else {
      assert (a + b)[1..] == a[1..] + b;
      InkBoth(a[1..], b);
    }
  }

  lemma {:induction false} ConcatBoth(a: seq<string>, b: seq<string>)
    ensures Concat(a + b) == Concat(a) + Concat(b)
  {
    if a == [] {
      assert a + b == b;
    } else {
      assert (a + b)[1..] == a[1..] + b;
      ConcatBoth(a[1..], b);
    }
  }

  lemma {:induction false} CutKeeps(fragment: string, rest: string, maxWidth: real, font: Font)
    ensures var (full, last) := Cut(fragment, rest, maxWidth, font);
      Concat(full) + last == fragment + rest
    decreases |rest|
  {
    if rest != "" {
      var longer := fragment + [rest[0]];
      assert longer + rest[1..] == fragment + rest;
      if font(longer) > maxWidth && fragment != "" {
        CutKeeps([rest[0]], rest[1..], maxWidth, font);
        var (full, last) := Cut([rest[0]], rest[1..], maxWidth, font);
        assert ([fragment] + full)[1..] == full;
        assert Concat([fragment] + full) + last == fragment + (Concat(full) + last);
      } else {
        CutKeeps(longer, rest[1..], maxWidth, font);
      }
    }
  }

  lemma {:induction false} WrapKeepsInk(line: string, words: seq<string>, maxWidth: real, font: Font)
    ensures Ink(Concat(WrapFrom(line, words, maxWidth, font))) == Ink(line) + Ink(Concat(words))
    decreases |words|
  {
    if words == [] {
      PushedInk(line, []);
    } else {
      var word, rest := words[0], words[1..];
      var (pushed, open) := Advance(line, word, maxWidth, font);
      var more := WrapFrom(open, rest, maxWidth, font);
      WrapKeepsInk(open, rest, maxWidth, font);
      AdvanceKeepsInk(line, word, maxWidth, font);
      InkConcat(pushed, more);
      InkBoth(word, Concat(rest));
      Regroup(Ink(Concat(pushed)), Ink(open), Ink(Concat(rest)));
      Regroup(Ink(line), Ink(word), Ink(Concat(rest)));
    }
  }

  lemma {:induction false} InkConcat(a: seq<string>, b: seq<string>)
    ensures Ink(Concat(a + b)) == Ink(Concat(a)) + Ink(Concat(b))
  {
    ConcatBoth(a, b);
    InkBoth(Concat(a), Concat(b));
  }

  lemma AdvanceKeepsInk(line: string, word: string, maxWidth: real, font: Font)
    ensures var (pushed, open) := Advance(line, word, maxWidth, font);
      Ink(Concat(pushed)) + Ink(open) == Ink(line) + Ink(word)
  {
    CandidateInk(line, word);
    PushedInk(line, []);
    var (full, last) := Cut("", word, maxWidth, font);
    CutKeeps("", word, maxWidth, font);
    InkBoth(Concat(full), last);
    InkConcat(Pushed(line), full);
    Regroup(Ink(line), Ink(Concat(full)), Ink(last));
    assert "" + word == word;
  }

  lemma CandidateInk(line: string, word: string)
    ensures Ink(Candidate(line, word)) == Ink(line) + Ink(word)
  {
    InkBoth(line + " ", word);
    InkBoth(line, " ");
    assert " "[1..] == "";
    assert Ink(" ") == Ink("");
    assert Ink(line) + "" == Ink(line);
  }

  lemma PushedInk(line: string, more: seq<string>)
    ensures Ink(Concat(Pushed(line) + more)) == Ink(line) + Ink(Concat(more))
    ensures Ink(Concat(Pushed(line))) == Ink(line)
  {
    assert Concat([line]) == line + Concat([line][1..]) == line;
    InkConcat(Pushed(line), more);
  }

  lemma {:induction false} WordsInk(s: string)
    ensures Ink(Concat(Words(s))) == Ink(s)
    decreases |s|
  {
    if s == "" {
    } else if s[0] == ' ' {
      WordsInk(s[1..]);
    } else {
      var w := FirstWord(s);
      WordsInk(s[|w|..]);
      assert s == w + s[|w|..];
      InkBoth(w, s[|w|..]);
      InkBoth(w, Concat(Words(s[|w|..])));
    }
  }

  /** Wrapping loses, adds and reorders nothing but blanks, for any font whatever. */
  lemma WrappingKeepsText(text: string, maxWidth: real, font: Font)
    ensures Ink(Concat(Wrapped(text, maxWidth, font))) == Ink(text)
  {
    WordsInk(text);
    if Words(text) == [] {
      assert Concat([""]) == "" + Concat([]);
    } else {
      WrapKeepsInk("", Words(text), maxWidth, font);
    }
  }

  // ----- every line fits -----

  /** Fits, or is a single character that nothing could make narrower. */
  ghost predicate Placed(line: string, maxWidth: real, font: Font) {
    line != "" && (font(line) <= maxWidth || |line| == 1)
  }

  ghost predicate AllPlaced(lines: seq<string>, maxWidth: real, font: Font) {
    forall i :: 0 <= i < |lines| ==> Placed(lines[i], maxWidth, font)
  }

  lemma {:induction false} CutPlaced(fragment: string, rest: string, maxWidth: real, font: Font)
    requires fragment == "" || Placed(fragment, maxWidth, font)
    requires fragment + rest != ""
    ensures var (full, last) := Cut(fragment, rest, maxWidth, font);
      AllPlaced(full, maxWidth, font) && Placed(last, maxWidth, font)
    decreases |rest|
  {
    if rest != "" {
      var longer := fragment + [rest[0]];
      if font(longer) > maxWidth && fragment != "" {
        CutPlaced([rest[0]], rest[1..], maxWidth, font);
      } else {
        CutPlaced(longer, rest[1..], maxWidth, font);
      }
    }
  }

  lemma {:induction false} WrapPlaced(line: string, words: seq<string>, maxWidth: real, font: Font)
    requires line == "" || Placed(line, maxWidth, font)
    requires forall i :: 0 <= i < |words| ==> words[i] != ""
    ensures AllPlaced(WrapFrom(line, words, maxWidth, font), maxWidth, font)
    ensures line != "" || words != [] ==> WrapFrom(line, words, maxWidth, font) != []
    decreases |words|
  {
    if words != [] {
      var (pushed, open) := Advance(line, words[0], maxWidth, font);
      if font(Candidate(line, words[0])) > maxWidth && font(words[0]) > maxWidth {
        CutPlaced("", words[0], maxWidth, font);
      }
      WrapPlaced(open, words[1..], maxWidth, font);
    }
  }

  lemma {:induction false} WordsNonempty(s: string)
    ensures forall i :: 0 <= i < |Words(s)| ==> Words(s)[i] != ""
    decreases |s|
  {
    if s == "" {
    } else if s[0] == ' ' {
      WordsNonempty(s[1..]);
    } else {
      WordsNonempty(s[|FirstWord(s)|..]);
    }
  }

  /** There is always a line, and unless the text is blank each one fits, for any font. */
  lemma EveryLineFits(text: string, maxWidth: real, font: Font)
    ensures Wrapped(text, maxWidth, font) != []
    ensures Words(text) != [] ==> AllPlaced(Wrapped(text, maxWidth, font), maxWidth, font)
  {
    WordsNonempty(text);
    WrapPlaced("", Words(text), maxWidth, font);
  }

  // ----- no line is broken early -----

  /** `next` begins with the letters of `word`, or is cut from its front. */
  predicate Opens(next: string, word: string) {
    next != "" && word != "" && (word <= next || next <= word)
  }

  /**
   Neither the next letter would fit behind `line`, where a word is cut; nor, where it ends
   a word, a blank and the word that opens the next line.
   */
  ghost predicate MustBreak(line: string, next: string, words: seq<string>, maxWidth: real, font: Font) {
    || NextLetterIsTooMuch(line, next, maxWidth, font)
    || (exists word :: word in words && Opens(next, word) && font(line + " " + word) > maxWidth)
  }

  predicate NextLetterIsTooMuch(line: string, next: string, maxWidth: real, font: Font) {
    next != "" && font(line + [next[0]]) > maxWidth
  }

  ghost predicate CutLate(pieces: seq<string>, maxWidth: real, font: Font) {
    forall i :: 0 <= i < |pieces| - 1 ==> NextLetterIsTooMuch(pieces[i], pieces[i + 1], maxWidth, font)
  }

  ghost predicate BrokenLate(lines: seq<string>, words: seq<string>, maxWidth: real, font: Font) {
    forall i :: 0 <= i < |lines| - 1 ==> MustBreak(lines[i], lines[i + 1], words, maxWidth, font)
  }

  lemma BrokenLateJoin(a: seq<string>, b: seq<string>, words: seq<string>, maxWidth: real, font: Font)
    requires BrokenLate(a, words, maxWidth, font) && BrokenLate(b, words, maxWidth, font)
    requires a != [] && b != [] ==> MustBreak(a[|a| - 1], b[0], words, maxWidth, font)
    ensures BrokenLate(a + b, words, maxWidth, font)
  {
    forall i | 0 <= i < |a + b| - 1 ensures MustBreak((a + b)[i], (a + b)[i + 1], words, maxWidth, font) {
      if i < |a| - 1 {
        assert MustBreak(a[i], a[i + 1], words, maxWidth, font);
      } else if i >= |a| {
        assert MustBreak(b[i - |a|], b[i - |a| + 1], words, maxWidth, font);
      }
    }
  }

  /** The pieces of a word: each but the last is full, and the first starts where the word does. */
  lemma {:induction false} PiecesAreFull(fragment: string, rest: string, maxWidth: real, font: Font)
    requires fragment + rest != ""
    ensures var (full, last) := Cut(fragment, rest, maxWidth, font);
      && last != "" && CutLate(full + [last], maxWidth, font)
      && (full + [last])[0] != "" && (full + [last])[0] <= fragment + rest
      && (fragment != "" ==> fragment <= (full + [last])[0])
    decreases |rest|
  {
    if rest != "" {
      var longer := fragment + [rest[0]];
      assert longer + rest[1..] == fragment + rest;
      if font(longer) > maxWidth && fragment != "" {
        var (full, last) := Cut([rest[0]], rest[1..], maxWidth, font);
        assert [rest[0]] + rest[1..] == rest;
        PiecesAreFull([rest[0]], rest[1..], maxWidth, font);
        assert [rest[0]] <= (full + [last])[0];
        assert [fragment] + full + [last] == [fragment] + (full + [last]);
        assert forall i :: 1 <= i < |full| + 2 ==> ([fragment] + (full + [last]))[i] == (full + [last])[i - 1];
      } else {
        PiecesAreFull(longer, rest[1..], maxWidth, font);
      }
    }
  }

  /** The lines from the open line and some word on: they open as they must, and break late. */
  ghost predicate GoesOn(line: string, word: string, lines: seq<string>, all: seq<string>, maxWidth: real, font: Font) {
    && lines != [] && BrokenLate(lines, all, maxWidth, font)
    && if line == "" then Opens(lines[0], word) else line <= lines[0]
  }

  lemma {:induction false} WrapBreaksLate(line: string, words: seq<string>, maxWidth: real, font: Font, all: seq<string>)
    requires forall word :: word in words ==> word in all && word != ""
    ensures var lines := WrapFrom(line, words, maxWidth, font);
      if words != [] then GoesOn(line, words[0], lines, all, maxWidth, font) else lines == Pushed(line)
    decreases |words|
  {
    if words != [] {
      var word, rest := words[0], words[1..];
      assert word in words && forall w :: w in rest ==> w in words;
      var open := Advance(line, word, maxWidth, font).1;
      WrapBreaksLate(open, rest, maxWidth, font, all);
      AdvanceGoesOn(line, word, WrapFrom(open, rest, maxWidth, font), maxWidth, font, all);
    }
  }

  lemma AdvanceGoesOn(line: string, word: string, more: seq<string>, maxWidth: real, font: Font, all: seq<string>)
    requires word in all && word != "" && BrokenLate(more, all, maxWidth, font)
    requires var open := Advance(line, word, maxWidth, font).1;
      open != "" ==> more != [] && open <= more[0]
    ensures Advance(line, word, maxWidth, font).1 != ""
    ensures GoesOn(line, word, Advance(line, word, maxWidth, font).0 + more, all, maxWidth, font)
  {
    if font(Candidate(line, word)) <= maxWidth {
      assert [] + more == more;
      CandidateOpens(line, word, more[0]);
    } else if font(word) <= maxWidth {
      PushedBreaksLate(line, word, more, maxWidth, font, all);
    } else {
      CutGoesOn(line, word, more, maxWidth, font, all);
    }
  }

  lemma CutGoesOn(line: string, word: string, more: seq<string>, maxWidth: real, font: Font, all: seq<string>)
    requires word in all && word != "" && BrokenLate(more, all, maxWidth, font)
    requires font(Candidate(line, word)) > maxWidth
    requires var last := Cut("", word, maxWidth, font).1;
      last != "" ==> more != [] && last <= more[0]
    ensures var (full, last) := Cut("", word, maxWidth, font);
      last != "" && GoesOn(line, word, Pushed(line) + full + more, all, maxWidth, font)
  {
    var (full, last) := Cut("", word, maxWidth, font);
    assert "" + word == word;
    CutKeeps("", word, maxWidth, font);
    PiecesAreFull("", word, maxWidth, font);
    PiecesThenMore(full, last, more, maxWidth, font, all);
    assert full == [] ==> last == word;
    PushedBreaksLate(line, word, full + more, maxWidth, font, all);
    assert Pushed(line) + full + more == Pushed(line) + (full + more);
  }

  lemma CandidateOpens(line: string, word: string, first: string)
    requires Candidate(line, word) <= first && word != ""
    ensures line <= first && (line == "" ==> Opens(first, word))
  {
    if line != "" {
      assert line <= line + " " + word;
    }
  }

  /** The open line is ended because the next word does not fit on it. */
  lemma PushedBreaksLate(line: string, word: string, more: seq<string>, maxWidth: real, font: Font, all: seq<string>)
    requires word in all && word != "" && font(Candidate(line, word)) > maxWidth
    requires more != [] && Opens(more[0], word) && BrokenLate(more, all, maxWidth, font)
    ensures GoesOn(line, word, Pushed(line) + more, all, maxWidth, font)
  {
    if line == "" {
      assert [] + more == more;
    } else {
      assert MustBreak(line, more[0], all, maxWidth, font);
      BrokenLateJoin([line], more, all, maxWidth, font);
    }
  }

  /** The last piece of a cut word goes on as the open line. */
  lemma PiecesThenMore(full: seq<string>, last: string, more: seq<string>, maxWidth: real, font: Font, all: seq<string>)
    requires last != "" && CutLate(full + [last], maxWidth, font)
    requires BrokenLate(more, all, maxWidth, font) && more != [] && last <= more[0]
    ensures BrokenLate(full + more, all, maxWidth, font)
  {
    forall i | 0 <= i < |full| ensures NextLetterIsTooMuch(full[i], (full + [last])[i + 1], maxWidth, font) {
      assert NextLetterIsTooMuch((full + [last])[i], (full + [last])[i + 1], maxWidth, font);
    }
    forall i | 0 <= i < |full| - 1 ensures MustBreak(full[i], full[i + 1], all, maxWidth, font) {
      assert NextLetterIsTooMuch(full[i], (full + [last])[i + 1], maxWidth, font);
    }
    assert full != [] ==> (full + [last])[|full|] == last;
    BrokenLateJoin(full, more, all, maxWidth, font);
  }

  /** No line ends while the next letter of a cut word, or the next whole word, would still fit. */
  lemma NoLineEndsEarly(text: string, maxWidth: real, font: Font)
    ensures BrokenLate(Wrapped(text, maxWidth, font), Words(text), maxWidth, font)
  {
    WordsNonempty(text);
    WrapBreaksLate("", Words(text), maxWidth, font, Words(text));
  }

  // ----- as few lines as possible -----

  function Joined(group: seq<string>): string {
    if group == [] then ""
    else Candidate(Joined(group[..|group| - 1]), group[|group| - 1])
  }

  function Flatten(groups: seq<seq<string>>): seq<string> {
    if groups == [] then [] else groups[0] + Flatten(groups[1..])
  }

  function JoinEach(groups: seq<seq<string>>): (lines: seq<string>)
    ensures |lines| == |groups|
  {
    if groups == [] then [] else [Joined(groups[0])] + JoinEach(groups[1..])
  }

  ghost predicate Fits(group: seq<string>, maxWidth: real, font: Font) {
    font(Joined(group)) <= maxWidth
  }

  /** A way of breaking the words, in order, into lines that fit. */
  ghost predicate IsBreaking(groups: seq<seq<string>>, words: seq<string>, maxWidth: real, font: Font) {
    && Flatten(groups) == words
    && forall i :: 0 <= i < |groups| ==> groups[i] != [] && Fits(groups[i], maxWidth, font)
  }

  /** Words taken from inside a line are no wider than the line. */
  ghost predicate Monotone(font: Font) {
    forall a: seq<string>, b: seq<string>, c: seq<string> {:trigger Joined(a + b + c)} ::
      b != [] ==> font(Joined(b)) <= font(Joined(a + b + c))
  }

  /** The greedy lines as groups of words, from the open group. */
  ghost function Greedy(group: seq<string>, words: seq<string>, maxWidth: real, font: Font): seq<seq<string>>
    decreases |words|
  {
    if words == [] then [group]
    else if Fits(group + [words[0]], maxWidth, font) then
      Greedy(group + [words[0]], words[1..], maxWidth, font)
    else [group] + Greedy([words[0]], words[1..], maxWidth, font)
  }

  lemma JoinedSnoc(group: seq<string>, word: string)
    ensures Joined(group + [word]) == Candidate(Joined(group), word)
  {
    assert (group + [word])[..|group|] == group;
  }

  ghost predicate EachFits(words: seq<string>, maxWidth: real, font: Font) {
    forall i :: 0 <= i < |words| ==> words[i] != "" && font(words[i]) <= maxWidth
  }

  lemma {:induction false} GreedyIsWrapped(group: seq<string>, words: seq<string>, maxWidth: real, font: Font)
    requires group != [] && forall i :: 0 <= i < |group| ==> group[i] != ""
    requires EachFits(words, maxWidth, font)
    ensures WrapFrom(Joined(group), words, maxWidth, font) == JoinEach(Greedy(group, words, maxWidth, font))
    decreases |words|
  {
    JoinedNonempty(group);
    if words == [] {
      assert JoinEach([group]) == [Joined(group)] + JoinEach([]);
    } else {
      var word, rest := words[0], words[1..];
      JoinedSnoc(group, word);
      JoinedSnoc([], word);
      assert [] + [word] == [word];
      if Fits(group + [word], maxWidth, font) {
        GreedyIsWrapped(group + [word], rest, maxWidth, font);
        assert [] + WrapFrom(Joined(group + [word]), rest, maxWidth, font)
            == WrapFrom(Joined(group + [word]), rest, maxWidth, font);
      } else {
        GreedyIsWrapped([word], rest, maxWidth, font);
        assert ([group] + Greedy([word], rest, maxWidth, font))[1..] == Greedy([word], rest, maxWidth, font);
      }
    }
  }

  lemma {:induction false} GreedyBreaks(group: seq<string>, words: seq<string>, maxWidth: real, font: Font)
    requires group != [] && Fits(group, maxWidth, font) && EachFits(words, maxWidth, font)
    ensures IsBreaking(Greedy(group, words, maxWidth, font), group + words, maxWidth, font)
    decreases |words|
  {
    if words == [] {
      assert Flatten([group]) == group + Flatten([]);
    } else {
      var word, rest := words[0], words[1..];
      if Fits(group + [word], maxWidth, font) {
        GreedyBreaks(group + [word], rest, maxWidth, font);
        assert group + [word] + rest == group + words;
      } else {
        JoinedSnoc([], word);
        assert [] + [word] == [word];
        GreedyBreaks([word], rest, maxWidth, font);
        var more := Greedy([word], rest, maxWidth, font);
        assert ([group] + more)[1..] == more;
        assert [word] + rest == words;
      }
    }
  }

  lemma JoinedNonempty(group: seq<string>)
    requires group != [] && forall i :: 0 <= i < |group| ==> group[i] != ""
    ensures Joined(group) != ""
  {
    assert group[|group| - 1] != "";
  }

  /** A shorter open line never costs a line, and never saves more than one. */
  lemma {:induction false} SuffixIsAhead(front: seq<string>, back: seq<string>, words: seq<string>,
                                         maxWidth: real, font: Font)
    requires Monotone(font)
    ensures |Greedy(back, words, maxWidth, font)|
         <= |Greedy(front + back, words, maxWidth, font)|
         <= |Greedy(back, words, maxWidth, font)| + 1
    decreases |words|
  {
    if words != [] {
      var word, rest := words[0], words[1..];
      assert front + (back + [word]) == front + back + [word];
      if Fits(front + back + [word], maxWidth, font) {
        assert front + (back + [word]) + [] == front + back + [word];
        assert Fits(back + [word], maxWidth, font);
        SuffixIsAhead(front, back + [word], rest, maxWidth, font);
      } else if Fits(back + [word], maxWidth, font) {
        SuffixIsAhead(back, [word], rest, maxWidth, font);
      }
    }
  }

  /** `extra` goes on the open line, and `later` breaks the rest. */
  lemma {:induction false} GreedyIsFewest(group: seq<string>, words: seq<string>, extra: seq<string>,
                                          later: seq<seq<string>>, maxWidth: real, font: Font)
    requires Monotone(font)
    requires words == extra + Flatten(later) && Fits(group + extra, maxWidth, font)
    requires forall i :: 0 <= i < |later| ==> later[i] != [] && Fits(later[i], maxWidth, font)
    ensures |Greedy(group, words, maxWidth, font)| <= 1 + |later|
    decreases |words|, |later|
  {
    if words != [] {
      var word, rest := words[0], words[1..];
      if extra != [] {
        assert group + extra == (group + [word]) + extra[1..];
        assert [] + (group + [word]) + extra[1..] == group + extra;
        assert Fits(group + [word], maxWidth, font);
        assert rest == extra[1..] + Flatten(later);
        GreedyIsFewest(group + [word], rest, extra[1..], later, maxWidth, font);
      } else {
        assert later != [];
        var first := later[0];
        assert words == first + Flatten(later[1..]);
        assert word == first[0] && rest == first[1..] + Flatten(later[1..]);
        assert [word] + first[1..] == first;
        GreedyIsFewest([word], rest, first[1..], later[1..], maxWidth, font);
        SuffixIsAhead(group, [word], rest, maxWidth, font);
      }
    }
  }

  /**
   When every word fits on a line of its own, the wrapped lines are a breaking of the
   words, and no breaking of the same words has fewer lines.
   */
  lemma FewestLines(text: string, maxWidth: real, font: Font, groups: seq<seq<string>>)
    requires Monotone(font)
    requires Words(text) != [] && EachFits(Words(text), maxWidth, font)
    requires IsBreaking(groups, Words(text), maxWidth, font)
    ensures |Wrapped(text, maxWidth, font)| <= |groups|
    ensures exists greedy ::
              && IsBreaking(greedy, Words(text), maxWidth, font)
              && Wrapped(text, maxWidth, font) == JoinEach(greedy)
  {
    FewestGroups(Words(text), maxWidth, font, groups);
    GreedyFromStart(Words(text), maxWidth, font);
    var words := Words(text);
    var word, rest := words[0], words[1..];
    GreedyBreaks([word], rest, maxWidth, font);
    assert [word] + rest == words;
  }

  lemma GreedyFromStart(words: seq<string>, maxWidth: real, font: Font)
    requires words != [] && EachFits(words, maxWidth, font)
    ensures Fits([words[0]], maxWidth, font)
    ensures WrapFrom("", words, maxWidth, font) == JoinEach(Greedy([words[0]], words[1..], maxWidth, font))
  {
    var word, rest := words[0], words[1..];
    JoinedSnoc([], word);
    assert [] + [word] == [word];
    GreedyIsWrapped([word], rest, maxWidth, font);
    assert [] + WrapFrom(word, rest, maxWidth, font) == WrapFrom(word, rest, maxWidth, font);
  }

  lemma FirstGroup(words: seq<string>, maxWidth: real, font: Font, groups: seq<seq<string>>)
    requires words != [] && IsBreaking(groups, words, maxWidth, font)
    ensures groups != [] && groups[0] != [] && groups[0][0] == words[0]
    ensures words[1..] == groups[0][1..] + Flatten(groups[1..])
  {
    assert words == groups[0] + Flatten(groups[1..]);
  }

  lemma FewestGroups(words: seq<string>, maxWidth: real, font: Font, groups: seq<seq<string>>)
    requires Monotone(font)
    requires words != [] && EachFits(words, maxWidth, font)
    requires IsBreaking(groups, words, maxWidth, font)
    ensures |Greedy([words[0]], words[1..], maxWidth, font)| <= |groups|
  {
    FirstGroup(words, maxWidth, font, groups);
    assert [words[0]] + groups[0][1..] == groups[0];
    GreedyIsFewest([words[0]], words[1..], groups[0][1..], groups[1..], maxWidth, font);
  }

  // ----- the words can be read back -----

  /** Without blanks. */
  predicate Solid(word: string) {
    word != "" && forall i :: 0 <= i < |word| ==> word[i] != ' '
  }

  lemma {:induction false} FirstWordIs(word: string, rest: string)
    requires forall i :: 0 <= i < |word| ==> word[i] != ' '
    requires rest == "" || rest[0] == ' '
    ensures FirstWord(word + rest) == word
    decreases |word|
  {
    if word == "" {
      assert word + rest == rest;
    } else {
      assert (word + rest)[1..] == word[1..] + rest;
      FirstWordIs(word[1..], rest);
    }
  }

  /** A blank parts the words before it from those behind it. */
  lemma {:induction false} WordsApart(a: string, t: string)
    requires t != "" && t[0] == ' '
    ensures Words(a + t) == Words(a) + Words(t)
    decreases |a|
  {
    if a == "" {
      assert a + t == t;
    } else if a[0] == ' ' {
      assert (a + t)[1..] == a[1..] + t;
      WordsApart(a[1..], t);
    } else {
      FirstWordApart(a, t);
      WordsApart(a[|FirstWord(a)|..], t);
    }
  }

  lemma FirstWordApart(a: string, t: string)
    requires t != "" && t[0] == ' '
    ensures FirstWord(a + t) == FirstWord(a)
    ensures (a + t)[|FirstWord(a)|..] == a[|FirstWord(a)|..] + t
  {
    var w := FirstWord(a);
    var rest := a[|w|..] + t;
    assert a + t == w + rest;
    FirstWordIs(w, rest);
  }

  lemma WordsOfOne(word: string)
    requires Solid(word)
    ensures Words(word) == [word]
  {
    FirstWordIs(word, "");
    assert word + "" == word && word[|word|..] == "";
  }

  lemma {:induction false} WordsAreSolid(s: string)
    ensures forall i :: 0 <= i < |Words(s)| ==> Solid(Words(s)[i])
    decreases |s|
  {
    if s == "" {
    } else if s[0] == ' ' {
      WordsAreSolid(s[1..]);
    } else {
      WordsAreSolid(s[|FirstWord(s)|..]);
    }
  }

  lemma {:induction false} WordsOfJoined(group: seq<string>)
    requires forall i :: 0 <= i < |group| ==> Solid(group[i])
    ensures Words(Joined(group)) == group
    decreases |group|
  {
    if group != [] {
      var front, last := group[..|group| - 1], group[|group| - 1];
      WordsOfJoined(front);
      WordsOfOne(last);
      if Joined(front) != "" {
        WordsApart(Joined(front), " " + last);
        assert Joined(front) + " " + last == Joined(front) + (" " + last);
        assert (" " + last)[1..] == last;
      } else {
        assert front == Words("");
      }
      assert front + [last] == group;
    }
  }

  function WordsOf(lines: seq<string>): seq<string> {
    if lines == [] then [] else Words(lines[0]) + WordsOf(lines[1..])
  }

  lemma {:induction false} WordsOfGroups(groups: seq<seq<string>>)
    requires forall i :: 0 <= i < |Flatten(groups)| ==> Solid(Flatten(groups)[i])
    ensures WordsOf(JoinEach(groups)) == Flatten(groups)
    decreases |groups|
  {
    if groups != [] {
      var all, rest := Flatten(groups), Flatten(groups[1..]);
      assert all == groups[0] + rest;
      assert forall i :: 0 <= i < |groups[0]| ==> groups[0][i] == all[i];
      assert forall i :: 0 <= i < |rest| ==> rest[i] == all[|groups[0]| + i];
      WordsOfJoined(groups[0]);
      WordsOfGroups(groups[1..]);
    }
  }

  /** When every word fits on a line of its own, the lines hold the words of the text, parted and in order. */
  lemma LinesReadBack(text: string, maxWidth: real, font: Font)
    requires EachFits(Words(text), maxWidth, font)
    ensures WordsOf(Wrapped(text, maxWidth, font)) == Words(text)
  {
    var words := Words(text);
    if words == [] {
      assert WordsOf([""]) == Words("") + WordsOf([""][1..]);
    } else {
      var word, rest := words[0], words[1..];
      var groups := Greedy([word], rest, maxWidth, font);
      GreedyFromStart(words, maxWidth, font);
      GreedyBreaks([word], rest, maxWidth, font);
      assert [word] + rest == words;
      WordsAreSolid(text);
      WordsOfGroups(groups);
    }
  }

  // ----- fonts that add up their glyphs, closing some pairs up -----

  /** The width of a character, and how much a pair of neighbours is moved apart, or closer if below zero. */
  type Glyphs = char -> real
  type Kerning = (char, char) -> real

  /** The widths of all characters, with each pair of neighbours moved. */
  function KernedSum(s: string, glyph: Glyphs, kern: Kerning): real {
    if s == "" then 0.0
    else
      var pair := if |s| > 1 then kern(s[0], s[1]) else 0.0;
      glyph(s[0]) + pair + KernedSum(s[1..], glyph, kern)
  }

  /** No pair is moved closer than either of its glyphs is wide. */
  ghost predicate Moderate(glyph: Glyphs, kern: Kerning) {
    && (forall c :: glyph(c) >= 0.0)
    && (forall c, d :: glyph(c) + kern(c, d) >= 0.0 && glyph(d) + kern(c, d) >= 0.0)
  }

  lemma {:induction false} NoNarrowerInFront(front: string, s: string, glyph: Glyphs, kern: Kerning)
    requires Moderate(glyph, kern)
    ensures KernedSum(front + s, glyph, kern) >= KernedSum(s, glyph, kern)
    decreases |front|
  {
    if front == "" {
      assert front + s == s;
    } else {
      var t := front[1..] + s;
      assert (front + s)[1..] == t;
      NoNarrowerInFront(front[1..], s, glyph, kern);
      assert t != "" ==> glyph(front[0]) + kern(front[0], t[0]) >= 0.0;
    }
  }

  /** What follows a character never pulls it back. */
  lemma {:induction false} NeverPullsBack(c: char, s: string, glyph: Glyphs, kern: Kerning)
    requires Moderate(glyph, kern)
    ensures KernedSum(s, glyph, kern) >= 0.0
    ensures s != "" ==> kern(c, s[0]) + KernedSum(s, glyph, kern) >= 0.0
    decreases |s|
  {
    if s != "" {
      NeverPullsBack(s[0], s[1..], glyph, kern);
      assert glyph(s[0]) + kern(c, s[0]) >= 0.0;
    }
  }

  lemma {:induction false} NoNarrowerBehind(s: string, back: string, glyph: Glyphs, kern: Kerning)
    requires Moderate(glyph, kern)
    ensures KernedSum(s + back, glyph, kern) >= KernedSum(s, glyph, kern)
    decreases |s|
  {
    if s == "" {
      assert s + back == back;
      NeverPullsBack(' ', back, glyph, kern);
    } else {
      assert (s + back)[1..] == s[1..] + back;
      NoNarrowerBehind(s[1..], back, glyph, kern);
      if |s| == 1 {
        assert s[1..] + back == back;
        NeverPullsBack(s[0], back, glyph, kern);
      }
    }
  }

  lemma CandidateEndsWith(front: string, before: string, last: string) returns (longer: string)
    ensures Candidate(front + before, last) == longer + Candidate(before, last)
  {
    if before != "" {
      longer := front;
      assert (front + before) + " " + last == front + (before + " " + last);
    } else {
      longer := if front == "" then "" else front + " ";
      assert front + before == front;
    }
  }

  /** The words at the end of a line are the end of its text. */
  lemma {:induction false} JoinedEndsWith(a: seq<string>, b: seq<string>) returns (front: string)
    ensures Joined(a + b) == front + Joined(b)
    decreases |b|
  {
    if b == [] {
      assert a + b == a;
      front := Joined(a);
    } else {
      var before, last := b[..|b| - 1], b[|b| - 1];
      var start := JoinedEndsWith(a, before);
      front := CandidateEndsWith(start, Joined(before), last);
      assert a + b == (a + before) + [last] && b == before + [last];
      JoinedSnoc(a + before, last);
      JoinedSnoc(before, last);
    }
  }

  /** The words at the front of a line are the front of its text. */
  lemma {:induction false} JoinedStartsWith(b: seq<string>, c: seq<string>) returns (back: string)
    ensures Joined(b + c) == Joined(b) + back
    decreases |c|
  {
    if c == [] {
      back := "";
      assert b + c == b;
    } else {
      var before, last := c[..|c| - 1], c[|c| - 1];
      assert b + c == (b + before) + [last];
      JoinedSnoc(b + before, last);
      back := JoinedStartsWith(b, before);
      if Joined(b + before) == "" {
        back := last;
      } else {
        assert (Joined(b) + back) + " " + last == Joined(b) + (back + " " + last);
        back := back + " " + last;
      }
    }
  }

  /** A kerned font whose pairs are moved moderately is monotone. */
  lemma KernedSumsAreMonotone(font: Font, glyph: Glyphs, kern: Kerning)
    requires Moderate(glyph, kern)
    requires forall s :: font(s) == KernedSum(s, glyph, kern)
    ensures Monotone(font)
  {
    forall a: seq<string>, b: seq<string>, c: seq<string> {:trigger Joined(a + b + c)} | b != []
      ensures font(Joined(b)) <= font(Joined(a + b + c))
    {
      var front := JoinedEndsWith(a, b);
      var back := JoinedStartsWith(a + b, c);
      NoNarrowerInFront(front, Joined(b), glyph, kern);
      NoNarrowerBehind(Joined(a + b), back, glyph, kern);
    }
  }
}
