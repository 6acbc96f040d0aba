/**
 The string repair a damaged AI answer goes through before it is parsed a second time
 (`repairCommonJsonIssues`): a character loop that mends strings, then one regular
 expression that drops trailing commas.
 */
module JsonRepair {
  import opened JsonText
  import opened WhiteSpace

  /** What may follow a backslash: section 7 of RFC 8259. */
  const ESCAPABLE := "\"\\/bfnrtu"

  /** Line breaks and tabs, which the loop turns into escapes. */
  const BREAKS := "\n\r\t"

  function BreakEscape(c: char): string {
    if c == '\n' then "\\n" else if c == '\r' then "\\r" else "\\t"
  }

  /** The two flags of the loop. */
  datatype Mode = Mode(inString: bool, escaped: bool)

  /** What the loop appends for one character. */
  function Emit(m: Mode, c: char): string {
    if !m.inString then [c]
    else if m.escaped then if c in ESCAPABLE then ['\\', c] else ['\\', '\\', c]
    else if c == '\\' then ""
    else if c in BREAKS then BreakEscape(c)
    else [c]
  }

  function Next(m: Mode, c: char): Mode {
    if !m.inString then Mode(c == '"', m.escaped)
    else if m.escaped then Mode(true, false)
    else Mode(c != '"', c == '\\')
  }

  /** What the loop still appends, from its two flags and the characters left to read. */
  function RepairFrom(s: string, m: Mode): string
    decreases |s|
  {
    if s == "" then if m.escaped then "\\\\" else ""
    else Emit(m, s[0]) + RepairFrom(s[1..], Next(m, s[0]))
  }

  function RepairStrings(s: string): string {
    RepairFrom(s, Mode(false, false))
  }

  // ----- the trailing-comma expression /,\s*([}\]])/g -----

  function TrimSpaces(s: string): (t: string)
    ensures |t| <= |s|
  {
    if s != "" && IsSpace(s[0]) then TrimSpaces(s[1..]) else s
  }

  /** The expression matches at the front of `s`. */
  predicate TrailingComma(s: string) {
    s != "" && s[0] == ',' && var t := TrimSpaces(s[1..]); t != "" && t[0] in "}]"
  }

  function StripCommas(s: string): string
    decreases |s|
  {
    if s == "" then ""
    else if TrailingComma(s) then
      var t := TrimSpaces(s[1..]);
      [t[0]] + StripCommas(t[1..])
    else [s[0]] + StripCommas(s[1..])
  }

  function Repair(s: string): string {
    StripCommas(RepairStrings(s))
  }

  method RepairCommonJsonIssues(value: string) returns (result: string)
    ensures result == Repair(value)
  {
    var repaired, inString, escaped := "", false, false;
    for index := 0 to |value|
      invariant repaired + RepairFrom(value[index..], Mode(inString, escaped)) == RepairStrings(value)
      invariant escaped ==> inString
    {
      var character := value[index];
      ghost var before, m := repaired, Mode(inString, escaped);
      if !inString {
        if character == '"' { inString := true; }
        repaired := repaired + [character];
      } else if escaped {
        if character in ESCAPABLE {
          repaired := repaired + ['\\', character];
        } else {
          repaired := repaired + ['\\', '\\', character];
        }
        escaped := false;
      } else if character == '\\' {
        escaped := true;
      } else if character == '"' {
        inString := false;
        repaired := repaired + [character];
      } else if character == '\n' {
        repaired := repaired + "\\n";
      } else if character == '\r' {
        repaired := repaired + "\\r";
      } else if character == '\t' {
        repaired := repaired + "\\t";
      } else {
        repaired := repaired + [character];
      }
      assert repaired == before + Emit(m, character);
      assert Mode(inString, escaped) == Next(m, character);
      StepRepair(before, value[index..], m);
      assert value[index..][1..] == value[index + 1..];
    }
    assert value[|value|..] == "";
    assert repaired + RepairFrom("", Mode(inString, escaped)) == RepairStrings(value);
    assert repaired + "" == repaired;
    if escaped {
      repaired := repaired + "\\\\";
    }
    result := StripCommas(repaired);
  }

  lemma StepRepair(before: string, s: string, m: Mode)
    requires s != ""
    ensures before + RepairFrom(s, m)
         == before + Emit(m, s[0]) + RepairFrom(s[1..], Next(m, s[0]))
  {
  }

  // ----- what the loop does, told token by token -----

  /** How a reader that knows only quotes and backslashes takes a text apart. */
  datatype Token =
    | Outside(c: char)
    | Open
    | Char(c: char)
    | Pair(c: char)
    | Dangling
    | Close

  function Tokens(s: string, inString: bool): seq<Token>
    decreases |s|
  {
    if s == "" then []
    else if !inString then
      if s[0] == '"' then [Open] + Tokens(s[1..], true)
      else [Outside(s[0])] + Tokens(s[1..], false)
    else if s[0] == '"' then [Close] + Tokens(s[1..], false)
    else if s[0] == '\\' then
      if |s| == 1 then [Dangling] else [Pair(s[1])] + Tokens(s[2..], true)
    else [Char(s[0])] + Tokens(s[1..], true)
  }

  /** The mend for one token. Everything outside strings, and every quote, stays. */
  function Mend(t: Token): seq<Token> {
    match t
    case Char(c) => if c in BREAKS then [Pair(BreakEscape(c)[1])] else [t]
    case Pair(c) => if c in ESCAPABLE then [t] else [Pair('\\'), Char(c)]
    case Dangling => [Pair('\\')]
    case _ => [t]
  }

  function MendAll(ts: seq<Token>): seq<Token> {
    if ts == [] then [] else Mend(ts[0]) + MendAll(ts[1..])
  }

  predicate Sound(t: Token) {
    match t
    case Char(c) => c !in BREAKS
    case Pair(c) => c in ESCAPABLE
    case Dangling => false
    case _ => true
  }

  predicate AllSound(ts: seq<Token>) {
    forall i :: 0 <= i < |ts| ==> Sound(ts[i])
  }

  function Spell(t: Token): string {
    match t
    case Outside(c) => [c]
    case Open => "\""
    case Char(c) => [c]
    case Pair(c) => ['\\', c]
    case Dangling => "\\"
    case Close => "\""
  }

  function SpellAll(ts: seq<Token>): string {
    if ts == [] then "" else Spell(ts[0]) + SpellAll(ts[1..])
  }

  /** Whether the token stands inside a string, and whether what follows it does. */
  predicate Within(t: Token) {
    !t.Outside? && !t.Open?
  }

  predicate ThenWithin(t: Token) {
    !t.Outside? && !t.Close?
  }

  predicate Readable(t: Token) {
    match t
    case Outside(c) => c != '"'
    case Char(c) => c != '"' && c != '\\'
    case Dangling => false
    case _ => true
  }

  lemma ReadOne(t: Token, rest: string)
    requires Readable(t)
    ensures Tokens(Spell(t) + rest, Within(t)) == [t] + Tokens(rest, ThenWithin(t))
  {
    assert (Spell(t) + rest)[|Spell(t)|..] == rest;
  }

  /** The first token of a text, and the rest that is read after it. */
  lemma FirstToken(s: string, inString: bool)
    requires s != "" && !(inString && s == "\\")
    ensures Tokens(s, inString) != []
    ensures var t := Tokens(s, inString)[0];
      && Readable(t) && Within(t) == inString && |Spell(t)| <= |s|
      && Spell(t) == s[..|Spell(t)|]
      && Tokens(s, inString)[1..] == Tokens(s[|Spell(t)|..], ThenWithin(t))
  {
  }

  /** The mend of a token, spelled, is what the loop appends for its last character. */
  lemma EmitsMend(t: Token)
    requires Readable(t)
    ensures SpellAll(Mend(t))
         == if t.Pair? then Emit(Mode(true, true), t.c) else Emit(Mode(Within(t), false), Spell(t)[0])
  {
    assert SpellAll(Mend(t)[1..]) == if |Mend(t)| == 2 then Spell(Mend(t)[1]) else "";
  }

  lemma RepairPair(c: char, rest: string)
    ensures RepairFrom(Spell(Pair(c)) + rest, Mode(true, false))
         == Emit(Mode(true, true), c) + RepairFrom(rest, Mode(true, false))
  {
    var s := Spell(Pair(c)) + rest;
    assert s[1..] == [c] + rest && s[1..][1..] == rest;
    assert RepairFrom(s, Mode(true, false)) == RepairFrom(s[1..], Mode(true, true));
  }

  /** What the loop appends for one token. */
  lemma RepairOne(t: Token, rest: string)
    requires Readable(t)
    ensures RepairFrom(Spell(t) + rest, Mode(Within(t), false))
         == SpellAll(Mend(t)) + RepairFrom(rest, Mode(ThenWithin(t), false))
  {
    EmitsMend(t);
    if t.Pair? {
      RepairPair(t.c, rest);
    } else {
      assert (Spell(t) + rest)[1..] == rest;
    }
  }

  lemma SpellTwo(t: Token, u: Token)
    ensures SpellAll([t, u]) == Spell(t) + Spell(u)
  {
    assert [t, u][1..] == [u] && [u][1..] == [];
    assert SpellAll([u]) == Spell(u) + SpellAll([]);
  }

  lemma ReadTwo(t: Token, u: Token, rest: string)
    requires Readable(t) && Readable(u) && ThenWithin(t) == Within(u)
    ensures Tokens(Spell(t) + (Spell(u) + rest), Within(t)) == [t] + ([u] + Tokens(rest, ThenWithin(u)))
  {
    ReadOne(t, Spell(u) + rest);
    ReadOne(u, rest);
  }

  lemma ReadPair(t: Token, u: Token, rest: string)
    requires Readable(t) && Readable(u) && ThenWithin(t) == Within(u)
    ensures Tokens(SpellAll([t, u]) + rest, Within(t)) == [t, u] + Tokens(rest, ThenWithin(u))
  {
    SpellTwo(t, u);
    ReadTwo(t, u, rest);
    Associate(Spell(t), Spell(u), rest);
    Associate([t], [u], Tokens(rest, ThenWithin(u)));
  }

  lemma Associate<T>(a: seq<T>, b: seq<T>, c: seq<T>)
    ensures (a + b) + c == a + (b + c)
  {
  }

  lemma ReadMended(t: Token, rest: string)
    requires Readable(t)
    ensures Tokens(SpellAll(Mend(t)) + rest, Within(t)) == Mend(t) + Tokens(rest, ThenWithin(t))
  {
    var ts := Mend(t);
    if |ts| == 1 {
      assert SpellAll(ts) == Spell(ts[0]);
      ReadOne(ts[0], rest);
    } else {
      assert ts == [ts[0], ts[1]];
      ReadPair(ts[0], ts[1], rest);
    }
  }

  /**
   Reading the repaired text takes it apart into the mended tokens of the original, in
   order: no string starts or ends anywhere else, and the text between strings is kept.
   */
  lemma {:induction false} RepairMendsTokens(s: string, inString: bool)
    ensures Tokens(RepairFrom(s, Mode(inString, false)), inString) == MendAll(Tokens(s, inString))
    decreases |s|
  {
    if s == "" {
    } else if inString && s == "\\" {
      assert RepairFrom(s[1..], Mode(true, true)) == "\\\\";
      assert MendAll([Dangling]) == [Pair('\\')] + MendAll([]);
    } else {
      FirstToken(s, inString);
      var t := Tokens(s, inString)[0];
      var rest := s[|Spell(t)|..];
      assert s == Spell(t) + rest;
      RepairOne(t, rest);
      RepairMendsTokens(rest, ThenWithin(t));
      ReadMended(t, RepairFrom(rest, Mode(ThenWithin(t), false)));
    }
  }

  lemma {:induction false} MendAllElement(ts: seq<Token>, i: nat)
    requires i < |MendAll(ts)|
    ensures exists j :: 0 <= j < |ts| && MendAll(ts)[i] in Mend(ts[j])
  {
    var n := |Mend(ts[0])|;
    if i < n {
      assert MendAll(ts)[i] in Mend(ts[0]);
    } else {
      MendAllElement(ts[1..], i - n);
      var j :| 0 <= j < |ts[1..]| && MendAll(ts[1..])[i - n] in Mend(ts[1..][j]);
      assert MendAll(ts)[i] in Mend(ts[j + 1]);
    }
  }

  /** The text outside strings and the quotes around them. */
  function Frame(ts: seq<Token>): seq<Token> {
    if ts == [] then []
    else if ts[0].Outside? || ts[0].Open? || ts[0].Close? then [ts[0]] + Frame(ts[1..])
    else Frame(ts[1..])
  }

  lemma {:induction false} MendKeepsFrame(ts: seq<Token>)
    ensures Frame(MendAll(ts)) == Frame(ts)
  {
    if ts != [] {
      MendKeepsFrame(ts[1..]);
      var m, rest := Mend(ts[0]), MendAll(ts[1..]);
      if |m| == 2 {
        assert m + rest == [m[0]] + ([m[1]] + rest);
        assert ([m[1]] + rest)[1..] == rest;
        assert (m + rest)[1..] == [m[1]] + rest;
      } else {
        assert (m + rest)[1..] == rest;
      }
    }
  }

  /**
   On any text the loop keeps every string boundary and all text between strings, and
   every backslash inside an output string starts a two-character escape.
   */
  lemma RepairKeepsBoundaries(s: string)
    ensures Frame(Tokens(RepairStrings(s), false)) == Frame(Tokens(s, false))
    ensures forall i :: 0 <= i < |Tokens(RepairStrings(s), false)| ==>
              Escapes(Tokens(RepairStrings(s), false)[i])
  {
    RepairMendsTokens(s, false);
    MendKeepsFrame(Tokens(s, false));
    MendEscapes(Tokens(s, false));
  }

  /** A backslash that starts an escape, or a token without one. */
  predicate Escapes(t: Token) {
    t != Dangling && (t.Pair? ==> t.c in ESCAPABLE)
  }

  lemma MendEscapes(ts: seq<Token>)
    ensures forall i :: 0 <= i < |MendAll(ts)| ==> Escapes(MendAll(ts)[i])
  {
    forall i | 0 <= i < |MendAll(ts)| ensures Escapes(MendAll(ts)[i]) {
      MendAllElement(ts, i);
    }
  }

  /** Each mend makes the text longer, so an unchanged text needed none. */
  lemma {:induction false} RepairGrows(s: string, inString: bool)
    ensures |RepairFrom(s, Mode(inString, false))| >= |s|
    ensures AllSound(Tokens(s, inString)) ==> RepairFrom(s, Mode(inString, false)) == s
    ensures !AllSound(Tokens(s, inString)) ==> |RepairFrom(s, Mode(inString, false))| > |s|
    decreases |s|
  {
    if s == "" {
    } else if inString && s == "\\" {
      assert RepairFrom(s[1..], Mode(true, true)) == "\\\\";
      assert !Sound(Tokens(s, true)[0]);
    } else {
      FirstToken(s, inString);
      var ts := Tokens(s, inString);
      var t := ts[0];
      var rest := s[|Spell(t)|..];
      assert s == Spell(t) + rest;
      assert ts == [t] + ts[1..];
      RepairOne(t, rest);
      RepairGrows(rest, ThenWithin(t));
      MendGrows(t);
    }
  }

  lemma MendGrows(t: Token)
    ensures |SpellAll(Mend(t))| >= |Spell(t)|
    ensures if Sound(t) then SpellAll(Mend(t)) == Spell(t) else |SpellAll(Mend(t))| > |Spell(t)|
  {
    var ts := Mend(t);
    assert SpellAll(ts) == Spell(ts[0]) + SpellAll(ts[1..]);
    assert SpellAll(ts[1..]) == if |ts| == 2 then Spell(ts[1]) else "";
  }

  /** Exactly when the loop returns its input: no string needs a mend anywhere. */
  lemma RepairUnchangedIff(s: string)
    ensures RepairStrings(s) == s <==> AllSound(Tokens(s, false))
  {
    RepairGrows(s, false);
  }

  /**
   A raw line break or tab directly after a backslash is passed through, so one pass is
   not always enough. A second pass changes nothing exactly when there is none.
   */
  lemma RepairIdempotentIff(s: string)
    ensures RepairStrings(RepairStrings(s)) == RepairStrings(s)
       <==> (forall i :: 0 <= i < |Tokens(s, false)| ==> !BreakAfterBackslash(Tokens(s, false)[i]))
  {
    RepairUnchangedIff(RepairStrings(s));
    RepairMendsTokens(s, false);
    MendedSoundIff(Tokens(s, false));
  }

  /** Such a text: a string that is a backslash and a raw line break. */
  const BROKEN_STRING := "\"\\\n\""

  lemma RepairTwiceDiffers()
    ensures RepairStrings(RepairStrings(BROKEN_STRING)) != RepairStrings(BROKEN_STRING)
  {
    var s := BROKEN_STRING;
    assert s[1..] == "\\\n\"" && s[1..][2..] == "\"";
    assert Tokens(s, false) == [Open] + ([Pair('\n')] + Tokens("\"", true));
    assert BreakAfterBackslash(Tokens(s, false)[1]);
    RepairIdempotentIff(s);
  }

  predicate BreakAfterBackslash(t: Token) {
    t.Pair? && t.c in BREAKS
  }

  lemma {:induction false} MendedSoundIff(ts: seq<Token>)
    ensures AllSound(MendAll(ts))
       <==> (forall i :: 0 <= i < |ts| ==> !BreakAfterBackslash(ts[i]))
  {
    if ts != [] {
      MendedSoundIff(ts[1..]);
      MendOneSoundIff(ts[0]);
      AllSoundBoth(Mend(ts[0]), MendAll(ts[1..]));
      assert ts == [ts[0]] + ts[1..];
    }
  }

  lemma MendOneSoundIff(t: Token)
    ensures AllSound(Mend(t)) <==> !BreakAfterBackslash(t)
  {
    if BreakAfterBackslash(t) {
      assert !Sound(Mend(t)[1]);
    }
  }

  lemma AllSoundBoth(a: seq<Token>, b: seq<Token>)
    ensures AllSound(a + b) <==> AllSound(a) && AllSound(b)
  {
    if AllSound(a + b) {
      assert forall i :: 0 <= i < |a| ==> a[i] == (a + b)[i];
      assert forall i :: 0 <= i < |b| ==> b[i] == (a + b)[|a| + i];
    }
  }

  // ----- what the comma expression does to a text -----

  /** The expression matches somewhere in `s`. */
  predicate Matches(s: string) {
    s != "" && (TrailingComma(s) || Matches(s[1..]))
  }

  /** `s` ends with a comma and white space, so that a match may start in it and end later. */
  predicate EndsOpen(s: string) {
    s != "" && ((s[0] == ',' && TrimSpaces(s[1..]) == "") || EndsOpen(s[1..]))
  }

  /** A match that is open ends at the front of `s`. */
  predicate Closing(s: string) {
    var t := TrimSpaces(s);
    t != "" && t[0] in "}]"
  }

  lemma {:induction false} StripCommasKeepsIff(s: string)
    ensures if Matches(s) then |StripCommas(s)| < |s| else StripCommas(s) == s
    decreases |s|
  {
    if s == "" {
    } else if TrailingComma(s) {
      var t := TrimSpaces(s[1..])[1..];
      StripCommasKeepsIff(t);
    } else {
      StripCommasKeepsIff(s[1..]);
    }
  }

  lemma {:induction false} TrimJoin(a: string, b: string)
    ensures TrimSpaces(a + b) == if TrimSpaces(a) == "" then TrimSpaces(b) else TrimSpaces(a) + b
    decreases |a|
  {
    if a == "" {
      assert a + b == b;
    } else {
      assert (a + b)[1..] == a[1..] + b;
      TrimJoin(a[1..], b);
    }
  }

  lemma {:induction false} EndsOpenJoin(a: string, b: string)
    ensures EndsOpen(a + b) <==> EndsOpen(b) || (EndsOpen(a) && TrimSpaces(b) == "")
    decreases |a|
  {
    if a == "" {
      assert a + b == b;
    } else {
      assert (a + b)[1..] == a[1..] + b;
      TrimJoin(a[1..], b);
      EndsOpenJoin(a[1..], b);
      if EndsOpen(b) {
        OpenIsNotBlank(b);
      }
    }
  }

  lemma {:induction false} OpenIsNotBlank(s: string)
    requires EndsOpen(s)
    ensures TrimSpaces(s) != ""
  {
    if IsSpace(s[0]) {
      OpenIsNotBlank(s[1..]);
    }
  }

  lemma {:induction false} BlankIsTrimmed(s: string)
    requires IsBlank(s)
    ensures TrimSpaces(s) == ""
  {
    if s != "" {
      BlankIsTrimmed(s[1..]);
    }
  }

  /** The end of `s` that is left after white space ends like `s`. */
  lemma {:induction false} TrimmedIsNoMoreOpen(s: string)
    ensures EndsOpen(TrimSpaces(s)) ==> EndsOpen(s)
  {
    if s != "" && IsSpace(s[0]) {
      TrimmedIsNoMoreOpen(s[1..]);
    }
  }

  /** Unless a match lies across the joint, the two parts are worked on separately. */
  lemma {:induction false} StripJoin(a: string, b: string)
    requires !(EndsOpen(a) && Closing(b))
    ensures StripCommas(a + b) == StripCommas(a) + StripCommas(b)
    decreases |a|
  {
    if a == "" {
      assert a + b == b;
    } else {
      assert (a + b)[1..] == a[1..] + b;
      TrimJoin(a[1..], b);
      if TrailingComma(a) {
        StripJoinMatch(a, b);
      } else {
        StripJoin(a[1..], b);
      }
    }
  }

  lemma {:induction false} StripJoinMatch(a: string, b: string)
    requires TrailingComma(a) && !(EndsOpen(a) && Closing(b))
    ensures StripCommas(a + b) == StripCommas(a) + StripCommas(b)
    decreases |a|, 0
  {
    var t := TrimSpaces(a[1..]);
    AfterMatch(a);
    StripJoin(t[1..], b);
    StripMatch(a, t);
    MatchStripped(a, b);
    FirstStays(t[0], StripCommas(t[1..]), StripCommas(b));
  }

  lemma FirstStays(c: char, a: string, b: string)
    ensures [c] + (a + b) == ([c] + a) + b
  {
  }

  /** The match at the front of `a` is the same in `a + b`. */
  lemma MatchStripped(a: string, b: string)
    requires TrailingComma(a)
    ensures var t := TrimSpaces(a[1..]);
      StripCommas(a + b) == [t[0]] + StripCommas(t[1..] + b)
  {
    var t := TrimSpaces(a[1..]);
    MatchGoesOn(a, b);
    StripMatch(a + b, t + b);
    assert (t + b)[1..] == t[1..] + b;
  }

  lemma AfterMatch(a: string)
    requires TrailingComma(a)
    ensures EndsOpen(TrimSpaces(a[1..])[1..]) ==> EndsOpen(a)
  {
    TrimmedIsNoMoreOpen(a[1..]);
  }

  lemma MatchGoesOn(a: string, b: string)
    requires TrailingComma(a)
    ensures (a + b)[0] == ',' && TrimSpaces((a + b)[1..]) == TrimSpaces(a[1..]) + b
  {
    assert (a + b)[1..] == a[1..] + b;
    TrimJoin(a[1..], b);
  }

  lemma StripMatch(s: string, t: string)
    requires s != "" && s[0] == ',' && TrimSpaces(s[1..]) == t && t != "" && t[0] in "}]"
    ensures StripCommas(s) == [t[0]] + StripCommas(t[1..])
  {
  }

  /** A match goes but for its bracket, and the text before and after is worked on as it stands. */
  lemma TrailingCommaGoes(a: string, gap: string, bracket: char, rest: string)
    requires IsBlank(gap) && bracket in "}]"
    ensures StripCommas(a + ("," + (gap + ([bracket] + rest)))) == StripCommas(a) + ([bracket] + StripCommas(rest))
    ensures !Matches(a) ==> StripCommas(a) == a
  {
    var s := "," + (gap + ([bracket] + rest));
    StripCommasKeepsIff(a);
    StripJoin(a, s);
    BlankIsTrimmed(gap);
    TrimJoin(gap, [bracket] + rest);
    assert s[1..] == gap + ([bracket] + rest);
    assert TrimSpaces(s[1..]) == [bracket] + rest && ([bracket] + rest)[1..] == rest;
  }
}
