/**
 What the repair makes of a damaged JSON value: the same value with its strings mended and
 without the commas too many. Valid JSON is the case where there is nothing to do.
 */
module JsonMending {
  import opened JsonText
  import opened WhiteSpace
  import opened JsonRepair

  // ----- the value meant -----

  /** A raw break or tab is written as its escape, and a backslash before anything else is doubled. */
  function MendPiece(p: Piece): seq<Piece> {
    match p
    case Plain('\n') => [Escape('n')]
    case Plain('\r') => [Escape('r')]
    case Plain('\t') => [Escape('t')]
    case Plain(_) => [p]
    case Escape(c) => if c in "\"\\/bfnrtu" then [p] else [Escape('\\'), Plain(c)]
    case Unicode(_) => [p]
  }

  function MendBody(body: seq<Piece>): seq<Piece> {
    if body == [] then [] else MendPiece(body[0]) + MendBody(body[1..])
  }

  function MendStrings(v: Value): Value {
    match v
    case Literal(_) => v
    case Text(body) => Text(MendBody(body))
    case Array(gap, items) => Array(gap, MendItemStrings(items))
    case Object(gap, members) => Object(gap, MendMemberStrings(members))
  }

  function MendItemStrings(items: Items): Items {
    match items
    case Item(before, value, after, rest) => Item(before, MendStrings(value), after, MendItemStrings(rest))
    case _ => items
  }

  function MendMemberStrings(members: Members): Members {
    match members
    case Member(before, key, beforeColon, afterColon, value, after, rest) =>
      Member(before, MendBody(key), beforeColon, afterColon, MendStrings(value), after, MendMemberStrings(rest))
    case _ => members
  }

  /** Without the commas after last entries, and without the white space after those. */
  function DropCommas(v: Value): Value {
    match v
    case Array(gap, items) => Array(gap, DropItemCommas(items))
    case Object(gap, members) => Object(gap, DropMemberCommas(members))
    case _ => v
  }

  function DropItemCommas(items: Items): Items {
    match items
    case Item(before, value, after, rest) => Item(before, DropCommas(value), after, DropItemCommas(rest))
    case _ => NoItems
  }

  function DropMemberCommas(members: Members): Members {
    match members
    case Member(before, key, beforeColon, afterColon, value, after, rest) =>
      Member(before, key, beforeColon, afterColon, DropCommas(value), after, DropMemberCommas(rest))
    case _ => NoMembers
  }

  function Mended(v: Value): Value {
    DropCommas(MendStrings(v))
  }

  // ----- the loop over values -----

  /** The loop turns `text` into `result` wherever it stands, entering and leaving with these flags. */
  ghost predicate Turns(text: string, result: string, inString: bool, thenInString: bool) {
    forall rest :: TurnsBefore(text, result, inString, thenInString, rest)
  }

  predicate TurnsBefore(text: string, result: string, inString: bool, thenInString: bool, rest: string) {
    RepairFrom(text + rest, Mode(inString, false)) == result + RepairFrom(rest, Mode(thenInString, false))
  }

  lemma {:induction false} TurnsBoth(a: string, a': string, b: string, b': string, x: bool, y: bool, z: bool)
    requires Turns(a, a', x, y) && Turns(b, b', y, z)
    ensures Turns(a + b, a' + b', x, z)
  {
    forall rest
      ensures TurnsBefore(a + b, a' + b', x, z, rest)
    {
      TurnsBothAt(a, a', b, b', x, y, z, rest);
    }
  }

  lemma {:induction false} TurnsBothAt(a: string, a': string, b: string, b': string, x: bool, y: bool, z: bool,
                                       rest: string)
    requires Turns(a, a', x, y) && Turns(b, b', y, z)
    ensures TurnsBefore(a + b, a' + b', x, z, rest)
  {
    Associate(a, b, rest);
    Associate(a', b', RepairFrom(rest, Mode(z, false)));
    assert TurnsBefore(a, a', x, y, b + rest) && TurnsBefore(b, b', y, z, rest);
  }

  lemma TurnsToken(t: Token)
    requires Readable(t)
    ensures Turns(Spell(t), SpellAll(Mend(t)), Within(t), ThenWithin(t))
  {
    forall rest
      ensures TurnsBefore(Spell(t), SpellAll(Mend(t)), Within(t), ThenWithin(t), rest)
    {
      RepairOne(t, rest);
    }
  }

  lemma {:induction false} CopiesChars(text: string, inString: bool)
    requires forall i :: 0 <= i < |text| ==> text[i] != '"'
    requires inString ==> forall i :: 0 <= i < |text| ==> text[i] != '\\' && text[i] !in BREAKS
    ensures Turns(text, text, inString, inString)
    decreases |text|
  {
    if text == "" {
      forall rest ensures TurnsBefore("", "", inString, inString, rest) {
        assert "" + rest == rest;
      }
    } else {
      var t := if inString then Char(text[0]) else Outside(text[0]);
      TurnsToken(t);
      MendGrows(t);
      CopiesChars(text[1..], inString);
      TurnsBoth(Spell(t), Spell(t), text[1..], text[1..], inString, inString, inString);
      assert Spell(t) + text[1..] == text;
    }
  }

  lemma CopiesGap(gap: string)
    requires forall i :: 0 <= i < |gap| ==> gap[i] != '"'
    ensures Turns(gap, gap, false, false)
  {
    CopiesChars(gap, false);
  }

  lemma TurnsPiece(p: Piece)
    requires LoosePiece(p)
    ensures Turns(PrintPiece(p), PrintBody(MendPiece(p)), true, true)
  {
    match p
    case Plain(c) =>
      PieceIsToken(p, Char(c));
      TurnsToken(Char(c));
    case Escape(c) =>
      PieceIsToken(p, Pair(c));
      TurnsToken(Pair(c));
    case Unicode(hex) =>
      PrintShort(MendPiece(p));
      assert PrintBody(MendPiece(p)) == PrintPiece(p);
      CopiesUnicode(hex);
  }

  /** A piece is spelled like a token, and mended like it. */
  lemma PieceIsToken(p: Piece, t: Token)
    requires (p.Plain? && t == Char(p.c)) || (p.Escape? && t == Pair(p.c))
    ensures PrintPiece(p) == Spell(t)
    ensures PrintBody(MendPiece(p)) == SpellAll(Mend(t))
  {
    PrintShort(MendPiece(p));
    SpellShort(Mend(t));
  }

  lemma CopiesUnicode(hex: string)
    requires LoosePiece(Unicode(hex))
    ensures Turns("\\u" + hex, "\\u" + hex, true, true)
  {
    var start := Spell(Pair('u'));
    TurnsToken(Pair('u'));
    MendGrows(Pair('u'));
    CopiesChars(hex, true);
    TurnsBoth(start, start, hex, hex, true, true, true);
    assert start == "\\u";
  }

  lemma PrintShort(body: seq<Piece>)
    requires 1 <= |body| <= 2
    ensures PrintBody(body) == PrintPiece(body[0]) + if |body| == 2 then PrintPiece(body[1]) else ""
  {
    assert PrintBody(body[1..]) == if |body| == 2 then PrintPiece(body[1]) + PrintBody(body[1..][1..]) else "";
  }

  lemma SpellShort(ts: seq<Token>)
    requires 1 <= |ts| <= 2
    ensures SpellAll(ts) == Spell(ts[0]) + if |ts| == 2 then Spell(ts[1]) else ""
  {
    assert SpellAll(ts[1..]) == if |ts| == 2 then Spell(ts[1]) + SpellAll(ts[1..][1..]) else "";
  }

  lemma {:induction false} PrintBodyBoth(a: seq<Piece>, b: seq<Piece>)
    ensures PrintBody(a + b) == PrintBody(a) + PrintBody(b)
    decreases |a|
  {
    if a == [] {
      assert a + b == b;
    } else {
      assert (a + b)[1..] == a[1..] + b;
      PrintBodyBoth(a[1..], b);
    }
  }

  lemma {:induction false} TurnsBody(body: seq<Piece>)
    requires LooseBody(body)
    ensures Turns(PrintBody(body), PrintBody(MendBody(body)), true, true)
    decreases |body|
  {
    if body == [] {
      CopiesChars("", true);
    } else {
      TurnsPiece(body[0]);
      TurnsBody(body[1..]);
      TurnsBoth(PrintPiece(body[0]), PrintBody(MendPiece(body[0])),
                PrintBody(body[1..]), PrintBody(MendBody(body[1..])), true, true, true);
      PrintBodyBoth(MendPiece(body[0]), MendBody(body[1..]));
    }
  }

  lemma TurnsText(body: seq<Piece>)
    requires LooseBody(body)
    ensures Turns(PrintText(body), PrintText(MendBody(body)), false, false)
  {
    var inner, inner' := PrintBody(body), PrintBody(MendBody(body));
    TurnsToken(Open);
    SpellShort([Open]);
    TurnsBody(body);
    TurnsToken(Close);
    SpellShort([Close]);
    TurnsBoth(inner, inner', "\"", "\"", true, true, false);
    TurnsBoth("\"", "\"", inner + "\"", inner' + "\"", false, true, false);
  }

  lemma {:induction false} TurnsJoined(a: string, a': string, b: string, b': string)
    requires Turns(a, a', false, false) && Turns(b, b', false, false)
    ensures Turns(a + b, a' + b', false, false)
  {
    TurnsBoth(a, a', b, b', false, false, false);
  }

  lemma {:induction false} TurnsValue(v: Value)
    requires Loose(v)
    ensures Turns(Print(v), Print(MendStrings(v)), false, false)
    decreases v
  {
    match v
    case Literal(text) =>
      LiteralChars(text);
      CopiesGap(text);
    case Text(body) => TurnsText(body);
    case Array(gap, items) =>
      TurnsItems(items);
      TurnsBrackets("[", gap, PrintItems(items), PrintItems(MendItemStrings(items)), "]");
    case Object(gap, members) =>
      TurnsMembers(members);
      TurnsBrackets("{", gap, PrintMembers(members), PrintMembers(MendMemberStrings(members)), "}");
  }

  lemma {:induction false} TurnsBrackets(first: string, gap: string, inner: string, inner': string, last: string)
    requires Turns(inner, inner', false, false)
    requires forall i :: 0 <= i < |first| ==> first[i] != '"'
    requires forall i :: 0 <= i < |last| ==> last[i] != '"'
    requires IsGap(gap)
    ensures Turns(first + (gap + (inner + last)), first + (gap + (inner' + last)), false, false)
  {
    CopiesGap(first);
    CopiesGap(gap);
    CopiesGap(last);
    TurnsJoined(inner, inner', last, last);
    TurnsJoined(gap, gap, inner + last, inner' + last);
    TurnsJoined(first, first, gap + (inner + last), gap + (inner' + last));
  }

  /** A value, and what follows it in its list. */
  lemma {:induction false} TurnsEntry(value: string, value': string, after: string, last: bool, rest: string, rest': string)
    requires Turns(value, value', false, false) && IsGap(after) && Turns(rest, rest', false, false)
    ensures Turns(value + (after + (Comma(last) + rest)), value' + (after + (Comma(last) + rest')), false, false)
  {
    CopiesGap(after);
    CopiesGap(Comma(last));
    TurnsJoined(Comma(last), Comma(last), rest, rest');
    TurnsJoined(after, after, Comma(last) + rest, Comma(last) + rest');
    TurnsJoined(value, value', after + (Comma(last) + rest), after + (Comma(last) + rest'));
  }

  lemma {:induction false} TurnsItems(items: Items)
    requires LooseItems(items)
    ensures Turns(PrintItems(items), PrintItems(MendItemStrings(items)), false, false)
    decreases items
  {
    match items
    case NoItems => CopiesGap("");
    case ItemComma(gap) => CopiesGap("," + gap);
    case Item(before, value, after, rest) =>
      var rest' := MendItemStrings(rest);
      TurnsValue(value);
      TurnsItems(rest);
      TurnsEntry(Print(value), Print(MendStrings(value)), after, !rest.Item?, PrintItems(rest), PrintItems(rest'));
      CopiesGap(before);
      TurnsJoined(before, before,
                  Print(value) + (after + (Comma(!rest.Item?) + PrintItems(rest))),
                  Print(MendStrings(value)) + (after + (Comma(!rest'.Item?) + PrintItems(rest'))));
  }

  lemma {:induction false} TurnsMembers(members: Members)
    requires LooseMembers(members)
    ensures Turns(PrintMembers(members), PrintMembers(MendMemberStrings(members)), false, false)
    decreases members
  {
    match members
    case NoMembers => CopiesGap("");
    case MemberComma(gap) => CopiesGap("," + gap);
    case Member(before, key, beforeColon, afterColon, value, after, rest) =>
      var rest' := MendMemberStrings(rest);
      TurnsValue(value);
      TurnsMembers(rest);
      TurnsEntry(Print(value), Print(MendStrings(value)), after, !rest.Member?, PrintMembers(rest), PrintMembers(rest'));
      TurnsKey(before, key, beforeColon, afterColon,
               Print(value) + (after + (Comma(!rest.Member?) + PrintMembers(rest))),
               Print(MendStrings(value)) + (after + (Comma(!rest'.Member?) + PrintMembers(rest'))));
  }

  lemma {:induction false} TurnsKey(before: string, key: seq<Piece>, beforeColon: string, afterColon: string,
                                    rest: string, rest': string)
    requires IsGap(before) && LooseBody(key) && IsGap(beforeColon) && IsGap(afterColon)
    requires Turns(rest, rest', false, false)
    ensures Turns(before + (PrintText(key) + (beforeColon + (":" + (afterColon + rest)))),
                  before + (PrintText(MendBody(key)) + (beforeColon + (":" + (afterColon + rest')))), false, false)
  {
    CopiesGap(before);
    TurnsText(key);
    CopiesGap(beforeColon);
    CopiesGap(":");
    CopiesGap(afterColon);
    TurnsJoined(afterColon, afterColon, rest, rest');
    TurnsJoined(":", ":", afterColon + rest, afterColon + rest');
    TurnsJoined(beforeColon, beforeColon, ":" + (afterColon + rest), ":" + (afterColon + rest'));
    TurnsJoined(PrintText(key), PrintText(MendBody(key)),
                beforeColon + (":" + (afterColon + rest)), beforeColon + (":" + (afterColon + rest')));
    TurnsJoined(before, before, PrintText(key) + (beforeColon + (":" + (afterColon + rest))),
                PrintText(MendBody(key)) + (beforeColon + (":" + (afterColon + rest'))));
  }

  /** The loop mends exactly the strings of a value. */
  lemma {:induction false} LoopMendsStrings(v: Value)
    requires Loose(v)
    ensures RepairStrings(Print(v)) == Print(MendStrings(v))
  {
    TurnsValue(v);
    assert TurnsBefore(Print(v), Print(MendStrings(v)), false, false, "");
    assert Print(v) + "" == Print(v);
    assert RepairFrom("", Mode(false, false)) == "";
  }

  // ----- the comma expression over values -----

  /**
   The expression turns `text` into `result` wherever it stands, or, if the text is not
   clean, into something shorter.
   */
  ghost predicate Becomes(text: string, result: string, clean: bool) {
    !EndsOpen(text) && if clean then StripCommas(text) == result else |StripCommas(text)| < |result|
  }

  lemma JoinBecomes(a: string, a': string, x: bool, b: string, b': string, y: bool)
    requires Becomes(a, a', x) && Becomes(b, b', y)
    ensures Becomes(a + b, a' + b', x && y)
  {
    StripJoin(a, b);
    EndsOpenJoin(a, b);
  }

  lemma {:induction false} CommalessStays(s: string)
    requires forall i :: 0 <= i < |s| ==> s[i] != ','
    ensures Becomes(s, s, true)
  {
    if s != "" {
      CommalessStays(s[1..]);
    }
  }

  /** A comma between two items does not match: what follows it is no bracket. */
  lemma CommaStays(rest: string, rest': string, clean: bool)
    requires Becomes(rest, rest', clean) && TrimSpaces(rest) != "" && !Closing(rest)
    ensures Becomes("," + rest, "," + rest', clean)
  {
    assert ","[1..] == "";
    assert StripCommas(",") == [','] + StripCommas("");
    StripJoin(",", rest);
    EndsOpenJoin(",", rest);
  }

  /** Text that starts with something else than white space or a closing bracket. */
  predicate Solid(s: string) {
    s != "" && !IsSpace(s[0]) && s[0] !in "}]"
  }

  lemma SolidAfterGap(gap: string, s: string)
    requires IsGap(gap) && Solid(s)
    ensures TrimSpaces(gap + s) != "" && !Closing(gap + s)
  {
    BlankIsTrimmed(gap);
    TrimJoin(gap, s);
  }

  lemma PrintIsSolid(v: Value)
    requires Loose(v)
    ensures Solid(Print(v))
  {
    if v.Literal? {
      LiteralChars(v.text);
      var c := v.text[0];
      assert IsNumberChar(c) || 'a' <= c <= 'z';
    }
  }

  /** No key and no string of the value holds a match, as it is written. */
  predicate Clean(v: Value) {
    match v
    case Literal(text) => true
    case Text(body) => !Matches(PrintBody(body))
    case Array(gap, items) => CleanItems(items)
    case Object(gap, members) => CleanMembers(members)
  }

  predicate CleanItems(items: Items) {
    match items
    case Item(before, value, after, rest) => Clean(value) && CleanItems(rest)
    case _ => true
  }

  predicate CleanMembers(members: Members) {
    match members
    case Member(before, key, beforeColon, afterColon, value, after, rest) =>
      !Matches(PrintBody(key)) && Clean(value) && CleanMembers(rest)
    case _ => true
  }

  lemma TextBecomes(body: seq<Piece>)
    ensures Becomes(PrintText(body), PrintText(body), !Matches(PrintBody(body)))
  {
    var inner := PrintBody(body);
    CommalessStays("\"");
    StripCommasKeepsIff(inner);
    StripJoin(inner, "\"");
    EndsOpenJoin(inner, "\"");
    JoinBecomes("\"", "\"", true, inner + "\"", inner + "\"", !Matches(inner));
  }

  lemma {:induction false} ValueBecomes(v: Value)
    requires Loose(v)
    ensures Becomes(Print(v), Print(DropCommas(v)), Clean(v))
    decreases v
  {
    match v
    case Literal(text) =>
      LiteralChars(text);
      CommalessStays(text);
    case Text(body) => TextBecomes(body);
    case Array(gap, items) =>
      ItemsBecome(items);
      AfterOpening('[', gap, PrintItems(items) + "]", PrintItems(DropItemCommas(items)) + "]", CleanItems(items));
    case Object(gap, members) =>
      MembersBecome(members);
      AfterOpening('{', gap, PrintMembers(members) + "}", PrintMembers(DropMemberCommas(members)) + "}",
                   CleanMembers(members));
  }

  lemma AfterOpening(first: char, gap: string, rest: string, rest': string, clean: bool)
    requires first != ',' && IsGap(gap) && Becomes(rest, rest', clean)
    ensures Becomes([first] + (gap + rest), [first] + (gap + rest'), clean)
  {
    CommalessStays([first]);
    CommalessStays(gap);
    JoinBecomes(gap, gap, true, rest, rest', clean);
    JoinBecomes([first], [first], true, gap + rest, gap + rest', clean);
  }

  lemma BracketIsNoSpace(bracket: char)
    requires bracket in "}]"
    ensures !IsSpace(bracket)
  {
    assert "}]"[0] == '}' && "}]"[1] == ']';
  }

  /** A closing bracket, perhaps after one comma too many. */
  lemma ClosingBecomes(comma: bool, gap: string, last: char)
    requires last in "}]" && (if comma then IsBlank(gap) else gap == "")
    ensures var list := if comma then "," + gap else "";
      Becomes(list + [last], "" + [last], true)
  {
    CommalessStays([last]);
    if comma {
      var s := ("," + gap) + [last];
      assert s[1..] == gap + [last];
      BlankIsTrimmed(gap);
      TrimJoin(gap, [last]);
      BracketIsNoSpace(last);
      assert TrimSpaces([last]) == [last];
      StripMatch(s, [last]);
      assert StripCommas(s) == [last] + StripCommas([last][1..]);
      assert StripCommas([last][1..]) == "";
      EndsOpenJoin("," + gap, [last]);
    } else {
      assert "" + [last] == [last];
    }
  }

  /** A value, what follows it in its list, and the bracket at the end. */
  lemma EntryBecomes(value: string, value': string, x: bool, after: string, last: bool,
                     rest: string, rest': string, y: bool)
    requires Becomes(value, value', x) && IsGap(after) && Becomes(rest, rest', y)
    requires !last ==> TrimSpaces(rest) != "" && !Closing(rest)
    ensures Becomes(value + (after + (Comma(last) + rest)), value' + (after + (Comma(last) + rest')), x && y)
  {
    CommalessStays(after);
    if last {
      assert Comma(last) + rest == rest && Comma(last) + rest' == rest';
    } else {
      CommaStays(rest, rest', y);
    }
    JoinBecomes(after, after, true, Comma(last) + rest, Comma(last) + rest', y);
    JoinBecomes(value, value', x, after + (Comma(last) + rest), after + (Comma(last) + rest'), y);
  }

  lemma Regroup(before: string, value: string, after: string, comma: string, rest: string, last: string)
    ensures (before + (value + (after + (comma + rest)))) + last
         == before + (value + (after + (comma + (rest + last))))
  {
    Associate(comma, rest, last);
    Associate(after, comma + rest, last);
    Associate(value, after + (comma + rest), last);
    Associate(before, value + (after + (comma + rest)), last);
  }

  lemma {:induction false} ItemsBecome(items: Items)
    requires LooseItems(items)
    ensures Becomes(PrintItems(items) + "]", PrintItems(DropItemCommas(items)) + "]", CleanItems(items))
    ensures items.Item? ==> TrimSpaces(PrintItems(items) + "]") != "" && !Closing(PrintItems(items) + "]")
    decreases items
  {
    match items
    case NoItems => ClosingBecomes(false, "", ']');
    case ItemComma(gap) => ClosingBecomes(true, gap, ']');
    case Item(before, value, after, rest) =>
      var rest' := DropItemCommas(rest);
      ValueBecomes(value);
      ItemsBecome(rest);
      EntryBecomes(Print(value), Print(DropCommas(value)), Clean(value), after, !rest.Item?,
                   PrintItems(rest) + "]", PrintItems(rest') + "]", CleanItems(rest));
      Regroup(before, Print(value), after, Comma(!rest.Item?), PrintItems(rest), "]");
      Regroup(before, Print(DropCommas(value)), after, Comma(!rest.Item?), PrintItems(rest'), "]");
      var tail := Print(value) + (after + (Comma(!rest.Item?) + (PrintItems(rest) + "]")));
      var tail' := Print(DropCommas(value)) + (after + (Comma(!rest.Item?) + (PrintItems(rest') + "]")));
      CommalessStays(before);
      JoinBecomes(before, before, true, tail, tail', CleanItems(items));
      PrintIsSolid(value);
      SolidAfterGap(before, tail);
  }

  lemma {:induction false} MembersBecome(members: Members)
    requires LooseMembers(members)
    ensures Becomes(PrintMembers(members) + "}", PrintMembers(DropMemberCommas(members)) + "}", CleanMembers(members))
    ensures members.Member? ==>
              TrimSpaces(PrintMembers(members) + "}") != "" && !Closing(PrintMembers(members) + "}")
    decreases members
  {
    match members
    case NoMembers => ClosingBecomes(false, "", '}');
    case MemberComma(gap) => ClosingBecomes(true, gap, '}');
    case Member(before, key, beforeColon, afterColon, value, after, rest) =>
      var rest' := DropMemberCommas(rest);
      ValueBecomes(value);
      MembersBecome(rest);
      EntryBecomes(Print(value), Print(DropCommas(value)), Clean(value), after, !rest.Member?,
                   PrintMembers(rest) + "}", PrintMembers(rest') + "}", CleanMembers(rest));
      var tail := after + (Comma(!rest.Member?) + (PrintMembers(rest) + "}"));
      var tail' := after + (Comma(!rest.Member?) + (PrintMembers(rest') + "}"));
      KeyBecomes(before, key, beforeColon, afterColon, Print(value) + tail, Print(DropCommas(value)) + tail',
                 Clean(value) && CleanMembers(rest));
      RegroupMember(before, PrintText(key), beforeColon, afterColon, Print(value), after,
                    Comma(!rest.Member?), PrintMembers(rest), "}");
      RegroupMember(before, PrintText(key), beforeColon, afterColon, Print(DropCommas(value)), after,
                    Comma(!rest.Member?), PrintMembers(rest'), "}");
  }

  lemma KeyBecomes(before: string, key: seq<Piece>, beforeColon: string, afterColon: string,
                   rest: string, rest': string, clean: bool)
    requires IsGap(before) && IsGap(beforeColon) && IsGap(afterColon) && Becomes(rest, rest', clean)
    ensures var text := before + (PrintText(key) + (beforeColon + (":" + (afterColon + rest))));
      var text' := before + (PrintText(key) + (beforeColon + (":" + (afterColon + rest'))));
      && Becomes(text, text', !Matches(PrintBody(key)) && clean)
      && TrimSpaces(text) != "" && !Closing(text)
  {
    CommalessStays(before);
    TextBecomes(key);
    CommalessStays(beforeColon);
    CommalessStays(":");
    CommalessStays(afterColon);
    JoinBecomes(afterColon, afterColon, true, rest, rest', clean);
    JoinBecomes(":", ":", true, afterColon + rest, afterColon + rest', clean);
    var tail, tail' := beforeColon + (":" + (afterColon + rest)), beforeColon + (":" + (afterColon + rest'));
    JoinBecomes(beforeColon, beforeColon, true, ":" + (afterColon + rest), ":" + (afterColon + rest'), clean);
    JoinBecomes(PrintText(key), PrintText(key), !Matches(PrintBody(key)), tail, tail', clean);
    JoinBecomes(before, before, true, PrintText(key) + tail, PrintText(key) + tail', !Matches(PrintBody(key)) && clean);
    SolidAfterGap(before, PrintText(key) + tail);
  }

  lemma RegroupMember(before: string, key: string, beforeColon: string, afterColon: string, value: string,
                      after: string, comma: string, rest: string, last: string)
    ensures (before + (key + (beforeColon + (":" + (afterColon + (value + (after + (comma + rest)))))))) + last
         == before + (key + (beforeColon + (":" + (afterColon + (value + (after + (comma + (rest + last))))))))
  {
    Regroup(afterColon, value, after, comma, rest, last);
    var t := afterColon + (value + (after + (comma + rest)));
    Regroup(before, key, beforeColon, ":", t, last);
  }

  // ----- the main results -----

  /** What the loop can put right: breaks and tabs, but no other control character, and no broken `\u`. */
  predicate Mendable(p: Piece) {
    match p
    case Plain(c) => c >= ' ' || c == '\n' || c == '\r' || c == '\t'
    case Escape(c) => c >= ' ' && c != 'u'
    case Unicode(_) => true
  }

  predicate MendableBody(body: seq<Piece>) {
    forall i :: 0 <= i < |body| ==> Mendable(body[i])
  }

  predicate MendableValue(v: Value) {
    match v
    case Literal(_) => true
    case Text(body) => MendableBody(body)
    case Array(_, items) => MendableItems(items)
    case Object(_, members) => MendableMembers(members)
  }

  predicate MendableItems(items: Items) {
    items.Item? ==> MendableValue(items.value) && MendableItems(items.rest)
  }

  predicate MendableMembers(members: Members) {
    members.Member? ==> MendableBody(members.key) && MendableValue(members.value) && MendableMembers(members.rest)
  }

  lemma MendedPieceIs(p: Piece)
    requires LoosePiece(p)
    ensures LooseBody(MendPiece(p))
    ensures ValidBody(MendPiece(p)) <==> Mendable(p)
    ensures ValidPiece(p) ==> MendPiece(p) == [p]
  {
    var ps := MendPiece(p);
    assert ValidBody(ps) <==> ValidPiece(ps[0]) && (|ps| == 2 ==> ValidPiece(ps[1]));
  }

  lemma BodyBoth(a: seq<Piece>, b: seq<Piece>)
    ensures LooseBody(a + b) <==> LooseBody(a) && LooseBody(b)
    ensures ValidBody(a + b) <==> ValidBody(a) && ValidBody(b)
    ensures MendableBody(a + b) <==> MendableBody(a) && MendableBody(b)
  {
    assert forall i :: 0 <= i < |a| ==> a[i] == (a + b)[i];
    assert forall i :: 0 <= i < |b| ==> b[i] == (a + b)[|a| + i];
  }

  lemma {:induction false} MendedBodyIs(body: seq<Piece>)
    requires LooseBody(body)
    ensures LooseBody(MendBody(body))
    ensures ValidBody(MendBody(body)) <==> MendableBody(body)
    ensures ValidBody(body) ==> MendBody(body) == body
    decreases |body|
  {
    if body != [] {
      MendedPieceIs(body[0]);
      MendedBodyIs(body[1..]);
      BodyBoth(MendPiece(body[0]), MendBody(body[1..]));
      BodyBoth([body[0]], body[1..]);
      assert [body[0]] + body[1..] == body;
    }
  }

  lemma {:induction false} MendedIs(v: Value)
    requires Loose(v)
    ensures Loose(MendStrings(v))
    ensures Valid(Mended(v)) <==> MendableValue(v)
    ensures Valid(v) ==> MendStrings(v) == v && DropCommas(v) == v
    decreases v
  {
    match v
    case Literal(_) =>
    case Text(body) => MendedBodyIs(body);
    case Array(_, items) => MendedItemsAre(items);
    case Object(_, members) => MendedMembersAre(members);
  }

  lemma {:induction false} MendedItemsAre(items: Items)
    requires LooseItems(items)
    ensures LooseItems(MendItemStrings(items))
    ensures ValidItems(DropItemCommas(MendItemStrings(items))) <==> MendableItems(items)
    ensures ValidItems(items) ==> MendItemStrings(items) == items && DropItemCommas(items) == items
    decreases items
  {
    if items.Item? {
      MendedIs(items.value);
      MendedItemsAre(items.rest);
    }
  }

  lemma {:induction false} MendedMembersAre(members: Members)
    requires LooseMembers(members)
    ensures LooseMembers(MendMemberStrings(members))
    ensures ValidMembers(DropMemberCommas(MendMemberStrings(members))) <==> MendableMembers(members)
    ensures ValidMembers(members) ==> MendMemberStrings(members) == members && DropMemberCommas(members) == members
    decreases members
  {
    if members.Member? {
      MendedBodyIs(members.key);
      MendedIs(members.value);
      MendedMembersAre(members.rest);
    }
  }

  /**
   Of any value with damaged strings and commas too many, the repair makes the same value
   with the strings mended and without those commas, exactly when no mended string holds a
   comma, white space and a closing bracket.
   */
  lemma RepairMendsValueIff(v: Value)
    requires Loose(v)
    ensures Repair(Print(v)) == Print(Mended(v)) <==> Clean(MendStrings(v))
  {
    MendedIs(v);
    LoopMendsStrings(v);
    ValueBecomes(MendStrings(v));
  }

  /** The result is valid JSON exactly when each string can be mended. */
  lemma MendedIsValidIff(v: Value)
    requires Loose(v)
    ensures Valid(Mended(v)) <==> MendableValue(v)
  {
    MendedIs(v);
  }

  /** The loop returns every valid JSON text unchanged. */
  lemma {:induction false} RepairKeepsValidJson(v: Value)
    requires Valid(v)
    ensures RepairStrings(Print(v)) == Print(v)
  {
    ValidIsLoose(v);
    MendedIs(v);
    LoopMendsStrings(v);
  }

  /** In valid JSON the comma expression matches only inside keys and strings. */
  lemma ValidMatchesIff(v: Value)
    requires Valid(v)
    ensures Matches(Print(v)) <==> !Clean(v)
  {
    ValidIsLoose(v);
    MendedIs(v);
    ValueBecomes(v);
    StripCommasKeepsIff(Print(v));
  }

  /**
   The whole repair keeps a valid JSON text exactly when no key and no string in it holds a
   comma, white space and a closing bracket: commas of the structure never match.
   */
  lemma RepairKeepsValidJsonIff(v: Value)
    requires Valid(v)
    ensures Repair(Print(v)) == Print(v) <==> Clean(v)
  {
    ValidIsLoose(v);
    MendedIs(v);
    RepairMendsValueIff(v);
  }

  /** `",]"` is valid JSON, and the repair takes its comma out. */
  lemma RepairDamagesCommaInString()
    ensures exists v :: Valid(v) && Repair(Print(v)) != Print(v)
  {
    var v := Text([Plain(','), Plain(']')]);
    RepairKeepsValidJsonIff(v);
    assert [Plain(','), Plain(']')][1..] == [Plain(']')];
    assert PrintBody([Plain(']')]) == "]" + PrintBody([]);
    assert PrintBody(v.body) == ",]" && ",]"[1..] == "]";
    assert TrailingComma(",]");
  }
}
