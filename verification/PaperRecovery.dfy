/**
 Pulling complete question objects out of a truncated or damaged AI answer
 (`recoverCompleteQuestions`).
 */
module PaperRecovery {
  import opened Wrappers
  import opened JsonText
  import JsonRepair
  import opened JsonMending
  import opened WhiteSpace

  // ----- the scanner -----

  /**
   What the scanner knows after some characters. `buffer` is the text from the object's
   opening brace up to here, which the program keeps as the index `objectStart`.
   */
  datatype Scan = Scan(buffer: string, depth: nat, inString: bool, escaped: bool,
                       fragments: seq<string>, stopped: bool)

  const BEGIN := Scan("", 0, false, false, [], false)

  function Step(s: Scan, c: char): Scan {
    var grown := if s.depth > 0 then s.buffer + [c] else s.buffer;
    if s.stopped then s
    else if s.inString then
      s.(buffer := grown,
         inString := s.escaped || c != '"',
         escaped := !s.escaped && c == '\\')
    else if c == '"' then s.(buffer := grown, inString := true)
    else if c == '{' then
      s.(buffer := if s.depth == 0 then [c] else grown, depth := s.depth + 1)
    else if c == '}' && s.depth == 1 then
      s.(buffer := "", depth := 0, fragments := s.fragments + [grown])
    else if c == '}' && s.depth > 1 then s.(buffer := grown, depth := s.depth - 1)
    else if c == ']' && s.depth == 0 then s.(stopped := true)
    else s.(buffer := grown)
  }

  function Run(s: Scan, text: string): Scan
    decreases |text|
  {
    if text == [] then s else Run(Step(s, text[0]), text[1..])
  }

  lemma RunConcat(s: Scan, a: string, b: string)
    ensures Run(s, a + b) == Run(Run(s, a), b)
    decreases |a|
  {
    if a == [] {
      assert a + b == b;
    } else {
      assert (a + b)[0] == a[0] && (a + b)[1..] == a[1..] + b;
      RunConcat(Step(s, a[0]), a[1..], b);
    }
  }

  lemma RunSnoc(s: Scan, text: string, c: char)
    ensures Run(s, text + [c]) == Step(Run(s, text), c)
  {
    RunConcat(s, text, [c]);
    assert [c][1..] == [];
    assert Run(Run(s, text), [c]) == Step(Run(s, text), c);
  }

  /** Fragments are only ever appended, and a new one is no longer than what was read. */
  lemma {:induction false} RunOnlyAppends(s: Scan, text: string)
    ensures s.fragments <= Run(s, text).fragments
    ensures forall i :: |s.fragments| <= i < |Run(s, text).fragments| ==>
              |Run(s, text).fragments[i]| <= |s.buffer| + |text|
    decreases |text|
  {
    if text != [] {
      RunOnlyAppends(Step(s, text[0]), text[1..]);
    }
  }

  lemma {:induction false} RunStopped(s: Scan, text: string)
    requires s.stopped
    ensures Run(s, text) == s
  {
    if text != [] {
      RunStopped(s, text[1..]);
    }
  }

  // ----- running over JSON -----

  ghost predicate Inside(s: Scan) {
    s.depth >= 1 && !s.inString && !s.escaped && !s.stopped
  }

  function Grow(s: Scan, text: string): Scan {
    s.(buffer := s.buffer + text)
  }

  /** The scanner reads `text` as part of the current object and is otherwise unmoved. */
  ghost predicate Passes(s: Scan, text: string) {
    Run(s, text) == Grow(s, text)
  }

  lemma PassesBoth(s: Scan, a: string, b: string)
    requires Passes(s, a) && Passes(Grow(s, a), b)
    ensures Passes(s, a + b)
  {
    RunConcat(s, a, b);
    assert s.buffer + a + b == s.buffer + (a + b);
  }

  lemma {:induction false} PassesQuiet(s: Scan, text: string)
    requires Inside(s)
    requires forall i :: 0 <= i < |text| ==> text[i] !in "\"{}"
    ensures Passes(s, text)
    decreases |text|
  {
    if text == [] {
      assert s.buffer + text == s.buffer;
    } else {
      assert Step(s, text[0]) == Grow(s, [text[0]]);
      PassesQuiet(Grow(s, [text[0]]), text[1..]);
      assert s.buffer + [text[0]] + text[1..] == s.buffer + text;
    }
  }

  lemma PassesPiece(s: Scan, p: Piece)
    requires s.depth >= 1 && s.inString && !s.escaped && !s.stopped && LoosePiece(p)
    ensures Passes(s, PrintPiece(p))
  {
    match p
    case Plain(c) =>
      assert Run(s, [c]) == Step(s, c);
    case Escape(c) =>
      assert Run(Step(s, '\\'), [c]) == Step(Step(s, '\\'), c);
      assert s.buffer + ['\\'] + [c] == s.buffer + ['\\', c];
    case Unicode(hex) =>
      assert Run(Step(s, '\\'), "u") == Step(Step(s, '\\'), 'u');
      assert "\\u"[1..] == "u";
      assert s.buffer + ['\\'] + ['u'] == s.buffer + "\\u";
      assert Passes(s, "\\u");
      PassesHex(Grow(s, "\\u"), hex);
      PassesBoth(s, "\\u", hex);
  }

  lemma {:induction false} PassesHex(s: Scan, hex: string)
    requires s.depth >= 1 && s.inString && !s.escaped && !s.stopped
    requires forall i :: 0 <= i < |hex| ==> IsHexDigit(hex[i])
    ensures Passes(s, hex)
    decreases |hex|
  {
    if hex == [] {
      assert s.buffer + hex == s.buffer;
    } else {
      assert Step(s, hex[0]) == Grow(s, [hex[0]]);
      PassesHex(Grow(s, [hex[0]]), hex[1..]);
      assert s.buffer + [hex[0]] + hex[1..] == s.buffer + hex;
    }
  }

  lemma {:induction false} PassesBody(s: Scan, body: seq<Piece>)
    requires s.depth >= 1 && s.inString && !s.escaped && !s.stopped && LooseBody(body)
    ensures Passes(s, PrintBody(body))
    decreases |body|
  {
    if body == [] {
      assert s.buffer + "" == s.buffer;
    } else {
      PassesPiece(s, body[0]);
      PassesBody(Grow(s, PrintPiece(body[0])), body[1..]);
      PassesBoth(s, PrintPiece(body[0]), PrintBody(body[1..]));
    }
  }

  lemma PassesText(s: Scan, body: seq<Piece>)
    requires Inside(s) && LooseBody(body)
    ensures Passes(s, PrintText(body))
  {
    var t := Step(s, '"');
    assert t == Grow(s, "\"").(inString := true);
    PassesBody(t, body);
    RunEnclosed(s, '"', PrintBody(body), '"');
    Enclosed(s.buffer, '"', PrintBody(body), '"');
  }

  lemma RunEnclosed(s: Scan, first: char, middle: string, last: char)
    ensures Run(s, [first] + (middle + [last])) == Step(Run(Step(s, first), middle), last)
  {
    var text := [first] + (middle + [last]);
    assert text[0] == first && text[1..] == middle + [last];
    RunSnoc(Step(s, first), middle, last);
  }

  lemma Enclosed(before: string, first: char, middle: string, last: char)
    ensures before + [first] + middle + [last] == before + ([first] + (middle + [last]))
  {
  }

  /** Nothing inside a value misleads the scanner: it comes out exactly as it went in. */
  lemma {:induction false} PassesValue(s: Scan, v: Value)
    requires Inside(s) && Loose(v)
    ensures Passes(s, Print(v))
    decreases v, 0
  {
    match v
    case Literal(text) =>
      LiteralChars(text);
      PassesQuiet(s, text);
    case Text(body) =>
      PassesText(s, body);
    case Array(gap, items) =>
      PassesArray(s, gap, items);
    case Object(gap, members) =>
      PassesObject(s, gap, members);
  }

  lemma {:induction false} PassesArray(s: Scan, gap: string, items: Items)
    requires Inside(s) && IsGap(gap) && LooseItems(items)
    ensures Passes(s, Print(Array(gap, items)))
    decreases items, 2
  {
    PassesQuiet(s, "[");
    var s1 := Grow(s, "[");
    PassesQuiet(s1, gap);
    PassesItems(Grow(s1, gap), items);
    PassesQuiet(Grow(Grow(s1, gap), PrintItems(items)), "]");
    PassesBoth(Grow(s1, gap), PrintItems(items), "]");
    PassesBoth(s1, gap, PrintItems(items) + "]");
    PassesBoth(s, "[", gap + (PrintItems(items) + "]"));
  }

  lemma {:induction false} PassesObject(s: Scan, gap: string, members: Members)
    requires Inside(s) && IsGap(gap) && LooseMembers(members)
    ensures Passes(s, Print(Object(gap, members)))
    decreases members, 2
  {
    PassesMiddle(Step(s, '{'), gap, members);
    RunObject(s, gap, members);
    BracesCancel(s, gap + PrintMembers(members));
    assert "{" + ((gap + PrintMembers(members)) + "}") == Print(Object(gap, members));
  }

  lemma BracesCancel(s: Scan, middle: string)
    requires Inside(s)
    ensures Step(Grow(Step(s, '{'), middle), '}') == Grow(s, "{" + (middle + "}"))
  {
    Enclosed(s.buffer, '{', middle, '}');
  }

  /** An object is read as its opening brace, its members and its closing brace. */
  lemma {:induction false} RunObject(s: Scan, gap: string, members: Members)
    requires !s.inString && !s.escaped && !s.stopped
    requires Passes(Step(s, '{'), gap + PrintMembers(members))
    ensures Run(s, Print(Object(gap, members)))
         == Step(Grow(Step(s, '{'), gap + PrintMembers(members)), '}')
  {
    assert "{" + ((gap + PrintMembers(members)) + "}") == Print(Object(gap, members));
    RunEnclosed(s, '{', gap + PrintMembers(members), '}');
  }

  lemma {:induction false} PassesMiddle(s: Scan, gap: string, members: Members)
    requires Inside(s) && IsGap(gap) && LooseMembers(members)
    ensures Passes(s, gap + PrintMembers(members))
    decreases members, 1
  {
    PassesQuiet(s, gap);
    PassesMembers(Grow(s, gap), members);
    PassesBoth(s, gap, PrintMembers(members));
  }

  lemma {:induction false} PassesItems(s: Scan, items: Items)
    requires Inside(s) && LooseItems(items)
    ensures Passes(s, PrintItems(items))
    decreases items, 0
  {
    match items
    case NoItems =>
      assert s.buffer + "" == s.buffer;
    case ItemComma(gap) =>
      PassesQuiet(s, "," + gap);
    case Item(before, value, after, rest) =>
      var s1 := Grow(s, before);
      var s2 := Grow(s1, Print(value));
      PassesQuiet(s, before);
      PassesValue(s1, value);
      PassesItems(Grow(Grow(s2, after), Comma(!rest.Item?)), rest);
      PassesAfter(s2, after, !rest.Item?, PrintItems(rest));
      PassesBoth(s1, Print(value), after + (Comma(!rest.Item?) + PrintItems(rest)));
      PassesBoth(s, before, Print(value) + (after + (Comma(!rest.Item?) + PrintItems(rest))));
  }

  lemma {:induction false} PassesMembers(s: Scan, members: Members)
    requires Inside(s) && LooseMembers(members)
    ensures Passes(s, PrintMembers(members))
    decreases members, 0
  {
    match members
    case NoMembers =>
      assert s.buffer + "" == s.buffer;
    case MemberComma(gap) =>
      PassesQuiet(s, "," + gap);
    case Member(before, key, beforeColon, afterColon, value, after, rest) =>
      var list := after + (Comma(!rest.Member?) + PrintMembers(rest));
      var start := before + (PrintText(key) + (beforeColon + (":" + afterColon)));
      PassesKey(s, before, key, beforeColon, afterColon);
      var t := Grow(s, start);
      PassesValue(t, value);
      var u := Grow(t, Print(value));
      PassesMembers(Grow(Grow(u, after), Comma(!rest.Member?)), rest);
      PassesAfter(u, after, !rest.Member?, PrintMembers(rest));
      PassesBoth(t, Print(value), list);
      PassesBoth(s, start, Print(value) + list);
      RegroupKey(before, PrintText(key), beforeColon, ":", afterColon, Print(value) + list);
  }

  /** What follows a value in its list. */
  lemma {:induction false} PassesAfter(s: Scan, after: string, last: bool, rest: string)
    requires Inside(s) && IsGap(after) && Passes(Grow(Grow(s, after), Comma(last)), rest)
    ensures Passes(s, after + (Comma(last) + rest))
  {
    PassesQuiet(s, after);
    PassesQuiet(Grow(s, after), Comma(last));
    PassesBoth(Grow(s, after), Comma(last), rest);
    PassesBoth(s, after, Comma(last) + rest);
  }

  lemma RegroupKey(a: string, b: string, c: string, d: string, e: string, t: string)
    ensures (a + (b + (c + (d + e)))) + t == a + (b + (c + (d + (e + t))))
  {
    var x := c + (d + e);
    assert x + t == c + (d + (e + t));
    assert (a + (b + x)) + t == a + (b + (x + t));
  }

  lemma PassesKey(s: Scan, before: string, key: seq<Piece>, beforeColon: string, afterColon: string)
    requires Inside(s) && IsGap(before) && LooseBody(key) && IsGap(beforeColon) && IsGap(afterColon)
    ensures Passes(s, before + (PrintText(key) + (beforeColon + (":" + afterColon))))
  {
    var s1 := Grow(s, before);
    var s2 := Grow(s1, PrintText(key));
    var s3 := Grow(s2, beforeColon);
    PassesQuiet(s, before);
    PassesText(s1, key);
    PassesQuiet(s2, beforeColon);
    PassesQuiet(s3, ":");
    PassesQuiet(Grow(s3, ":"), afterColon);
    PassesBoth(s3, ":", afterColon);
    PassesBoth(s2, beforeColon, ":" + afterColon);
    PassesBoth(s1, PrintText(key), beforeColon + (":" + afterColon));
    PassesBoth(s, before, PrintText(key) + (beforeColon + (":" + afterColon)));
  }

  // ----- a list of objects, cut anywhere -----

  ghost predicate AllObjects(items: Items) {
    match items
    case Item(_, value, _, rest) => value.Object? && AllObjects(rest)
    case _ => true
  }

  function Printed(items: Items): seq<string> {
    match items
    case Item(_, value, _, rest) => [Print(value)] + Printed(rest)
    case _ => []
  }

  /** Where the closing brace of object `i` ends, counted from the start of the list. */
  function ObjectEnd(items: Items, i: nat): nat
    requires i < |Printed(items)|
  {
    var head := |items.before| + |Print(items.value)|;
    if i == 0 then head
    else head + |items.after| + |Comma(!items.rest.Item?)| + ObjectEnd(items.rest, i - 1)
  }

  /** How many objects are complete within the first `cut` characters of the list. */
  function Complete(items: Items, cut: int): (n: nat)
    ensures n <= |Printed(items)|
  {
    match items
    case Item(before, value, after, rest) =>
      var head := |before| + |Print(value)|;
      if cut < head then 0
      else 1 + Complete(rest, cut - head - |after| - |Comma(!rest.Item?)|)
    case _ => 0
  }

  /** `Complete` counts exactly the objects whose closing brace lies before the cut. */
  lemma {:induction false} CompleteMeaning(items: Items, cut: int, i: nat)
    requires i < |Printed(items)|
    ensures i < Complete(items, cut) <==> ObjectEnd(items, i) <= cut
    decreases items
  {
    var rest := items.rest;
    var head := |items.before| + |Print(items.value)|;
    var left := cut - head - |items.after| - |Comma(!rest.Item?)|;
    if i > 0 {
      if cut >= head {
        CompleteMeaning(rest, left, i - 1);
      }
    }
  }

  ghost predicate Between(s: Scan) {
    s.depth == 0 && s.buffer == "" && !s.inString && !s.escaped && !s.stopped
  }

  lemma {:induction false} BetweenQuiet(s: Scan, text: string)
    requires Between(s)
    requires forall i :: 0 <= i < |text| ==> text[i] !in "\"{}]"
    ensures Run(s, text) == s
    decreases |text|
  {
    if text != [] {
      BetweenQuiet(s, text[1..]);
    }
  }

  lemma BetweenObject(s: Scan, v: Value)
    requires Between(s) && v.Object? && Loose(v)
    ensures Run(s, Print(v)) == s.(fragments := s.fragments + [Print(v)])
  {
    PassesMiddle(Step(s, '{'), v.gap, v.members);
    RunObject(s, v.gap, v.members);
    assert ['{'] + (v.gap + PrintMembers(v.members)) + ['}'] == Print(v);
  }

  /** A strict prefix of an object yields nothing: its own text would have to be shorter. */
  lemma CutObject(s: Scan, v: Value, cut: nat)
    requires Between(s) && v.Object? && Loose(v) && cut < |Print(v)|
    ensures Run(s, Print(v)[..cut]).fragments == s.fragments
  {
    var head, tail := Print(v)[..cut], Print(v)[cut..];
    assert head + tail == Print(v);
    BetweenObject(s, v);
    RunConcat(s, head, tail);
    var middle := Run(s, head);
    RunOnlyAppends(s, head);
    RunOnlyAppends(middle, tail);
    NoRoom(s.fragments, middle.fragments, Print(v), cut);
  }

  lemma NoRoom(before: seq<string>, middle: seq<string>, last: string, bound: nat)
    requires before <= middle <= before + [last]
    requires forall i :: |before| <= i < |middle| ==> |middle[i]| <= bound
    requires bound < |last|
    ensures middle == before
  {
    assert (before + [last])[|before|] == last;
  }

  lemma TakePast(a: string, b: string, c: string, cut: nat)
    requires |a| + |b| <= cut <= |a + (b + c)|
    ensures (a + (b + c))[..cut] == a + (b + c[..cut - |a| - |b|])
  {
  }

  /** The body of the list cut at any character, followed by its `]` and anything at all. */
  lemma {:induction false} CutList(s: Scan, items: Items, tail: string, cut: nat)
    requires Between(s) && LooseItems(items) && AllObjects(items)
    requires cut <= |PrintItems(items) + ("]" + tail)|
    ensures Run(s, (PrintItems(items) + ("]" + tail))[..cut]).fragments
         == s.fragments + Printed(items)[..Complete(items, cut)]
    decreases items, 1
  {
    var text := PrintItems(items) + ("]" + tail);
    match items
    case NoItems =>
      CutClosing(s, "", tail, cut);
    case ItemComma(gap) =>
      CutClosing(s, "," + gap, tail, cut);
    case Item(before, value, after, rest) =>
      CutEntry(s, items, tail, cut);
  }

  /** The end of the list, perhaps after a comma too many. */
  lemma CutClosing(s: Scan, quiet: string, tail: string, cut: nat)
    requires Between(s) && cut <= |quiet + ("]" + tail)|
    requires forall i :: 0 <= i < |quiet| ==> quiet[i] !in "\"{}]"
    ensures Run(s, (quiet + ("]" + tail))[..cut]).fragments == s.fragments + []
  {
    var text := (quiet + ("]" + tail))[..cut];
    if cut <= |quiet| {
      assert text == quiet[..cut];
      BetweenQuiet(s, text);
    } else {
      var more := ("]" + tail)[..cut - |quiet|];
      assert text == quiet + more && more[0] == ']';
      RunConcat(s, quiet, more);
      BetweenQuiet(s, quiet);
      RunStopped(Step(s, ']'), more[1..]);
    }
  }

  lemma {:induction false} CutEntry(s: Scan, items: Items, tail: string, cut: nat)
    requires items.Item?
    requires Between(s) && LooseItems(items) && AllObjects(items)
    requires cut <= |PrintItems(items) + ("]" + tail)|
    ensures Run(s, (PrintItems(items) + ("]" + tail))[..cut]).fragments
         == s.fragments + Printed(items)[..Complete(items, cut)]
    decreases items, 0
  {
    var Item(before, value, after, rest) := items;
    var quiet := after + Comma(!rest.Item?);
    var more := quiet + (PrintItems(rest) + ("]" + tail));
    EntryText(items, tail);
    if cut < |before| + |Print(value)| {
      CutHead(s, before, value, more, cut);
      assert s.fragments + [] == s.fragments;
    } else {
      CutPastEntry(s, before, value, quiet, rest, tail, cut);
    }
  }

  lemma {:induction false} CutPastEntry(s: Scan, before: string, v: Value, quiet: string, rest: Items, tail: string, cut: nat)
    requires Between(s) && IsGap(before) && v.Object? && Loose(v) && LooseItems(rest) && AllObjects(rest)
    requires forall i :: 0 <= i < |quiet| ==> quiet[i] !in "\"{}]"
    requires |before| + |Print(v)| <= cut <= |before + (Print(v) + (quiet + (PrintItems(rest) + ("]" + tail))))|
    ensures Run(s, (before + (Print(v) + (quiet + (PrintItems(rest) + ("]" + tail)))))[..cut]).fragments
         == s.fragments + ([Print(v)] + Printed(rest))[..1 + Complete(rest, cut - |before| - |Print(v)| - |quiet|)]
    decreases rest, 3
  {
    var left := cut - |before| - |Print(v)|;
    CutRest(s.(fragments := s.fragments + [Print(v)]), quiet, rest, tail, left);
    PastHead(s, before, v, quiet + (PrintItems(rest) + ("]" + tail)), cut);
    TakeOneMore(s.fragments, Print(v), Printed(rest), Complete(rest, left - |quiet|));
  }

  lemma {:induction false} EntryText(items: Items, tail: string)
    requires items.Item?
    ensures PrintItems(items) + ("]" + tail)
         == items.before + (Print(items.value) + ((items.after + Comma(!items.rest.Item?))
            + (PrintItems(items.rest) + ("]" + tail))))
  {
    Regroup(items.before, Print(items.value), items.after, Comma(!items.rest.Item?),
            PrintItems(items.rest), "]" + tail);
  }

  lemma Regroup(a: string, b: string, c: string, d: string, e: string, t: string)
    ensures (a + (b + (c + (d + e)))) + t == a + (b + ((c + d) + (e + t)))
  {
    var x := c + (d + e);
    assert x + t == (c + d) + (e + t);
    assert (a + (b + x)) + t == a + (b + (x + t));
  }

  lemma TakeOneMore(before: seq<string>, one: string, more: seq<string>, n: nat)
    requires n <= |more|
    ensures before + ([one] + more)[..1 + n] == before + [one] + more[..n]
  {
  }

  lemma CutHead(s: Scan, before: string, v: Value, more: string, cut: nat)
    requires Between(s) && IsGap(before) && v.Object? && Loose(v)
    requires cut < |before| + |Print(v)|
    ensures Run(s, (before + (Print(v) + more))[..cut]).fragments == s.fragments
  {
    var text := before + (Print(v) + more);
    if cut <= |before| {
      assert text[..cut] == before[..cut];
      BetweenQuiet(s, before[..cut]);
    } else {
      assert text[..cut] == before + Print(v)[..cut - |before|];
      RunConcat(s, before, Print(v)[..cut - |before|]);
      BetweenQuiet(s, before);
      CutObject(s, v, cut - |before|);
    }
  }

  lemma {:induction false} PastHead(s: Scan, before: string, v: Value, more: string, cut: nat)
    requires Between(s) && IsGap(before) && v.Object? && Loose(v)
    requires |before| + |Print(v)| <= cut <= |before + (Print(v) + more)|
    ensures Run(s, (before + (Print(v) + more))[..cut])
         == Run(s.(fragments := s.fragments + [Print(v)]), more[..cut - |before| - |Print(v)|])
  {
    var left := more[..cut - |before| - |Print(v)|];
    TakePast(before, Print(v), more, cut);
    RunConcat(s, before, Print(v) + left);
    BetweenQuiet(s, before);
    RunConcat(s, Print(v), left);
    BetweenObject(s, v);
  }

  lemma {:induction false} CutRest(s: Scan, quiet: string, rest: Items, tail: string, cut: nat)
    requires Between(s) && LooseItems(rest) && AllObjects(rest)
    requires forall i :: 0 <= i < |quiet| ==> quiet[i] !in "\"{}]"
    requires cut <= |quiet + (PrintItems(rest) + ("]" + tail))|
    ensures Run(s, (quiet + (PrintItems(rest) + ("]" + tail)))[..cut]).fragments
         == s.fragments + Printed(rest)[..Complete(rest, cut - |quiet|)]
    decreases rest, 2
  {
    var more := PrintItems(rest) + ("]" + tail);
    if cut < |quiet| {
      assert (quiet + more)[..cut] == quiet[..cut];
      BetweenQuiet(s, quiet[..cut]);
      NothingComplete(rest, cut - |quiet|);
      assert s.fragments + [] == s.fragments;
    } else {
      assert (quiet + more)[..cut] == quiet + more[..cut - |quiet|];
      RunConcat(s, quiet, more[..cut - |quiet|]);
      BetweenQuiet(s, quiet);
      CutList(s, rest, tail, cut - |quiet|);
    }
  }

  lemma NothingComplete(items: Items, cut: int)
    requires cut < 0
    ensures Complete(items, cut) == 0
  {
  }

  // ----- finding the list: /["']questions["']\s*:\s*\[/i -----

  const NAME := "questions"

  predicate IsQuote(c: char) {
    c == '"' || c == '\''
  }

  /** Equal up to the case of an ASCII letter; `lower` is lower-case. */
  predicate SameLetter(c: char, lower: char) {
    c == lower || c as int + 32 == lower as int
  }

  function SkipSpaces(s: string, i: nat): (j: nat)
    requires i <= |s|
    ensures i <= j <= |s|
    decreases |s| - i
  {
    if i < |s| && IsSpace(s[i]) then SkipSpaces(s, i + 1) else i
  }

  /** Where a match starting at `i` ends, if there is one. */
  function MarkerEnd(s: string, i: nat): (end: Option<nat>)
    ensures end.Some? ==> i + 11 < end.value <= |s|
  {
    if && i + 11 <= |s| && IsQuote(s[i]) && IsQuote(s[i + 10])
       && forall k :: 0 <= k < 9 ==> SameLetter(s[i + 1 + k], NAME[k])
    then
      var colon := SkipSpaces(s, i + 11);
      if colon < |s| && s[colon] == ':' then
        var bracket := SkipSpaces(s, colon + 1);
        if bracket < |s| && s[bracket] == '[' then Some(bracket + 1) else None
      else None
    else None
  }

  /** Where the leftmost match at or after `i` ends. */
  function FirstMarker(s: string, i: nat): (end: Option<nat>)
    ensures end.Some? ==> end.value <= |s|
    decreases |s| - i
  {
    if i >= |s| then None
    else if MarkerEnd(s, i).Some? then MarkerEnd(s, i)
    else FirstMarker(s, i + 1)
  }

  // ----- what the expression finds -----

  /** From `i` to `end` the text reads `"questions": [`, with any case, either quote and any white space. */
  ghost predicate IsMarker(s: string, i: nat, end: nat) {
    exists colon: nat :: MarkerParts(s, i, colon, end)
  }

  predicate MarkerParts(s: string, i: nat, colon: nat, end: nat) {
    && i + 11 <= colon < end - 1 < |s|
    && s[i] in "\"'" && s[i + 10] in "\"'"
    && (forall k :: 0 <= k < 9 ==> s[i + 1 + k] == "questions"[k] || s[i + 1 + k] == "QUESTIONS"[k])
    && (forall k :: i + 11 <= k < colon ==> IsSpace(s[k])) && s[colon] == ':'
    && (forall k :: colon < k < end - 1 ==> IsSpace(s[k])) && s[end - 1] == '['
  }

  ghost predicate NoMarkerBefore(s: string, i: nat) {
    forall k: nat, end: nat :: k < i ==> !IsMarker(s, k, end)
  }

  lemma SameLetterIs(c: char, k: nat)
    requires k < 9
    ensures SameLetter(c, NAME[k]) <==> c == "questions"[k] || c == "QUESTIONS"[k]
  {
    assert NAME[k] as int == "QUESTIONS"[k] as int + 32 by {
      assert k == 0 || k == 1 || k == 2 || k == 3 || k == 4 || k == 5 || k == 6 || k == 7 || k == 8;
    }
  }

  lemma {:induction false} SkipTo(s: string, i: nat, j: nat)
    requires i <= j < |s| && !IsSpace(s[j])
    requires forall k :: i <= k < j ==> IsSpace(s[k])
    ensures SkipSpaces(s, i) == j
    decreases j - i
  {
    if i < j {
      SkipTo(s, i + 1, j);
    }
  }

  lemma MarkerEndIs(s: string, i: nat, end: nat)
    ensures MarkerEnd(s, i) == Some(end) <==> IsMarker(s, i, end)
  {
    if i + 11 <= |s| {
      forall k | 0 <= k < 9
        ensures SameLetter(s[i + 1 + k], NAME[k])
           <==> s[i + 1 + k] == "questions"[k] || s[i + 1 + k] == "QUESTIONS"[k]
      {
        SameLetterIs(s[i + 1 + k], k);
      }
      if MarkerEnd(s, i) == Some(end) {
        var colon := SkipSpaces(s, i + 11);
        SpacesSkipped(s, i + 11);
        SpacesSkipped(s, colon + 1);
        assert MarkerParts(s, i, colon, end);
      }
      if IsMarker(s, i, end) {
        var colon: nat :| MarkerParts(s, i, colon, end);
        SkipTo(s, i + 11, colon);
        SkipTo(s, colon + 1, end - 1);
      }
    }
  }

  lemma {:induction false} FirstMarkerFrom(s: string, i: nat)
    requires NoMarkerBefore(s, i)
    ensures match FirstMarker(s, i)
            case None => forall k: nat, end: nat :: !IsMarker(s, k, end)
            case Some(end) => exists k: nat :: IsMarker(s, k, end) && NoMarkerBefore(s, k)
    decreases |s| - i
  {
    if i < |s| {
      forall end: nat ensures MarkerEnd(s, i) == Some(end) <==> IsMarker(s, i, end) {
        MarkerEndIs(s, i, end);
      }
      if MarkerEnd(s, i).None? {
        FirstMarkerFrom(s, i + 1);
      } else {
        assert IsMarker(s, i, MarkerEnd(s, i).value);
      }
    }
  }

  /** The list starts after the leftmost match, and nowhere without one. */
  lemma FirstMarkerIs(s: string, end: nat)
    ensures FirstMarker(s, 0) == Some(end) <==> exists i: nat :: IsMarker(s, i, end) && NoMarkerBefore(s, i)
    ensures FirstMarker(s, 0) == None <==> forall i: nat, e: nat :: !IsMarker(s, i, e)
  {
    FirstMarkerFrom(s, 0);
    if i: nat :| IsMarker(s, i, end) && NoMarkerBefore(s, i) {
      var e := FirstMarker(s, 0).value;
      var k: nat :| IsMarker(s, k, e) && NoMarkerBefore(s, k);
      assert i == k;
      MarkerEndIs(s, i, end);
      MarkerEndIs(s, i, e);
    }
  }

  lemma SkipSpacesCut(s: string, i: nat, cut: nat)
    requires i <= cut <= |s|
    ensures SkipSpaces(s[..cut], i) == if SkipSpaces(s, i) <= cut then SkipSpaces(s, i) else cut
    decreases cut - i
  {
    if i < cut {
      SkipSpacesCut(s, i + 1, cut);
    }
  }

  lemma MarkerEndCut(s: string, i: nat, cut: nat)
    requires i <= cut <= |s|
    ensures var end := MarkerEnd(s, i);
      MarkerEnd(s[..cut], i) == if end.Some? && end.value <= cut then end else None
  {
    if i + 11 <= cut {
      SkipSpacesCut(s, i + 11, cut);
      var colon := SkipSpaces(s, i + 11);
      if colon < cut {
        SkipSpacesCut(s, colon + 1, cut);
      }
    }
  }

  /** A match leaves no room for another to start inside it. */
  lemma MarkersApart(s: string, i: nat, k: nat)
    requires MarkerEnd(s, i).Some? && i < k < MarkerEnd(s, i).value
    ensures MarkerEnd(s, k).None?
  {
    var colon := SkipSpaces(s, i + 11);
    var bracket := SkipSpaces(s, colon + 1);
    SpacesSkipped(s, i + 11);
    SpacesSkipped(s, colon + 1);
    if i < k < i + 10 {
      assert s[k] == s[i + 1 + (k - i - 1)];
      assert SameLetter(s[i + 1 + (k - i - 1)], NAME[k - i - 1]);
    } else if k == i + 10 {
      if k + 11 <= |s| {
        assert i + 11 < colon ==> IsSpace(s[i + 11]);
        assert k + 1 + 0 == i + 11;
        assert !SameLetter(s[k + 1 + 0], NAME[0]);
      }
    }
  }

  lemma SpacesSkipped(s: string, i: nat)
    requires i <= |s|
    ensures forall k :: i <= k < SkipSpaces(s, i) ==> IsSpace(s[k])
    decreases |s| - i
  {
    if i < |s| && IsSpace(s[i]) {
      SpacesSkipped(s, i + 1);
    }
  }

  /** Cutting the text after the leftmost match keeps it, and cutting before loses it. */
  lemma {:induction false} FirstMarkerCut(s: string, i: nat, cut: nat)
    requires cut <= |s| && FirstMarker(s, i).Some?
    ensures FirstMarker(s[..cut], i)
         == if FirstMarker(s, i).value <= cut then FirstMarker(s, i) else None
    decreases |s| - i
  {
    if i < cut {
      MarkerEndCut(s, i, cut);
      if MarkerEnd(s, i).None? {
        FirstMarkerCut(s, i + 1, cut);
      } else if MarkerEnd(s, i).value > cut {
        NoneWithin(s, i, i + 1, cut);
      }
    } else {
      FirstMarkerBeyond(s, i);
    }
  }

  lemma FirstMarkerBeyond(s: string, i: nat)
    requires FirstMarker(s, i).Some?
    ensures FirstMarker(s, i).value > i
    decreases |s| - i
  {
  }

  lemma {:induction false} NoneWithin(s: string, i: nat, k: nat, cut: nat)
    requires MarkerEnd(s, i).Some? && i < k && cut < MarkerEnd(s, i).value
    ensures FirstMarker(s[..cut], k).None?
    decreases cut - k
  {
    if k < cut {
      MarkersApart(s, i, k);
      MarkerEndCut(s, k, cut);
      NoneWithin(s, i, k + 1, cut);
    }
  }

  // ----- recovery -----

  /** Each fragment parsed, as it stands or repaired; one that parses neither way is skipped. */
  function Parsed<J>(fragments: seq<string>, parse: string -> Option<J>): seq<J> {
    if fragments == [] then []
    else ParsedOne(fragments[0], parse) + Parsed(fragments[1..], parse)
  }

  function ParsedOne<J>(fragment: string, parse: string -> Option<J>): seq<J> {
    match parse(fragment)
    case Some(question) => [question]
    case None =>
      match parse(JsonRepair.Repair(fragment))
      case Some(question) => [question]
      case None => []
  }

  function Recovered<J>(value: string, parse: string -> Option<J>): Option<seq<J>> {
    match FirstMarker(value, 0)
    case None => None
    case Some(start) =>
      var questions := Parsed(Run(BEGIN, value[start..]).fragments, parse);
      if questions == [] then None else Some(questions)
  }

  lemma {:induction false} ParsedSnoc<J>(fragments: seq<string>, last: string, parse: string -> Option<J>)
    ensures Parsed(fragments + [last], parse) == Parsed(fragments, parse) + ParsedOne(last, parse)
    decreases |fragments|
  {
    if fragments == [] {
      assert fragments + [last] == [last];
    } else {
      assert (fragments + [last])[1..] == fragments[1..] + [last];
      ParsedSnoc(fragments[1..], last, parse);
    }
  }

  /** The scanner's variables at `index`, for what `scan` has read. */
  ghost predicate Holds(scan: Scan, value: string, index: nat, objectStart: int, depth: int, inString: bool, escaped: bool)
    requires index <= |value|
  {
    && !scan.stopped && scan.depth == depth
    && scan.inString == inString && scan.escaped == escaped && (escaped ==> inString)
    && -1 <= objectStart < index && (depth > 0 <==> objectStart >= 0)
    && scan.buffer == if objectStart >= 0 then value[objectStart..index] else ""
  }

  /** The fragment parsed as it stands, or else repaired. */
  method ParseFragment<J>(fragment: string, parse: string -> Option<J>) returns (questions: seq<J>)
    ensures questions == ParsedOne(fragment, parse)
  {
    var question := parse(fragment);
    if question.None? {
      var mended := JsonRepair.RepairCommonJsonIssues(fragment);
      question := parse(mended);
    }
    questions := if question.Some? then [question.value] else [];
  }

  /** The body of the loop over characters. */
  method ScanCharacter<J>(value: string, index: nat, objectStart: int, depth: int, inString: bool, escaped: bool,
                          questions: seq<J>, parse: string -> Option<J>, ghost scan: Scan)
    returns (objectStart': int, depth': int, inString': bool, escaped': bool, questions': seq<J>, stop: bool)
    requires index < |value| && Holds(scan, value, index, objectStart, depth, inString, escaped)
    requires questions == Parsed(scan.fragments, parse)
    ensures stop == Step(scan, value[index]).stopped
    ensures !stop ==> Holds(Step(scan, value[index]), value, index + 1, objectStart', depth', inString', escaped')
    ensures questions' == Parsed(Step(scan, value[index]).fragments, parse)
  {
    var character := value[index];
    objectStart', depth', inString', escaped', questions', stop := objectStart, depth, inString, escaped, questions, false;
    if objectStart >= 0 {
      SliceSnoc(value, objectStart, index);
    }
    if inString {
      if escaped {
        escaped' := false;
      } else if character == '\\' {
        escaped' := true;
      } else if character == '"' {
        inString' := false;
      }
    } else if character == '"' {
      inString' := true;
    } else if character == '{' {
      if depth == 0 {
        objectStart' := index;
      }
      depth' := depth + 1;
    } else if character == '}' && depth > 0 {
      depth' := depth - 1;
      if depth' == 0 && objectStart >= 0 {
        var fragment := value[objectStart..index + 1];
        ParsedSnoc(scan.fragments, fragment, parse);
        var parsed := ParseFragment(fragment, parse);
        questions' := questions + parsed;
        objectStart' := -1;
      }
    } else if character == ']' && depth == 0 {
      stop := true;
    }
  }

  method RecoverCompleteQuestions<J(==)>(value: string, parse: string -> Option<J>)
    returns (recovered: Option<seq<J>>)
    ensures recovered == Recovered(value, parse)
  {
    var marker := FirstMarker(value, 0);
    if marker.None? {
      return None;
    }
    var start := marker.value;
    var questions: seq<J> := [];
    var objectStart, depth, inString, escaped, stop, index := -1, 0, false, false, false, start;
    ghost var text, scan := value[start..], BEGIN;
    while index < |value| && !stop
      invariant start <= index <= |value|
      invariant scan == if stop then Run(BEGIN, text) else Run(BEGIN, text[..index - start])
      invariant !stop ==> Holds(scan, value, index, objectStart, depth, inString, escaped)
      invariant questions == Parsed(scan.fragments, parse)
      decreases |value| - index, !stop
    {
      ghost var was := scan;
      scan := Step(was, value[index]);
      NextScan(text, index - start);
      objectStart, depth, inString, escaped, questions, stop :=
        ScanCharacter(value, index, objectStart, depth, inString, escaped, questions, parse, was);
      if stop {
        NothingAfterStop(text, index + 1 - start);
      } else {
        index := index + 1;
      }
    }
    assert text[..|text|] == text;
    if questions == [] {
      return None;
    }
    return Some(questions);
  }

  lemma SliceSnoc(s: string, i: nat, j: nat)
    requires i <= j < |s|
    ensures s[i..j + 1] == s[i..j] + [s[j]]
  {
  }

  lemma NextScan(text: string, n: nat)
    requires n < |text|
    ensures Run(BEGIN, text[..n + 1]) == Step(Run(BEGIN, text[..n]), text[n])
  {
    RunSnoc(BEGIN, text[..n], text[n]);
    assert text[..n + 1] == text[..n] + [text[n]];
  }

  /** Nothing after the list's own `]` matters. */
  lemma NothingAfterStop(text: string, n: nat)
    requires n <= |text| && Run(BEGIN, text[..n]).stopped
    ensures Run(BEGIN, text[..n]) == Run(BEGIN, text)
  {
    RunConcat(BEGIN, text[..n], text[n..]);
    RunStopped(Run(BEGIN, text[..n]), text[n..]);
    assert text[..n] + text[n..] == text;
  }

  // ----- the main result -----

  /** The objects themselves, in order. */
  function Values(items: Items): seq<Value> {
    match items
    case Item(_, value, _, rest) => [value] + Values(rest)
    case _ => []
  }

  /** What the values that mean something mean, in order. */
  function Meanings<J>(values: seq<Value>, meaning: Value -> Option<J>): seq<J> {
    if values == [] then []
    else
      (match meaning(values[0]) case Some(question) => [question] case None => []) + Meanings(values[1..], meaning)
  }

  /**
   The parser reads the value as `question`, or else its mended form; `None` if it reads
   neither.
   */
  ghost predicate Reads<J>(parse: string -> Option<J>, v: Value, question: Option<J>) {
    || (question.Some? && parse(Print(v)) == question)
    || (parse(Print(v)).None? && Clean(MendStrings(v)) && parse(Print(Mended(v))) == question)
  }

  lemma ParsedValue<J>(v: Value, parse: string -> Option<J>, question: Option<J>)
    requires Loose(v) && Reads(parse, v, question)
    ensures ParsedOne(Print(v), parse) == match question case Some(q) => [q] case None => []
  {
    RepairMendsValueIff(v);
  }

  lemma {:induction false} ParsedPrinted<J>(items: Items, n: nat, parse: string -> Option<J>,
                                            meaning: Value -> Option<J>)
    requires LooseItems(items) && n <= |Printed(items)|
    requires forall v <- Values(items) :: Reads(parse, v, meaning(v))
    ensures |Values(items)| == |Printed(items)|
    ensures Parsed(Printed(items)[..n], parse) == Meanings(Values(items)[..n], meaning)
    decreases items
  {
    if items.Item? {
      var value, rest := items.value, items.rest;
      assert value in Values(items) && forall v <- Values(rest) :: v in Values(items);
      if n == 0 {
        ParsedPrinted(rest, 0, parse, meaning);
      } else {
        ParsedValue(value, parse, meaning(value));
        ParsedPrinted(rest, n - 1, parse, meaning);
        assert Printed(items)[..n][1..] == Printed(rest)[..n - 1];
        assert Values(items)[..n][1..] == Values(rest)[..n - 1];
      }
    }
  }

  /** An answer: everything up to the list's `[`, then the list, then anything. */
  function Answer(before: string, gap: string, items: Items, tail: string): string {
    before + (gap + (PrintItems(items) + ("]" + tail)))
  }

  /** `before` ends with `"questions": [`, and no such text starts earlier. */
  ghost predicate IsLead(before: string) {
    exists i: nat :: IsMarker(before, i, |before|) && NoMarkerBefore(before, i)
  }

  ghost predicate IsAnswer(before: string, gap: string, items: Items, tail: string) {
    IsLead(before) && IsGap(gap) && LooseItems(items) && AllObjects(items)
  }

  /** The text as it is usually written is such a lead. */
  lemma SpelledLead(start: string, a: string, b: string)
    requires IsBlank(a) && IsBlank(b)
    requires NoMarkerBefore(start + ("\"questions\"" + (a + (":" + (b + "[")))), |start|)
    ensures IsLead(start + ("\"questions\"" + (a + (":" + (b + "[")))))
  {
    var before := start + ("\"questions\"" + (a + (":" + (b + "["))));
    var i, colon := |start|, |start| + 11 + |a|;
    assert before[i..i + 11] == "\"questions\"";
    forall k | 0 <= k < 9 ensures before[i + 1 + k] == "questions"[k] {
      assert before[i..i + 11][1 + k] == "questions"[k];
    }
    assert before[i] == before[i..i + 11][0] && before[i + 10] == before[i..i + 11][10];
    assert MarkerParts(before, i, colon, |before|);
  }

  lemma {:induction false} MarkerStays(a: string, b: string, i: nat, end: nat)
    requires IsMarker(a, i, end)
    ensures IsMarker(a + b, i, end)
  {
    var colon: nat :| MarkerParts(a, i, colon, end);
    assert MarkerParts(a + b, i, colon, end);
  }

  /** More text after a lead starts no earlier match. */
  lemma LeadIsFound(before: string, rest: string)
    requires IsLead(before)
    ensures FirstMarker(before + rest, 0) == Some(|before|)
  {
    var i: nat :| IsMarker(before, i, |before|) && NoMarkerBefore(before, i);
    MarkerStays(before, rest, i, |before|);
    FirstMarkerIs(before, |before|);
    FirstMarkerIs(before + rest, |before|);
    assert (before + rest)[..|before|] == before;
    FirstMarkerCut(before + rest, 0, |before|);
  }

  /**
   Take any answer whose first `"questions": [` is followed by a list of objects, valid or
   damaged, and then by anything, and cut it at any character. What is recovered is exactly
   what the objects mean whose closing brace lies before the cut, in order, whatever their
   strings hold; objects that mean nothing even when mended are left out.
   */
  lemma TruncationIsExact<J>(before: string, gap: string, items: Items, tail: string, cut: nat,
                             parse: string -> Option<J>, meaning: Value -> Option<J>)
    requires IsAnswer(before, gap, items, tail)
    requires cut <= |Answer(before, gap, items, tail)|
    requires forall v <- Values(items) :: Reads(parse, v, meaning(v))
    ensures var n := Complete(items, cut - |before| - |gap|);
      && (forall i :: 0 <= i < |Printed(items)| ==>
            (i < n <==> |before| + |gap| + ObjectEnd(items, i) <= cut))
      && n <= |Values(items)|
      && var questions := Meanings(Values(items)[..n], meaning);
      Recovered(Answer(before, gap, items, tail)[..cut], parse)
         == if questions == [] then None else Some(questions)
  {
    var n := Complete(items, cut - |before| - |gap|);
    forall i | 0 <= i < |Printed(items)|
      ensures i < n <==> |before| + |gap| + ObjectEnd(items, i) <= cut
    {
      CompleteMeaning(items, cut - |before| - |gap|, i);
    }
    RecoversComplete(before, gap, items, tail, cut, n, parse, meaning);
  }

  lemma RecoversComplete<J>(before: string, gap: string, items: Items, tail: string, cut: nat, n: nat,
                            parse: string -> Option<J>, meaning: Value -> Option<J>)
    requires IsAnswer(before, gap, items, tail)
    requires cut <= |Answer(before, gap, items, tail)| && n == Complete(items, cut - |before| - |gap|)
    requires forall v <- Values(items) :: Reads(parse, v, meaning(v))
    ensures n <= |Values(items)| == |Printed(items)|
    ensures var questions := Meanings(Values(items)[..n], meaning);
      Recovered(Answer(before, gap, items, tail)[..cut], parse) == if questions == [] then None else Some(questions)
  {
    ParsedPrinted(items, n, parse, meaning);
    CutAnswer(before, gap, items, tail, cut);
  }

  lemma CutAnswer(before: string, gap: string, items: Items, tail: string, cut: nat)
    requires IsAnswer(before, gap, items, tail)
    requires cut <= |Answer(before, gap, items, tail)|
    ensures var value := Answer(before, gap, items, tail)[..cut];
      var n := Complete(items, cut - |before| - |gap|);
      && (cut < |before| ==> FirstMarker(value, 0) == None && n == 0)
      && (cut >= |before| ==>
            && FirstMarker(value, 0) == Some(|before|)
            && Run(BEGIN, value[|before|..]).fragments == Printed(items)[..n])
  {
    LeadIsFound(before, gap + (PrintItems(items) + ("]" + tail)));
    FirstMarkerCut(Answer(before, gap, items, tail), 0, cut);
    if cut < |before| {
      NothingComplete(items, cut - |before| - |gap|);
    } else {
      CutFromMarker(before, gap, items, tail, cut);
    }
  }

  lemma CutFromMarker(before: string, gap: string, items: Items, tail: string, cut: nat)
    requires IsGap(gap) && LooseItems(items) && AllObjects(items)
    requires |before| <= cut <= |Answer(before, gap, items, tail)|
    ensures Run(BEGIN, Answer(before, gap, items, tail)[..cut][|before|..]).fragments
         == Printed(items)[..Complete(items, cut - |before| - |gap|)]
  {
    var list := gap + (PrintItems(items) + ("]" + tail));
    CutRest(BEGIN, gap, items, tail, cut - |before|);
    assert (before + list)[..cut][|before|..] == list[..cut - |before|];
    NoFragments(Printed(items)[..Complete(items, cut - |before| - |gap|)]);
  }

  lemma NoFragments(fragments: seq<string>)
    ensures BEGIN.fragments + fragments == fragments
  {
  }

  /** The untruncated answer gives back every question. */
  lemma CompleteAnswer<J>(before: string, gap: string, items: Items, tail: string,
                          parse: string -> Option<J>, meaning: Value -> Option<J>)
    requires IsAnswer(before, gap, items, tail)
    requires forall v <- Values(items) :: Reads(parse, v, meaning(v))
    ensures var questions := Meanings(Values(items), meaning);
      Recovered(Answer(before, gap, items, tail), parse) == if questions == [] then None else Some(questions)
  {
    var whole, n := Answer(before, gap, items, tail), |Printed(items)|;
    AllComplete(items, |whole| - |before| - |gap|);
    RecoversComplete(before, gap, items, tail, |whole|, n, parse, meaning);
    assert whole[..|whole|] == whole && Values(items)[..n] == Values(items);
  }

  lemma {:induction false} AllComplete(items: Items, cut: int)
    requires cut >= |PrintItems(items)|
    ensures Complete(items, cut) == |Printed(items)|
    decreases items
  {
    match items
    case Item(before, value, after, rest) =>
      AllComplete(rest, cut - |before| - |Print(value)| - |after| - |Comma(!rest.Item?)|);
    case _ =>
  }
}
