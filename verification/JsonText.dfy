/**
 JSON texts with all their layout: a value knows the whitespace around each of its
 parts, so that `Print` ranges over every way of writing it down, and over the damaged
 ways that the repair is for.
 */
module JsonText {
  import opened WhiteSpace

  /** One character of a string, as section 7 of RFC 8259 writes it. */
  datatype Piece =
    | Plain(c: char)
    | Escape(c: char)
    | Unicode(hex: string)

  datatype Value =
    | Literal(text: string)
    | Text(body: seq<Piece>)
    | Array(gap: string, items: Items)
    | Object(gap: string, members: Members)

  /** The end of a list may be a comma too many, and white space. */
  datatype Items =
    | NoItems
    | ItemComma(gap: string)
    | Item(before: string, value: Value, after: string, rest: Items)

  datatype Members =
    | NoMembers
    | MemberComma(gap: string)
    | Member(before: string, key: seq<Piece>, beforeColon: string, afterColon: string,
             value: Value, after: string, rest: Members)

  predicate IsGap(s: string) {
    forall i :: 0 <= i < |s| ==> s[i] in " \t\n\r"
  }

  predicate IsHexDigit(c: char) {
    '0' <= c <= '9' || 'a' <= c <= 'f' || 'A' <= c <= 'F'
  }

  predicate ValidPiece(p: Piece) {
    match p
    case Plain(c) => c >= ' ' && c != '"' && c != '\\'
    case Escape(c) => c in "\"\\/bfnrt"
    case Unicode(hex) => |hex| == 4 && forall i :: 0 <= i < 4 ==> IsHexDigit(hex[i])
  }

  predicate ValidBody(body: seq<Piece>) {
    forall i :: 0 <= i < |body| ==> ValidPiece(body[i])
  }

  // ----- literals: the three words, and the numbers of section 6 of RFC 8259 -----

  predicate IsDigit(c: char) {
    '0' <= c <= '9'
  }

  /** How many digits the text starts with. */
  function Digits(s: string): (n: nat)
    ensures n <= |s|
  {
    if s == "" || !IsDigit(s[0]) then 0 else 1 + Digits(s[1..])
  }

  /** Nothing, or `e` or `E`, a sign or none, and digits. */
  predicate IsExponent(s: string) {
    s != "" ==>
      && s[0] in "eE"
      && (var digits := if |s| > 1 && s[1] in "+-" then s[2..] else s[1..];
          digits != "" && Digits(digits) == |digits|)
  }

  /** A point and digits or neither, and then an exponent or none. */
  predicate IsFraction(s: string) {
    if s != "" && s[0] == '.' then
      var n := Digits(s[1..]);
      n > 0 && IsExponent(s[1..][n..])
    else IsExponent(s)
  }

  /** A whole part without needless zeros, and then a fraction. */
  predicate IsUnsigned(s: string) {
    var n := Digits(s);
    n > 0 && (s[0] == '0' ==> n == 1) && IsFraction(s[n..])
  }

  predicate IsNumber(s: string) {
    if s != "" && s[0] == '-' then IsUnsigned(s[1..]) else IsUnsigned(s)
  }

  predicate ValidLiteral(text: string) {
    text in ["true", "false", "null"] || IsNumber(text)
  }

  predicate IsNumberChar(c: char) {
    IsDigit(c) || c in "+-.eE"
  }

  ghost predicate NumberChars(s: string) {
    forall i :: 0 <= i < |s| ==> IsNumberChar(s[i])
  }

  lemma {:induction false} DigitsAreDigits(s: string)
    ensures NumberChars(s[..Digits(s)])
  {
    if s != "" && IsDigit(s[0]) {
      DigitsAreDigits(s[1..]);
      assert s[..Digits(s)] == [s[0]] + s[1..][..Digits(s[1..])];
    }
  }

  lemma JoinNumberChars(s: string, n: nat)
    requires n <= |s| && NumberChars(s[..n]) && NumberChars(s[n..])
    ensures NumberChars(s)
  {
    forall i | 0 <= i < |s| ensures IsNumberChar(s[i]) {
      assert s[i] == if i < n then s[..n][i] else s[n..][i - n];
    }
  }

  lemma ExponentChars(s: string)
    requires IsExponent(s)
    ensures NumberChars(s)
  {
    if s != "" {
      var n := if |s| > 1 && s[1] in "+-" then 2 else 1;
      DigitsAreDigits(s[n..]);
      assert s[n..][..|s[n..]|] == s[n..];
      JoinNumberChars(s, n);
    }
  }

  lemma FractionChars(s: string)
    requires IsFraction(s)
    ensures NumberChars(s)
  {
    if s != "" && s[0] == '.' {
      var t := s[1..];
      DigitsAreDigits(t);
      ExponentChars(t[Digits(t)..]);
      JoinNumberChars(t, Digits(t));
      JoinNumberChars(s, 1);
    } else {
      ExponentChars(s);
    }
  }

  lemma UnsignedChars(s: string)
    requires IsUnsigned(s)
    ensures s != "" && NumberChars(s)
  {
    DigitsAreDigits(s);
    FractionChars(s[Digits(s)..]);
    JoinNumberChars(s, Digits(s));
  }

  /** A literal holds nothing that means something around it. */
  lemma LiteralChars(text: string)
    requires ValidLiteral(text)
    ensures text != "" && forall i :: 0 <= i < |text| ==> IsNumberChar(text[i]) || 'a' <= text[i] <= 'z'
  {
    if IsNumber(text) {
      if text[0] == '-' {
        UnsignedChars(text[1..]);
        JoinNumberChars(text, 1);
      } else {
        UnsignedChars(text);
      }
    }
  }

  predicate Valid(v: Value) {
    match v
    case Literal(text) => ValidLiteral(text)
    case Text(body) => ValidBody(body)
    case Array(gap, items) => IsGap(gap) && ValidItems(items)
    case Object(gap, members) => IsGap(gap) && ValidMembers(members)
  }

  predicate ValidItems(items: Items) {
    match items
    case NoItems => true
    case ItemComma(_) => false
    case Item(before, value, after, rest) =>
      IsGap(before) && Valid(value) && IsGap(after) && ValidItems(rest)
  }

  predicate ValidMembers(members: Members) {
    match members
    case NoMembers => true
    case MemberComma(_) => false
    case Member(before, key, beforeColon, afterColon, value, after, rest) =>
      && IsGap(before) && ValidBody(key) && IsGap(beforeColon) && IsGap(afterColon)
      && Valid(value) && IsGap(after) && ValidMembers(rest)
  }

  // ----- damaged JSON -----

  /** Line breaks and tabs may stand as they are, and a backslash before anything. */
  predicate LoosePiece(p: Piece) {
    match p
    case Plain(c) => c != '"' && c != '\\'
    case Escape(c) => true
    case Unicode(hex) => ValidPiece(p)
  }

  predicate LooseBody(body: seq<Piece>) {
    forall i :: 0 <= i < |body| ==> LoosePiece(body[i])
  }

  predicate IsBlank(s: string) {
    forall i :: 0 <= i < |s| ==> IsSpace(s[i])
  }

  /** A JSON value but for its strings and for a comma after the last entry of a list. */
  predicate Loose(v: Value) {
    match v
    case Literal(text) => ValidLiteral(text)
    case Text(body) => LooseBody(body)
    case Array(gap, items) => IsGap(gap) && LooseItems(items)
    case Object(gap, members) => IsGap(gap) && LooseMembers(members)
  }

  predicate LooseItems(items: Items) {
    match items
    case NoItems => true
    case ItemComma(gap) => IsBlank(gap)
    case Item(before, value, after, rest) =>
      IsGap(before) && Loose(value) && IsGap(after) && LooseItems(rest)
  }

  predicate LooseMembers(members: Members) {
    match members
    case NoMembers => true
    case MemberComma(gap) => IsBlank(gap)
    case Member(before, key, beforeColon, afterColon, value, after, rest) =>
      && IsGap(before) && LooseBody(key) && IsGap(beforeColon) && IsGap(afterColon)
      && Loose(value) && IsGap(after) && LooseMembers(rest)
  }

  lemma {:induction false} ValidIsLoose(v: Value)
    requires Valid(v)
    ensures Loose(v)
    decreases v
  {
    match v
    case Literal(_) =>
    case Text(_) =>
    case Array(_, items) => ValidItemsAreLoose(items);
    case Object(_, members) => ValidMembersAreLoose(members);
  }

  lemma {:induction false} ValidItemsAreLoose(items: Items)
    requires ValidItems(items)
    ensures LooseItems(items)
    decreases items
  {
    if items.Item? {
      ValidIsLoose(items.value);
      ValidItemsAreLoose(items.rest);
    }
  }

  lemma {:induction false} ValidMembersAreLoose(members: Members)
    requires ValidMembers(members)
    ensures LooseMembers(members)
    decreases members
  {
    if members.Member? {
      ValidIsLoose(members.value);
      ValidMembersAreLoose(members.rest);
    }
  }

  // ----- printing -----

  function PrintPiece(p: Piece): string {
    match p
    case Plain(c) => [c]
    case Escape(c) => ['\\', c]
    case Unicode(hex) => "\\u" + hex
  }

  function PrintBody(body: seq<Piece>): string {
    if body == [] then "" else PrintPiece(body[0]) + PrintBody(body[1..])
  }

  function PrintText(body: seq<Piece>): string {
    "\"" + (PrintBody(body) + "\"")
  }

  function Print(v: Value): string {
    match v
    case Literal(text) => text
    case Text(body) => PrintText(body)
    case Array(gap, items) => "[" + (gap + (PrintItems(items) + "]"))
    case Object(gap, members) => "{" + (gap + (PrintMembers(members) + "}"))
  }

  function PrintItems(items: Items): string {
    match items
    case NoItems => ""
    case ItemComma(gap) => "," + gap
    case Item(before, value, after, rest) =>
      before + (Print(value) + (after + (Comma(!rest.Item?) + PrintItems(rest))))
  }

  function PrintMembers(members: Members): string {
    match members
    case NoMembers => ""
    case MemberComma(gap) => "," + gap
    case Member(before, key, beforeColon, afterColon, value, after, rest) =>
      before + (PrintText(key) + (beforeColon + (":" + (afterColon + (Print(value) + (after
      + (Comma(!rest.Member?) + PrintMembers(rest))))))))
  }

  function Comma(last: bool): string {
    if last then "" else ","
  }
}
