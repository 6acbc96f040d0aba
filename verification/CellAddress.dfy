/** Spreadsheet addresses such as `F12` (`columnName`, `normalizeCellAddress`, `parseCellAddress`). */
module CellAddress {
  import opened Wrappers
  import opened Decimals
  import opened WhiteSpace

  // ----- column letters -----

  function Letter(n: nat): (c: char)
    requires n < 26
    ensures 'A' <= c <= 'Z' && (c - 'A') as nat == n
  {
    'A' + n as char
  }

  /** The letters of the `value`-th column, counted from 1; none for 0. */
  function Label(value: nat): string {
    if value == 0 then "" else Label((value - 1) / 26) + [Letter((value - 1) % 26)]
  }

  method ColumnName(column: nat) returns (letters: string)
    ensures letters == Label(column + 1)
  {
    var value: nat := column + 1;
    letters := "";
    while value > 0
      invariant Label(value) + letters == Label(column + 1)
    {
      var remainder := (value - 1) % 26;
      letters := [Letter(remainder)] + letters;
      value := (value - 1) / 26;
    }
  }

  predicate IsLetters(s: string) {
    forall i :: 0 <= i < |s| ==> 'A' <= s[i] <= 'Z'
  }

  /** `column * 26 + code - 64`, letter by letter. */
  function LabelValue(letters: string): nat
    requires IsLetters(letters)
  {
    if letters == "" then 0
    else
      var n := |letters| - 1;
      LabelValue(letters[..n]) * 26 + (letters[n] - 'A') as nat + 1
  }

  method ColumnValue(letters: string) returns (column: nat)
    requires IsLetters(letters)
    ensures column == LabelValue(letters)
  {
    column := 0;
    for i := 0 to |letters|
      invariant column == LabelValue(letters[..i])
    {
      assert letters[..i + 1][..i] == letters[..i];
      column := column * 26 + (letters[i] - 'A') as nat + 1;
    }
    assert letters[..|letters|] == letters;
  }

  /** From number to letters and back. */
  lemma {:induction false} ValueOfLabel(value: nat)
    ensures IsLetters(Label(value)) && LabelValue(Label(value)) == value
  {
    if value > 0 {
      var quotient, remainder := (value - 1) / 26, (value - 1) % 26;
      ValueOfLabel(quotient);
      ValueOfSnoc(Label(quotient), Letter(remainder));
    }
  }

  lemma ValueOfSnoc(front: string, last: char)
    requires IsLetters(front) && 'A' <= last <= 'Z'
    ensures IsLetters(front + [last])
    ensures LabelValue(front + [last]) == LabelValue(front) * 26 + (last - 'A') as nat + 1
  {
    assert (front + [last])[..|front|] == front;
  }

  lemma LabelSnoc(quotient: nat, remainder: nat)
    requires remainder < 26
    ensures Label(quotient * 26 + remainder + 1) == Label(quotient) + [Letter(remainder)]
  {
    var n := quotient * 26 + remainder;
    assert n / 26 == quotient && n % 26 == remainder;
  }

  /** From letters to number and back: every word of capitals names one column. */
  lemma {:induction false} LabelOfValue(letters: string)
    requires IsLetters(letters)
    ensures Label(LabelValue(letters)) == letters
    decreases |letters|
  {
    if letters != "" {
      var n := |letters| - 1;
      assert letters == letters[..n] + [letters[n]];
      LabelOfValue(letters[..n]);
      LabelOfSnoc(letters[..n], letters[n]);
    }
  }

  lemma LabelOfSnoc(front: string, last: char)
    requires IsLetters(front) && 'A' <= last <= 'Z' && Label(LabelValue(front)) == front
    ensures IsLetters(front + [last]) && Label(LabelValue(front + [last])) == front + [last]
  {
    var value, digit := LabelValue(front), (last - 'A') as nat;
    ValueOfSnoc(front, last);
    LabelSnoc(value, digit);
    assert Letter(digit) == last;
  }

  /** The columns with one, two and three letters. */
  lemma {:induction false} LabelLength(value: nat)
    ensures |Label(value)| <= 1 <==> value <= 26
    ensures |Label(value)| <= 2 <==> value <= 702
    ensures |Label(value)| <= 3 <==> value <= 18_278
    ensures Label(value) == "" <==> value == 0
  {
    if value > 0 {
      LabelLength((value - 1) / 26);
    }
  }

  // ----- addresses -----

  predicate IsCapital(c: char) {
    'A' <= c <= 'Z'
  }

  predicate IsDigit(c: char) {
    '0' <= c <= '9'
  }

  function Capital(c: char): char {
    if 'a' <= c <= 'z' then c - 'a' + 'A' else c
  }

  predicate IsDropped(c: char) {
    c == '$' || IsSpace(c)
  }

  /** `value.replace(/[$\s]/g, "").toUpperCase()`, for the letters of the Latin alphabet. */
  function Compact(value: string): string {
    if value == "" then ""
    else (if IsDropped(value[0]) then "" else [Capital(value[0])]) + Compact(value[1..])
  }

  /** `[A-Z]{1,3}` */
  predicate IsColumn(s: string) {
    1 <= |s| <= 3 && forall i :: 0 <= i < |s| ==> IsCapital(s[i])
  }

  /** `[1-9]\d{0,3}` */
  predicate IsRow(s: string) {
    1 <= |s| <= 4 && s[0] != '0' && forall i :: 0 <= i < |s| ==> IsDigit(s[i])
  }

  /** How many characters at the front are capitals, and how many digits. */
  function Capitals(s: string): (n: nat)
    ensures n <= |s|
  {
    if s == "" || !IsCapital(s[0]) then 0 else 1 + Capitals(s[1..])
  }

  function Digits(s: string): (n: nat)
    ensures n <= |s|
  {
    if s == "" || !IsDigit(s[0]) then 0 else 1 + Digits(s[1..])
  }

  /** The column and row texts, in whichever order they were written. */
  function SplitAddress(compact: string): Option<(string, string)> {
    var n, m := Capitals(compact), Digits(compact);
    if IsColumn(compact[..n]) && IsRow(compact[n..]) then Some((compact[..n], compact[n..]))
    else if IsRow(compact[..m]) && IsColumn(compact[m..]) then Some((compact[m..], compact[..m]))
    else None
  }

  function NormalizeCellAddress(value: string): Option<string> {
    match SplitAddress(Compact(value))
    case Some((letters, digits)) => Some(letters + digits)
    case None => None
  }

  datatype Location = Location(address: string, column: int, row: int)

  function Locate(address: string): Option<Location> {
    var n := Capitals(address);
    if IsLetters(address[..n]) then
      Some(Location(address, LabelValue(address[..n]) - 1, ReadNat(address[n..], 0).0 - 1))
    else None
  }

  function ParseCellAddress(value: string): Option<Location> {
    var address := NormalizeCellAddress(value);
    if address.Some? then Locate(address.value) else None
  }

  /** The address of a cell. */
  function AddressOf(column: nat, row: nat): string {
    Label(column + 1) + PrintNat(row + 1)
  }

  lemma {:induction false} CapitalsOf(letters: string, rest: string)
    requires IsLetters(letters) && (rest != "" ==> !IsCapital(rest[0]))
    ensures Capitals(letters + rest) == |letters|
    decreases |letters|
  {
    if letters == "" {
      assert letters + rest == rest;
    } else {
      assert (letters + rest)[1..] == letters[1..] + rest;
      CapitalsOf(letters[1..], rest);
    }
  }

  lemma {:induction false} DigitsOf(digits: string, rest: string)
    requires forall i :: 0 <= i < |digits| ==> IsDigit(digits[i])
    requires rest != "" ==> !IsDigit(rest[0])
    ensures Digits(digits + rest) == |digits|
    decreases |digits|
  {
    if digits == "" {
      assert digits + rest == rest;
    } else {
      assert (digits + rest)[1..] == digits[1..] + rest;
      DigitsOf(digits[1..], rest);
    }
  }

  lemma {:induction false} CompactKeeps(s: string)
    requires forall i :: 0 <= i < |s| ==> IsCapital(s[i]) || IsDigit(s[i])
    ensures Compact(s) == s
  {
    if s != "" {
      CompactKeeps(s[1..]);
    }
  }

  lemma {:induction false} PrintNatIsRow(n: nat)
    ensures forall i :: 0 <= i < |PrintNat(n)| ==> IsDigit(PrintNat(n)[i])
    ensures n > 0 ==> PrintNat(n)[0] != '0'
    ensures |PrintNat(n)| <= 1 <==> n <= 9
    ensures |PrintNat(n)| <= 2 <==> n <= 99
    ensures |PrintNat(n)| <= 3 <==> n <= 999
    ensures |PrintNat(n)| <= 4 <==> n <= 9_999
  {
    if n >= 10 {
      PrintNatIsRow(n / 10);
      assert PrintNat(n)[0] == PrintNat(n / 10)[0];
    }
  }

  lemma SplitWritten(letters: string, digits: string)
    requires IsLetters(letters) && letters != "" && digits != ""
    requires digits[0] != '0' && forall i :: 0 <= i < |digits| ==> IsDigit(digits[i])
    ensures SplitAddress(letters + digits)
         == if |letters| <= 3 && |digits| <= 4 then Some((letters, digits)) else None
    ensures SplitAddress(digits + letters)
         == if |letters| <= 3 && |digits| <= 4 then Some((letters, digits)) else None
  {
    CapitalsOf(letters, digits);
    DigitsOf(digits, letters);
    var one, two := letters + digits, digits + letters;
    assert one[..|letters|] == letters && one[|letters|..] == digits;
    assert two[..|digits|] == digits && two[|digits|..] == letters;
    assert Digits(one) == 0 && Capitals(two) == 0;
  }

  lemma NormalizeWritten(column: nat, row: nat)
    ensures NormalizeCellAddress(AddressOf(column, row))
         == if column < 18_278 && row < 9_999 then Some(AddressOf(column, row)) else None
    ensures NormalizeCellAddress(PrintNat(row + 1) + Label(column + 1))
         == NormalizeCellAddress(AddressOf(column, row))
  {
    var letters, digits := Label(column + 1), PrintNat(row + 1);
    ValueOfLabel(column + 1);
    LabelLength(column + 1);
    PrintNatIsRow(row + 1);
    SplitWritten(letters, digits);
    CompactKeeps(letters + digits);
    CompactKeeps(digits + letters);
  }

  lemma LocateWritten(letters: string, digits: string)
    requires IsLetters(letters) && digits != "" && !IsCapital(digits[0])
    ensures Locate(letters + digits)
         == Some(Location(letters + digits, LabelValue(letters) - 1, ReadNat(digits, 0).0 - 1))
  {
    CapitalsOf(letters, digits);
    assert (letters + digits)[..|letters|] == letters && (letters + digits)[|letters|..] == digits;
  }

  /** A cell's address reads back as that cell exactly when it has three letters and four digits at most. */
  lemma AddressReadsBackIff(column: nat, row: nat)
    ensures ParseCellAddress(AddressOf(column, row))
         == if column < 18_278 && row < 9_999 then Some(Location(AddressOf(column, row), column, row)) else None
  {
    NormalizeWritten(column, row);
    ValueOfLabel(column + 1);
    LocateWritten(Label(column + 1), PrintNat(row + 1));
    ReadNatPrinted(row + 1, "");
    assert PrintNat(row + 1) + "" == PrintNat(row + 1);
  }

  /** Written row first, the address means the same cell. */
  lemma ReversedAddress(column: nat, row: nat)
    ensures ParseCellAddress(PrintNat(row + 1) + Label(column + 1)) == ParseCellAddress(AddressOf(column, row))
  {
    NormalizeWritten(column, row);
  }

  // ----- the sheet's own reading of an address (`columnIndexFromA1`) -----

  function TrimStart(s: string): string {
    if s != "" && IsSpace(s[0]) then TrimStart(s[1..]) else s
  }

  function TrimEnd(s: string): string {
    if s != "" && IsSpace(s[|s| - 1]) then TrimEnd(s[..|s| - 1]) else s
  }

  function Trim(s: string): string {
    TrimEnd(TrimStart(s))
  }

  function Capitalised(s: string): (t: string)
    ensures |t| == |s| && forall i :: 0 <= i < |s| ==> t[i] == Capital(s[i])
  {
    seq(|s|, i requires 0 <= i < |s| => Capital(s[i]))
  }

  /** Column and row, for letters followed by digits, in capitals or not. */
  function ColumnIndexFromA1(cell: string): Option<(int, int)> {
    LettersThenDigits(Capitalised(Trim(cell)))
  }

  function LettersThenDigits(s: string): Option<(int, int)> {
    var n := Capitals(s);
    if IsColumn(s[..n]) && IsRow(s[n..]) then Some((LabelValue(s[..n]) - 1, ReadNat(s[n..], 0).0 - 1)) else None
  }

  /** Written letters first, without `$` or blanks inside. */
  predicate IsPlain(cell: string) {
    var t := Trim(cell);
    && t != "" && IsCapital(Capital(t[0]))
    && forall i :: 0 <= i < |t| ==> !IsDropped(t[i])
  }

  lemma {:induction false} CompactJoin(a: string, b: string)
    ensures Compact(a + b) == Compact(a) + Compact(b)
    decreases |a|
  {
    if a == "" {
      assert a + b == b;
    } else {
      assert (a + b)[1..] == a[1..] + b;
      CompactJoin(a[1..], b);
    }
  }

  lemma {:induction false} CompactTrimStart(s: string)
    ensures Compact(TrimStart(s)) == Compact(s)
  {
    if s != "" && IsSpace(s[0]) {
      CompactTrimStart(s[1..]);
    }
  }

  lemma {:induction false} CompactTrimEnd(s: string)
    ensures Compact(TrimEnd(s)) == Compact(s)
    decreases |s|
  {
    if s != "" && IsSpace(s[|s| - 1]) {
      var n := |s| - 1;
      CompactTrimEnd(s[..n]);
      CompactJoin(s[..n], s[n..]);
      assert s == s[..n] + s[n..];
      assert s[n..][1..] == "";
    }
  }

  lemma {:induction false} CompactPlain(t: string)
    requires forall i :: 0 <= i < |t| ==> !IsDropped(t[i])
    ensures Compact(t) == Capitalised(t)
  {
    if t != "" {
      CompactPlain(t[1..]);
      assert Capitalised(t) == [Capital(t[0])] + Capitalised(t[1..]);
    }
  }

  /** The letters and digits of a plain address are what the other reading splits it into. */
  lemma PlainIsLettersFirst(cell: string)
    ensures ColumnIndexFromA1(cell).Some? ==> IsPlain(cell)
  {
    var t := Trim(cell);
    var s := Capitalised(t);
    var n := Capitals(s);
    if IsColumn(s[..n]) && IsRow(s[n..]) {
      forall i | 0 <= i < |t| ensures !IsDropped(t[i]) {
        assert s[i] == if i < n then s[..n][i] else s[n..][i - n];
      }
      assert s[0] == s[..n][0];
    }
  }

  lemma SplitLettersFirst(s: string)
    requires s != "" && IsCapital(s[0])
    ensures var n := Capitals(s);
      SplitAddress(s) == if IsColumn(s[..n]) && IsRow(s[n..]) then Some((s[..n], s[n..])) else None
  {
    assert Digits(s) == 0;
    assert s[..0] == "";
  }

  lemma CompactIsTrimmed(cell: string)
    requires IsPlain(cell)
    ensures Compact(cell) == Capitalised(Trim(cell))
  {
    CompactTrimStart(cell);
    CompactTrimEnd(TrimStart(cell));
    CompactPlain(Trim(cell));
  }

  lemma ReadLettersFirst(s: string, value: string)
    requires s != "" && IsCapital(s[0]) && Compact(value) == s
    ensures var location := ParseCellAddress(value);
      LettersThenDigits(s)
      == if location.Some? then Some((location.value.column, location.value.row)) else None
  {
    var n := Capitals(s);
    SplitLettersFirst(s);
    if IsColumn(s[..n]) && IsRow(s[n..]) {
      LocateWritten(s[..n], s[n..]);
    }
  }

  /**
   The sheet reads an address as the gradebook assistant does exactly when it is plain, and
   reads no others.
   */
  lemma SheetReadsPlainAddresses(cell: string)
    ensures var location := ParseCellAddress(cell);
      ColumnIndexFromA1(cell) == if IsPlain(cell) && location.Some?
                                 then Some((location.value.column, location.value.row)) else None
  {
    if IsPlain(cell) {
      CompactIsTrimmed(cell);
      ReadLettersFirst(Capitalised(Trim(cell)), cell);
    } else {
      PlainIsLettersFirst(cell);
    }
  }

  lemma WrittenB2()
    ensures Label(2) == "B" && PrintNat(2) == "2"
    ensures ParseCellAddress("B2") == Some(Location("B2", 1, 1)) && ParseCellAddress("2B") == ParseCellAddress("B2")
  {
    assert Label(2) == Label(0) + "B" && PrintNat(2) == "2";
    assert AddressOf(1, 1) == "B2" && PrintNat(1 + 1) + Label(1 + 1) == "2B";
    AddressReadsBackIff(1, 1);
    ReversedAddress(1, 1);
  }

  lemma DollarsAreDropped()
    ensures Compact("$B$2") == Compact("B2")
  {
    CompactJoin("$", "B$2");
    CompactJoin("B", "$2");
    CompactJoin("$", "2");
    CompactJoin("B", "2");
    assert "$B$2" == "$" + "B$2" && "B$2" == "B" + "$2" && "$2" == "$" + "2" && "B2" == "B" + "2";
    assert Compact("$") == "" + Compact("$"[1..]) && "$"[1..] == "";
  }

  lemma NotPlain(cell: string)
    requires cell in ["2B", "$B$2"]
    ensures !IsPlain(cell)
  {
    assert TrimStart(cell) == cell && TrimEnd(cell) == cell;
    assert !IsCapital(Capital(cell[0]));
  }

  lemma SameCompact(a: string, b: string)
    requires Compact(a) == Compact(b)
    ensures ParseCellAddress(a) == ParseCellAddress(b)
  {
  }

  lemma AssistantReadsB2(cell: string)
    requires cell in ["2B", "$B$2"]
    ensures ParseCellAddress(cell) == Some(Location("B2", 1, 1))
  {
    var written := "B2";
    assert ParseCellAddress(written) == Some(Location("B2", 1, 1)) && ParseCellAddress("2B") == ParseCellAddress(written) by {
      WrittenB2();
    }
    if cell != "2B" {
      assert Compact(cell) == Compact(written) by {
        DollarsAreDropped();
      }
      SameCompact(cell, written);
    }
  }

  /** `2B` and `$B$2` are the cell B2 to the assistant, and no cell to the sheet. */
  lemma AssistantOnlyAddresses(cell: string)
    requires cell in ["2B", "$B$2"]
    ensures ParseCellAddress(cell) == Some(Location("B2", 1, 1)) && ColumnIndexFromA1(cell) == None
  {
    AssistantReadsB2(cell);
    NotPlain(cell);
    SheetReadsPlainAddresses(cell);
  }
}
