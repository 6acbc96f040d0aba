/**
 The gradebook sheet: rebuilding its grid from the saved one (`workbookData`), and
 bringing an open sheet up to date in place (`syncAuthoritativeRef`).
 */
module GradebookSheet {
  import opened Wrappers
  import opened Sorting
  import opened GradebookHeadings

  datatype At = At(row: int, column: int)

  /** What a cell shows. `Blank` stands for both `null` and `undefined`. */
  datatype Value = Blank | Text(text: string) | Number(number: real)

  datatype Style = Style(background: string, bold: bool, wrapped: bool)

  datatype Cell = Cell(value: Value, formula: Option<string>, style: Style)

  /** A sparse sheet, counted from (0, 0). */
  type Grid = map<At, Cell>

  const PLAIN := Style("", false, false)
  const HEADING := Style("#f0e7de", true, false)

  /** The text functions of headings, and JavaScript's number reading and printing. */
  datatype Tools = Tools(texts: Texts, read: string -> Option<real>, show: real -> string)

  datatype Inputs = Inputs(roster: seq<Student>, assignments: seq<Assignment>,
                           submitted: set<(string, string)>, scores: map<string, string>)

  function Lookup(g: Grid, row: int, column: int): Option<Cell> {
    if At(row, column) in g then Some(g[At(row, column)]) else None
  }

  function Put(g: Grid, row: int, column: int, cell: Cell): (next: Grid)
    ensures forall r, c :: Lookup(next, r, c) == if r == row && c == column then Some(cell) else Lookup(g, r, c)
  {
    g[At(row, column) := cell]
  }

  function ValueOf(cell: Option<Cell>): Value {
    if cell.Some? then cell.value.value else Blank
  }

  function FormulaOf(cell: Option<Cell>): Option<string> {
    if cell.Some? then cell.value.formula else None
  }

  function StyleOf(cell: Option<Cell>): Style {
    if cell.Some? then cell.value.style else PLAIN
  }

  /** `String(v ?? "")`. */
  function Shown(k: Tools, v: Value): string {
    match v
    case Blank => ""
    case Text(text) => text
    case Number(number) => k.show(number)
  }

  // ----- the part the application owns -----

  /** A text that reads as a number is stored as that number. */
  function Entered(k: Tools, text: string): Value {
    if k.read(text).Some? then Number(k.read(text).value) else Text(text)
  }

  function Score(k: Tools, inputs: Inputs, student: Student, a: Assignment): Value {
    var key := student.id + ":" + a.id;
    if (student.id, a.id) !in inputs.submitted then Entered(k, "—")
    else if key !in inputs.scores || inputs.scores[key] == "" then Blank
    else Entered(k, inputs.scores[key])
  }

  function Width(inputs: Inputs): nat {
    |inputs.assignments| + 2
  }

  function Heading(k: Tools, inputs: Inputs, column: nat): Value
    requires column < Width(inputs)
  {
    Text(if column == 0 then "Student" else if column == 1 then "Username"
         else k.texts.heading(inputs.assignments[column - 2]))
  }

  function StudentValue(k: Tools, inputs: Inputs, i: nat, column: nat): Value
    requires i < |inputs.roster| && column < Width(inputs)
  {
    var student := inputs.roster[i];
    if column == 0 then Text(student.name)
    else if column == 1 then Text(student.username)
    else Score(k, inputs, student, inputs.assignments[column - 2])
  }

  predicate Owned(inputs: Inputs, row: int, column: int) {
    0 <= row <= |inputs.roster| && 0 <= column < Width(inputs)
  }

  function OwnedValue(k: Tools, inputs: Inputs, row: int, column: int): Value
    requires Owned(inputs, row, column)
  {
    if row == 0 then Heading(k, inputs, column) else StudentValue(k, inputs, row - 1, column)
  }

  // ----- workbookData: rebuilding from the saved grid -----

  /** A column of the teacher's own: its heading is not blank and matches no assignment. */
  predicate IsCustom(k: Tools, assignments: seq<Assignment>, g: Grid, column: int) {
    var heading := Shown(k, ValueOf(Lookup(g, 0, column)));
    column >= 2 && !k.texts.blank(heading) && AssignmentForHeader(k.texts, heading, assignments).None?
  }

  ghost predicate AreCustom(k: Tools, assignments: seq<Assignment>, g: Grid, customs: seq<int>) {
    Increasing(customs) && forall c :: c in customs <==> IsCustom(k, assignments, g, c)
  }

  /** What a rebuilt sheet holds at one place; `customs` are the columns kept, left to right. */
  function RebuiltAt(k: Tools, inputs: Inputs, previous: Grid, customs: seq<int>, row: int, column: int): Option<Cell> {
    if Owned(inputs, row, column) then
      Some(Cell(OwnedValue(k, inputs, row, column), None, if row == 0 then HEADING else PLAIN))
    else if Width(inputs) <= column < Width(inputs) + |customs| then
      Lookup(previous, row, customs[column - Width(inputs)])
    else None
  }

  ghost predicate IsRebuild(k: Tools, inputs: Inputs, previous: Grid, customs: seq<int>, next: Grid) {
    && AreCustom(k, inputs.assignments, previous, customs)
    && forall row, column :: Lookup(next, row, column) == RebuiltAt(k, inputs, previous, customs, row, column)
  }

  predicate Populates(k: Tools, at: At, cell: Cell) {
    at.column >= 2 && (!k.texts.blank(Shown(k, cell.value)) || cell.formula.Some?)
  }

  method PopulatedColumns(k: Tools, g: Grid) returns (columns: seq<int>)
    ensures forall at :: at in g && Populates(k, at, g[at]) ==> at.column in columns
  {
    columns := [];
    var rest := g.Keys;
    while rest != {}
      invariant rest <= g.Keys
      invariant forall at :: at in g && at !in rest && Populates(k, at, g[at]) ==> at.column in columns
    {
      var at :| at in rest;
      if Populates(k, at, g[at]) && at.column !in columns {
        columns := columns + [at.column];
      }
      rest := rest - {at};
    }
  }

  method CustomColumns(k: Tools, assignments: seq<Assignment>, g: Grid) returns (customs: seq<int>)
    requires Lawful(k.texts)
    ensures AreCustom(k, assignments, g, customs)
  {
    var columns := PopulatedColumns(k, g);
    customs := [];
    for i := 0 to |columns|
      invariant Increasing(customs)
      invariant forall c :: c in customs <==> c in columns[..i] && IsCustom(k, assignments, g, c)
    {
      if IsCustom(k, assignments, g, columns[i]) {
        InsertSorted(customs, columns[i]);
        customs := Insert(customs, columns[i]);
      }
      assert columns[..i + 1] == columns[..i] + [columns[i]];
    }
    assert columns[..|columns|] == columns;
    forall c | IsCustom(k, assignments, g, c) ensures c in columns {
      assert At(0, c) in g && Populates(k, At(0, c), g[At(0, c)]);
    }
  }

  /** Every cell of one column, put into another column of `g`. */
  method CopyColumn(previous: Grid, source: int, target: int, g: Grid) returns (next: Grid)
    ensures forall row, column :: Lookup(next, row, column) ==
              if column == target && Lookup(previous, row, source).Some? then Lookup(previous, row, source)
              else Lookup(g, row, column)
  {
    next := g;
    var rest := previous.Keys;
    while rest != {}
      invariant rest <= previous.Keys
      invariant forall row, column :: Lookup(next, row, column) ==
                  if column == target && At(row, source) in previous && At(row, source) !in rest
                  then Some(previous[At(row, source)]) else Lookup(g, row, column)
    {
      var at :| at in rest;
      rest := rest - {at};
      if at.column == source {
        next := Put(next, at.row, target, previous[at]);
      }
    }
  }

  method WriteHeadings(k: Tools, inputs: Inputs, g: Grid) returns (next: Grid)
    ensures forall row, column :: Lookup(next, row, column) ==
              if row == 0 && 0 <= column < Width(inputs) then Some(Cell(Heading(k, inputs, column), None, HEADING))
              else Lookup(g, row, column)
  {
    next := Put(g, 0, 0, Cell(Text("Student"), None, HEADING));
    next := Put(next, 0, 1, Cell(Text("Username"), None, HEADING));
    for column := 0 to |inputs.assignments|
      invariant forall row, c :: Lookup(next, row, c) ==
                  if row == 0 && 0 <= c < column + 2 then Some(Cell(Heading(k, inputs, c), None, HEADING))
                  else Lookup(g, row, c)
    {
      var heading := Text(k.texts.heading(inputs.assignments[column]));
      next := Put(next, 0, column + 2, Cell(heading, None, HEADING));
    }
  }

  method WriteStudent(k: Tools, inputs: Inputs, i: nat, g: Grid) returns (next: Grid)
    requires i < |inputs.roster|
    ensures forall row, column :: Lookup(next, row, column) ==
              if row == i + 1 && 0 <= column < Width(inputs)
              then Some(Cell(StudentValue(k, inputs, i, column), None, PLAIN))
              else Lookup(g, row, column)
  {
    var student := inputs.roster[i];
    next := Put(g, i + 1, 0, Cell(Text(student.name), None, PLAIN));
    next := Put(next, i + 1, 1, Cell(Text(student.username), None, PLAIN));
    for column := 0 to |inputs.assignments|
      invariant forall row, c :: Lookup(next, row, c) ==
                  if row == i + 1 && 0 <= c < column + 2 then Some(Cell(StudentValue(k, inputs, i, c), None, PLAIN))
                  else Lookup(g, row, c)
    {
      var score := Score(k, inputs, student, inputs.assignments[column]);
      next := Put(next, i + 1, column + 2, Cell(score, None, PLAIN));
    }
  }

  /** `workbookData`: the teacher's own columns are copied first, then the rest is written. */
  method Rebuild(k: Tools, inputs: Inputs, previous: Grid) returns (next: Grid, customs: seq<int>)
    requires Lawful(k.texts)
    ensures IsRebuild(k, inputs, previous, customs, next)
  {
    customs := CustomColumns(k, inputs.assignments, previous);
    next := map[];
    for i := 0 to |customs|
      invariant forall row, column :: Lookup(next, row, column) ==
                  if Width(inputs) <= column < Width(inputs) + i
                  then Lookup(previous, row, customs[column - Width(inputs)]) else None
    {
      next := CopyColumn(previous, customs[i], Width(inputs) + i, next);
    }
    next := WriteHeadings(k, inputs, next);
    for i := 0 to |inputs.roster|
      invariant forall row, column :: Lookup(next, row, column) ==
                  if Owned(inputs, row, column) && row > i then None
                  else RebuiltAt(k, inputs, previous, customs, row, column)
    {
      next := WriteStudent(k, inputs, i, next);
    }
  }

  // ----- what a rebuild keeps -----

  /** The columns of the teacher's own after a rebuild stand right after the assignments. */
  function Following(first: int, count: nat): (columns: seq<int>)
    ensures |columns| == count && forall i :: 0 <= i < count ==> columns[i] == first + i
  {
    seq(count, i => first + i)
  }

  /** An assignment whose written heading is read as none of the assignments. */
  predicate HeadingIsLost(k: Tools, inputs: Inputs, a: Assignment) {
    && !k.texts.blank(k.texts.heading(a))
    && AssignmentForHeader(k.texts, k.texts.heading(a), inputs.assignments).None?
  }

  /** What counts as the teacher's own in a rebuilt sheet. */
  lemma CustomAfterRebuild(k: Tools, inputs: Inputs, previous: Grid, customs: seq<int>, next: Grid, column: int)
    requires Lawful(k.texts) && IsRebuild(k, inputs, previous, customs, next)
    ensures IsCustom(k, inputs.assignments, next, column) <==>
      || Width(inputs) <= column < Width(inputs) + |customs|
      || (2 <= column < Width(inputs) && HeadingIsLost(k, inputs, inputs.assignments[column - 2]))
  {
    assert Lookup(next, 0, column) == RebuiltAt(k, inputs, previous, customs, 0, column);
    if Width(inputs) <= column < Width(inputs) + |customs| {
      assert customs[column - Width(inputs)] in customs;
    }
  }

  /** With every heading read back, the kept columns are recognised again, in place. */
  lemma RecognisedAgain(k: Tools, inputs: Inputs, previous: Grid, customs: seq<int>, next: Grid, again: seq<int>)
    requires Lawful(k.texts) && IsRebuild(k, inputs, previous, customs, next)
    requires AreCustom(k, inputs.assignments, next, again)
    requires forall a :: a in inputs.assignments ==> !HeadingIsLost(k, inputs, a)
    ensures again == Following(Width(inputs), |customs|)
  {
    var expected := Following(Width(inputs), |customs|);
    forall c ensures c in again <==> c in expected {
      CustomAfterRebuild(k, inputs, previous, customs, next, c);
      if Width(inputs) <= c < Width(inputs) + |customs| {
        assert expected[c - Width(inputs)] == c;
      }
    }
    IncreasingIsUnique(again, expected);
  }

  lemma {:induction false} NotLonger(a: seq<int>, b: seq<int>)
    requires Increasing(a) && Increasing(b)
    requires forall x :: x in a ==> x in b
    ensures |a| <= |b|
    decreases |b|
  {
    if a != [] {
      assert a[0] in a;
      forall x | x in a[1..] ensures x in b[1..] {
        RestHasOthers(a, x);
        RestHasOthers(b, x);
        FirstIsLeast(b, a[0]);
        var j :| 0 <= j < |a[1..]| && a[1..][j] == x;
        assert a[0] < a[j + 1];
      }
      NotLonger(a[1..], b[1..]);
    }
  }

  /** A lost heading makes the next rebuild keep more columns than the sheet has. */
  lemma LostHeadingIsCopied(k: Tools, inputs: Inputs, previous: Grid, customs: seq<int>, next: Grid, again: seq<int>, i: nat)
    requires Lawful(k.texts) && IsRebuild(k, inputs, previous, customs, next)
    requires AreCustom(k, inputs.assignments, next, again)
    requires i < |inputs.assignments| && HeadingIsLost(k, inputs, inputs.assignments[i])
    ensures |again| > |customs|
  {
    var columns := [i + 2] + Following(Width(inputs), |customs|);
    forall c | c in columns ensures c in again {
      CustomAfterRebuild(k, inputs, previous, customs, next, c);
    }
    NotLonger(columns, again);
  }

  /**
   Rebuilding again with the same roster and assignments changes nothing exactly when
   every heading it writes is read back as some assignment (a blank title is not).
   */
  lemma RebuildAgainIff(k: Tools, inputs: Inputs, previous: Grid, customs: seq<int>, next: Grid,
                        again: seq<int>, twice: Grid)
    requires Lawful(k.texts)
    requires IsRebuild(k, inputs, previous, customs, next) && IsRebuild(k, inputs, next, again, twice)
    ensures twice == next <==> forall a :: a in inputs.assignments ==> !HeadingIsLost(k, inputs, a)
  {
    if a :| a in inputs.assignments && HeadingIsLost(k, inputs, a) {
      var i :| 0 <= i < |inputs.assignments| && inputs.assignments[i] == a;
      LostHeadingIsCopied(k, inputs, previous, customs, next, again, i);
      var column, source := Width(inputs) + |customs|, again[|customs|];
      assert source in again;
      assert Lookup(twice, 0, column) == Lookup(next, 0, source);
      assert Lookup(next, 0, column) == None;
    } else {
      RecognisedAgain(k, inputs, previous, customs, next, again);
      forall row, column ensures Lookup(twice, row, column) == Lookup(next, row, column) {
        assert Lookup(twice, row, column) == RebuiltAt(k, inputs, next, again, row, column);
      }
      SameEverywhere(twice, next);
    }
  }

  /** A heading that reads back as its own title and maximum is never lost. */
  lemma ReadBackIsNeverLost(k: Tools, inputs: Inputs, a: Assignment)
    requires a in inputs.assignments && ReadsBack(k.texts, a)
    ensures !HeadingIsLost(k, inputs, a)
  {
    var title := k.texts.norm(a.title);
    var matches := TitleMatches(k.texts, title, inputs.assignments);
    MatchesAre(k.texts, title, inputs.assignments);
    WithMaximumIs(matches, Some(a.maxPoints));
    assert a in matches;
  }

  lemma SameEverywhere(g: Grid, h: Grid)
    requires forall row, column :: Lookup(g, row, column) == Lookup(h, row, column)
    ensures g == h
  {
    forall at: At ensures at in g <==> at in h
      ensures at in g ==> g[at] == h[at]
    {
      assert Lookup(g, at.row, at.column) == Lookup(h, at.row, at.column);
    }
  }

  // ----- what any number of rebuilds keeps -----

  function HeadingAt(k: Tools, g: Grid, column: int): string {
    Shown(k, ValueOf(Lookup(g, 0, column)))
  }

  /** Sheet after sheet, each rebuilt from the one before for its own roster and assignments. */
  ghost predicate AreRebuilds(k: Tools, inputs: seq<Inputs>, grids: seq<Grid>, customs: seq<seq<int>>) {
    && |grids| == |inputs| + 1 && |customs| == |inputs|
    && forall i :: 0 <= i < |inputs| ==> IsRebuild(k, inputs[i], grids[i], customs[i], grids[i + 1])
  }

  lemma FirstOfRebuilds(k: Tools, inputs: seq<Inputs>, grids: seq<Grid>, customs: seq<seq<int>>)
    requires AreRebuilds(k, inputs, grids, customs) && inputs != []
    ensures IsRebuild(k, inputs[0], grids[0], customs[0], grids[1])
    ensures AreRebuilds(k, inputs[1..], grids[1..], customs[1..])
  {
    forall i | 0 <= i < |inputs[1..]|
      ensures IsRebuild(k, inputs[1..][i], grids[1..][i], customs[1..][i], grids[1..][i + 1])
    {
      assert IsRebuild(k, inputs[i + 1], grids[i + 1], customs[i + 1], grids[i + 2]);
    }
  }

  /** A heading of the teacher's that none of the assignments ever matches. */
  ghost predicate StaysUnmatched(k: Tools, heading: string, inputs: seq<Inputs>) {
    && !k.texts.blank(heading)
    && forall i :: 0 <= i < |inputs| ==> AssignmentForHeader(k.texts, heading, inputs[i].assignments).None?
  }

  function Position(s: seq<int>, x: int): (i: nat)
    requires x in s
    ensures i < |s| && s[i] == x
  {
    if s[0] == x then 0 else 1 + Position(s[1..], x)
  }

  /** Where one rebuild puts the columns it keeps. */
  function Placed(inputs: Inputs, customs: seq<int>, kept: seq<int>): (placed: seq<int>)
    requires forall c <- kept :: c in customs
    ensures |placed| == |kept|
  {
    seq(|kept|, i requires 0 <= i < |kept| => Width(inputs) + Position(customs, kept[i]))
  }

  lemma PlacedInOrder(inputs: Inputs, customs: seq<int>, kept: seq<int>)
    requires Increasing(customs) && Increasing(kept) && forall c <- kept :: c in customs
    ensures Increasing(Placed(inputs, customs, kept))
  {
    forall i, j | 0 <= i < j < |kept| ensures Position(customs, kept[i]) < Position(customs, kept[j]) {
      var p, q := Position(customs, kept[i]), Position(customs, kept[j]);
      assert customs[p] < customs[q];
    }
  }

  lemma KeptColumn(k: Tools, inputs: Inputs, previous: Grid, customs: seq<int>, next: Grid, c: int, row: int)
    requires IsRebuild(k, inputs, previous, customs, next) && c in customs
    ensures Lookup(next, row, Width(inputs) + Position(customs, c)) == Lookup(previous, row, c)
  {
    var column := Width(inputs) + Position(customs, c);
    assert Lookup(next, row, column) == RebuiltAt(k, inputs, previous, customs, row, column);
    assert column - Width(inputs) == Position(customs, c);
  }

  lemma OneRebuildKeeps(k: Tools, inputs: Inputs, previous: Grid, customs: seq<int>, next: Grid, kept: seq<int>)
    requires IsRebuild(k, inputs, previous, customs, next)
    requires Increasing(kept) && forall c <- kept :: c in customs
    ensures var placed := Placed(inputs, customs, kept);
      && Increasing(placed) && (forall c <- placed :: c >= Width(inputs))
      && forall i, row :: 0 <= i < |kept| ==> Lookup(next, row, placed[i]) == Lookup(previous, row, kept[i])
  {
    PlacedInOrder(inputs, customs, kept);
    forall i, row | 0 <= i < |kept|
      ensures Lookup(next, row, Placed(inputs, customs, kept)[i]) == Lookup(previous, row, kept[i])
    {
      KeptColumn(k, inputs, previous, customs, next, kept[i], row);
    }
  }

  lemma UnmatchedAreCustom(k: Tools, inputs: seq<Inputs>, g: Grid, customs: seq<int>, kept: seq<int>)
    requires inputs != [] && AreCustom(k, inputs[0].assignments, g, customs)
    requires forall c <- kept :: c >= 2 && StaysUnmatched(k, HeadingAt(k, g, c), inputs)
    ensures forall c <- kept :: c in customs
  {
    forall c <- kept ensures c in customs {
      assert IsCustom(k, inputs[0].assignments, g, c);
    }
  }

  lemma StillUnmatched(k: Tools, inputs: seq<Inputs>, before: Grid, kept: seq<int>, after: Grid, placed: seq<int>)
    requires inputs != [] && |placed| == |kept|
    requires forall c <- kept :: StaysUnmatched(k, HeadingAt(k, before, c), inputs)
    requires forall i, row :: 0 <= i < |kept| ==> Lookup(after, row, placed[i]) == Lookup(before, row, kept[i])
    ensures forall c <- placed :: StaysUnmatched(k, HeadingAt(k, after, c), inputs[1..])
  {
    forall c <- placed ensures StaysUnmatched(k, HeadingAt(k, after, c), inputs[1..]) {
      var i :| 0 <= i < |placed| && placed[i] == c;
      assert Lookup(after, 0, placed[i]) == Lookup(before, 0, kept[i]);
      assert StaysUnmatched(k, HeadingAt(k, before, kept[i]), inputs);
    }
  }

  /**
   However the roster and the assignments change from one rebuild to the next, the saved
   columns whose headings no assignment ever matches keep all their cells and their order,
   and end right of the assignments.
   */
  lemma {:induction false} RebuildsKeepColumns(k: Tools, inputs: seq<Inputs>, grids: seq<Grid>, customs: seq<seq<int>>,
                                               kept: seq<int>) returns (placed: seq<int>)
    requires AreRebuilds(k, inputs, grids, customs) && Increasing(kept)
    requires forall c <- kept :: c >= 2 && StaysUnmatched(k, HeadingAt(k, grids[0], c), inputs)
    ensures |placed| == |kept| && Increasing(placed)
    ensures forall i, row :: 0 <= i < |kept| ==>
              Lookup(grids[|inputs|], row, placed[i]) == Lookup(grids[0], row, kept[i])
    ensures if inputs == [] then placed == kept else forall c <- placed :: c >= Width(inputs[|inputs| - 1])
    decreases |inputs|
  {
    placed := kept;
    if inputs != [] {
      FirstOfRebuilds(k, inputs, grids, customs);
      UnmatchedAreCustom(k, inputs, grids[0], customs[0], kept);
      OneRebuildKeeps(k, inputs[0], grids[0], customs[0], grids[1], kept);
      var first := Placed(inputs[0], customs[0], kept);
      StillUnmatched(k, inputs, grids[0], kept, grids[1], first);
      placed := RebuildsKeepColumns(k, inputs[1..], grids[1..], customs[1..], first);
    }
  }

  /**
   The column of an assignment that is gone by the next rebuild, and whose heading nothing
   else matches, is kept as if it were the teacher's own.
   */
  lemma OldAssignmentIsKept(k: Tools, first: Inputs, previous: Grid, customs: seq<int>, next: Grid,
                            second: Inputs, again: seq<int>, last: Grid, i: nat) returns (column: int)
    requires IsRebuild(k, first, previous, customs, next) && IsRebuild(k, second, next, again, last)
    requires i < |first.assignments|
    requires StaysUnmatched(k, k.texts.heading(first.assignments[i]), [second])
    ensures column >= Width(second)
    ensures forall row :: Lookup(last, row, column) == Lookup(next, row, i + 2)
  {
    assert Lookup(next, 0, i + 2) == RebuiltAt(k, first, previous, customs, 0, i + 2);
    UnmatchedAreCustom(k, [second], next, again, [i + 2]);
    column := Width(second) + Position(again, i + 2);
    forall row ensures Lookup(last, row, column) == Lookup(next, row, i + 2) {
      KeptColumn(k, second, next, again, last, i + 2, row);
    }
  }

  // ----- what the application's own cells show -----

  /**
   The score a student has for an assignment, as a value: a number wherever its text is one,
   a dash while nothing is handed in, and nothing while it is not marked.
   */
  ghost predicate ShowsScore(k: Tools, inputs: Inputs, student: Student, a: Assignment, v: Value) {
    var key := student.id + ":" + a.id;
    && ((student.id, a.id) !in inputs.submitted && k.read("—").None? ==> v == Text("—"))
    && ((student.id, a.id) in inputs.submitted ==>
          if key !in inputs.scores || inputs.scores[key] == "" then v == Blank
          else match k.read(inputs.scores[key])
               case Some(number) => v == Number(number)
               case None => v == Text(inputs.scores[key]))
  }

  /** On a rebuilt sheet each student's row shows the name, the username and the scores, in order. */
  lemma RebuiltRowShows(k: Tools, inputs: Inputs, previous: Grid, customs: seq<int>, next: Grid, i: nat)
    requires IsRebuild(k, inputs, previous, customs, next) && i < |inputs.roster|
    ensures ValueOf(Lookup(next, i + 1, 0)) == Text(inputs.roster[i].name)
    ensures ValueOf(Lookup(next, i + 1, 1)) == Text(inputs.roster[i].username)
    ensures forall j :: 0 <= j < |inputs.assignments| ==>
              ShowsScore(k, inputs, inputs.roster[i], inputs.assignments[j], ValueOf(Lookup(next, i + 1, j + 2)))
  {
    forall column | 0 <= column < Width(inputs)
      ensures ValueOf(Lookup(next, i + 1, column)) == StudentValue(k, inputs, i, column)
    {
      assert Lookup(next, i + 1, column) == RebuiltAt(k, inputs, previous, customs, i + 1, column);
    }
  }

  // ----- the heading row of a rebuilt sheet -----

  /** Row 0 as the assistant is given it, up to some column. */
  function ShownRow(k: Tools, g: Grid, shown: nat): (row: seq<string>)
    ensures |row| == shown
  {
    seq(shown, c requires 0 <= c < shown => HeadingAt(k, g, c))
  }

  /** The headings right of the assignments, up to some column. */
  function CustomHeadings(k: Tools, inputs: Inputs, g: Grid, shown: nat): seq<string> {
    var count := if shown > Width(inputs) then shown - Width(inputs) else 0;
    seq(count, i requires 0 <= i < count => HeadingAt(k, g, Width(inputs) + i))
  }

  /** It is the two fixed headings, the assignments', and headings that match no assignment. */
  lemma RebuiltHeadingRow(k: Tools, inputs: Inputs, previous: Grid, customs: seq<int>, next: Grid, shown: nat)
    requires Lawful(k.texts) && IsRebuild(k, inputs, previous, customs, next)
    ensures var custom := CustomHeadings(k, inputs, next, shown);
      && Unmatched(k.texts, inputs.assignments, custom)
      && shown <= |HeadingRow(k.texts, inputs.assignments, custom)|
      && ShownRow(k, next, shown) == HeadingRow(k.texts, inputs.assignments, custom)[..shown]
  {
    var custom := CustomHeadings(k, inputs, next, shown);
    forall i | 0 <= i < |custom| ensures AssignmentForHeader(k.texts, custom[i], inputs.assignments).None? {
      var column := Width(inputs) + i;
      assert Lookup(next, 0, column) == RebuiltAt(k, inputs, previous, customs, 0, column);
      assert column - Width(inputs) == i && custom[i] == HeadingAt(k, next, column);
      if i < |customs| {
        assert IsCustom(k, inputs.assignments, previous, customs[i]);
      }
    }
    forall c | 0 <= c < shown
      ensures ShownRow(k, next, shown)[c] == HeadingRow(k.texts, inputs.assignments, custom)[c]
    {
      assert Lookup(next, 0, c) == RebuiltAt(k, inputs, previous, customs, 0, c);
    }
  }

  /** `HeaderCellLeadsBackIff` on the sheet itself: any rebuilt sheet, shown up to any column. */
  lemma HeaderCellOnSheetIff(k: Tools, inputs: Inputs, previous: Grid, customs: seq<int>, next: Grid,
                             shown: nat, more: seq<seq<string>>, i: nat)
    requires Lawful(k.texts) && IsRebuild(k, inputs, previous, customs, next)
    requires DistinctIds(inputs.assignments) && DistinctHeadings(k.texts, inputs.assignments)
    requires forall a <- inputs.assignments :: ReadsBack(k.texts, a)
    requires shown >= 2 && i < |inputs.assignments|
    ensures var headers := ShownRow(k, next, shown);
      var cell := HeaderCell(k.texts, inputs.assignments[i], inputs.assignments, headers);
      Resolve(k.texts, cell, inputs.roster, inputs.assignments, [headers] + more)
      == Some(AssignmentHeader(cell, inputs.assignments[i]))
      <==> NotAnIdentityHeading(k.texts, inputs.assignments[i], inputs.assignments) && i + 2 < 18_278
  {
    var custom := CustomHeadings(k, inputs, next, shown);
    RebuiltHeadingRow(k, inputs, previous, customs, next, shown);
    HeaderCellLeadsBackIff(k.texts, inputs.roster, inputs.assignments, custom, shown, more, i);
  }

  // ----- a heading that is lost -----

  /** A blank title is written as `""  -/10`, which has no title to be read, so it is lost. */
  lemma BlankTitleIsLost(blank: Assignment, show: real -> string)
    requires blank.title == "" && blank.maxPoints == 10
    ensures var k := Tools(SampleTexts(""), text => None, show);
      && Lawful(k.texts) && k.texts.heading(blank) == "\"\"  -/10"
      && HeadingIsLost(k, Inputs([], [blank], {}, map[]), blank)
  {
    WrittenSample(blank);
  }
}
