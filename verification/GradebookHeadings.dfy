/**
 Which assignment a gradebook heading belongs to, and which cell a typed address means
 (`assignmentForHeader`, `findGradebookAssignmentColumn`, `resolveGradebookCellTarget`,
 `buildGradebookCellMap`).
 */
module GradebookHeadings {
  import opened Wrappers
  import opened CellAddress
  import Decimals

  datatype Assignment = Assignment(id: string, title: string, maxPoints: int)

  datatype Student = Student(id: string, name: string, username: string)

  /**
   The text functions underneath, which this model leaves open: reading a heading into a
   title and a maximum, comparing titles, writing a heading, telling and trimming blanks, and
   putting in lower case.
   */
  datatype Texts = Texts(titleOf: string -> string, maximumOf: string -> Option<int>,
                         norm: string -> string, heading: Assignment -> string,
                         blank: string -> bool, trim: string -> string, lower: string -> string)

  /** What is assumed of them: a blank heading has no title. */
  ghost predicate Lawful(t: Texts) {
    t.blank("") && t.titleOf("") == ""
  }

  /** The heading written for an assignment reads back as its title and maximum. */
  ghost predicate ReadsBack(t: Texts, a: Assignment) {
    && !t.blank(t.heading(a))
    && t.titleOf(t.heading(a)) != ""
    && t.norm(t.titleOf(t.heading(a))) == t.norm(a.title)
    && t.maximumOf(t.heading(a)) == Some(a.maxPoints)
  }

  // ----- assignmentForHeader -----

  function TitleMatches(t: Texts, title: string, assignments: seq<Assignment>): seq<Assignment> {
    if assignments == [] then []
    else
      var first := if t.norm(assignments[0].title) == title then [assignments[0]] else [];
      first + TitleMatches(t, title, assignments[1..])
  }

  function WithMaximum(assignments: seq<Assignment>, maximum: Option<int>): Option<Assignment> {
    if assignments == [] then None
    else if Some(assignments[0].maxPoints) == maximum then Some(assignments[0])
    else WithMaximum(assignments[1..], maximum)
  }

  function AssignmentForHeader(t: Texts, header: string, assignments: seq<Assignment>): Option<Assignment> {
    if t.titleOf(header) == "" then None
    else
      var matches := TitleMatches(t, t.norm(t.titleOf(header)), assignments);
      if |matches| == 1 then Some(matches[0]) else WithMaximum(matches, t.maximumOf(header))
  }

  /** No two assignments have the same title and maximum. */
  ghost predicate DistinctHeadings(t: Texts, assignments: seq<Assignment>) {
    forall i, j :: 0 <= i < j < |assignments| ==>
      t.norm(assignments[i].title) != t.norm(assignments[j].title)
      || assignments[i].maxPoints != assignments[j].maxPoints
  }

  ghost predicate DistinctIds(assignments: seq<Assignment>) {
    forall i, j :: 0 <= i < j < |assignments| ==> assignments[i].id != assignments[j].id
  }

  lemma {:induction false} MatchesAre(t: Texts, title: string, assignments: seq<Assignment>)
    ensures forall a :: a in TitleMatches(t, title, assignments) <==> a in assignments && t.norm(a.title) == title
  {
    if assignments != [] {
      MatchesAre(t, title, assignments[1..]);
      assert assignments == [assignments[0]] + assignments[1..];
    }
  }

  lemma {:induction false} WithMaximumIs(assignments: seq<Assignment>, maximum: Option<int>)
    ensures var found := WithMaximum(assignments, maximum);
      && (found.Some? ==> found.value in assignments && Some(found.value.maxPoints) == maximum)
      && (found.None? ==> forall a :: a in assignments ==> Some(a.maxPoints) != maximum)
  {
    if assignments != [] {
      WithMaximumIs(assignments[1..], maximum);
    }
  }

  /** A written heading matches its own assignment. */
  lemma HeadingMatchesOwn(t: Texts, assignments: seq<Assignment>, i: nat)
    requires i < |assignments| && ReadsBack(t, assignments[i]) && DistinctHeadings(t, assignments)
    ensures AssignmentForHeader(t, t.heading(assignments[i]), assignments) == Some(assignments[i])
  {
    var a := assignments[i];
    var matches := TitleMatches(t, t.norm(a.title), assignments);
    MatchesAre(t, t.norm(a.title), assignments);
    WithMaximumIs(matches, Some(a.maxPoints));
    assert a in matches;
    var found := if |matches| == 1 then Some(matches[0]) else WithMaximum(matches, Some(a.maxPoints));
    if |matches| == 1 {
      assert matches[0] == a;
    } else {
      var j :| 0 <= j < |assignments| && assignments[j] == found.value;
      assert j == i || assignments[j] == a;
    }
  }

  /** A match is always one of the assignments. */
  lemma MatchIsAnAssignment(t: Texts, header: string, assignments: seq<Assignment>)
    ensures var found := AssignmentForHeader(t, header, assignments);
      found.Some? ==> found.value in assignments
  {
    var matches := TitleMatches(t, t.norm(t.titleOf(header)), assignments);
    MatchesAre(t, t.norm(t.titleOf(header)), assignments);
    WithMaximumIs(matches, t.maximumOf(header));
    assert |matches| == 1 ==> matches[0] in matches;
  }

  // ----- findGradebookAssignmentColumn -----

  /** `headers.findIndex(...)` from column `from`. */
  function FindHeader(t: Texts, id: string, assignments: seq<Assignment>, headers: seq<string>, from: nat): Option<nat>
    decreases |headers| - from
  {
    if from >= |headers| then None
    else
      var found := AssignmentForHeader(t, headers[from], assignments);
      if found.Some? && found.value.id == id then Some(from)
      else FindHeader(t, id, assignments, headers, from + 1)
  }

  function IndexOf(id: string, assignments: seq<Assignment>): int {
    if assignments == [] then -1
    else if assignments[0].id == id then 0
    else
      var rest := IndexOf(id, assignments[1..]);
      if rest < 0 then -1 else rest + 1
  }

  function FindColumn(t: Texts, a: Assignment, assignments: seq<Assignment>, headers: seq<string>): int {
    match FindHeader(t, a.id, assignments, headers, 0)
    case Some(column) => column
    case None => IndexOf(a.id, assignments) + 2
  }

  /** `header_cell` in the map given to the assistant. */
  function HeaderCell(t: Texts, a: Assignment, assignments: seq<Assignment>, headers: seq<string>): string {
    var column := FindColumn(t, a, assignments, headers);
    Label(if column < 0 then 0 else column + 1) + "1"
  }

  // ----- resolveGradebookCellTarget -----

  datatype Target =
    | Identity(address: string)
    | AssignmentHeader(address: string, assignment: Assignment)
    | GradeCell(address: string, assignment: Assignment, student: Student)
    | Custom(address: string)

  function ValueAt(values: seq<seq<string>>, row: int, column: int): string {
    if 0 <= row < |values| && 0 <= column < |values[row]| then values[row][column] else ""
  }

  function FindStudent(t: Texts, username: string, roster: seq<Student>): Option<Student> {
    if roster == [] then None
    else if t.lower(roster[0].username) == t.lower(username) then Some(roster[0])
    else FindStudent(t, username, roster[1..])
  }

  function StudentFor(t: Texts, username: string, roster: seq<Student>, row: int): Option<Student> {
    var named := FindStudent(t, username, roster);
    if named.Some? then named
    else if 0 <= row - 1 < |roster| then Some(roster[row - 1])
    else None
  }

  function Resolve(t: Texts, cell: string, roster: seq<Student>, assignments: seq<Assignment>,
                   values: seq<seq<string>>): Option<Target> {
    match ParseCellAddress(cell)
    case None => None
    case Some(at) =>
      var header := ValueAt(values, 0, at.column);
      var matched := AssignmentForHeader(t, header, assignments);
      var assignment :=
        if matched.None? && 0 <= at.column - 2 < |assignments| && t.blank(header)
        then Some(assignments[at.column - 2]) else matched;
      if at.column <= 1 then Some(Identity(at.address))
      else if assignment.None? then Some(Custom(at.address))
      else if at.row == 0 then Some(AssignmentHeader(at.address, assignment.value))
      else
        match StudentFor(t, t.trim(ValueAt(values, at.row, 1)), roster, at.row)
        case Some(student) => Some(GradeCell(at.address, assignment.value, student))
        case None => Some(Custom(at.address))
  }

  // ----- the cell map leads back -----

  function HeadingsOf(t: Texts, assignments: seq<Assignment>): (headings: seq<string>)
    ensures |headings| == |assignments|
  {
    seq(|assignments|, i requires 0 <= i < |assignments| => t.heading(assignments[i]))
  }

  /** The heading row of a rebuilt sheet: names, assignments, then the teacher's own columns. */
  function HeadingRow(t: Texts, assignments: seq<Assignment>, custom: seq<string>): seq<string> {
    ["Student", "Username"] + HeadingsOf(t, assignments) + custom
  }

  ghost predicate Unmatched(t: Texts, assignments: seq<Assignment>, headings: seq<string>) {
    forall i :: 0 <= i < |headings| ==> AssignmentForHeader(t, headings[i], assignments).None?
  }

  /** The fixed headings of the first two columns are not taken for this assignment. */
  ghost predicate NotAnIdentityHeading(t: Texts, a: Assignment, assignments: seq<Assignment>) {
    && AssignmentForHeader(t, "Student", assignments) != Some(a)
    && AssignmentForHeader(t, "Username", assignments) != Some(a)
  }

  lemma {:induction false} FindHeaderIs(t: Texts, id: string, assignments: seq<Assignment>, headers: seq<string>,
                                        from: nat, target: Option<nat>)
    requires target.Some? ==> from <= target.value < |headers|
    requires forall k :: from <= k < (if target.Some? then target.value else |headers|) ==>
               var found := AssignmentForHeader(t, headers[k], assignments);
               !(found.Some? && found.value.id == id)
    requires target.Some? ==>
               var found := AssignmentForHeader(t, headers[target.value], assignments);
               found.Some? && found.value.id == id
    ensures FindHeader(t, id, assignments, headers, from) == target
    decreases |headers| - from
  {
    if from < |headers| && target != Some(from) {
      FindHeaderIs(t, id, assignments, headers, from + 1, target);
    }
  }

  lemma {:induction false} IndexOfIs(assignments: seq<Assignment>, i: nat)
    requires i < |assignments| && DistinctIds(assignments)
    ensures IndexOf(assignments[i].id, assignments) == i
    decreases i
  {
    if i > 0 {
      IndexOfIs(assignments[1..], i - 1);
    }
  }

  /** On a rebuilt sheet, shown up to some column, an assignment is found where it stands. */
  lemma FoundWhereItStands(t: Texts, assignments: seq<Assignment>, custom: seq<string>, shown: nat, i: nat)
    requires Lawful(t) && DistinctIds(assignments) && DistinctHeadings(t, assignments)
    requires forall k :: 0 <= k < |assignments| ==> ReadsBack(t, assignments[k])
    requires Unmatched(t, assignments, custom)
    requires i < |assignments| && NotAnIdentityHeading(t, assignments[i], assignments)
    requires shown <= |HeadingRow(t, assignments, custom)|
    ensures FindColumn(t, assignments[i], assignments, HeadingRow(t, assignments, custom)[..shown]) == i + 2
  {
    var row := HeadingRow(t, assignments, custom);
    forall k | 0 <= k < |row| && k != i + 2
      ensures var found := AssignmentForHeader(t, row[k], assignments);
        !(found.Some? && found.value.id == assignments[i].id)
    {
      HeadingAtColumn(t, assignments, custom, k);
      OthersAreNot(t, assignments, i, k, row[k]);
    }
    HeadingAtColumn(t, assignments, custom, i + 2);
    FoundInRow(t, assignments, row, shown, i);
  }

  /** Found in a row where no other heading is read as the assignment. */
  lemma FoundInRow(t: Texts, assignments: seq<Assignment>, row: seq<string>, shown: nat, i: nat)
    requires DistinctIds(assignments) && DistinctHeadings(t, assignments)
    requires i < |assignments| && ReadsBack(t, assignments[i]) && shown <= |row|
    requires i + 2 < |row| && row[i + 2] == t.heading(assignments[i])
    requires forall k :: 0 <= k < |row| && k != i + 2 ==>
               var found := AssignmentForHeader(t, row[k], assignments);
               !(found.Some? && found.value.id == assignments[i].id)
    ensures FindColumn(t, assignments[i], assignments, row[..shown]) == i + 2
  {
    HeadingMatchesOwn(t, assignments, i);
    FindHeaderIs(t, assignments[i].id, assignments, row[..shown], 0, if i + 2 < shown then Some(i + 2) else None);
    IndexOfIs(assignments, i);
  }

  lemma HeadingAtColumn(t: Texts, assignments: seq<Assignment>, custom: seq<string>, k: nat)
    requires k < |HeadingRow(t, assignments, custom)|
    ensures HeadingRow(t, assignments, custom)[k]
         == if k == 0 then "Student" else if k == 1 then "Username"
            else if k < |assignments| + 2 then t.heading(assignments[k - 2])
            else custom[k - 2 - |assignments|]
  {
  }

  lemma OthersAreNot(t: Texts, assignments: seq<Assignment>, i: nat, k: nat, heading: string)
    requires DistinctIds(assignments) && DistinctHeadings(t, assignments)
    requires i < |assignments| && NotAnIdentityHeading(t, assignments[i], assignments) && k != i + 2
    requires k == 0 ==> heading == "Student"
    requires k == 1 ==> heading == "Username"
    requires 2 <= k < |assignments| + 2 ==>
               ReadsBack(t, assignments[k - 2]) && heading == t.heading(assignments[k - 2])
    requires k >= |assignments| + 2 ==> AssignmentForHeader(t, heading, assignments).None?
    ensures var found := AssignmentForHeader(t, heading, assignments);
      !(found.Some? && found.value.id == assignments[i].id)
  {
    if k < 2 {
      OnlyOneWithId(t, heading, assignments, i);
    } else if k < |assignments| + 2 {
      WrittenIsAnother(t, assignments, i, k - 2);
    }
  }

  /** The heading written for another assignment is not read as this one. */
  lemma WrittenIsAnother(t: Texts, assignments: seq<Assignment>, i: nat, m: nat)
    requires i < |assignments| && m < |assignments| && i != m
    requires DistinctIds(assignments) && DistinctHeadings(t, assignments) && ReadsBack(t, assignments[m])
    ensures var found := AssignmentForHeader(t, t.heading(assignments[m]), assignments);
      found.Some? && found.value.id != assignments[i].id
  {
    HeadingMatchesOwn(t, assignments, m);
    assert assignments[i].id != assignments[m].id by {
      var low, high := if i < m then i else m, if i < m then m else i;
      assert assignments[low].id != assignments[high].id;
    }
  }

  lemma OnlyOneWithId(t: Texts, header: string, assignments: seq<Assignment>, i: nat)
    requires i < |assignments| && DistinctIds(assignments)
    requires AssignmentForHeader(t, header, assignments) != Some(assignments[i])
    ensures var found := AssignmentForHeader(t, header, assignments);
      !(found.Some? && found.value.id == assignments[i].id)
  {
    var found := AssignmentForHeader(t, header, assignments);
    MatchIsAnAssignment(t, header, assignments);
    if found.Some? {
      var j :| 0 <= j < |assignments| && assignments[j] == found.value;
      assert j < i || i < j;
    }
  }

  /** What the premises of the next lemmas say of a rebuilt sheet shown up to some column. */
  ghost predicate Rebuilt(t: Texts, assignments: seq<Assignment>, custom: seq<string>, shown: nat) {
    && Lawful(t) && DistinctIds(assignments) && DistinctHeadings(t, assignments)
    && (forall k :: 0 <= k < |assignments| ==> ReadsBack(t, assignments[k]))
    && Unmatched(t, assignments, custom)
    && 2 <= shown <= |HeadingRow(t, assignments, custom)|
  }

  lemma {:induction false} IssuedWhereItStands(t: Texts, assignments: seq<Assignment>, custom: seq<string>, shown: nat, i: nat)
    requires Rebuilt(t, assignments, custom, shown)
    requires i < |assignments| && NotAnIdentityHeading(t, assignments[i], assignments)
    ensures var headers := HeadingRow(t, assignments, custom)[..shown];
      && HeaderCell(t, assignments[i], assignments, headers) == AddressOf(i + 2, 0)
      && (i + 2 < shown ==> AssignmentForHeader(t, headers[i + 2], assignments) == Some(assignments[i]))
  {
    FoundWhereItStands(t, assignments, custom, shown, i);
    assert Decimals.PrintNat(1) == "1";
    if i + 2 < shown {
      assert HeadingRow(t, assignments, custom)[..shown][i + 2] == t.heading(assignments[i]);
      HeadingMatchesOwn(t, assignments, i);
    }
  }

  lemma IssuedForIdentity(t: Texts, assignments: seq<Assignment>, custom: seq<string>, shown: nat, i: nat)
    requires Rebuilt(t, assignments, custom, shown)
    requires i < |assignments| && !NotAnIdentityHeading(t, assignments[i], assignments)
    ensures HeaderCell(t, assignments[i], assignments, HeadingRow(t, assignments, custom)[..shown])
         in {AddressOf(0, 0), AddressOf(1, 0)}
  {
    var a, headers := assignments[i], HeadingRow(t, assignments, custom)[..shown];
    assert headers[0] == "Student" && headers[1] == "Username";
    var column := if AssignmentForHeader(t, "Student", assignments) == Some(a) then 0 else 1;
    if column == 1 {
      OnlyOneWithId(t, "Student", assignments, i);
    }
    FindHeaderIs(t, a.id, assignments, headers, 0, Some(column));
    assert Decimals.PrintNat(1) == "1";
  }

  /** A heading cell resolves by what stands in it, or, if it is not shown, by its place. */
  lemma ResolvesInPlace(t: Texts, roster: seq<Student>, assignments: seq<Assignment>,
                        headers: seq<string>, more: seq<seq<string>>, i: nat)
    requires Lawful(t) && i < |assignments| && i + 2 < 18_278
    requires i + 2 < |headers| ==> AssignmentForHeader(t, headers[i + 2], assignments) == Some(assignments[i])
    ensures Resolve(t, AddressOf(i + 2, 0), roster, assignments, [headers] + more)
         == Some(AssignmentHeader(AddressOf(i + 2, 0), assignments[i]))
  {
    AddressReadsBackIff(i + 2, 0);
    assert ([headers] + more)[0] == headers;
    assert ValueAt([headers] + more, 0, i + 2) == if i + 2 < |headers| then headers[i + 2] else "";
  }

  lemma ResolvesToIdentity(t: Texts, roster: seq<Student>, assignments: seq<Assignment>,
                           values: seq<seq<string>>, column: nat)
    requires column <= 1
    ensures Resolve(t, AddressOf(column, 0), roster, assignments, values) == Some(Identity(AddressOf(column, 0)))
  {
    AddressReadsBackIff(column, 0);
  }

  /**
   Exactly when the address issued for an assignment's heading leads back to it: the
   heading stands within three-letter columns, and neither "Student" nor "Username" reads
   as that assignment's heading. `shown` is how many columns the assistant is given.
   */
  lemma HeaderCellLeadsBackIff(t: Texts, roster: seq<Student>, assignments: seq<Assignment>,
                               custom: seq<string>, shown: nat, more: seq<seq<string>>, i: nat)
    requires Rebuilt(t, assignments, custom, shown) && i < |assignments|
    ensures var headers := HeadingRow(t, assignments, custom)[..shown];
      var cell := HeaderCell(t, assignments[i], assignments, headers);
      Resolve(t, cell, roster, assignments, [headers] + more) == Some(AssignmentHeader(cell, assignments[i]))
      <==> NotAnIdentityHeading(t, assignments[i], assignments) && i + 2 < 18_278
  {
    var headers := HeadingRow(t, assignments, custom)[..shown];
    if NotAnIdentityHeading(t, assignments[i], assignments) {
      IssuedWhereItStands(t, assignments, custom, shown, i);
      if i + 2 < 18_278 {
        ResolvesInPlace(t, roster, assignments, headers, more, i);
      } else {
        AddressReadsBackIff(i + 2, 0);
      }
    } else {
      IssuedForIdentity(t, assignments, custom, shown, i);
      ResolvesToIdentity(t, roster, assignments, [headers] + more, 0);
      ResolvesToIdentity(t, roster, assignments, [headers] + more, 1);
    }
  }

  // ----- grades -----

  /** No two students have the same username, whatever its case. */
  ghost predicate DistinctUsernames(t: Texts, roster: seq<Student>) {
    forall i, j :: 0 <= i < j < |roster| ==> t.lower(roster[i].username) != t.lower(roster[j].username)
  }

  lemma {:induction false} FoundByUsername(t: Texts, username: string, roster: seq<Student>, i: nat)
    requires i < |roster| && DistinctUsernames(t, roster)
    requires t.lower(username) == t.lower(roster[i].username)
    ensures FindStudent(t, username, roster) == Some(roster[i])
    decreases i
  {
    if i > 0 {
      assert t.lower(roster[0].username) != t.lower(roster[i].username);
      FoundByUsername(t, username, roster[1..], i - 1);
    }
  }

  lemma {:induction false} NotFound(t: Texts, username: string, roster: seq<Student>)
    requires forall i :: 0 <= i < |roster| ==> t.lower(roster[i].username) != t.lower(username)
    ensures FindStudent(t, username, roster) == None
  {
    if roster != [] {
      assert forall i :: 0 <= i < |roster[1..]| ==> roster[1..][i] == roster[i + 1];
      NotFound(t, username, roster[1..]);
    }
  }

  /**
   A cell below an assignment's heading, or below where it would be, is that assignment's
   grade for the student whose username stands in its row, wherever the row has been moved;
   if it is nobody's, for the student who would be in that row, or else it is no grade.
   */
  lemma GradeCellLeadsBack(t: Texts, roster: seq<Student>, assignments: seq<Assignment>, custom: seq<string>,
                           shown: nat, more: seq<seq<string>>, j: nat, row: nat)
    requires Rebuilt(t, assignments, custom, shown) && DistinctUsernames(t, roster)
    requires j < |assignments| && j + 2 < 18_278 && 1 <= row < 9_999
    ensures var values, cell := [HeadingRow(t, assignments, custom)[..shown]] + more, AddressOf(j + 2, row);
      var username := t.trim(ValueAt(values, row, 1));
      var target := Resolve(t, cell, roster, assignments, values);
      && (forall i :: 0 <= i < |roster| && t.lower(roster[i].username) == t.lower(username) ==>
            target == Some(GradeCell(cell, assignments[j], roster[i])))
      && ((forall i :: 0 <= i < |roster| ==> t.lower(roster[i].username) != t.lower(username)) ==>
            target == Some(if row <= |roster| then GradeCell(cell, assignments[j], roster[row - 1]) else Custom(cell)))
  {
    var headers := HeadingRow(t, assignments, custom)[..shown];
    var values := [headers] + more;
    var username := t.trim(ValueAt(values, row, 1));
    AddressReadsBackIff(j + 2, row);
    if j + 2 < shown {
      assert headers[j + 2] == t.heading(assignments[j]);
      HeadingMatchesOwn(t, assignments, j);
    }
    assert values[0] == headers;
    forall i | 0 <= i < |roster| && t.lower(roster[i].username) == t.lower(username)
      ensures FindStudent(t, username, roster) == Some(roster[i])
    {
      FoundByUsername(t, username, roster, i);
    }
    if forall i :: 0 <= i < |roster| ==> t.lower(roster[i].username) != t.lower(username) {
      NotFound(t, username, roster);
    }
  }

  // ----- where a title misleads -----

  /** `formatAssignmentHeader`, for whole points. */
  function Written(a: Assignment): string {
    "\"" + a.title + "\"  -/" + Decimals.PrintInt(a.maxPoints)
  }

  function SampleHeading(title: string): string {
    "\"" + title + "\"  -/10"
  }

  /** Text functions that are right about one heading, `"title"  -/10`, and take others as titles. */
  function SampleTexts(title: string): Texts {
    var heading := SampleHeading(title);
    Texts(s => if s == heading then title else s,
          s => if s == heading then Some(10) else None,
          s => s, a => Written(a), s => s == "", s => s, s => s)
  }

  lemma WrittenSample(a: Assignment)
    requires a.maxPoints == 10
    ensures Written(a) == SampleHeading(a.title)
  {
    assert Decimals.PrintNat(1) == "1";
    assert Decimals.PrintNat(10) == Decimals.PrintNat(1) + "0";
  }

  /** The address issued for an assignment called Student is the one of the first column. */
  lemma TitleStudentGoesAstray(t: Texts, a: Assignment, headers: seq<string>)
    requires t == SampleTexts("Student") && a.title == "Student" && a.maxPoints == 10
    requires headers == HeadingRow(t, [a], [])
    ensures Rebuilt(t, [a], [], |headers|)
    ensures Resolve(t, HeaderCell(t, a, [a], headers), [], [a], [headers])
         != Some(AssignmentHeader(HeaderCell(t, a, [a], headers), a))
  {
    WrittenSample(a);
    assert TitleMatches(t, "Student", [a]) == [a] + TitleMatches(t, "Student", [a][1..]);
    assert AssignmentForHeader(t, "Student", [a]) == Some(a);
    assert headers[..|headers|] == headers && [headers] + [] == [headers];
    HeaderCellLeadsBackIff(t, [], [a], [], |headers|, [], 0);
  }
}
