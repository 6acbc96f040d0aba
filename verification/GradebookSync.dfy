/**
 Bringing the open gradebook up to date in place when the roster or the assignments
 change, and how it compares with rebuilding the sheet (`syncAuthoritativeRef`).
 */
module GradebookSync {
  import opened Wrappers
  import opened GradebookHeadings
  import opened GradebookSheet

  /** The open sheet, and how many students and assignments it was last written for. */
  datatype Sheet = Sheet(cells: Grid, roster: nat, assignments: nat)

  // ----- what one synchronisation leaves, place by place -----

  /** A cell once columns have been inserted after, or deleted from, the assignments. */
  function MovedCell(s: Sheet, assignments: nat, r: int, c: int): Option<Cell> {
    if c >= assignments + 2 then Lookup(s.cells, r, c - assignments + s.assignments)
    else if c >= s.assignments + 2 then None
    else Lookup(s.cells, r, c)
  }

  /** `clearContent`: the value and the formula go, the look stays. */
  function Cleared(cell: Option<Cell>): Option<Cell> {
    if cell.Some? then Some(cell.value.(value := Blank, formula := None)) else None
  }

  function RowsToClear(inputs: Inputs, s: Sheet): nat {
    if s.roster > |inputs.roster| then s.roster else |inputs.roster|
  }

  /** The score as the synchronisation writes it: a missing entry counts as an empty one. */
  function SyncedScore(k: Tools, inputs: Inputs, student: Student, a: Assignment): Value {
    var key := student.id + ":" + a.id;
    var value := if (student.id, a.id) !in inputs.submitted then "—"
                 else if key in inputs.scores then inputs.scores[key] else "";
    if value == "" then Blank else Entered(k, value)
  }

  function SyncedValue(k: Tools, inputs: Inputs, row: int, column: int): Value
    requires Owned(inputs, row, column)
  {
    if row == 0 then Heading(k, inputs, column)
    else if column == 0 then Text(inputs.roster[row - 1].name)
    else if column == 1 then Text(inputs.roster[row - 1].username)
    else SyncedScore(k, inputs, inputs.roster[row - 1], inputs.assignments[column - 2])
  }

  /** The look of a heading; assignment headings are wrapped too. */
  function Painted(style: Style, wrap: bool): Style {
    HEADING.(wrapped := style.wrapped || wrap)
  }

  /** What is written over a cell that the application owns. */
  function Overwritten(k: Tools, inputs: Inputs, row: int, column: int, was: Option<Cell>): Cell
    requires Owned(inputs, row, column)
  {
    Cell(SyncedValue(k, inputs, row, column), None,
         if row == 0 then Painted(StyleOf(was), column >= 2) else StyleOf(was))
  }

  function SyncedCell(k: Tools, inputs: Inputs, s: Sheet, r: int, c: int): Option<Cell> {
    var moved := MovedCell(s, |inputs.assignments|, r, c);
    if Owned(inputs, r, c) then Some(Overwritten(k, inputs, r, c, moved))
    else if 0 <= r <= RowsToClear(inputs, s) && 0 <= c < Width(inputs) then Cleared(moved)
    else moved
  }

  ghost predicate IsSynced(k: Tools, inputs: Inputs, s: Sheet, next: Sheet) {
    && next.roster == |inputs.roster| && next.assignments == |inputs.assignments|
    && forall r, c :: Lookup(next.cells, r, c) == SyncedCell(k, inputs, s, r, c)
  }

  /** After a synchronisation, too, each student's row shows the name, the username and the scores. */
  lemma SyncedRowShows(k: Tools, inputs: Inputs, s: Sheet, next: Sheet, i: nat)
    requires IsSynced(k, inputs, s, next) && i < |inputs.roster|
    ensures ValueOf(Lookup(next.cells, i + 1, 0)) == Text(inputs.roster[i].name)
    ensures ValueOf(Lookup(next.cells, i + 1, 1)) == Text(inputs.roster[i].username)
    ensures forall j :: 0 <= j < |inputs.assignments| ==>
              ShowsScore(k, inputs, inputs.roster[i], inputs.assignments[j], ValueOf(Lookup(next.cells, i + 1, j + 2)))
  {
    var row := i + 1;
    forall column | 0 <= column < Width(inputs)
      ensures ValueOf(Lookup(next.cells, row, column)) == SyncedValue(k, inputs, row, column)
    {
      assert Lookup(next.cells, row, column) == SyncedCell(k, inputs, s, row, column);
    }
  }

  /** The teacher types into a cell. */
  function Edited(s: Sheet, row: int, column: int, cell: Cell): Sheet {
    s.(cells := Put(s.cells, row, column, cell))
  }

  // ----- the sheet's own operations -----

  function Rightwards(p: At, at: int, count: nat): At {
    if p.column < at then p else At(p.row, p.column + count)
  }

  function Leftwards(p: At, at: int, count: nat): At {
    if p.column < at then p else At(p.row, p.column - count)
  }

  /** `insertColumnsBefore`: `count` empty columns, and what stood there moves right. */
  function WithColumns(g: Grid, at: int, count: nat): Grid {
    var places := set p | p in g.Keys :: Rightwards(p, at, count);
    map p | p in places :: g[Leftwards(p, at, count)]
  }

  /** `deleteColumns`: the columns `at` to `at + count - 1` go, and what follows moves left. */
  function WithoutColumns(g: Grid, at: int, count: nat): Grid {
    var places := set p | p in g.Keys && !(at <= p.column < at + count) :: Leftwards(p, at, count);
    map p | p in places :: g[Rightwards(p, at, count)]
  }

  lemma InsertedAt(g: Grid, at: int, count: nat, r: int, c: int)
    ensures Lookup(WithColumns(g, at, count), r, c) ==
      if c < at then Lookup(g, r, c) else if c < at + count then None else Lookup(g, r, c - count)
  {
    var from := Leftwards(At(r, c), at, count);
    if from in g && (c < at || c >= at + count) {
      assert Rightwards(from, at, count) == At(r, c);
    }
  }

  lemma DeletedAt(g: Grid, at: int, count: nat, r: int, c: int)
    ensures Lookup(WithoutColumns(g, at, count), r, c) == if c < at then Lookup(g, r, c) else Lookup(g, r, c + count)
  {
    var from := Rightwards(At(r, c), at, count);
    if from in g {
      assert Leftwards(from, at, count) == At(r, c);
    }
  }

  class OpenSheet {
    var cells: Grid
    var renderedRoster: nat
    var renderedAssignments: nat

    ghost function State(): Sheet
      reads this
    {
      Sheet(cells, renderedRoster, renderedAssignments)
    }

    constructor (rebuilt: Grid, inputs: Inputs)
      ensures State() == Sheet(rebuilt, |inputs.roster|, |inputs.assignments|)
    {
      cells := rebuilt;
      renderedRoster, renderedAssignments := |inputs.roster|, |inputs.assignments|;
    }

    method InsertColumnsBefore(at: int, count: nat)
      modifies this`cells
      ensures forall r, c {:trigger Lookup(cells, r, c)} :: Lookup(cells, r, c) ==
                if c < at then Lookup(old(cells), r, c)
                else if c < at + count then None else Lookup(old(cells), r, c - count)
    {
      ghost var before := cells;
      cells := WithColumns(cells, at, count);
      forall r, c {:trigger Lookup(cells, r, c)}
        ensures Lookup(cells, r, c) == if c < at then Lookup(before, r, c)
                                       else if c < at + count then None else Lookup(before, r, c - count)
      {
        InsertedAt(before, at, count, r, c);
      }
    }

    method DeleteColumns(at: int, count: nat)
      modifies this`cells
      ensures forall r, c {:trigger Lookup(cells, r, c)} :: Lookup(cells, r, c) ==
                if c < at then Lookup(old(cells), r, c) else Lookup(old(cells), r, c + count)
    {
      ghost var before := cells;
      cells := WithoutColumns(cells, at, count);
      forall r, c {:trigger Lookup(cells, r, c)}
        ensures Lookup(cells, r, c) == if c < at then Lookup(before, r, c) else Lookup(before, r, c + count)
      {
        DeletedAt(before, at, count, r, c);
      }
    }

    method ClearContent(rows: nat, columns: nat)
      modifies this`cells
      ensures forall r, c :: Lookup(cells, r, c) ==
                if 0 <= r < rows && 0 <= c < columns then Cleared(Lookup(old(cells), r, c))
                else Lookup(old(cells), r, c)
    {
      cells := map p | p in cells ::
        if 0 <= p.row < rows && 0 <= p.column < columns then Cleared(Some(cells[p])).value else cells[p];
    }

    method SetValue(row: int, column: int, value: Value)
      modifies this`cells
      ensures cells == Put(old(cells), row, column, Cell(value, None, StyleOf(Lookup(old(cells), row, column))))
    {
      cells := Put(cells, row, column, Cell(value, None, StyleOf(Lookup(cells, row, column))));
    }

    method SetHeading(column: int, value: string, wrap: bool)
      modifies this`cells
      ensures cells == Put(old(cells), 0, column,
                           Cell(Text(value), None, Painted(StyleOf(Lookup(old(cells), 0, column)), wrap)))
    {
      SetValue(0, column, Text(value));
      var cell := cells[At(0, column)];
      cells := Put(cells, 0, column, cell.(style := Painted(cell.style, wrap)));
    }

    method WriteHeadings(k: Tools, inputs: Inputs)
      modifies this`cells
      ensures forall r, c :: Lookup(cells, r, c) ==
                if r == 0 && 0 <= c < Width(inputs)
                then Some(Overwritten(k, inputs, r, c, Lookup(old(cells), r, c))) else Lookup(old(cells), r, c)
    {
      SetHeading(0, "Student", false);
      SetHeading(1, "Username", false);
      for column := 0 to |inputs.assignments|
        invariant forall r, c :: Lookup(cells, r, c) ==
                    if r == 0 && 0 <= c < column + 2
                    then Some(Overwritten(k, inputs, r, c, Lookup(old(cells), r, c))) else Lookup(old(cells), r, c)
      {
        SetHeading(column + 2, k.texts.heading(inputs.assignments[column]), true);
      }
    }

    method WriteStudent(k: Tools, inputs: Inputs, i: nat)
      requires i < |inputs.roster|
      modifies this`cells
      ensures forall r, c :: Lookup(cells, r, c) ==
                if r == i + 1 && 0 <= c < Width(inputs)
                then Some(Overwritten(k, inputs, r, c, Lookup(old(cells), r, c))) else Lookup(old(cells), r, c)
    {
      var student := inputs.roster[i];
      SetValue(i + 1, 0, Text(student.name));
      SetValue(i + 1, 1, Text(student.username));
      for column := 0 to |inputs.assignments|
        invariant forall r, c :: Lookup(cells, r, c) ==
                    if r == i + 1 && 0 <= c < column + 2
                    then Some(Overwritten(k, inputs, r, c, Lookup(old(cells), r, c))) else Lookup(old(cells), r, c)
      {
        SetValue(i + 1, column + 2, SyncedScore(k, inputs, student, inputs.assignments[column]));
      }
    }

    /** Inserts or deletes assignment columns and clears what was rendered before. */
    method MakeRoom(inputs: Inputs)
      modifies this`cells
      ensures forall r, c :: Lookup(cells, r, c) ==
                var moved := MovedCell(old(State()), |inputs.assignments|, r, c);
                if 0 <= r <= RowsToClear(inputs, old(State())) && 0 <= c < Width(inputs) then Cleared(moved) else moved
    {
      var next := |inputs.assignments|;
      if next > renderedAssignments {
        InsertColumnsBefore(renderedAssignments + 2, next - renderedAssignments);
      } else if next < renderedAssignments {
        DeleteColumns(next + 2, renderedAssignments - next);
      }
      assert forall r, c :: Lookup(cells, r, c) == MovedCell(old(State()), next, r, c);
      var rowsToClear := if renderedRoster > |inputs.roster| then renderedRoster else |inputs.roster|;
      ClearContent(rowsToClear + 1, next + 2);
    }

    method Sync(k: Tools, inputs: Inputs)
      modifies this
      ensures IsSynced(k, inputs, old(State()), State())
    {
      MakeRoom(inputs);
      ghost var base := cells;
      WriteHeadings(k, inputs);
      for i := 0 to |inputs.roster|
        invariant forall r, c :: Lookup(cells, r, c) ==
                    if Owned(inputs, r, c) && r <= i
                    then Some(Overwritten(k, inputs, r, c, Lookup(base, r, c))) else Lookup(base, r, c)
        invariant renderedRoster == old(renderedRoster) && renderedAssignments == old(renderedAssignments)
      {
        WriteStudent(k, inputs, i);
      }
      renderedRoster, renderedAssignments := |inputs.roster|, |inputs.assignments|;
    }
  }

  // ----- one synchronisation against a rebuild -----

  /** Nothing stands below the roster in the columns the application owns. */
  ghost predicate Tidy(s: Sheet) {
    forall r, c :: r > s.roster && 0 <= c < s.assignments + 2 ==> Empty(Lookup(s.cells, r, c))
  }

  predicate Empty(cell: Option<Cell>) {
    ValueOf(cell) == Blank && FormulaOf(cell) == None
  }

  /** Both show the same. */
  predicate Agree(a: Option<Cell>, b: Option<Cell>) {
    ValueOf(a) == ValueOf(b) && FormulaOf(a) == FormulaOf(b)
  }

  /** Both are painted alike, apart from wrapping. */
  predicate SameLook(a: Option<Cell>, b: Option<Cell>) {
    StyleOf(a).(wrapped := false) == StyleOf(b).(wrapped := false)
  }

  /**
   After a synchronisation a cell of the application's columns shows what a rebuild for the
   same inputs would write, whatever sheet the rebuild starts from, exactly when it is in a
   row rendered before or now, or nothing stood in the cell that the columns moved there.
   Headings look alike too.
   */
  lemma {:induction false} SyncAgreesIff(k: Tools, inputs: Inputs, s: Sheet, next: Sheet,
                                         previous: Grid, customs: seq<int>, rebuilt: Grid, row: nat, column: nat)
    requires IsSynced(k, inputs, s, next) && IsRebuild(k, inputs, previous, customs, rebuilt)
    requires column < Width(inputs)
    ensures Agree(Lookup(next.cells, row, column), Lookup(rebuilt, row, column))
       <==> row <= RowsToClear(inputs, s) || Empty(MovedCell(s, |inputs.assignments|, row, column))
    ensures row == 0 ==> SameLook(Lookup(next.cells, row, column), Lookup(rebuilt, row, column))
  {
    assert Lookup(next.cells, row, column) == SyncedCell(k, inputs, s, row, column);
    assert Lookup(rebuilt, row, column) == RebuiltAt(k, inputs, previous, customs, row, column);
  }

  /** With nothing below the roster before, all of the application's columns agree. */
  lemma {:induction false} SyncAgreesWithRebuild(k: Tools, inputs: Inputs, s: Sheet, next: Sheet,
                                                 previous: Grid, customs: seq<int>, rebuilt: Grid, row: nat, column: nat)
    requires IsSynced(k, inputs, s, next) && IsRebuild(k, inputs, previous, customs, rebuilt)
    requires column < Width(inputs) && Tidy(s)
    ensures Agree(Lookup(next.cells, row, column), Lookup(rebuilt, row, column))
  {
    SyncAgreesIff(k, inputs, s, next, previous, customs, rebuilt, row, column);
    assert row > s.roster && column < s.assignments + 2 ==> Empty(Lookup(s.cells, row, column));
  }

  /** What is typed below both rosters in such a column stays, and a rebuild would not have it. */
  lemma StrayTypingStays(k: Tools, inputs: Inputs, s: Sheet, cell: Cell, next: Sheet,
                         previous: Grid, customs: seq<int>, rebuilt: Grid, row: nat, column: nat)
    requires IsSynced(k, inputs, Edited(s, row, column, cell), next)
    requires IsRebuild(k, inputs, previous, customs, rebuilt)
    requires row > RowsToClear(inputs, s) && column < Width(inputs) && column < s.assignments + 2
    requires !Empty(Some(cell))
    ensures !Agree(Lookup(next.cells, row, column), Lookup(rebuilt, row, column))
  {
    SyncAgreesIff(k, inputs, Edited(s, row, column, cell), next, previous, customs, rebuilt, row, column);
  }

  // ----- over whole runs -----

  datatype Event = Arrived(inputs: Inputs) | Typed(row: int, column: int, cell: Cell)

  ghost predicate Steps(k: Tools, s: Sheet, e: Event, next: Sheet) {
    match e
    case Arrived(inputs) => IsSynced(k, inputs, s, next)
    case Typed(row, column, cell) => next == Edited(s, row, column, cell)
  }

  ghost predicate IsRun(k: Tools, states: seq<Sheet>, events: seq<Event>) {
    && |states| == |events| + 1
    && forall i :: 0 <= i < |events| ==> Steps(k, states[i], events[i], states[i + 1])
  }

  lemma RestOfRun(k: Tools, states: seq<Sheet>, events: seq<Event>)
    requires IsRun(k, states, events) && events != []
    ensures IsRun(k, states[1..], events[1..])
    ensures Steps(k, states[0], events[0], states[1])
  {
    forall i | 0 <= i < |events[1..]| ensures Steps(k, states[1..][i], events[1..][i], states[1..][i + 1]) {
      assert events[1..][i] == events[i + 1];
    }
  }

  /** The cell `offset` columns right of the assignments, by what the teacher typed there last. */
  function LastTyped(events: seq<Event>, assignments: nat, row: int, offset: nat, cell: Option<Cell>): Option<Cell> {
    if events == [] then cell
    else
      match events[0]
      case Arrived(inputs) => LastTyped(events[1..], |inputs.assignments|, row, offset, cell)
      case Typed(r, c, typed) =>
        var here := r == row && c == assignments + 2 + offset;
        LastTyped(events[1..], assignments, row, offset, if here then Some(typed) else cell)
  }

  /**
   Over any run of roster and assignment changes and of typing anywhere, the teacher's
   cells hold what was typed there last; no synchronisation ever touches them.
   */
  lemma {:induction false} TeacherCellsSurvive(k: Tools, states: seq<Sheet>, events: seq<Event>, row: int, offset: nat)
    requires IsRun(k, states, events)
    ensures var first, last := states[0], states[|events|];
      Lookup(last.cells, row, last.assignments + 2 + offset)
      == LastTyped(events, first.assignments, row, offset, Lookup(first.cells, row, first.assignments + 2 + offset))
    decreases |events|
  {
    if events != [] {
      var s, next := states[0], states[1];
      RestOfRun(k, states, events);
      TeacherCellsSurvive(k, states[1..], events[1..], row, offset);
      assert Lookup(next.cells, row, next.assignments + 2 + offset)
          == LastTyped([events[0]], s.assignments, row, offset, Lookup(s.cells, row, s.assignments + 2 + offset));
    }
  }

  lemma {:induction false} NothingTyped(events: seq<Event>, assignments: nat, row: int, offset: nat, cell: Option<Cell>)
    requires forall e :: e in events ==> e.Arrived?
    ensures LastTyped(events, assignments, row, offset, cell) == cell
    decreases |events|
  {
    if events != [] {
      assert events[0] in events;
      NothingTyped(events[1..], |events[0].inputs.assignments|, row, offset, cell);
    }
  }

  /** Nothing is typed below the roster in the application's columns, though cells there may be emptied. */
  predicate InPlace(s: Sheet, e: Event) {
    e.Typed? ==> !(e.row > s.roster && 0 <= e.column < s.assignments + 2) || Empty(Some(e.cell))
  }

  lemma StepKeepsTidy(k: Tools, s: Sheet, e: Event, next: Sheet)
    requires Tidy(s) && Steps(k, s, e, next) && InPlace(s, e)
    ensures Tidy(next)
  {
    forall r, c | r > next.roster && 0 <= c < next.assignments + 2 ensures Empty(Lookup(next.cells, r, c)) {
      if e.Arrived? {
        assert Lookup(next.cells, r, c) == SyncedCell(k, e.inputs, s, r, c);
      }
    }
  }

  lemma {:induction false} RunKeepsTidy(k: Tools, states: seq<Sheet>, events: seq<Event>, n: nat)
    requires IsRun(k, states, events) && Tidy(states[0]) && n <= |events|
    requires forall i :: 0 <= i < |events| ==> InPlace(states[i], events[i])
    ensures Tidy(states[n])
  {
    if n > 0 {
      RunKeepsTidy(k, states, events, n - 1);
      StepKeepsTidy(k, states[n - 1], events[n - 1], states[n]);
    }
  }

  lemma RebuiltIsTidy(k: Tools, inputs: Inputs, previous: Grid, customs: seq<int>, rebuilt: Grid)
    requires IsRebuild(k, inputs, previous, customs, rebuilt)
    ensures Tidy(Sheet(rebuilt, |inputs.roster|, |inputs.assignments|))
  {
    forall r, c | r > |inputs.roster| && 0 <= c < Width(inputs) ensures Empty(Lookup(rebuilt, r, c)) {
      assert Lookup(rebuilt, r, c) == RebuiltAt(k, inputs, previous, customs, r, c);
    }
  }

  /**
   From a freshly built sheet, after any run that ends in a synchronisation, all cells of
   the application's columns, however far down, show what a full rebuild would write.
   */
  lemma {:induction false} RunAgreesWithRebuild(k: Tools, first: Inputs, saved: Grid, kept: seq<int>, states: seq<Sheet>, events: seq<Event>,
                             inputs: Inputs, previous: Grid, customs: seq<int>, rebuilt: Grid, row: nat, column: nat)
    requires IsRun(k, states, events) && events != [] && events[|events| - 1] == Arrived(inputs)
    requires IsRebuild(k, first, saved, kept, states[0].cells)
    requires states[0].roster == |first.roster| && states[0].assignments == |first.assignments|
    requires forall i :: 0 <= i < |events| ==> InPlace(states[i], events[i])
    requires IsRebuild(k, inputs, previous, customs, rebuilt) && column < Width(inputs)
    ensures Agree(Lookup(states[|events|].cells, row, column), Lookup(rebuilt, row, column))
  {
    var n := |events| - 1;
    RebuiltIsTidy(k, first, saved, kept, states[0].cells);
    RunKeepsTidy(k, states, events, n);
    assert Steps(k, states[n], events[n], states[n + 1]);
    SyncAgreesWithRebuild(k, inputs, states[n], states[n + 1], previous, customs, rebuilt, row, column);
  }
}
