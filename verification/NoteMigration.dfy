/** Folding the older Library notes into documents (`migrateNotes`). */
module NoteMigration {
  import opened Wrappers
  import NoteText

  /** A stored legacy note; the identifier may be missing or not a string. */
  datatype ForgeNote = ForgeNote(id: Option<string>, title: string, topic: string, body: string,
                                 createdAt: string)

  datatype StudioNote = StudioNote(id: string, title: string, topic: string, bodyHtml: string,
                                   createdAt: string, updatedAt: string)

  /** A slot of the stored list, which may hold `null`. */
  type Slot = Option<ForgeNote>

  /** Milliseconds of a stored date, as `new Date(text).getTime()` reads it; not every text is a date. */
  type Clock = string -> Option<int>

  function Time(n: StudioNote, clock: Clock): int {
    clock(n.updatedAt).GetOr(0)
  }

  /** Every date can be read. */
  ghost predicate Readable(notes: seq<StudioNote>, clock: Clock) {
    forall n <- notes :: clock(n.updatedAt).Some?
  }

  function Convert(id: string, n: ForgeNote): StudioNote {
    StudioNote(id, if n.title == "" then "Untitled note" else n.title, n.topic,
               NoteText.TextToHtml(n.body), n.createdAt, n.createdAt)
  }

  /** Whether the slot holds a note whose identifier is not yet taken. */
  predicate IsNew(s: Slot, existing: set<string>) {
    s.Some? && s.value.id.Some? && s.value.id.value !in existing
  }

  /** The notes still to be converted, in order, given the identifiers already there. */
  function Converted(notes: seq<Slot>, existing: set<string>): seq<StudioNote>
    decreases |notes|
  {
    if notes == [] then []
    else if IsNew(notes[0], existing) then
      var id := notes[0].value.id.value;
      [Convert(id, notes[0].value)] + Converted(notes[1..], existing + {id})
    else Converted(notes[1..], existing)
  }

  function Ids(notes: seq<StudioNote>): set<string> {
    set n | n in notes :: n.id
  }

  // ----- [...].sort((left, right) => time(right) - time(left)), a stable sort -----

  function Insert(n: StudioNote, sorted: seq<StudioNote>, clock: Clock): seq<StudioNote> {
    if sorted == [] || Time(n, clock) >= Time(sorted[0], clock) then [n] + sorted
    else [sorted[0]] + Insert(n, sorted[1..], clock)
  }

  function SortNewest(notes: seq<StudioNote>, clock: Clock): seq<StudioNote> {
    if notes == [] then [] else Insert(notes[0], SortNewest(notes[1..], clock), clock)
  }

  /** The engine's sort with that comparator. */
  type Sort = seq<StudioNote> -> seq<StudioNote>

  /**
   What the language says of it: it rearranges; and, stably, newest first, if every date
   can be read. A date that cannot compares with nothing, and then the order is the engine's.
   */
  ghost predicate IsSort(sort: Sort, clock: Clock) {
    forall notes ::
      && multiset(sort(notes)) == multiset(notes)
      && (Readable(notes, clock) ==> sort(notes) == SortNewest(notes, clock))
  }

  function Migrated(notes: seq<Slot>, studio: seq<StudioNote>, sort: Sort): seq<StudioNote> {
    sort(studio + Converted(notes, Ids(studio)))
  }

  method MigrateNotes(notes: seq<Slot>, studioNotes: seq<StudioNote>, sort: Sort)
    returns (result: seq<StudioNote>)
    ensures result == Migrated(notes, studioNotes, sort)
  {
    var existing := set n | n in studioNotes :: n.id;
    var converted: seq<StudioNote> := [];
    for i := 0 to |notes|
      invariant converted + Converted(notes[i..], existing) == Converted(notes, Ids(studioNotes))
    {
      assert notes[i..][0] == notes[i] && notes[i..][1..] == notes[i + 1..];
      var slot := notes[i];
      if slot.None? || slot.value.id.None? || slot.value.id.value in existing {
        continue;
      }
      var id := slot.value.id.value;
      existing := existing + {id};
      converted := converted + [Convert(id, slot.value)];
    }
    assert notes[|notes|..] == [] && converted + [] == converted;
    result := sort(studioNotes + converted);
  }

  // ----- sorting -----

  ghost predicate NewestFirst(notes: seq<StudioNote>, clock: Clock) {
    forall i, j :: 0 <= i < j < |notes| ==> Time(notes[i], clock) >= Time(notes[j], clock)
  }

  /** The notes of one moment, in order. */
  function Moment(notes: seq<StudioNote>, t: int, clock: Clock): seq<StudioNote> {
    if notes == [] then []
    else Now(notes[0], t, clock) + Moment(notes[1..], t, clock)
  }

  function Now(n: StudioNote, t: int, clock: Clock): seq<StudioNote> {
    if Time(n, clock) == t then [n] else []
  }

  lemma {:induction false} InsertPermutes(n: StudioNote, sorted: seq<StudioNote>, clock: Clock)
    ensures multiset(Insert(n, sorted, clock)) == multiset([n] + sorted)
  {
    if sorted != [] && Time(n, clock) < Time(sorted[0], clock) {
      InsertPermutes(n, sorted[1..], clock);
      assert sorted == [sorted[0]] + sorted[1..];
    }
  }

  lemma {:induction false} InsertNewest(n: StudioNote, sorted: seq<StudioNote>, clock: Clock)
    requires NewestFirst(sorted, clock)
    ensures NewestFirst(Insert(n, sorted, clock), clock)
    ensures Insert(n, sorted, clock)[0] == n || (sorted != [] && Insert(n, sorted, clock)[0] == sorted[0])
  {
    if sorted == [] {
    } else if Time(n, clock) >= Time(sorted[0], clock) {
      PutFirst(n, sorted, clock);
    } else {
      InsertNewest(n, sorted[1..], clock);
      PutFirst(sorted[0], Insert(n, sorted[1..], clock), clock);
    }
  }

  lemma PutFirst(n: StudioNote, sorted: seq<StudioNote>, clock: Clock)
    requires NewestFirst(sorted, clock)
    requires sorted != [] ==> Time(n, clock) >= Time(sorted[0], clock)
    ensures NewestFirst([n] + sorted, clock)
  {
  }

  lemma MomentFirst(n: StudioNote, rest: seq<StudioNote>, t: int, clock: Clock)
    ensures Moment([n] + rest, t, clock)
         == Now(n, t, clock) + Moment(rest, t, clock)
  {
    assert ([n] + rest)[1..] == rest;
  }

  lemma {:induction false} InsertIsStable(n: StudioNote, sorted: seq<StudioNote>, t: int, clock: Clock)
    ensures Moment(Insert(n, sorted, clock), t, clock) == Moment([n] + sorted, t, clock)
  {
    if sorted != [] && Time(n, clock) < Time(sorted[0], clock) {
      var first, rest := sorted[0], sorted[1..];
      InsertIsStable(n, rest, t, clock);
      assert sorted == [first] + rest;
      MomentFirst(first, Insert(n, rest, clock), t, clock);
      MomentFirst(n, rest, t, clock);
      MomentFirst(first, rest, t, clock);
      MomentFirst(n, sorted, t, clock);
      NotBothNow(n, first, Moment(rest, t, clock), t, clock);
    }
  }

  /** Of two notes of different moments at most one is of this one, so their order does not show. */
  lemma NotBothNow(n: StudioNote, m: StudioNote, rest: seq<StudioNote>, t: int, clock: Clock)
    requires Time(n, clock) != Time(m, clock)
    ensures Now(m, t, clock) + (Now(n, t, clock) + rest) == Now(n, t, clock) + (Now(m, t, clock) + rest)
  {
  }

  lemma {:induction false} SortNewestSorts(notes: seq<StudioNote>, clock: Clock)
    ensures NewestFirst(SortNewest(notes, clock), clock)
    ensures multiset(SortNewest(notes, clock)) == multiset(notes)
    ensures forall t :: Moment(SortNewest(notes, clock), t, clock) == Moment(notes, t, clock)
  {
    if notes != [] {
      var rest := SortNewest(notes[1..], clock);
      SortNewestSorts(notes[1..], clock);
      InsertPermutes(notes[0], rest, clock);
      InsertNewest(notes[0], rest, clock);
      assert notes == [notes[0]] + notes[1..];
      forall t ensures Moment(SortNewest(notes, clock), t, clock) == Moment(notes, t, clock) {
        InsertIsStable(notes[0], rest, t, clock);
        MomentFirst(notes[0], rest, t, clock);
      }
    }
  }

  lemma {:induction false} SortSorted(notes: seq<StudioNote>, clock: Clock)
    requires NewestFirst(notes, clock)
    ensures SortNewest(notes, clock) == notes
  {
    if notes != [] {
      SortSorted(notes[1..], clock);
      assert notes == [notes[0]] + notes[1..];
    }
  }

  /** There is such a sort. */
  lemma SortNewestIsSort(clock: Clock)
    ensures IsSort(notes => SortNewest(notes, clock), clock)
  {
    var sort := notes => SortNewest(notes, clock);
    forall notes ensures multiset(sort(notes)) == multiset(notes) {
      SortNewestSorts(notes, clock);
    }
  }

  // ----- what is added -----

  function LegacyIds(notes: seq<Slot>): set<string> {
    set s | s in notes && s.Some? && s.value.id.Some? :: s.value.id.value
  }

  lemma {:induction false} ConvertedIds(notes: seq<Slot>, existing: set<string>)
    ensures var added := Converted(notes, existing);
      && Ids(added) == LegacyIds(notes) - existing
      && (forall i, j :: 0 <= i < j < |added| ==> added[i].id != added[j].id)
    decreases |notes|
  {
    if notes != [] {
      var slot, rest := notes[0], notes[1..];
      assert notes == [slot] + rest;
      if IsNew(slot, existing) {
        var id := slot.value.id.value;
        var more := Converted(rest, existing + {id});
        ConvertedIds(rest, existing + {id});
        forall i | 0 <= i < |more| ensures more[i].id != id {
          assert more[i].id in Ids(more);
        }
        assert Ids([Convert(id, slot.value)] + more) == {id} + Ids(more);
        assert LegacyIds(notes) == {id} + LegacyIds(rest);
      } else {
        ConvertedIds(rest, existing);
        assert LegacyIds(notes) - existing == LegacyIds(rest) - existing;
      }
    }
  }

  /** Of several legacy notes with one identifier, the first is the one converted. */
  lemma {:induction false} FirstNoteWins(notes: seq<Slot>, existing: set<string>, i: nat)
    requires i < |notes| && IsNew(notes[i], existing)
    requires forall j :: 0 <= j < i && notes[j].Some? ==> notes[j].value.id != notes[i].value.id
    ensures Convert(notes[i].value.id.value, notes[i].value) in Converted(notes, existing)
    decreases i
  {
    if i > 0 {
      assert notes[0].Some? ==> notes[0].value.id != notes[i].value.id;
      var next := if IsNew(notes[0], existing) then existing + {notes[0].value.id.value} else existing;
      FirstNoteWins(notes[1..], next, i - 1);
    }
  }

  /** What the document made of a note says: the note's own words, topic and date. */
  ghost predicate Tells(document: StudioNote, note: ForgeNote) {
    && note.id == Some(document.id)
    && NoteText.HtmlToText(document.bodyHtml) == NoteText.NormalizeBreaks(note.body)
    && document.title == (if note.title == "" then "Untitled note" else note.title)
    && document.topic == note.topic
    && document.createdAt == note.createdAt && document.updatedAt == note.createdAt
  }

  /**
   Every legacy note that has an identifier is found after the migration under it: the
   document stored before, or else one that tells what the first such note says.
   */
  lemma NoNoteIsLost(notes: seq<Slot>, studio: seq<StudioNote>, sort: Sort, clock: Clock, i: nat)
    requires IsSort(sort, clock) && i < |notes| && notes[i].Some? && notes[i].value.id.Some?
    requires forall j :: 0 <= j < i && notes[j].Some? ==> notes[j].value.id != notes[i].value.id
    ensures exists document :: document in Migrated(notes, studio, sort) &&
              if notes[i].value.id.value in Ids(studio)
              then document in studio && document.id == notes[i].value.id.value
              else Tells(document, notes[i].value)
  {
    var note, all := notes[i].value, studio + Converted(notes, Ids(studio));
    assert multiset(sort(all)) == multiset(all);
    var document;
    if note.id.value in Ids(studio) {
      document :| document in studio && document.id == note.id.value;
    } else {
      document := Convert(note.id.value, note);
      FirstNoteWins(notes, Ids(studio), i);
      NoteText.TextSurvives(note.body);
    }
    assert document in all;
    assert document in multiset(sort(all));
  }

  lemma {:induction false} NothingNew(notes: seq<Slot>, existing: set<string>)
    requires LegacyIds(notes) <= existing
    ensures Converted(notes, existing) == []
    decreases |notes|
  {
    if notes != [] {
      assert notes[0] in notes;
      assert LegacyIds(notes[1..]) <= LegacyIds(notes);
      NothingNew(notes[1..], existing);
    }
  }

  lemma SameIds(a: seq<StudioNote>, b: seq<StudioNote>)
    requires multiset(a) == multiset(b)
    ensures Ids(a) == Ids(b)
  {
    assert forall n :: n in a <==> n in multiset(a);
    assert forall n :: n in b <==> n in multiset(b);
  }

  lemma IdsBoth(a: seq<StudioNote>, b: seq<StudioNote>)
    ensures Ids(a + b) == Ids(a) + Ids(b)
  {
  }

  /**
   Whatever the dates: the result holds every stored document and one document for each
   missing identifier, and nothing else.
   */
  lemma {:induction false} MigrationAddsEachOnce(notes: seq<Slot>, studio: seq<StudioNote>, sort: Sort, clock: Clock)
    requires IsSort(sort, clock)
    ensures var result, added := Migrated(notes, studio, sort), Converted(notes, Ids(studio));
      && multiset(result) == multiset(studio) + multiset(added)
      && Ids(added) == LegacyIds(notes) - Ids(studio)
      && (forall i, j :: 0 <= i < j < |added| ==> added[i].id != added[j].id)
  {
    var all := studio + Converted(notes, Ids(studio));
    assert multiset(sort(all)) == multiset(all);
    ConvertedIds(notes, Ids(studio));
  }

  /** If every date can be read, it is newest first, and keeps the given order within one moment. */
  lemma {:induction false} MigrationIsNewestFirst(notes: seq<Slot>, studio: seq<StudioNote>, sort: Sort, clock: Clock)
    requires IsSort(sort, clock) && Readable(studio + Converted(notes, Ids(studio)), clock)
    ensures var result, all := Migrated(notes, studio, sort), studio + Converted(notes, Ids(studio));
      && NewestFirst(result, clock)
      && forall t :: Moment(result, t, clock) == Moment(all, t, clock)
  {
    var all := studio + Converted(notes, Ids(studio));
    assert sort(all) == SortNewest(all, clock);
    SortNewestSorts(all, clock);
  }

  /** Migrating again adds nothing, whatever the dates. */
  lemma MigrationAddsNothingTwice(notes: seq<Slot>, studio: seq<StudioNote>, sort: Sort, clock: Clock)
    requires IsSort(sort, clock)
    ensures var once := Migrated(notes, studio, sort);
      Converted(notes, Ids(once)) == [] && Migrated(notes, once, sort) == sort(once)
  {
    var once, added := Migrated(notes, studio, sort), Converted(notes, Ids(studio));
    assert multiset(sort(studio + added)) == multiset(studio + added);
    MigrationAddsEachOnce(notes, studio, sort, clock);
    SameIds(once, studio + added);
    IdsBoth(studio, added);
    NothingNew(notes, Ids(once));
    assert once + [] == once;
  }

  /** And if every date can be read, it changes nothing at all. */
  lemma MigrationIsIdempotent(notes: seq<Slot>, studio: seq<StudioNote>, sort: Sort, clock: Clock)
    requires IsSort(sort, clock) && Readable(studio + Converted(notes, Ids(studio)), clock)
    ensures Migrated(notes, Migrated(notes, studio, sort), sort) == Migrated(notes, studio, sort)
  {
    var once, all := Migrated(notes, studio, sort), studio + Converted(notes, Ids(studio));
    MigrationAddsNothingTwice(notes, studio, sort, clock);
    MigrationIsNewestFirst(notes, studio, sort, clock);
    assert multiset(sort(all)) == multiset(all);
    SameReadable(once, all, clock);
    assert sort(once) == SortNewest(once, clock);
    SortSorted(once, clock);
  }

  lemma SameReadable(a: seq<StudioNote>, b: seq<StudioNote>, clock: Clock)
    requires multiset(a) == multiset(b) && Readable(b, clock)
    ensures Readable(a, clock)
  {
    forall n <- a ensures clock(n.updatedAt).Some? {
      assert n in multiset(a);
      assert n in b;
    }
  }
}
