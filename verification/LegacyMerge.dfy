/**
 Moving app data from the previous identifier's directory into the current one
 (`migrate_legacy_app_data`), restartable after any single rename or removal.
 */
module LegacyMerge {
  import opened Wrappers

  type Name = string

  datatype Tree = File(content: string) | Dir(entries: Entries)

  type Entries = map<Name, Tree>

  // ----- where everything should end -----

  /** The destination-preferring merge of two entries with one name. */
  function Merge(d: Tree, s: Tree): Tree
    decreases s
  {
    if d.Dir? && s.Dir? then
      Dir(map n | n in d.entries.Keys + s.entries.Keys ::
            if n !in d.entries then s.entries[n]
            else if n !in s.entries then d.entries[n]
            else Merge(d.entries[n], s.entries[n]))
    else d
  }

  /** What stays behind of an entry whose name is taken: all of it, or what collides inside. */
  function Remaining(d: Tree, s: Tree): Option<Tree>
    decreases s
  {
    if d.Dir? && s.Dir? then
      var left := map n | n in s.entries && n in d.entries
                          && Remaining(d.entries[n], s.entries[n]).Some? ::
                    Remaining(d.entries[n], s.entries[n]).value;
      if left == map[] then None else Some(Dir(left))
    else Some(s)
  }

  // ----- moving -----

  /** How many more renames and removals happen before the power goes. */
  datatype Power = Unlimited | Only(operations: nat)

  predicate Gone(p: Power) {
    p == Only(0)
  }

  function Spend(p: Power): Power
    requires !Gone(p)
  {
    if p.Only? then Only(p.operations - 1) else p
  }

  /** Nothing is left to do for this name. */
  ghost predicate Settled(d: Tree, s: Tree, n: Name)
    requires d.Dir? && s.Dir?
  {
    n in s.entries ==>
      && n in d.entries
      && Merge(d.entries[n], s.entries[n]) == d.entries[n]
      && Remaining(d.entries[n], s.entries[n]) == Some(s.entries[n])
  }

  /** Two states of the pair of trees that will end the same way. */
  ghost predicate SameEnd(d: Tree, s: Tree, d': Tree, s': Tree) {
    && d'.Dir? && s'.Dir?
    && Merge(d', s') == Merge(d, s)
    && Remaining(d', s') == Remaining(d, s)
  }

  method MoveMissingEntries(source: Tree, destination: Tree, power: Power)
    returns (source': Tree, destination': Tree, power': Power)
    requires source.Dir? && destination.Dir?
    ensures SameEnd(destination, source, destination', source')
    ensures !Gone(power') ==>
              && destination' == Merge(destination, source)
              && source' == Remaining(destination, source).GetOr(Dir(map[]))
    ensures power == Unlimited ==> power' == Unlimited
    decreases source
  {
    source', destination', power' := source, destination, power;
    if Gone(power) {
      return;
    }
    // the listing, in whatever order it comes
    var pending := source.entries.Keys;
    while pending != {}
      invariant SameEnd(destination, source, destination', source')
      invariant !Gone(power') && (power == Unlimited ==> power' == Unlimited)
      invariant pending <= source.entries.Keys
      invariant forall n :: n in pending ==> n in source'.entries && source'.entries[n] == source.entries[n]
      invariant forall n :: n in source'.entries && n !in pending ==> Settled(destination', source', n)
    {
      var name :| name in pending;
      pending := pending - {name};
      var entry := source'.entries[name];
      if name in destination'.entries {
        var taken := destination'.entries[name];
        if entry.Dir? && taken.Dir? {
          var entry', taken';
          entry', taken', power' := MoveMissingEntries(entry, taken, power');
          ChangeInside(destination', source', name, taken', entry');
          destination' := Dir(destination'.entries[name := taken']);
          source' := Dir(source'.entries[name := entry']);
          if Gone(power') {
            return;
          }
          MovedInside(taken, entry, taken', entry');
          if entry'.entries == map[] {
            RemoveEmptied(destination', source', name);
            source' := Dir(source'.entries - {name});
            power' := Spend(power');
          }
        }
      } else {
        MoveEntry(destination', source', name);
        destination' := Dir(destination'.entries[name := entry]);
        source' := Dir(source'.entries - {name});
        power' := Spend(power');
      }
      if Gone(power') {
        return;
      }
    }
    AllSettled(destination', source');
  }

  // ----- single steps -----

  /** One rename into a free name. */
  lemma MoveEntry(d: Tree, s: Tree, n: Name)
    requires d.Dir? && s.Dir? && n in s.entries && n !in d.entries
    ensures SameEnd(d, s, Dir(d.entries[n := s.entries[n]]), Dir(s.entries - {n}))
  {
    var d', s' := Dir(d.entries[n := s.entries[n]]), Dir(s.entries - {n});
    assert Merge(d', s').entries == Merge(d, s).entries;
    SameRemaining(d, s, d', s');
  }

  /** Progress inside a directory both sides have. */
  lemma ChangeInside(d: Tree, s: Tree, n: Name, x: Tree, y: Tree)
    requires d.Dir? && s.Dir? && n in s.entries && n in d.entries
    requires d.entries[n].Dir? && s.entries[n].Dir?
    requires SameEnd(d.entries[n], s.entries[n], x, y)
    ensures SameEnd(d, s, Dir(d.entries[n := x]), Dir(s.entries[n := y]))
  {
    var d', s' := Dir(d.entries[n := x]), Dir(s.entries[n := y]);
    assert Merge(d', s').entries == Merge(d, s).entries;
    SameRemaining(d, s, d', s');
  }

  /** One removal of a directory that has been emptied. */
  lemma RemoveEmptied(d: Tree, s: Tree, n: Name)
    requires d.Dir? && s.Dir? && n in s.entries && n in d.entries
    requires d.entries[n].Dir? && s.entries[n] == Dir(map[])
    ensures SameEnd(d, s, d, Dir(s.entries - {n}))
  {
    var s' := Dir(s.entries - {n});
    EmptiedMerges(d.entries[n]);
    assert Merge(d, s').entries == Merge(d, s).entries;
    SameRemaining(d, s, d, s');
  }

  lemma EmptiedMerges(d: Tree)
    requires d.Dir?
    ensures Merge(d, Dir(map[])) == d && Remaining(d, Dir(map[])) == None
  {
    assert Merge(d, Dir(map[])).entries == d.entries;
  }

  function Left(d: Tree, s: Tree, n: Name): Option<Tree>
    requires d.Dir? && s.Dir?
  {
    if n in s.entries && n in d.entries then Remaining(d.entries[n], s.entries[n]) else None
  }

  lemma {:induction false} SameRemaining(d: Tree, s: Tree, d': Tree, s': Tree)
    requires d.Dir? && s.Dir? && d'.Dir? && s'.Dir?
    requires forall n :: Left(d', s', n) == Left(d, s, n)
    ensures Remaining(d', s') == Remaining(d, s)
  {
    var left := map n | n in s.entries && n in d.entries && Remaining(d.entries[n], s.entries[n]).Some? ::
      Remaining(d.entries[n], s.entries[n]).value;
    var left' := map n | n in s'.entries && n in d'.entries && Remaining(d'.entries[n], s'.entries[n]).Some? ::
      Remaining(d'.entries[n], s'.entries[n]).value;
    assert forall n :: n in left <==> Left(d, s, n).Some?;
    assert forall n :: n in left' <==> Left(d', s', n).Some?;
    assert forall n :: n in left ==> Some(left[n]) == Left(d, s, n);
    assert forall n :: n in left' ==> Some(left'[n]) == Left(d', s', n);
    assert left == left';
  }

  lemma MovedInside(d: Tree, s: Tree, d': Tree, s': Tree)
    requires SameEnd(d, s, d', s')
    requires d' == Merge(d, s) && s' == Remaining(d, s).GetOr(Dir(map[]))
    ensures Merge(d', s') == d'
    ensures s'.Dir? && s'.entries != map[] ==> Remaining(d', s') == Some(s')
  {
  }

  lemma AllSettled(d: Tree, s: Tree)
    requires d.Dir? && s.Dir? && forall n :: n in s.entries ==> Settled(d, s, n)
    ensures Merge(d, s) == d && Remaining(d, s).GetOr(Dir(map[])) == s
  {
    assert Merge(d, s).entries == d.entries;
    var left := map n | n in s.entries && n in d.entries && Remaining(d.entries[n], s.entries[n]).Some? ::
      Remaining(d.entries[n], s.entries[n]).value;
    assert left == s.entries;
  }

  // ----- the whole migration -----

  datatype Migrated = Finished | NotADirectory | PowerLost

  /** The two directories, either of which may be missing. */
  datatype Pair = Pair(legacy: Option<Tree>, current: Option<Tree>)

  /** Where the pair ends, however often it takes. */
  function End(p: Pair): Pair {
    if p.legacy.None? then p
    else if p.current.None? then Pair(None, p.legacy)
    else if p.legacy.value.Dir? && p.current.value.Dir? then
      Pair(Remaining(p.current.value, p.legacy.value), Some(Merge(p.current.value, p.legacy.value)))
    else p
  }

  // ----- no file is lost or doubled -----

  /** The file at a path inside a tree. */
  function FileAt(t: Option<Tree>, path: seq<Name>): Option<string>
    decreases |path|
  {
    match t
    case None => None
    case Some(File(content)) => if path == [] then Some(content) else None
    case Some(Dir(entries)) =>
      if path != [] && path[0] in entries then FileAt(Some(entries[path[0]]), path[1..]) else None
  }

  /** At this path the destination keeps its file; otherwise it gets the source's, unless that stays. */
  ghost predicate KeptOnce(d: Option<Tree>, s: Option<Tree>, d': Option<Tree>, s': Option<Tree>,
                           path: seq<Name>) {
    || (FileAt(d', path) == FileAt(d, path) && FileAt(s', path) == FileAt(s, path))
    || (FileAt(d, path) == None && FileAt(d', path) == FileAt(s, path) && FileAt(s', path) == None)
  }

  function EntryOf(t: Tree, n: Name): Option<Tree>
    requires t.Dir?
  {
    if n in t.entries then Some(t.entries[n]) else None
  }

  /** Looking inside directories, one name at a time. */
  lemma FileAtInside(d: Tree, s: Tree, path: seq<Name>)
    requires d.Dir? && s.Dir? && path != []
    ensures FileAt(Some(d), path) == FileAt(EntryOf(d, path[0]), path[1..])
    ensures FileAt(Some(s), path) == FileAt(EntryOf(s, path[0]), path[1..])
    ensures FileAt(Some(Merge(d, s)), path) == FileAt(EntryOf(Merge(d, s), path[0]), path[1..])
    ensures FileAt(Remaining(d, s), path) == FileAt(Left(d, s, path[0]), path[1..])
  {
    var left := map n | n in s.entries && n in d.entries && Remaining(d.entries[n], s.entries[n]).Some? ::
      Remaining(d.entries[n], s.entries[n]).value;
    assert Remaining(d, s) == if left == map[] then None else Some(Dir(left));
    assert path[0] in left <==> Left(d, s, path[0]).Some?;
    assert left != map[] ==> FileAt(Some(Dir(left)), path) == FileAt(EntryOf(Dir(left), path[0]), path[1..]);
    assert EntryOf(Dir(left), path[0]) == Left(d, s, path[0]);
  }

  lemma {:induction false} MergeKeepsFiles(d: Tree, s: Tree, path: seq<Name>)
    ensures KeptOnce(Some(d), Some(s), Some(Merge(d, s)), Remaining(d, s), path)
    decreases s
  {
    if d.Dir? && s.Dir? && path != [] {
      var n := path[0];
      FileAtInside(d, s, path);
      if n in d.entries && n in s.entries {
        MergeKeepsFiles(d.entries[n], s.entries[n], path[1..]);
      }
    }
  }

  /** Every file of both trees ends in exactly one of them, and the destination's stay put. */
  lemma EveryFileEndsOnce(p: Pair, path: seq<Name>)
    ensures KeptOnce(p.current, p.legacy, End(p).current, End(p).legacy, path)
    ensures multiset{FileAt(End(p).current, path), FileAt(End(p).legacy, path)}
         == multiset{FileAt(p.current, path), FileAt(p.legacy, path)}
  {
    if p.legacy.Some? && p.current.Some? && p.legacy.value.Dir? && p.current.value.Dir? {
      MergeKeepsFiles(p.current.value, p.legacy.value, path);
    }
  }

  /** Nor is one lost or doubled between interruptions: two pairs with one end hold the same files. */
  lemma SameEndSameFiles(p: Pair, q: Pair, path: seq<Name>)
    requires End(p) == End(q)
    ensures multiset{FileAt(p.current, path), FileAt(p.legacy, path)}
         == multiset{FileAt(q.current, path), FileAt(q.legacy, path)}
  {
    EveryFileEndsOnce(p, path);
    EveryFileEndsOnce(q, path);
  }

  /** Something in the tree takes the path: a file on the way down, or whatever is at its end. */
  predicate Blocks(t: Tree, path: seq<Name>)
    decreases |path|
  {
    t.File? || path == [] || (path[0] in t.entries && Blocks(t.entries[path[0]], path[1..]))
  }

  /** A file stays behind exactly when its path is taken. */
  lemma {:induction false} StaysBehindIff(d: Tree, s: Tree, path: seq<Name>)
    requires FileAt(Some(s), path).Some?
    ensures FileAt(Remaining(d, s), path).Some? <==> Blocks(d, path)
    decreases s
  {
    if d.Dir? && s.Dir? {
      var n := path[0];
      FileAtInside(d, s, path);
      if n in d.entries {
        StaysBehindIff(d.entries[n], s.entries[n], path[1..]);
      }
    }
  }

  /** Both are there, and not both are directories: the merge is refused. */
  predicate Mismatched(p: Pair) {
    p.legacy.Some? && p.current.Some? && !(p.legacy.value.Dir? && p.current.value.Dir?)
  }

  /**
   At this path, from the pair before to the pair after: the current file stays, and a
   legacy file is carried over exactly when nothing current is in its way.
   */
  ghost predicate CarriedOver(p: Pair, q: Pair, path: seq<Name>) {
    && (FileAt(p.current, path).Some? ==> FileAt(q.current, path) == FileAt(p.current, path))
    && (FileAt(p.legacy, path).None? ==> FileAt(q.current, path) == FileAt(p.current, path))
    && (FileAt(p.legacy, path).Some? ==>
          if p.current.Some? && Blocks(p.current.value, path) then
            FileAt(q.legacy, path) == FileAt(p.legacy, path) && FileAt(q.current, path) == FileAt(p.current, path)
          else
            FileAt(q.legacy, path) == None && FileAt(q.current, path) == FileAt(p.legacy, path))
  }

  /** A finished migration: every path is settled, and no empty legacy directory is left. */
  ghost predicate IsFinished(p: Pair, q: Pair) {
    && (forall path :: CarriedOver(p, q, path))
    && q.legacy != Some(Dir(map[]))
    && (p.current.None? ==> q == Pair(None, p.legacy))
    && (p.legacy.None? ==> q == p)
  }

  lemma EndIsFinished(p: Pair)
    requires !Mismatched(p)
    ensures IsFinished(p, End(p))
  {
    forall path ensures CarriedOver(p, End(p), path) {
      if p.legacy.Some? && p.current.Some? {
        var d, s := p.current.value, p.legacy.value;
        MergeKeepsFiles(d, s, path);
        if FileAt(p.legacy, path).Some? {
          StaysBehindIff(d, s, path);
        }
        if FileAt(p.current, path).Some? {
          TakenIsBlocked(d, path);
        }
      }
    }
    if p.legacy.Some? && p.current.Some? {
      RemainingIsNotEmpty(p.current.value, p.legacy.value);
    }
  }

  lemma {:induction false} TakenIsBlocked(d: Tree, path: seq<Name>)
    requires FileAt(Some(d), path).Some?
    ensures Blocks(d, path)
    decreases |path|
  {
    if d.Dir? {
      TakenIsBlocked(d.entries[path[0]], path[1..]);
    }
  }

  lemma RemainingIsNotEmpty(d: Tree, s: Tree)
    requires d.Dir? && s.Dir?
    ensures Remaining(d, s) != Some(Dir(map[]))
  {
  }

  // ----- the migration as it runs -----

  class AppData {
    var legacy: Option<Tree>
    var current: Option<Tree>

    constructor (legacy: Option<Tree>, current: Option<Tree>)
      ensures State() == Pair(legacy, current)
    {
      this.legacy, this.current := legacy, current;
    }

    function State(): Pair
      reads this
    {
      Pair(legacy, current)
    }

    /**
     Wherever the power goes, the pair is still one that ends as it would have; and unless
     it went, the pair is at its end.
     */
    method MigrateLegacyAppData(power: Power) returns (result: Migrated)
      modifies this
      ensures End(State()) == End(old(State()))
      ensures result != PowerLost ==> State() == End(old(State()))
      ensures result == NotADirectory ==> Mismatched(old(State())) && State() == old(State())
      ensures result == Finished ==> !Mismatched(old(State())) && IsFinished(old(State()), State())
      ensures power == Unlimited ==> result != PowerLost
    {
      if Gone(power) {
        return PowerLost;
      }
      if !Mismatched(State()) {
        EndIsFinished(State());
      }
      if legacy.None? {
        return Finished;
      }
      if current.None? {
        legacy, current := None, legacy;
        return Finished;
      }
      if !legacy.value.Dir? || !current.value.Dir? {
        return NotADirectory;
      }
      var source, destination, left := MoveMissingEntries(legacy.value, current.value, power);
      legacy, current := Some(source), Some(destination);
      if Gone(left) {
        return PowerLost;
      }
      if source.entries == map[] {
        legacy := None;
        EmptiedMerges(destination);
      }
      return Finished;
    }

    /** Started again after every interruption, the migration reaches the same end. */
    method MigrateUntilDone(interruptions: seq<Power>)
      modifies this
      ensures State() == End(old(State()))
      ensures if Mismatched(old(State())) then State() == old(State()) else IsFinished(old(State()), State())
    {
      if !Mismatched(State()) {
        EndIsFinished(State());
      }
      for i := 0 to |interruptions|
        invariant End(State()) == End(old(State()))
      {
        var _ := MigrateLegacyAppData(interruptions[i]);
      }
      var _ := MigrateLegacyAppData(Unlimited);
    }
  }
}
