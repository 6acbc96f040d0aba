/**
 Replacing a secret on disk so that a crash never leaves half of it (`secure_store`), as
 built for systems other than Windows. A secret is three paths: itself, the backup and the
 temporary file.
 */
module SecretStore {
  import opened Wrappers

  type Byte = x: int | 0 <= x < 256
  type Bytes = seq<Byte>

  const MASTER_KEY_BYTES := 32

  datatype Slot = Slot(primary: Option<Bytes>, backup: Option<Bytes>, temporary: Option<Bytes>)

  const EMPTY := Slot(None, None, None)

  /** What becomes of one file operation; power is lost before it is done. */
  datatype Luck = Succeeds | Refused | PowerLoss

  /**
   What becomes of each file operation of a replacement, in order: each by itself may be
   refused or be where power is lost. Of a write that does not succeed, `written` bytes are
   put down. `undo` is the rename that follows a refused `intoPlace`.
   */
  datatype Mishap = Mishap(removeTemporary: Luck, create: Luck, write: Luck, removeOldBackup: Luck,
                           keepAsBackup: Luck, intoPlace: Luck, undo: Luck, removeBackup: Luck,
                           powerLossAtEnd: bool, written: nat)

  const SMOOTH := Mishap(Succeeds, Succeeds, Succeeds, Succeeds, Succeeds, Succeeds, Succeeds, Succeeds, false, 0)

  datatype Outcome = Done | Failed | Stopped

  function Partly(contents: Bytes, written: nat): Bytes {
    if written < |contents| then contents[..written] else contents
  }

  // ----- write_private_atomic -----

  /** The new contents, in the temporary file, take their place; the old ones, if any, are the backup. */
  function IntoPlace(s: Slot, contents: Bytes, m: Mishap): (Slot, Outcome) {
    match m.intoPlace
    case PowerLoss => (s, Stopped)
    case Refused =>
      if m.undo == PowerLoss then (s, Stopped)
      else (if m.undo == Succeeds && s.backup.Some? then s.(primary := s.backup, backup := None) else s, Failed)
    case Succeeds =>
      var placed := s.(primary := Some(contents), temporary := None);
      if m.removeBackup == PowerLoss then (placed, Stopped)
      else (if m.removeBackup == Refused then placed else placed.(backup := None),
            if m.powerLossAtEnd then Stopped else Done)
  }

  /** From the removal of the old backup, with the new contents in the temporary file. */
  function Swap(s: Slot, contents: Bytes, m: Mishap): (Slot, Outcome) {
    if m.removeOldBackup == PowerLoss then (s, Stopped)
    else
      var s4 := if m.removeOldBackup == Refused then s else s.(backup := None);
      if m.keepAsBackup == PowerLoss then (s4, Stopped)
      else if s4.primary.None? then IntoPlace(s4, contents, m)
      else if m.keepAsBackup == Refused then (s4, Failed)
      else IntoPlace(s4.(backup := s4.primary, primary := None), contents, m)
  }

  function Write(s: Slot, contents: Bytes, m: Mishap): (Slot, Outcome) {
    if m.removeTemporary == PowerLoss then (s, Stopped)
    else
      var s1 := if m.removeTemporary == Refused then s else s.(temporary := None);
      if m.create == PowerLoss then (s1, Stopped)
      else if m.create == Refused || s1.temporary.Some? then (s1, Failed)
      else
        match m.write
        case PowerLoss => (s1.(temporary := Some(Partly(contents, m.written))), Stopped)
        case Refused => (s1.(temporary := Some(Partly(contents, m.written))), Failed)
        case Succeeds => Swap(s1.(temporary := Some(contents)), contents, m)
  }

  /** `read_with_backup` */
  function Read(s: Slot): Option<Bytes> {
    if s.primary.Some? then s.primary else s.backup
  }

  // ----- load_or_create_key -----

  datatype KeyResult = Key(key: Bytes) | Invalid | NoKey(why: Outcome)

  function Written(w: (Slot, Outcome), key: Bytes): (Slot, KeyResult) {
    (w.0, if w.1 == Done then Key(key) else NoKey(w.1))
  }

  /** `random` is what the system's random generator would give. */
  function LoadOrCreateKey(s: Slot, random: Bytes, m: Mishap): (Slot, KeyResult) {
    match Read(s)
    case Some(bytes) =>
      if |bytes| != MASTER_KEY_BYTES then (s, Invalid)
      else if s.primary.None? then Written(Write(s, bytes, m), bytes)
      else (s, Key(bytes))
    case None => Written(Write(s, random, m), random)
  }

  // ----- the program's own form -----

  class SecretFile {
    var primary: Option<Bytes>
    var backup: Option<Bytes>
    var temporary: Option<Bytes>

    constructor ()
      ensures State() == EMPTY
    {
      primary, backup, temporary := None, None, None;
    }

    function State(): Slot
      reads this
    {
      Slot(primary, backup, temporary)
    }

    method WritePrivateAtomic(contents: Bytes, m: Mishap) returns (outcome: Outcome)
      modifies this
      ensures (State(), outcome) == Write(old(State()), contents, m)
    {
      if m.removeTemporary == PowerLoss { return Stopped; }
      if m.removeTemporary == Succeeds { temporary := None; }
      if m.create == PowerLoss { return Stopped; }
      if m.create == Refused || temporary.Some? { return Failed; }
      temporary := Some([]);
      if m.write != Succeeds {
        temporary := Some(Partly(contents, m.written));
        return if m.write == PowerLoss then Stopped else Failed;
      }
      temporary := Some(contents);

      if m.removeOldBackup == PowerLoss { return Stopped; }
      if m.removeOldBackup == Succeeds { backup := None; }
      if m.keepAsBackup == PowerLoss { return Stopped; }
      if primary.Some? {
        if m.keepAsBackup == Refused { return Failed; }
        primary, backup := None, primary;
      }
      if m.intoPlace == PowerLoss { return Stopped; }
      if m.intoPlace == Refused {
        if m.undo == PowerLoss { return Stopped; }
        if m.undo == Succeeds && backup.Some? {
          primary, backup := backup, None;
        }
        return Failed;
      }
      primary, temporary := temporary, None;
      if m.removeBackup == PowerLoss { return Stopped; }
      if m.removeBackup == Succeeds { backup := None; }
      return if m.powerLossAtEnd then Stopped else Done;
    }

    method ReadWithBackup() returns (value: Option<Bytes>)
      ensures value == Read(State())
    {
      value := primary;
      if value.None? {
        value := backup;
      }
    }

    method LoadOrCreate(random: Bytes, m: Mishap) returns (result: KeyResult)
      modifies this
      ensures (State(), result) == LoadOrCreateKey(old(State()), random, m)
    {
      var primaryWasPresent := primary.Some?;
      var stored := ReadWithBackup();
      match stored {
        case Some(bytes) =>
          if |bytes| != MASTER_KEY_BYTES {
            return Invalid;
          }
          if !primaryWasPresent {
            var outcome := WritePrivateAtomic(bytes, m);
            if outcome != Done {
              return NoKey(outcome);
            }
          }
          return Key(bytes);
        case None =>
          var outcome := WritePrivateAtomic(random, m);
          if outcome != Done {
            return NoKey(outcome);
          }
          return Key(random);
      }
    }
  }

  // ----- crash atomicity -----

  ghost predicate WholeOldOrNew(s: Slot, contents: Bytes, m: Mishap) {
    Read(Write(s, contents, m).0) in {Read(s), Some(contents)}
  }

  /**
   Exactly when replacing a secret is safe: whatever goes wrong, the next read gives the
   whole old or the whole new value, unless the only copy at the start was the backup.
   */
  lemma ReplaceIsAtomicIff(s: Slot, contents: Bytes)
    ensures (forall m :: WholeOldOrNew(s, contents, m)) <==> s.primary.Some? || s.backup.None?
  {
    if s.primary.None? && s.backup.Some? {
      assert Read(Write(s, contents, SMOOTH.(keepAsBackup := PowerLoss)).0) == None;
      assert !WholeOldOrNew(s, contents, SMOOTH.(keepAsBackup := PowerLoss));
    } else {
      forall m ensures WholeOldOrNew(s, contents, m) {
        ReplaceIsAtomic(s, contents, m);
      }
    }
  }

  lemma ReplaceIsAtomic(s: Slot, contents: Bytes, m: Mishap)
    requires s.primary.Some? || s.backup.None?
    ensures WholeOldOrNew(s, contents, m)
    ensures s.primary.Some? ==> Read(Write(s, contents, m).0).Some?
    ensures Write(s, contents, m).1 == Done ==> Write(s, contents, m).0.primary == Some(contents)
  {
  }

  /** A replacement that nothing disturbs is done; one that is refused anywhere leaves the old value. */
  lemma DoneOrUndone(s: Slot, contents: Bytes, m: Mishap)
    ensures m == SMOOTH ==> Write(s, contents, m) == (Slot(Some(contents), None, None), Done)
    ensures Write(s, contents, m).1 == Done ==> Read(Write(s, contents, m).0) == Some(contents)
    ensures Write(s, contents, m).1 == Failed && s.primary.Some? ==> Read(Write(s, contents, m).0) == s.primary
  {
  }

  /** A stored key of the wrong length is refused, and left as it is. */
  lemma WrongLengthIsRefused(s: Slot, random: Bytes, m: Mishap)
    requires |random| == MASTER_KEY_BYTES
    ensures LoadOrCreateKey(s, random, m).1 == Invalid <==> Read(s).Some? && !IsKey(Read(s))
    ensures LoadOrCreateKey(s, random, m).1 == Invalid ==> LoadOrCreateKey(s, random, m).0 == s
  {
  }

  ghost predicate IsKey(value: Option<Bytes>) {
    value.Some? && |value.value| == MASTER_KEY_BYTES
  }

  /**
   After a replacement that anything interrupted, the next uninterrupted start finds the
   whole old or new key and puts it back at its own path, with nothing left beside it.
   */
  lemma {:induction false} NextStartRestores(s: Slot, contents: Bytes, m: Mishap, random: Bytes)
    requires IsKey(s.primary) && |contents| == MASTER_KEY_BYTES
    ensures var broken := Write(s, contents, m).0;
      var (mended, result) := LoadOrCreateKey(broken, random, SMOOTH);
      && result.Key? && Some(result.key) in {s.primary, Some(contents)}
      && mended.primary == Some(result.key)
      && (broken.primary.None? ==> mended == Slot(Some(result.key), None, None))
  {
    ReplaceIsAtomic(s, contents, m);
  }

  /** A replacement, whatever interrupts it, and then a start. */
  datatype Update = Update(contents: Bytes, mishap: Mishap, random: Bytes)

  function AfterUpdates(s: Slot, updates: seq<Update>): Slot {
    if updates == [] then s
    else
      var u := updates[|updates| - 1];
      var before := AfterUpdates(s, updates[..|updates| - 1]);
      LoadOrCreateKey(Write(before, u.contents, u.mishap).0, u.random, SMOOTH).0
  }

  ghost predicate OneOf(value: Option<Bytes>, first: Option<Bytes>, updates: seq<Update>) {
    value == first || exists i :: 0 <= i < |updates| && value == Some(updates[i].contents)
  }

  /** Over any number of interrupted replacements the key is always one that was stored. */
  lemma {:induction false} KeyIsNeverTorn(s: Slot, updates: seq<Update>)
    requires IsKey(s.primary)
    requires forall i :: 0 <= i < |updates| ==> |updates[i].contents| == MASTER_KEY_BYTES
    ensures IsKey(AfterUpdates(s, updates).primary)
    ensures OneOf(AfterUpdates(s, updates).primary, s.primary, updates)
    decreases |updates|
  {
    if updates != [] {
      var front, u := updates[..|updates| - 1], updates[|updates| - 1];
      KeyIsNeverTorn(s, front);
      var before := AfterUpdates(s, front);
      NextStartRestores(before, u.contents, u.mishap, u.random);
      var after := AfterUpdates(s, updates).primary;
      if after == Some(u.contents) {
        assert after == Some(updates[|updates| - 1].contents);
      } else if before.primary != s.primary {
        var i :| 0 <= i < |front| && before.primary == Some(front[i].contents);
        assert after == Some(updates[i].contents);
      }
    }
  }

  /**
   The recovery itself is such an unsafe replacement: a crash in it can lose the only copy
   of the key, and the start after that invents a new one.
   */
  lemma {:induction false} InterruptedRecoveryLosesKey(key: Bytes, random: Bytes, newer: Bytes)
    requires |key| == MASTER_KEY_BYTES && |newer| == MASTER_KEY_BYTES && newer != key
    ensures var recovering := Slot(None, Some(key), None);
      var broken := LoadOrCreateKey(recovering, random, SMOOTH.(keepAsBackup := PowerLoss)).0;
      && Read(recovering) == Some(key)
      && Read(broken) == None
      && LoadOrCreateKey(broken, newer, SMOOTH) == (Slot(Some(newer), None, None), Key(newer))
  {
  }
}
