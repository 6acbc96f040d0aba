/**
 The queue that runs session storage operations one after another, and what each of
 them does to the stored session (`createSessionOperationQueue` and its callers).
 */
module SessionQueue {
  import opened Wrappers

  type Host = string

  /** A token remembers which Host issued it, and to which account. */
  datatype Token = Token(text: string, host: Host, account: string)

  datatype User = User(account: string, profile: string)

  datatype Session = Session(host: Host, token: Token, user: User)

  /** A stored session, marked with the generation of the action that saved it. */
  datatype Saved = Saved(session: Session, generation: nat)

  datatype Operation = Save(saved: Saved) | Clear

  /** A save may fail, and then changes nothing; `saveSessionValue` reports which. */
  function Stored(storage: Option<Saved>, op: Operation, ok: bool): Option<Saved> {
    match op
    case Save(saved) => if ok then Some(saved) else storage
    case Clear => None
  }

  /** `x` may be what is stored once the operations in `pending` have run. */
  predicate Could(storage: Option<Saved>, pending: seq<Operation>, x: Saved)
    decreases |pending|
  {
    if pending == [] then storage == Some(x)
    else
      match pending[0]
      case Clear => Could(None, pending[1..], x)
      case Save(saved) => Could(Some(saved), pending[1..], x) || Could(storage, pending[1..], x)
  }

  /** Running the next operation, with either result, adds no possibility. */
  lemma CouldAfterNext(storage: Option<Saved>, pending: seq<Operation>, ok: bool, x: Saved)
    requires pending != [] && Could(Stored(storage, pending[0], ok), pending[1..], x)
    ensures Could(storage, pending, x)
  {
  }

  lemma {:induction false} CouldAppend(storage: Option<Saved>, pending: seq<Operation>, op: Operation, x: Saved)
    ensures Could(storage, pending + [op], x) <==>
              op.Save? && (op.saved == x || Could(storage, pending, x))
    decreases |pending|
  {
    if pending == [] {
      assert pending + [op] == [op];
    } else {
      assert (pending + [op])[1..] == pending[1..] + [op];
      CouldAppend(None, pending[1..], op, x);
      CouldAppend(storage, pending[1..], op, x);
      if pending[0].Save? {
        CouldAppend(Some(pending[0].saved), pending[1..], op, x);
      }
    }
  }

  class Queue {
    /** The operations handed in, each with the one it waits for, and how each ended. */
    var operations: seq<Operation>
    var after: seq<Option<nat>>
    var outcome: seq<Option<bool>>
    var tail: Option<nat>
    var storage: Option<Saved>
    ghost var finished: nat

    /** Each operation waits for the one before it, and those that ended come first. */
    ghost predicate Valid()
      reads this
    {
      && |after| == |operations| == |outcome| && finished <= |operations|
      && tail == (if operations == [] then None else Some(|operations| - 1))
      && (forall i {:trigger after[i]} :: 0 <= i < |after| ==> after[i] == if i == 0 then None else Some(i - 1))
      && (forall i :: 0 <= i < |outcome| ==> (outcome[i].Some? <==> i < finished))
    }

    ghost function Results(): (results: seq<bool>)
      requires Valid()
      reads this
      ensures |results| == finished
    {
      seq(finished, i requires 0 <= i < finished && Valid() reads this => outcome[i].value)
    }

    constructor (initial: Option<Saved>)
      ensures Valid() && operations == [] && finished == 0 && storage == initial
    {
      operations, after, outcome, tail, storage, finished := [], [], [], None, initial, 0;
    }

    /** `tail.then(operation)`, and the result becomes the new tail. */
    method Enqueue(operation: Operation) returns (id: nat)
      requires Valid()
      modifies this
      ensures Valid() && id == |old(operations)|
      ensures operations == old(operations) + [operation]
      ensures storage == old(storage) && Results() == old(Results())
    {
      id := |operations|;
      operations := operations + [operation];
      after := after + [tail];
      outcome := outcome + [None];
      tail := Some(id);
    }

    /** An operation may run once the one it waits for has ended, well or badly. */
    predicate MayRun(i: nat)
      reads this
    {
      && i < |operations| && |after| == |operations| == |outcome|
      && outcome[i].None?
      && (after[i].Some? ==> after[i].value < |outcome| && outcome[after[i].value].Some?)
    }

    /** Only the oldest operation that has not ended may ever run: the queue is first in, first out. */
    lemma {:induction false} OnlyTheOldestMayRun(i: nat)
      requires Valid()
      ensures MayRun(i) <==> i == finished && i < |operations|
    {
      if i < |after| {
        assert after[i] == if i == 0 then None else Some(i - 1);
      }
    }

    method Run(i: nat, ok: bool)
      requires Valid() && MayRun(i)
      modifies this
      ensures Valid() && operations == old(operations)
      ensures i == |old(Results())| && Results() == old(Results()) + [ok]
      ensures storage == Stored(old(storage), operations[i], ok)
    {
      OnlyTheOldestMayRun(i);
      storage := Stored(storage, operations[i], ok);
      outcome := outcome[i := Some(ok)];
      finished := finished + 1;
    }

    /** The operation that may run. */
    method Next() returns (i: nat)
      requires Valid() && finished < |operations|
      ensures MayRun(i)
    {
      i := 0;
      while outcome[i].Some?
        invariant i <= finished
        decreases finished - i
      {
        i := i + 1;
      }
      OnlyTheOldestMayRun(i);
    }

    method Outcome(i: nat) returns (ok: Option<bool>)
      requires Valid() && i < |operations|
      ensures ok == if i < |Results()| then Some(Results()[i]) else None
    {
      ok := outcome[i];
    }
  }
}
