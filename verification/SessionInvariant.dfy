/** What every step of the student session keeps, in any order of steps. */
module SessionInvariant {
  import opened Wrappers
  import opened SessionQueue
  import opened StudentSession

  // ----- the invariant of all runs -----

  predicate Current(s: State, t: Task) {
    && (t.RefreshAsking? || t.RefreshSaving? || t.LoginAsking? || t.LoginSaving? || t.PasswordAsking? || t.PasswordSaving?)
    && t.generation == s.generation
  }

  predicate SigningIn(s: State, t: Task) {
    (t.LoginAsking? || t.LoginSaving?) && t.generation == s.generation
  }

  predicate SavingNow(s: State, t: Task) {
    t.LoginSaving? && SigningIn(s, t)
  }

  predicate Refreshing(t: Task) {
    t.RefreshAsking? || t.RefreshSaving?
  }

  /** Operations of the log that have not run. */
  function Pending(s: State): seq<Operation>
    requires |s.results| <= |s.log|
  {
    s.log[|s.results|..]
  }

  ghost predicate NothingStored(storage: Option<Saved>, pending: seq<Operation>) {
    forall x :: !Could(storage, pending, x)
  }

  /** Numbers are in range; no task is from a later generation. */
  predicate InRange(s: State, t: Task) {
    match t
    case RefreshAsking(g, api, _, _, _, _) => g <= s.generation && api < |s.apis|
    case RefreshSaving(g, op, _) => g <= s.generation && op < |s.log|
    case RefreshClearing(op) => op < |s.log|
    case LoginAsking(g, api, host) => g <= s.generation && api < |s.apis| && s.apis[api].host == host
    case LoginSaving(g, api, op, _) => g <= s.generation && api < |s.apis| && op < |s.log|
    case SwitchClearing(op) => op < |s.log|
    case HostProbing(api, _, _) => api < |s.apis|
    case HostClearing(op, _) => op < |s.log|
    case PasswordAsking(g, _, _, _) => g <= s.generation
    case PasswordSaving(g, op, _) => g <= s.generation && op < |s.log|
    case Ended => true
  }

  predicate Shape(s: State) {
    && s.api < |s.apis| && |s.results| <= |s.log|
    && s.apis[s.api].host == s.baseUrl
    && forall i :: 0 <= i < |s.tasks| ==> InRange(s, s.tasks[i])
  }

  /** A token and its account come and go together, and the connection has no other token. */
  predicate Account(s: State) {
    && (s.user.Some? <==> s.token.Some?)
    && (s.token.Some? ==> s.user.value.account == s.token.value.account)
    && (s.token.Some? && s.ApiToken().Some? ==> s.ApiToken() == s.token)
  }

  /** What a task of the current generation may rely on. */
  predicate Grounded(s: State, t: Task) {
    Current(s, t) ==>
      match t
      case RefreshAsking(_, _, _, token, _, caller) => s.token == Some(token) && (caller.Some? ==> caller == s.token)
      case RefreshSaving(_, _, current) => s.token.Some? && current.account == s.token.value.account
      case LoginAsking(_, api, _) => s.token.None? && (api == s.api || s.ApiToken().None?)
      case LoginSaving(_, api, _, session) =>
        && s.token.None? && (api == s.api || s.ApiToken().None?)
        && session.user.account == session.token.account
      case PasswordAsking(_, _, held, caller) => s.token.Some? && held == s.token && (caller.Some? ==> caller == s.token)
      case PasswordSaving(_, _, updated) => s.token.Some? && updated.account == s.token.value.account
      case _ => true
  }

  ghost predicate Tasks(s: State) {
    && (forall i :: 0 <= i < |s.tasks| ==> Grounded(s, s.tasks[i]))
    && (forall i, j :: Apart(s, i, j))
  }

  /** Two tasks are not both signing in now, nor refreshes of one generation. */
  predicate Apart(s: State, i: int, j: int) {
    0 <= i < j < |s.tasks| ==>
      && !(SigningIn(s, s.tasks[i]) && SigningIn(s, s.tasks[j]))
      && (Refreshing(s.tasks[i]) && Refreshing(s.tasks[j]) ==> s.tasks[i].generation != s.tasks[j].generation)
  }

  /** The refresh of the current generation is the one in flight. */
  predicate Flights(s: State) {
    forall i :: 0 <= i < |s.tasks| && Refreshing(s.tasks[i]) && s.tasks[i].generation == s.generation ==>
      s.inFlight == Some(Flight(s.generation, i))
  }

  /** A sign-in that is being saved put the last operation on the log, over nothing stored. */
  ghost predicate SavingOverNothing(s: State, t: Task)
    requires Shape(s)
  {
    t.LoginSaving? && SigningIn(s, t) && t.op < |s.log| ==>
      var saved := Saved(t.session, t.generation);
      && t.op == |s.log| - 1 && s.log[t.op] == Save(saved)
      && (if t.op < |s.results| then s.storage == (if s.results[t.op] then Some(saved) else None)
          else NothingStored(s.storage, s.log[|s.results|..t.op]))
  }

  ghost predicate Storage(s: State)
    requires Shape(s)
  {
    && (forall i :: 0 <= i < |s.tasks| ==> SavingOverNothing(s, s.tasks[i]))
    && (s.token.Some? ==> forall x :: Could(s.storage, Pending(s), x) ==>
          && x.generation == s.generation && x.session.token == s.token.value
          && x.session.user.account == s.token.value.account)
    && (s.token.None? && NoneSaving(s) ==> NothingStored(s.storage, Pending(s)))
  }

  /** No sign-in of the current generation is being saved. */
  predicate NoneSaving(s: State) {
    forall i :: 0 <= i < |s.tasks| ==> !SavingNow(s, s.tasks[i])
  }

  ghost predicate Core(s: State) {
    Shape(s) && Account(s) && Tasks(s) && Flights(s)
  }

  ghost predicate Inv(s: State) {
    Core(s) && Storage(s)
  }

  /** A task does no more signing in and refreshing than it did. */
  predicate Calmer(s: State, t: Task, next: State, later: Task) {
    && (SigningIn(next, later) ==> SigningIn(s, t))
    && (Refreshing(later) ==> Refreshing(t) && later.generation == t.generation)
  }

  lemma PairsStay(s: State, next: State)
    requires Tasks(s) && |s.tasks| <= |next.tasks|
    requires forall i :: 0 <= i < |s.tasks| ==> Calmer(s, s.tasks[i], next, next.tasks[i])
    requires forall i :: |s.tasks| <= i < |next.tasks| ==>
               !SigningIn(next, next.tasks[i]) && !Refreshing(next.tasks[i])
    ensures forall i, j :: Apart(next, i, j)
  {
    forall i, j ensures Apart(next, i, j) {
      assert Apart(s, i, j);
    }
  }

  // ----- a step that only lets tasks end, wait or begin -----

  /** A task that no longer depends on the generation. */
  predicate Settled(t: Task) {
    t.RefreshClearing? || t.SwitchClearing? || t.HostProbing? || t.HostClearing? || t.Ended?
  }

  predicate SettlesOrStays(s: State, t: Task, later: Task) {
    later == t || (!SavingNow(s, t) && Settled(later) && InRange(s, later))
  }

  predicate BeginsQuietly(s: State, t: Task) {
    InRange(s, t) && Grounded(s, t) && (Settled(t) || t.PasswordAsking?)
  }

  /** Nothing changes but which account is shown, the two flags, and how far tasks are. */
  predicate Quiet(s: State, next: State) {
    && next == s.(user := next.user, online := next.online, loading := next.loading,
                  inFlight := next.inFlight, tasks := next.tasks)
    && |s.tasks| <= |next.tasks|
    && (forall i :: 0 <= i < |s.tasks| ==> SettlesOrStays(s, s.tasks[i], next.tasks[i]))
    && (forall i :: |s.tasks| <= i < |next.tasks| ==> BeginsQuietly(s, next.tasks[i]))
  }

  lemma QuietShape(s: State, next: State)
    requires Shape(s) && Quiet(s, next)
    ensures Shape(next)
  {
    forall i | 0 <= i < |next.tasks| ensures InRange(next, next.tasks[i]) {
      assert i < |s.tasks| ==> InRange(s, s.tasks[i]) && SettlesOrStays(s, s.tasks[i], next.tasks[i]);
    }
  }

  lemma QuietTasks(s: State, next: State)
    requires Tasks(s) && Quiet(s, next)
    ensures Tasks(next)
  {
    forall i | 0 <= i < |next.tasks| ensures Grounded(next, next.tasks[i]) {
      assert i < |s.tasks| ==> Grounded(s, s.tasks[i]) && SettlesOrStays(s, s.tasks[i], next.tasks[i]);
    }
    PairsStay(s, next);
  }

  lemma QuietStorage(s: State, next: State)
    requires Shape(s) && Storage(s) && Quiet(s, next) && Shape(next)
    ensures Storage(next)
  {
    forall i | 0 <= i < |next.tasks| ensures SavingOverNothing(next, next.tasks[i]) {
      assert i < |s.tasks| ==> SavingOverNothing(s, s.tasks[i]) && SettlesOrStays(s, s.tasks[i], next.tasks[i]);
    }
    if s.token.None? && NoneSaving(next) {
      forall i | 0 <= i < |s.tasks| ensures !SavingNow(s, s.tasks[i]) {
        assert SettlesOrStays(s, s.tasks[i], next.tasks[i]) && !SavingNow(next, next.tasks[i]);
      }
    }
  }

  lemma QuietStep(s: State, next: State)
    requires Inv(s) && Quiet(s, next) && Account(next) && Flights(next)
    ensures Inv(next)
  {
    QuietShape(s, next);
    QuietTasks(s, next);
    QuietStorage(s, next);
  }

  lemma QuietFlights(s: State, next: State)
    requires Flights(s) && Quiet(s, next) && next.inFlight == s.inFlight
    ensures Flights(next)
  {
    forall i | 0 <= i < |next.tasks| && Refreshing(next.tasks[i]) && next.tasks[i].generation == next.generation
      ensures next.inFlight == Some(Flight(next.generation, i))
    {
      assert i < |s.tasks| ==> SettlesOrStays(s, s.tasks[i], next.tasks[i]);
    }
  }

  /** A task that ends, or goes on to wait, without leaving a sign-in being saved behind. */
  lemma TaskSettles(s: State, id: nat, t: Task)
    requires Inv(s) && id < |s.tasks| && !SavingNow(s, s.tasks[id]) && Settled(t) && InRange(s, t)
    ensures Inv(s.Become(id, t))
  {
    var next := s.Become(id, t);
    QuietFlights(s, next);
    QuietStep(s, next);
  }

  lemma TaskBegins(s: State, t: Task)
    requires Inv(s) && BeginsQuietly(s, t)
    ensures Inv(s.Begin(t))
  {
    var next := s.Begin(t);
    QuietFlights(s, next);
    QuietStep(s, next);
  }

  lemma RefreshEnds(s: State, id: nat)
    requires Inv(s) && id < |s.tasks| && !SavingNow(s, s.tasks[id])
    ensures Inv(s.EndRefresh(id))
  {
    EndedFlights(s, id);
    QuietStep(s, s.EndRefresh(id));
  }

  lemma EndedFlights(s: State, id: nat)
    requires Flights(s) && id < |s.tasks|
    ensures Flights(s.EndRefresh(id))
  {
    var next := s.EndRefresh(id);
    assert forall i :: 0 <= i < |s.tasks| && i != id ==> next.tasks[i] == s.tasks[i];
  }

  /** The account shown and the flags may change where no task is touched. */
  lemma Shown(s: State, user: Option<User>, online: bool, loading: bool)
    requires Inv(s) && Account(s.(user := user))
    ensures Inv(s.(user := user, online := online, loading := loading))
  {
    var next := s.(user := user, online := online, loading := loading);
    QuietFlights(s, next);
    QuietStep(s, next);
  }

  // ----- starting a refresh -----

  lemma {:induction false} RefreshStarts(s: State)
    requires Inv(s)
    ensures Inv(s.StartRefresh())
  {
    var next := s.StartRefresh();
    if next != s {
      NewFlight(s);
      NewFlightStorage(s);
    }
  }

  lemma NewFlight(s: State)
    requires Core(s) && s.token.Some? && s.user.Some?
    requires s.inFlight.Some? ==> s.inFlight.value.generation != s.generation
    ensures Core(s.StartRefresh())
  {
    var next := s.StartRefresh();
    forall i | 0 <= i < |s.tasks| ensures Refreshing(s.tasks[i]) ==> s.tasks[i].generation != s.generation {
    }
    forall i, j ensures Apart(next, i, j) {
      assert Apart(s, i, j);
    }
  }

  lemma NewFlightStorage(s: State)
    requires Core(s) && Storage(s) && s.token.Some? && Shape(s.StartRefresh())
    ensures Storage(s.StartRefresh())
  {
  }

  // ----- signing out, and starting to sign in -----

  lemma AfterClear(storage: Option<Saved>, pending: seq<Operation>)
    ensures NothingStored(storage, pending + [Clear])
  {
    forall x ensures !Could(storage, pending + [Clear], x) {
      CouldAppend(storage, pending, Clear, x);
    }
  }

  lemma NoneCurrent(s: State, next: State)
    requires Shape(s) && next.generation == s.generation + 1 && next.tasks == s.tasks
    ensures forall i :: 0 <= i < |s.tasks| ==> !Current(next, s.tasks[i])
  {
    forall i | 0 <= i < |s.tasks| ensures !Current(next, s.tasks[i]) {
      assert InRange(s, s.tasks[i]);
    }
  }

  lemma SignedOutCore(s: State, connection: nat)
    requires Core(s)
    ensures Core(s.SignOut(connection))
  {
    var next := s.SignOut(connection);
    NoneCurrent(s, next);
    forall i | 0 <= i < |s.tasks| ensures InRange(next, s.tasks[i]) {
      assert InRange(s, s.tasks[i]);
    }
    forall i, j ensures Apart(next, i, j) {
      assert Apart(s, i, j);
    }
  }

  /** Signing out leaves nothing that could be stored in the end. */
  lemma SigningOut(s: State, connection: nat)
    requires Inv(s)
    ensures Inv(s.SignOut(connection))
  {
    var next := s.SignOut(connection);
    SignedOutCore(s, connection);
    NoneCurrent(s, next);
    assert Pending(next) == Pending(s) + [Clear];
    AfterClear(s.storage, Pending(s));
  }

  lemma LoginCore(s: State)
    requires Core(s) && s.CanSignIn()
    ensures Core(s.StartLogin())
  {
    var next := s.StartLogin();
    forall i | 0 <= i < |s.tasks| ensures !Current(next, s.tasks[i]) && InRange(next, s.tasks[i]) {
      assert InRange(s, s.tasks[i]);
    }
    forall i, j ensures Apart(next, i, j) {
      assert Apart(s, i, j);
    }
  }

  lemma LoginStarts(s: State)
    requires Inv(s) && s.CanSignIn()
    ensures Inv(s.StartLogin())
  {
    var next := s.StartLogin();
    LoginCore(s);
    forall i | 0 <= i < |next.tasks| ensures !SavingNow(next, next.tasks[i]) {
      assert i < |s.tasks| ==> InRange(s, s.tasks[i]);
    }
    forall i | 0 <= i < |s.tasks| ensures !SavingNow(s, s.tasks[i]) {
      assert s.tasks[i] in s.tasks;
    }
  }

  // ----- saving the account once more -----

  /** What may be stored after one more save by the signed-in account is that account's. */
  lemma SavedMoreStorage(s: State, next: State, saved: Saved)
    requires Shape(s) && Storage(s) && Shape(next)
    requires next.generation == s.generation && next.token == s.token && s.token.Some?
    requires next.log == s.log + [Save(saved)] && next.results == s.results && next.storage == s.storage
    requires saved.generation == s.generation && saved.session.token == s.token.value
    requires saved.session.user.account == s.token.value.account
    requires NoneSaving(next)
    ensures Storage(next)
  {
    assert Pending(next) == Pending(s) + [Save(saved)];
    forall x | Could(next.storage, Pending(next), x)
      ensures x.generation == next.generation && x.session.token == next.token.value
      ensures x.session.user.account == next.token.value.account
    {
      CouldAppend(s.storage, Pending(s), Save(saved), x);
    }
  }

  lemma SavesAgainCore(s: State, id: nat, t: Task, op: Operation)
    requires Core(s) && id < |s.tasks| && s.token.Some?
    requires || (s.tasks[id].RefreshAsking? && t.RefreshSaving? && t.current.account == s.token.value.account)
             || (s.tasks[id].PasswordAsking? && t.PasswordSaving? && t.updated.account == s.token.value.account)
    requires t.generation == s.tasks[id].generation && t.op == |s.log|
    ensures Core(s.Enqueue(op).Become(id, t))
  {
    var next := s.Enqueue(op).Become(id, t);
    forall i | 0 <= i < |s.tasks|
      ensures InRange(next, next.tasks[i]) && Grounded(next, next.tasks[i])
    {
      assert InRange(s, s.tasks[i]) && Grounded(s, s.tasks[i]);
    }
    PairsStay(s, next);
  }

  /** A refresh or a password change saves the signed-in account again, and waits for it. */
  lemma SavesAgain(s: State, id: nat, t: Task, session: Session)
    requires Inv(s) && id < |s.tasks| && Current(s, s.tasks[id]) && s.token == Some(session.token)
    requires session.user.account == session.token.account
    requires || (s.tasks[id].RefreshAsking? && t == RefreshSaving(s.generation, |s.log|, session.user))
             || (s.tasks[id].PasswordAsking? && t == PasswordSaving(s.generation, |s.log|, session.user))
    ensures Inv(s.Enqueue(Save(Saved(session, s.generation))).Become(id, t))
  {
    var saved := Saved(session, s.generation);
    var next := s.Enqueue(Save(saved)).Become(id, t);
    SavesAgainCore(s, id, t, Save(saved));
    forall i | 0 <= i < |next.tasks| ensures !SavingNow(next, next.tasks[i]) {
      assert Grounded(next, next.tasks[i]);
    }
    SavedMoreStorage(s, next, saved);
  }

  lemma MeIsAnswered(s: State, id: nat, profile: string)
    requires Inv(s) && Enabled(s, Me(id, profile))
    ensures Inv(s.MeAnswered(id, profile))
  {
    var t := s.tasks[id];
    var current := User(t.caller.value.account, profile);
    if t.generation != s.generation {
      RefreshEnds(s, id);
    } else if current != t.user {
      assert Grounded(s, t);
      SavesAgain(s, id, RefreshSaving(s.generation, |s.log|, current), Session(t.host, t.token, current));
    } else {
      Shown(s, s.user, true, s.loading);
      RefreshEnds(s.(online := true), id);
    }
  }

  lemma PasswordIsAnswered(s: State, id: nat, profile: string)
    requires Inv(s) && Enabled(s, PasswordAnswer(id, profile))
    ensures Inv(s.PasswordAnswered(id, profile))
  {
    var t := s.tasks[id];
    var updated := User(t.caller.value.account, profile);
    if t.generation == s.generation {
      assert Grounded(s, t);
      SavesAgain(s, id, PasswordSaving(s.generation, |s.log|, updated), Session(t.host, t.held.value, updated));
    } else {
      TaskSettles(s, id, Ended);
    }
  }

  // ----- a sign-in that is answered, saved and committed -----

  lemma LoginAnsweredCore(s: State, id: nat, text: string, account: User)
    requires Core(s) && Enabled(s, LoginAnswer(id, text, account)) && s.tasks[id].generation == s.generation
    ensures Core(s.LoginAnswered(id, text, account))
  {
    var next := s.LoginAnswered(id, text, account);
    forall i | 0 <= i < |s.tasks|
      ensures InRange(next, next.tasks[i]) && Grounded(next, next.tasks[i])
    {
      assert InRange(s, s.tasks[i]) && Grounded(s, s.tasks[i]);
    }
    PairsStay(s, next);
  }

  lemma OnlyThisSignsIn(s: State, id: nat, i: nat)
    requires Tasks(s) && id < |s.tasks| && i < |s.tasks| && SigningIn(s, s.tasks[id]) && SigningIn(s, s.tasks[i])
    ensures i == id
  {
    assert Apart(s, i, id) && Apart(s, id, i);
  }

  lemma LoginIsAnswered(s: State, id: nat, text: string, account: User)
    requires Inv(s) && Enabled(s, LoginAnswer(id, text, account))
    ensures Inv(s.LoginAnswered(id, text, account))
  {
    var t := s.tasks[id];
    if t.generation != s.generation {
      TaskSettles(s, id, Ended);
    } else {
      LoginAnsweredCore(s, id, text, account);
      LoginAnsweredStorage(s, id, text, account);
    }
  }

  lemma LoginAnsweredStorage(s: State, id: nat, text: string, account: User)
    requires Inv(s) && Enabled(s, LoginAnswer(id, text, account)) && s.tasks[id].generation == s.generation
    requires Shape(s.LoginAnswered(id, text, account))
    ensures Storage(s.LoginAnswered(id, text, account))
  {
    var next := s.LoginAnswered(id, text, account);
    assert Grounded(s, s.tasks[id]);
    forall i | 0 <= i < |s.tasks| ensures !SavingNow(s, s.tasks[i]) {
      if SavingNow(s, s.tasks[i]) {
        OnlyThisSignsIn(s, id, i);
      }
    }
    assert next.log[|s.results|..|s.log|] == Pending(s);
    forall i | 0 <= i < |next.tasks| ensures SavingOverNothing(next, next.tasks[i]) {
      assert i != id ==> next.tasks[i] == s.tasks[i];
    }
    assert SavingNow(next, next.tasks[id]);
  }

  lemma LoginCommitsCore(s: State, id: nat)
    requires Core(s) && id < |s.tasks| && SavingNow(s, s.tasks[id])
    ensures Core(s.LoginSaved(id, true)) && NoneSaving(s.LoginSaved(id, true))
  {
    var t, next := s.tasks[id], s.LoginSaved(id, true);
    assert InRange(s, t) && Grounded(s, t);
    forall i | 0 <= i < |s.tasks| ensures InRange(next, next.tasks[i]) && !Current(next, next.tasks[i]) {
      assert InRange(s, s.tasks[i]) && Grounded(s, s.tasks[i]);
      if SigningIn(s, s.tasks[i]) {
        OnlyThisSignsIn(s, id, i);
      }
    }
    PairsStay(s, next);
  }

  /** A sign-in that was saved commits: the stored session, if any, is the one it saved. */
  lemma LoginCommits(s: State, id: nat)
    requires Inv(s) && Enabled(s, Resume(id)) && SavingNow(s, s.tasks[id]) && s.results[s.tasks[id].op]
    ensures Inv(s.LoginSaved(id, true))
  {
    LoginCommitsCore(s, id);
    assert SavingOverNothing(s, s.tasks[id]) && Grounded(s, s.tasks[id]);
    assert Pending(s.LoginSaved(id, true)) == [];
  }

  /** A sign-in that could not be saved leaves nothing stored. */
  lemma LoginIsNotSaved(s: State, id: nat)
    requires Inv(s) && Enabled(s, Resume(id)) && SavingNow(s, s.tasks[id]) && !s.results[s.tasks[id].op]
    ensures Inv(s.Become(id, Ended))
  {
    var next := s.Become(id, Ended);
    assert SavingOverNothing(s, s.tasks[id]) && Grounded(s, s.tasks[id]);
    assert Pending(next) == [];
    forall i | 0 <= i < |s.tasks| ensures InRange(next, next.tasks[i]) && Grounded(next, next.tasks[i]) {
      assert InRange(s, s.tasks[i]) && Grounded(s, s.tasks[i]);
    }
    PairsStay(s, next);
    forall i | 0 <= i < |s.tasks| ensures !SavingNow(next, next.tasks[i]) {
      if SigningIn(s, s.tasks[i]) {
        OnlyThisSignsIn(s, id, i);
      }
    }
  }

  lemma LoginIsSaved(s: State, id: nat)
    requires Inv(s) && Enabled(s, Resume(id)) && s.tasks[id].LoginSaving?
    ensures Inv(s.LoginSaved(id, s.results[s.tasks[id].op]))
  {
    var t := s.tasks[id];
    if t.generation != s.generation {
      TaskSettles(s, id, Ended);
    } else if s.results[t.op] {
      LoginCommits(s, id);
    } else {
      LoginIsNotSaved(s, id);
    }
  }

  // ----- the Host changes -----

  lemma HostClearedCore(s: State, id: nat)
    requires Core(s) && id < |s.tasks| && s.tasks[id].HostClearing?
    ensures Core(s.HostCleared(id))
  {
    var next := s.HostCleared(id);
    forall i | 0 <= i < |s.tasks| ensures InRange(next, next.tasks[i]) && Grounded(next, next.tasks[i]) {
      assert InRange(s, s.tasks[i]) && Grounded(s, s.tasks[i]);
    }
    PairsStay(s, next);
  }

  lemma HostIsCleared(s: State, id: nat)
    requires Inv(s) && Enabled(s, Resume(id)) && s.tasks[id].HostClearing?
    ensures Inv(s.HostCleared(id))
  {
    var ended := s.Become(id, Ended);
    TaskSettles(s, id, Ended);
    HostClearedCore(s, id);
    assert s.HostCleared(id).tasks == ended.tasks;
    SameStorage(ended, s.HostCleared(id));
  }

  /** Storage depends on the log, the generation, the token and the tasks only. */
  lemma SameStorage(s: State, next: State)
    requires Shape(s) && Storage(s) && Shape(next)
    requires next.log == s.log && next.results == s.results && next.storage == s.storage
    requires next.generation == s.generation && next.token == s.token && next.tasks == s.tasks
    ensures Storage(next)
  {
    forall i | 0 <= i < |next.tasks| ensures SavingOverNothing(next, next.tasks[i]) {
      assert SavingOverNothing(s, s.tasks[i]);
    }
    assert NoneSaving(next) ==> NoneSaving(s) by {
      forall i | NoneSaving(next) && 0 <= i < |s.tasks| ensures !SavingNow(s, s.tasks[i]) {
        assert !SavingNow(next, next.tasks[i]);
      }
    }
  }

  // ----- storage runs -----

  lemma NothingMore(storage: Option<Saved>, pending: seq<Operation>, ok: bool)
    requires pending != [] && NothingStored(storage, pending)
    ensures NothingStored(Stored(storage, pending[0], ok), pending[1..])
  {
    forall x ensures !Could(Stored(storage, pending[0], ok), pending[1..], x) {
      if Could(Stored(storage, pending[0], ok), pending[1..], x) {
        CouldAfterNext(storage, pending, ok, x);
      }
    }
  }

  lemma SaveRunsOn(s: State, ok: bool, i: nat)
    requires Shape(s) && Storage(s) && |s.results| < |s.log| && i < |s.tasks| && Shape(s.RunNext(ok))
    ensures SavingOverNothing(s.RunNext(ok), s.tasks[i])
  {
    var t, n := s.tasks[i], |s.results|;
    assert SavingOverNothing(s, t);
    if SavingNow(s, t) && n <= t.op {
      var before := s.log[n..t.op];
      if n < t.op {
        NothingMore(s.storage, before, ok);
        assert before[1..] == s.log[n + 1..t.op];
      } else if s.storage.Some? {
        assert Could(s.storage, before, s.storage.value);
      }
    }
  }

  lemma StorageRunsOn(s: State, ok: bool)
    requires Inv(s) && |s.results| < |s.log|
    ensures Inv(s.RunNext(ok))
  {
    RunNextCore(s, ok);
    RunNextStorage(s, ok);
  }

  lemma RunNextCore(s: State, ok: bool)
    requires Core(s) && |s.results| < |s.log|
    ensures Core(s.RunNext(ok))
  {
    var next := s.RunNext(ok);
    forall i | 0 <= i < |s.tasks| ensures InRange(next, next.tasks[i]) && Grounded(next, next.tasks[i]) {
      assert InRange(s, s.tasks[i]) && Grounded(s, s.tasks[i]);
    }
    PairsStay(s, next);
  }

  lemma RunNextStorage(s: State, ok: bool)
    requires Shape(s) && Storage(s) && |s.results| < |s.log| && Shape(s.RunNext(ok))
    ensures Storage(s.RunNext(ok))
  {
    var next := s.RunNext(ok);
    assert Pending(s)[1..] == Pending(next);
    forall i | 0 <= i < |s.tasks| ensures SavingOverNothing(next, s.tasks[i]) {
      SaveRunsOn(s, ok, i);
    }
    forall x | Could(next.storage, Pending(next), x) ensures Could(s.storage, Pending(s), x) {
      CouldAfterNext(s.storage, Pending(s), ok, x);
    }
    if NoneSaving(next) {
      forall i | 0 <= i < |s.tasks| ensures !SavingNow(s, s.tasks[i]) {
        assert !SavingNow(next, next.tasks[i]);
      }
    }
  }

  // ----- every step -----

  lemma MeIsRefused(s: State, id: nat, offline: bool)
    requires Inv(s) && Enabled(s, MeFails(id, offline))
    ensures Inv(s.MeFailed(id, offline))
  {
    var t := s.tasks[id];
    if t.generation != s.generation {
      RefreshEnds(s, id);
    } else if offline {
      Shown(s, s.user, false, s.loading);
      RefreshEnds(s.(online := false), id);
    } else {
      SigningOut(s, t.api);
      TaskSettles(s.SignOut(t.api), id, RefreshClearing(|s.log|));
    }
  }

  lemma HostIsAnswered(s: State, id: nat)
    requires Inv(s) && Enabled(s, HostAnswer(id))
    ensures Inv(s.HostAnswered(id))
  {
    var t := s.tasks[id];
    if t.target == t.host {
      Shown(s, s.user, true, s.loading);
      TaskSettles(s.(online := true), id, Ended);
    } else {
      Shown(s, s.user, s.online, true);
      SigningOut(s.(loading := true), t.api);
      TaskSettles(s.(loading := true).SignOut(t.api), id, HostClearing(|s.log|, t.target));
    }
  }

  lemma TaskResumes(s: State, id: nat)
    requires Inv(s) && Enabled(s, Resume(id))
    ensures Inv(Resumed(s, id))
  {
    var t := s.tasks[id];
    match t
    case RefreshSaving(_, _, current) =>
      if t.generation == s.generation {
        assert Grounded(s, t);
        Shown(s, Some(current), true, s.loading);
        RefreshEnds(s.(user := Some(current), online := true), id);
      } else {
        RefreshEnds(s, id);
      }
    case RefreshClearing(_) => RefreshEnds(s, id);
    case LoginSaving(_, _, _, _) => LoginIsSaved(s, id);
    case SwitchClearing(_) => TaskSettles(s, id, Ended);
    case HostClearing(_, _) => HostIsCleared(s, id);
    case PasswordSaving(_, _, updated) =>
      if t.generation == s.generation {
        assert Grounded(s, t);
        Shown(s, Some(updated), s.online, s.loading);
        TaskSettles(s.(user := Some(updated)), id, Ended);
      } else {
        TaskSettles(s, id, Ended);
      }
  }

  lemma StepKeepsInv(s: State, e: Event)
    requires Inv(s)
    ensures Inv(Step(s, e))
  {
    if Enabled(s, e) {
      match e
      case Refresh => RefreshStarts(s);
      case Me(id, profile) => MeIsAnswered(s, id, profile);
      case MeFails(id, offline) => MeIsRefused(s, id, offline);
      case Login => LoginStarts(s);
      case LoginAnswer(id, text, account) => LoginIsAnswered(s, id, text, account);
      case Fails(id) => TaskSettles(s, id, Ended);
      case Switch =>
        SigningOut(s, s.api);
        TaskBegins(s.SignOut(s.api), SwitchClearing(|s.log|));
      case ChangeHost(target) => TaskBegins(s, HostProbing(s.api, s.baseUrl, target));
      case HostAnswer(id) => HostIsAnswered(s, id);
      case ChangePassword => TaskBegins(s, PasswordAsking(s.generation, s.baseUrl, s.token, s.ApiToken()));
      case PasswordAnswer(id, profile) => PasswordIsAnswered(s, id, profile);
      case StorageRuns(ok) => StorageRunsOn(s, ok);
      case Resume(id) => TaskResumes(s, id);
    }
  }

  lemma {:induction false} RunKeepsInv(s: State, events: seq<Event>)
    requires Inv(s)
    ensures Inv(Run(s, events))
    decreases |events|
  {
    if events != [] {
      StepKeepsInv(s, events[0]);
      RunKeepsInv(Step(s, events[0]), events[1..]);
    }
  }
}
