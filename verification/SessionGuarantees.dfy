/** What careful runs of the student session keep besides, and the guarantees of all runs. */
module SessionGuarantees {
  import opened Wrappers
  import opened SessionQueue
  import opened StudentSession
  import opened SessionInvariant

  // ----- runs in which no sign-in starts while the Host is being changed to another -----

  /** Every Host change that is waiting to finish leads to the Host already in use. */
  predicate WindowsAgree(s: State) {
    forall i :: 0 <= i < |s.tasks| && s.tasks[i].HostClearing? ==> s.tasks[i].target == s.baseUrl
  }

  predicate Careful(s: State, e: Event) {
    e.Login? && Enabled(s, e) ==> WindowsAgree(s)
  }

  predicate CarefulRun(s: State, events: seq<Event>)
    decreases |events|
  {
    events != [] ==> Careful(s, events[0]) && CarefulRun(Step(s, events[0]), events[1..])
  }

  /** A task of the current generation works for the Host in use. */
  predicate OnThisHost(s: State, t: Task) {
    Current(s, t) ==>
      && (t.RefreshAsking? || t.LoginAsking? || t.PasswordAsking? ==> t.host == s.baseUrl)
      && (t.LoginSaving? ==> t.session.host == s.baseUrl && t.session.token.host == s.baseUrl)
  }

  ghost predicate Hosts(s: State)
    requires Shape(s)
  {
    && (s.token.Some? ==> s.token.value.host == s.baseUrl && WindowsAgree(s))
    && (forall i :: 0 <= i < |s.tasks| ==> OnThisHost(s, s.tasks[i]) && (SigningIn(s, s.tasks[i]) ==> WindowsAgree(s)))
    && (s.token.Some? ==> forall x :: Could(s.storage, Pending(s), x) ==> x.session.host == s.baseUrl)
  }

  /** A step within a generation, at the same Host, for the same account. */
  lemma HostsStay(s: State, next: State)
    requires Shape(s) && Hosts(s) && Shape(next)
    requires next.baseUrl == s.baseUrl && next.generation == s.generation && next.token == s.token
    requires forall x :: Could(next.storage, Pending(next), x) ==>
               Could(s.storage, Pending(s), x) || (s.token.Some? ==> x.session.host == s.baseUrl)
    requires |s.tasks| <= |next.tasks|
    requires forall i :: 0 <= i < |s.tasks| ==> next.tasks[i] == s.tasks[i] || Follows(s, s.tasks[i], next.tasks[i])
    requires forall i :: |s.tasks| <= i < |next.tasks| ==> OnThisHost(s, next.tasks[i]) && Harmless(s, next.tasks[i])
    ensures Hosts(next)
  {
    assert s.token.Some? || (exists i :: 0 <= i < |s.tasks| && SigningIn(s, s.tasks[i])) ==> WindowsAgree(s);
    assert WindowsAgree(s) ==> WindowsAgree(next);
    forall i | 0 <= i < |next.tasks|
      ensures OnThisHost(next, next.tasks[i]) && (SigningIn(next, next.tasks[i]) ==> WindowsAgree(next))
    {
      if i < |s.tasks| {
        assert OnThisHost(s, s.tasks[i]);
      }
    }
  }

  predicate Harmless(s: State, t: Task) {
    !SigningIn(s, t) && !t.HostClearing?
  }

  /** What a task may turn into without starting a sign-in or a change of Host. */
  predicate Follows(s: State, t: Task, later: Task) {
    OnThisHost(s, later) && (Harmless(s, later) || (SigningIn(s, t) && SigningIn(s, later)))
  }

  /** Once signed out, nothing of the current generation is under way. */
  lemma HostsAfterSignOut(next: State)
    requires Shape(next) && next.token.None?
    requires forall i :: 0 <= i < |next.tasks| ==> !Current(next, next.tasks[i])
    ensures Hosts(next)
  {
  }

  lemma SaveKeepsHosts(s: State, id: nat, t: Task, saved: Saved)
    requires Shape(s) && Hosts(s) && id < |s.tasks| && Follows(s, s.tasks[id], t)
    requires saved.session.host == s.baseUrl && Shape(s.Enqueue(Save(saved)).Become(id, t))
    ensures Hosts(s.Enqueue(Save(saved)).Become(id, t))
  {
    var next := s.Enqueue(Save(saved)).Become(id, t);
    assert Pending(next) == Pending(s) + [Save(saved)];
    forall x | Could(next.storage, Pending(next), x)
      ensures Could(s.storage, Pending(s), x) || (s.token.Some? ==> x.session.host == s.baseUrl)
    {
      CouldAppend(s.storage, Pending(s), Save(saved), x);
    }
    HostsStay(s, next);
  }

  lemma EndKeepsHosts(s: State, id: nat, next: State)
    requires Shape(s) && Hosts(s) && id < |s.tasks| && Shape(next)
    requires next.tasks == s.tasks[id := Ended]
    requires next == s.(tasks := next.tasks, inFlight := next.inFlight, online := next.online, user := next.user)
    ensures Hosts(next)
  {
    HostsStay(s, next);
  }

  lemma MeKeepsHosts(s: State, id: nat, profile: string)
    requires Shape(s) && Hosts(s) && Enabled(s, Me(id, profile)) && Shape(s.MeAnswered(id, profile))
    ensures Hosts(s.MeAnswered(id, profile))
  {
    var t := s.tasks[id];
    var current := User(t.caller.value.account, profile);
    if t.generation == s.generation && current != t.user {
      assert OnThisHost(s, t);
      SaveKeepsHosts(s, id, RefreshSaving(t.generation, |s.log|, current),
                     Saved(Session(t.host, t.token, current), t.generation));
    } else {
      EndKeepsHosts(s, id, s.MeAnswered(id, profile));
    }
  }

  lemma LoginAnswerKeepsHosts(s: State, id: nat, text: string, account: User)
    requires Shape(s) && Hosts(s) && Enabled(s, LoginAnswer(id, text, account))
    requires Shape(s.LoginAnswered(id, text, account))
    ensures Hosts(s.LoginAnswered(id, text, account))
  {
    var t := s.tasks[id];
    if t.generation == s.generation {
      assert OnThisHost(s, t) && InRange(s, t);
      var session := Session(t.host, Token(text, s.apis[t.api].host, account.account), account);
      SaveKeepsHosts(s, id, LoginSaving(t.generation, t.api, |s.log|, session), Saved(session, t.generation));
    } else {
      EndKeepsHosts(s, id, s.LoginAnswered(id, text, account));
    }
  }

  lemma PasswordKeepsHosts(s: State, id: nat, profile: string)
    requires Shape(s) && Hosts(s) && Enabled(s, PasswordAnswer(id, profile)) && Shape(s.PasswordAnswered(id, profile))
    ensures Hosts(s.PasswordAnswered(id, profile))
  {
    var t := s.tasks[id];
    var updated := User(t.caller.value.account, profile);
    if t.generation == s.generation && t.held.Some? {
      assert OnThisHost(s, t);
      SaveKeepsHosts(s, id, PasswordSaving(t.generation, |s.log|, updated),
                     Saved(Session(t.host, t.held.value, updated), t.generation));
    } else {
      EndKeepsHosts(s, id, s.PasswordAnswered(id, profile));
    }
  }

  lemma StorageKeepsHosts(s: State, ok: bool)
    requires Shape(s) && Hosts(s) && |s.results| < |s.log| && Shape(s.RunNext(ok))
    ensures Hosts(s.RunNext(ok))
  {
    var next := s.RunNext(ok);
    assert Pending(s)[1..] == Pending(next);
    forall x | Could(next.storage, Pending(next), x) ensures Could(s.storage, Pending(s), x) {
      CouldAfterNext(s.storage, Pending(s), ok, x);
    }
    HostsStay(s, next);
  }

  lemma MeFailsKeepsHosts(s: State, id: nat, offline: bool)
    requires Shape(s) && Hosts(s) && Enabled(s, MeFails(id, offline)) && Shape(s.MeFailed(id, offline))
    ensures Hosts(s.MeFailed(id, offline))
  {
    var t := s.tasks[id];
    if t.generation == s.generation && !offline {
      HostsAfterSignOut(s.MeFailed(id, offline));
    } else {
      EndKeepsHosts(s, id, s.MeFailed(id, offline));
    }
  }

  lemma LoginKeepsHosts(s: State)
    requires Shape(s) && Hosts(s) && s.CanSignIn() && WindowsAgree(s) && Shape(s.StartLogin())
    ensures Hosts(s.StartLogin())
  {
    var next := s.StartLogin();
    assert WindowsAgree(next);
  }

  lemma SwitchKeepsHosts(s: State)
    requires Shape(s) && Hosts(s) && Shape(s.SwitchAccount())
    ensures Hosts(s.SwitchAccount())
  {
    HostsAfterSignOut(s.SwitchAccount());
  }

  lemma HostAnswerKeepsHosts(s: State, id: nat)
    requires Shape(s) && Hosts(s) && Enabled(s, HostAnswer(id)) && Shape(s.HostAnswered(id))
    ensures Hosts(s.HostAnswered(id))
  {
    if s.tasks[id].target == s.tasks[id].host {
      EndKeepsHosts(s, id, s.HostAnswered(id));
    } else {
      HostsAfterSignOut(s.HostAnswered(id));
    }
  }

  lemma CommitKeepsHosts(s: State, id: nat)
    requires Shape(s) && Hosts(s) && Tasks(s) && Storage(s)
    requires Enabled(s, Resume(id)) && SavingNow(s, s.tasks[id]) && s.results[s.tasks[id].op]
    requires Shape(s.LoginSaved(id, true))
    ensures Hosts(s.LoginSaved(id, true))
  {
    var t, next := s.tasks[id], s.LoginSaved(id, true);
    assert OnThisHost(s, t) && SavingOverNothing(s, t) && Grounded(s, t);
    assert WindowsAgree(next) && Pending(next) == [];
    forall i | 0 <= i < |next.tasks| ensures OnThisHost(next, next.tasks[i]) {
      assert OnThisHost(s, s.tasks[i]);
    }
  }

  /** A sign-in commits at the Host it started with, since every open window leads there. */
  lemma LoginSavedKeepsHosts(s: State, id: nat)
    requires Shape(s) && Hosts(s) && Tasks(s) && Storage(s)
    requires Enabled(s, Resume(id)) && s.tasks[id].LoginSaving?
    requires Shape(s.LoginSaved(id, s.results[s.tasks[id].op]))
    ensures Hosts(s.LoginSaved(id, s.results[s.tasks[id].op]))
  {
    var t := s.tasks[id];
    if t.generation != s.generation || !s.results[t.op] {
      EndKeepsHosts(s, id, s.Become(id, Ended));
    } else {
      CommitKeepsHosts(s, id);
    }
  }

  /** The Host changes under nobody: only when signed out, or to the Host already in use. */
  lemma HostClearedKeepsHosts(s: State, id: nat)
    requires Shape(s) && Hosts(s) && Tasks(s)
    requires Enabled(s, Resume(id)) && s.tasks[id].HostClearing? && Shape(s.HostCleared(id))
    ensures Hosts(s.HostCleared(id))
  {
    var next := s.HostCleared(id);
    if s.tasks[id].target == s.baseUrl {
      HostsStay(s, next);
    } else {
      assert !WindowsAgree(s);
      forall i | 0 <= i < |s.tasks| ensures !Current(s, s.tasks[i]) {
        assert Grounded(s, s.tasks[i]) && OnThisHost(s, s.tasks[i]);
      }
      HostsAfterSignOut(next);
    }
  }

  lemma {:induction false} ResumeKeepsHosts(s: State, id: nat)
    requires Shape(s) && Hosts(s) && Tasks(s) && Storage(s)
    requires Enabled(s, Resume(id)) && Shape(Resumed(s, id))
    ensures Hosts(Resumed(s, id))
  {
    if s.tasks[id].LoginSaving? {
      LoginSavedKeepsHosts(s, id);
    } else if s.tasks[id].HostClearing? {
      HostClearedKeepsHosts(s, id);
    } else {
      EndingKeepsHosts(s, id);
    }
  }

  lemma EndingKeepsHosts(s: State, id: nat)
    requires Shape(s) && Hosts(s) && Enabled(s, Resume(id)) && Shape(Resumed(s, id))
    requires !s.tasks[id].LoginSaving? && !s.tasks[id].HostClearing?
    ensures Hosts(Resumed(s, id))
  {
    match s.tasks[id]
    case RefreshSaving(_, _, _) => EndKeepsHosts(s, id, s.RefreshSaved(id));
    case RefreshClearing(_) => EndKeepsHosts(s, id, s.EndRefresh(id));
    case SwitchClearing(_) => EndKeepsHosts(s, id, s.Become(id, Ended));
    case PasswordSaving(_, _, _) => EndKeepsHosts(s, id, s.PasswordSaved(id));
  }

  lemma RequestsKeepHosts(s: State, e: Event)
    requires Shape(s) && Hosts(s) && Enabled(s, e) && Shape(Step(s, e))
    requires e.Refresh? || e.ChangeHost? || e.ChangePassword? || e.Fails?
    ensures Hosts(Step(s, e))
  {
    match e
    case Refresh => HostsStay(s, s.StartRefresh());
    case ChangeHost(target) => HostsStay(s, s.StartHostChange(target));
    case ChangePassword => HostsStay(s, s.StartPasswordChange());
    case Fails(id) => EndKeepsHosts(s, id, s.Become(id, Ended));
  }

  lemma {:induction false} StepKeepsHosts(s: State, e: Event)
    requires Inv(s) && Hosts(s) && Careful(s, e)
    ensures Inv(Step(s, e)) && Hosts(Step(s, e))
  {
    StepKeepsInv(s, e);
    if Enabled(s, e) {
      match e
      case Refresh => RequestsKeepHosts(s, e);
      case Me(id, profile) => MeKeepsHosts(s, id, profile);
      case MeFails(id, offline) => MeFailsKeepsHosts(s, id, offline);
      case Login => LoginKeepsHosts(s);
      case LoginAnswer(id, text, account) => LoginAnswerKeepsHosts(s, id, text, account);
      case Fails(id) => RequestsKeepHosts(s, e);
      case Switch => SwitchKeepsHosts(s);
      case ChangeHost(target) => RequestsKeepHosts(s, e);
      case HostAnswer(id) => HostAnswerKeepsHosts(s, id);
      case ChangePassword => RequestsKeepHosts(s, e);
      case PasswordAnswer(id, profile) => PasswordKeepsHosts(s, id, profile);
      case StorageRuns(ok) => StorageKeepsHosts(s, ok);
      case Resume(id) => ResumeKeepsHosts(s, id);
    }
  }

  lemma {:induction false} CarefulRunKeepsHosts(s: State, events: seq<Event>)
    requires Inv(s) && Hosts(s) && CarefulRun(s, events)
    ensures Inv(Run(s, events)) && Hosts(Run(s, events))
    decreases |events|
  {
    if events != [] {
      StepKeepsHosts(s, events[0]);
      CarefulRunKeepsHosts(Step(s, events[0]), events[1..]);
    }
  }

  // ----- the guarantees -----

  /** The end of starting up: a stored session was taken over, or there was none. */
  ghost predicate Initial(s: State) {
    && s.tasks == [] && s.log == [] && s.results == [] && s.inFlight.None? && !s.loading
    && s.api < |s.apis| && s.apis[s.api] == Api(s.baseUrl, s.token)
    && (s.user.Some? <==> s.token.Some?)
    && (s.token.Some? ==> s.token.value.host == s.baseUrl && s.token.value.account == s.user.value.account)
    && (s.token.None? ==> s.storage.None?)
    && (s.storage.Some? ==>
          && s.storage.value.generation == s.generation && s.storage.value.session.host == s.baseUrl
          && s.storage.value.session.token == s.token.value
          && s.storage.value.session.user.account == s.user.value.account)
  }

  lemma InitialHolds(s: State)
    requires Initial(s)
    ensures Inv(s) && Hosts(s)
  {
    assert Pending(s) == [];
  }

  /** The token shown to the rest of the app was issued to the account shown. */
  predicate TokenFitsAccount(s: State) {
    s.token.Some? ==> s.user.Some? && s.token.value.account == s.user.value.account
  }

  /** And it was issued by the Host in use. */
  predicate TokenFitsHost(s: State) {
    s.token.Some? ==> s.token.value.host == s.baseUrl
  }

  /** In every interleaving, accounts are never mixed up. */
  lemma AccountsNeverMix(s: State, events: seq<Event>)
    requires Initial(s)
    ensures TokenFitsAccount(Run(s, events))
    ensures Run(s, events).user.Some? <==> Run(s, events).token.Some?
  {
    InitialHolds(s);
    RunKeepsInv(s, events);
  }

  /** In every careful interleaving, Hosts are never mixed up either. */
  lemma HostsNeverMix(s: State, events: seq<Event>)
    requires Initial(s) && CarefulRun(s, events)
    ensures TokenFitsHost(Run(s, events)) && TokenFitsAccount(Run(s, events))
  {
    InitialHolds(s);
    CarefulRunKeepsHosts(s, events);
  }

  /**
   Once the queue has drained, storage is empty or holds a session of the current
   generation, and it is the session shown, if one is.
   */
  lemma StorageSettles(s: State, events: seq<Event>)
    requires Initial(s) && |Run(s, events).results| == |Run(s, events).log|
    ensures var end := Run(s, events);
      end.storage.Some? ==>
        && end.storage.value.generation == end.generation
        && (end.token.Some? ==>
              && end.user.Some? && end.storage.value.session.token == end.token.value
              && end.storage.value.session.user.account == end.user.value.account)
  {
    InitialHolds(s);
    RunKeepsInv(s, events);
    var end := Run(s, events);
    assert Pending(end) == [];
    if end.storage.Some? {
      assert Could(end.storage, Pending(end), end.storage.value);
      if end.token.None? {
        var i :| 0 <= i < |end.tasks| && SavingNow(end, end.tasks[i]);
        assert SavingOverNothing(end, end.tasks[i]);
      }
    }
  }

  /** In careful runs what is stored then belongs to the Host in use. */
  lemma StoredHostFits(s: State, events: seq<Event>)
    requires Initial(s) && CarefulRun(s, events) && |Run(s, events).results| == |Run(s, events).log|
    ensures var end := Run(s, events);
      end.storage.Some? ==>
        end.storage.value.session.host == end.baseUrl && end.storage.value.session.token.host == end.baseUrl
  {
    InitialHolds(s);
    CarefulRunKeepsHosts(s, events);
    var end := Run(s, events);
    assert Pending(end) == [];
    if end.storage.Some? {
      assert Could(end.storage, Pending(end), end.storage.value);
      if end.token.None? {
        var i :| 0 <= i < |end.tasks| && SavingNow(end, end.tasks[i]);
        assert SavingOverNothing(end, end.tasks[i]) && OnThisHost(end, end.tasks[i]);
      }
    }
  }

  /** Signed out, with no sign-in of the current generation being saved, storage is empty. */
  lemma SignedOutIsForgotten(s: State, events: seq<Event>)
    requires Initial(s) && |Run(s, events).results| == |Run(s, events).log|
    requires Run(s, events).user.None? && NoneSaving(Run(s, events))
    ensures Run(s, events).storage.None?
  {
    InitialHolds(s);
    RunKeepsInv(s, events);
    var end := Run(s, events);
    assert Pending(end) == [];
    if end.storage.Some? {
      assert Could(end.storage, Pending(end), end.storage.value);
    }
  }

  /** For each generation at most one refresh is under way. */
  lemma OneRefreshAGeneration(s: State, events: seq<Event>, i: nat, j: nat)
    requires Initial(s) && i < |Run(s, events).tasks| && j < |Run(s, events).tasks|
    requires Refreshing(Run(s, events).tasks[i]) && Refreshing(Run(s, events).tasks[j])
    requires Run(s, events).tasks[i].generation == Run(s, events).tasks[j].generation
    ensures i == j
  {
    InitialHolds(s);
    RunKeepsInv(s, events);
    var end := Run(s, events);
    assert Apart(end, i, j) && Apart(end, j, i);
  }

  // ----- when a sign-in may start -----

  lemma {:induction false} RunAppend(s: State, a: seq<Event>, b: seq<Event>)
    ensures Run(s, a + b) == Run(Run(s, a), b)
    decreases |a|
  {
    if a == [] {
      assert a + b == b;
    } else {
      assert (a + b)[1..] == a[1..] + b;
      RunAppend(Step(s, a[0]), a[1..], b);
    }
  }

  lemma {:induction false} NoLoginIsCareful(s: State, events: seq<Event>)
    requires forall e <- events :: !e.Login?
    ensures CarefulRun(s, events)
    decreases |events|
  {
    if events != [] {
      assert events[0] in events;
      NoLoginIsCareful(Step(s, events[0]), events[1..]);
    }
  }

  function Drain(n: nat): (events: seq<Event>)
    ensures forall e <- events :: e == StorageRuns(true)
  {
    if n == 0 then [] else [StorageRuns(true)] + Drain(n - 1)
  }

  /** Letting every pending operation run, each successfully. */
  lemma {:induction false} Drained(s: State)
    requires |s.results| <= |s.log|
    ensures var end := Run(s, Drain(|s.log| - |s.results|));
      && end == s.(storage := end.storage, results := end.results)
      && |end.results| == |s.log| && s.results <= end.results
      && forall i :: |s.results| <= i < |end.results| ==> end.results[i]
    decreases |s.log| - |s.results|
  {
    if |s.results| < |s.log| {
      var next := s.RunNext(true);
      assert Step(s, StorageRuns(true)) == next;
      Drained(next);
      assert Drain(|s.log| - |s.results|)[1..] == Drain(|next.log| - |next.results|);
    }
  }

  /** A sign-in is answered, and everything to be stored is stored. */
  function SignInAnswers(s: State): seq<Event>
    requires |s.results| <= |s.log|
  {
    [LoginAnswer(|s.tasks|, "t", User("a", ""))] + Drain(|s.log| + 1 - |s.results|)
  }

  /** The sign-in is answered and saved, everything stored, and then it commits and the window closes. */
  function Unlucky(s: State, window: nat): seq<Event>
    requires |s.results| <= |s.log|
  {
    SignInAnswers(s) + [Resume(|s.tasks|), Resume(window)]
  }

  lemma RunCons(s: State, e: Event, rest: seq<Event>)
    ensures Run(s, [e] + rest) == Run(Step(s, e), rest)
  {
    assert ([e] + rest)[1..] == rest;
  }

  lemma LoginResumes(s: State, id: nat)
    requires Enabled(s, Resume(id)) && s.tasks[id].LoginSaving?
    ensures Step(s, Resume(id)) == s.LoginSaved(id, s.results[s.tasks[id].op])
  {
  }

  lemma HostChangeResumes(s: State, id: nat)
    requires Enabled(s, Resume(id)) && s.tasks[id].HostClearing?
    ensures Step(s, Resume(id)) == s.HostCleared(id)
  {
  }

  /** The sign-in waits for a save that has succeeded, and the window for a clear that has run. */
  predicate AboutToMix(s: State, id: nat, window: nat) {
    && Enabled(s, Resume(id)) && s.tasks[id].LoginSaving? && s.tasks[id].generation == s.generation
    && s.results[s.tasks[id].op]
    && Enabled(s, Resume(window)) && s.tasks[window].HostClearing?
    && s.tasks[window].target != s.tasks[id].session.token.host
  }

  /** A sign-in that commits before a change to another Host finishes. */
  lemma CommitsTooEarly(s: State, id: nat, window: nat)
    requires AboutToMix(s, id, window)
    ensures !TokenFitsHost(Run(s, [Resume(id), Resume(window)]))
  {
    var next := s.LoginSaved(id, true);
    LoginResumes(s, id);
    assert next.tasks[window] == s.tasks[window] && next.results == s.results;
    HostChangeResumes(next, window);
    RunCons(s, Resume(id), [Resume(window)] + []);
    RunCons(next, Resume(window), []);
    assert [Resume(id)] + ([Resume(window)] + []) == [Resume(id), Resume(window)];
  }

  /** A sign-in answered and saved while storage works. */
  lemma SignsIn(s: State)
    requires Shape(s) && s.CanSignIn()
    ensures var id := |s.tasks|;
      var end := Run(s.StartLogin(), SignInAnswers(s));
      && |end.tasks| == id + 1 && end.tasks[id].LoginSaving? && end.tasks[id].generation == end.generation
      && end.tasks[id].session.token.host == s.baseUrl
      && end.tasks[id].op == |s.log| && |end.results| == |s.log| + 1 && end.results[|s.log|]
      && forall i :: 0 <= i < id ==> end.tasks[i] == s.tasks[i]
  {
    var id, s1 := |s.tasks|, s.StartLogin();
    var answer := LoginAnswer(id, "t", User("a", ""));
    var s2 := s1.LoginAnswered(id, "t", User("a", ""));
    assert Step(s1, answer) == s2;
    RunCons(s1, answer, Drain(|s.log| + 1 - |s.results|));
    Drained(s2);
  }

  lemma UnluckyIsCareful(s: State, window: nat)
    requires |s.results| <= |s.log|
    ensures CarefulRun(s.StartLogin(), Unlucky(s, window))
  {
    NoLoginIsCareful(s.StartLogin(), Unlucky(s, window));
  }

  lemma MixesAfter(s: State, start: seq<Event>, id: nat, window: nat)
    requires AboutToMix(Run(s, start), id, window)
    ensures !TokenFitsHost(Run(s, start + [Resume(id), Resume(window)]))
  {
    CommitsTooEarly(Run(s, start), id, window);
    RunAppend(s, start, [Resume(id), Resume(window)]);
  }

  lemma SignsInBeside(s: State, window: nat)
    requires Shape(s) && s.CanSignIn() && window < |s.tasks|
    requires s.tasks[window].HostClearing? && s.tasks[window].target != s.baseUrl
    ensures AboutToMix(Run(s.StartLogin(), SignInAnswers(s)), |s.tasks|, window)
  {
    SignsIn(s);
    assert InRange(s, s.tasks[window]);
  }

  lemma UnluckyMixesHosts(s: State, window: nat)
    requires Shape(s) && s.CanSignIn() && window < |s.tasks|
    requires s.tasks[window].HostClearing? && s.tasks[window].target != s.baseUrl
    ensures CarefulRun(s.StartLogin(), Unlucky(s, window))
    ensures !TokenFitsHost(Run(s.StartLogin(), Unlucky(s, window)))
  {
    SignsInBeside(s, window);
    MixesAfter(s.StartLogin(), SignInAnswers(s), |s.tasks|, window);
    UnluckyIsCareful(s, window);
  }

  /**
   Exactly when it is safe to start a sign-in: when every Host change that is waiting to
   finish leads to the Host already in use. Otherwise the answers can come in an order
   that shows one Host's token at another Host.
   */
  lemma SignInIsSafeIff(s: State, before: seq<Event>, now: State)
    requires Initial(s) && CarefulRun(s, before) && now == Run(s, before) && now.CanSignIn()
    ensures WindowsAgree(now) <==>
      forall events :: CarefulRun(now.StartLogin(), events) ==> TokenFitsHost(Run(now.StartLogin(), events))
  {
    InitialHolds(s);
    CarefulRunKeepsHosts(s, before);
    if WindowsAgree(now) {
      StepKeepsHosts(now, Login);
      forall events | CarefulRun(now.StartLogin(), events) ensures TokenFitsHost(Run(now.StartLogin(), events)) {
        CarefulRunKeepsHosts(now.StartLogin(), events);
      }
    } else {
      var window :| 0 <= window < |now.tasks| && now.tasks[window].HostClearing? && now.tasks[window].target != now.baseUrl;
      UnluckyMixesHosts(now, window);
    }
  }

  lemma HostIsProbed(s: State, target: Host)
    ensures Step(s, ChangeHost(target)) == s.Begin(HostProbing(s.api, s.baseUrl, target))
  {
  }

  lemma HostIsLeft(s: State, id: nat)
    requires id < |s.tasks| && s.tasks[id].HostProbing? && s.tasks[id].target != s.tasks[id].host
    ensures var next := Step(s, HostAnswer(id));
      && next.tasks == s.tasks[id := HostClearing(|s.log|, s.tasks[id].target)]
      && next.log == s.log + [Clear] && next.results == s.results && next.baseUrl == s.baseUrl && next.user.None?
  {
  }

  lemma BothChangesLeave(s: State, s4: State)
    requires Initial(s) && s.baseUrl == "a"
    requires s4 == Step(Step(Step(Step(s, ChangeHost("b")), ChangeHost("c")), HostAnswer(0)), HostAnswer(1))
    ensures s4.tasks == [HostClearing(0, "b"), HostClearing(1, "c")] && s4.user.None?
    ensures s4.log == [Clear, Clear] && s4.results == []
  {
    HostIsProbed(s, "b");
    var s1 := Step(s, ChangeHost("b"));
    HostIsProbed(s1, "c");
    var s2 := Step(s1, ChangeHost("c"));
    HostIsLeft(s2, 0);
    HostIsLeft(Step(s2, HostAnswer(0)), 1);
  }

  lemma FirstChangeFinishes(s4: State, s6: State)
    requires s4.tasks == [HostClearing(0, "b"), HostClearing(1, "c")] && s4.user.None?
    requires s4.log == [Clear, Clear] && s4.results == []
    requires s6 == Step(Step(s4, StorageRuns(true)), Resume(0))
    ensures s6.tasks == [Ended, HostClearing(1, "c")] && s6.baseUrl == "b" && s6.CanSignIn()
  {
    var s5 := s4.RunNext(true);
    assert Step(s4, StorageRuns(true)) == s5;
    HostChangeResumes(s5, 0);
  }

  /** Two Host changes probed at the same time; the first finishes, which shows the login form. */
  lemma TwoHostChanges(s: State) returns (events: seq<Event>)
    requires Initial(s) && s.baseUrl == "a"
    ensures CarefulRun(s, events)
    ensures var end := Run(s, events);
      end.CanSignIn() && |end.tasks| == 2 && end.tasks[1] == HostClearing(1, "c") && end.baseUrl == "b"
  {
    events := [ChangeHost("b"), ChangeHost("c"), HostAnswer(0), HostAnswer(1), StorageRuns(true), Resume(0)];
    StepsOneByOne(s, events);
    var s4 := Step(Step(Step(Step(s, ChangeHost("b")), ChangeHost("c")), HostAnswer(0)), HostAnswer(1));
    BothChangesLeave(s, s4);
    FirstChangeFinishes(s4, Run(s, events));
    NoLoginIsCareful(s, events);
  }

  lemma StepsOneByOne(s: State, e: seq<Event>)
    requires |e| == 6
    ensures Run(s, e) == Step(Step(Step(Step(Step(Step(s, e[0]), e[1]), e[2]), e[3]), e[4]), e[5])
  {
    var s1 := Step(s, e[0]);
    var s2 := Step(s1, e[1]);
    var s3 := Step(s2, e[2]);
    var s4 := Step(s3, e[3]);
    var s5 := Step(s4, e[4]);
    RunCons(s, e[0], e[1..]);
    RunCons(s1, e[1], e[2..]);
    RunCons(s2, e[2], e[3..]);
    RunCons(s3, e[3], e[4..]);
    RunCons(s4, e[4], e[5..]);
    RunCons(s5, e[5], e[6..]);
    assert [e[0]] + e[1..] == e && [e[1]] + e[2..] == e[1..] && [e[2]] + e[3..] == e[2..];
    assert [e[3]] + e[4..] == e[3..] && [e[4]] + e[5..] == e[4..] && [e[5]] + e[6..] == e[5..];
  }

  /** Overlapping Host changes let a sign-in start too early: its token ends up at another Host. */
  lemma OverlappingHostChangesMixHosts(s: State)
    requires Initial(s) && s.baseUrl == "a"
    ensures exists events :: !TokenFitsHost(Run(s, events))
  {
    var changes := TwoHostChanges(s);
    InitialHolds(s);
    RunKeepsInv(s, changes);
    var now := Run(s, changes);
    UnluckyMixesHosts(now, 1);
    var late := [Login] + Unlucky(now, 1);
    RunCons(now, Login, Unlucky(now, 1));
    RunAppend(s, changes, late);
    assert !TokenFitsHost(Run(s, changes + late));
  }
}
