/**
 When the student session changes hands, event by event, and what an undisturbed sign-in,
 refresh, password change, account switch or Host change comes to.
 */
module SessionEffects {
  import opened Wrappers
  import opened SessionQueue
  import opened StudentSession
  import opened SessionInvariant

  // ----- when token and account change -----

  /** The student leaves, moves to another Host, or is refused by the Host of the session in use. */
  predicate SignsOut(s: State, e: Event) {
    && Enabled(s, e)
    && match e
       case Switch => true
       case HostAnswer(id) => s.tasks[id].target != s.tasks[id].host
       case MeFails(id, offline) => !offline && s.tasks[id].generation == s.generation
       case _ => false
  }

  /** A sign-in that is still current goes on after its session was really saved. */
  predicate SignsIn(s: State, e: Event) {
    && Enabled(s, e) && e.Resume?
    && var t := s.tasks[e.id];
       t.LoginSaving? && t.generation == s.generation && s.results[t.op]
  }

  /** The details of the account as a current refresh or password change has saved them. */
  function Renewal(s: State, e: Event): Option<User> {
    if Enabled(s, e) && e.Resume? then
      match s.tasks[e.id]
      case RefreshSaving(generation, _, current) => if generation == s.generation then Some(current) else None
      case PasswordSaving(generation, _, updated) => if generation == s.generation then Some(updated) else None
      case _ => None
    else None
  }

  /** The student's device is away from the school network. */
  predicate FindsOffline(s: State, e: Event) {
    Enabled(s, e) && e.MeFails? && e.offline && s.tasks[e.id].generation == s.generation
  }

  /** What the event makes of the session. */
  predicate Changes(s: State, e: Event, next: State) {
    if SignsOut(s, e) then
      next.token.None? && next.user.None? && next.log == s.log + [Clear] && next.generation == s.generation + 1
    else if SignsIn(s, e) then
      var session := s.tasks[e.id].session;
      next.token == Some(session.token) && next.user == Some(session.user) && next.log == s.log
    else
      && next.token == s.token
      && next.user == (if Renewal(s, e).Some? then Renewal(s, e) else s.user)
      && (next.log == s.log || (next.log != [] && next.log[..|next.log| - 1] == s.log && next.log[|s.log|].Save?))
  }

  /**
   Token and account are taken away, and the stored session with them, by exactly these
   events; they are taken over only by a saved sign-in; nothing else touches the token.
   */
  lemma WhenSessionChanges(s: State, e: Event)
    requires Inv(s)
    ensures Changes(s, e, Step(s, e))
  {
    if e.PasswordAnswer? && Enabled(s, e) {
      assert Grounded(s, s.tasks[e.id]);
    }
    if e.Resume? {
      WhenResumed(s, e);
    } else if e.Me? || e.LoginAnswer? || e.PasswordAnswer? {
      WhenSaved(s, e);
    } else {
      WhenNotSaved(s, e);
    }
  }

  /** Events that may sign the student out, and events that change nothing of the session. */
  lemma WhenNotSaved(s: State, e: Event)
    requires !e.Resume? && !e.Me? && !e.LoginAnswer? && !e.PasswordAnswer?
    ensures Changes(s, e, Step(s, e))
  {
  }

  /** Answers that are saved before they are shown. */
  lemma WhenSaved(s: State, e: Event)
    requires e.Me? || e.LoginAnswer? || e.PasswordAnswer?
    requires e.PasswordAnswer? && Enabled(s, e) && s.tasks[e.id].generation == s.generation ==> s.tasks[e.id].held.Some?
    ensures Changes(s, e, Step(s, e))
  {
  }

  lemma WhenResumed(s: State, e: Event)
    requires e.Resume?
    ensures Changes(s, e, Step(s, e))
  {
  }

  lemma SignedOutIff(s: State, e: Event)
    requires Inv(s) && s.token.Some?
    ensures Step(s, e).token.None? <==> SignsOut(s, e)
    ensures Step(s, e).user.None? <==> SignsOut(s, e)
  {
    WhenSessionChanges(s, e);
  }

  lemma SignedInIff(s: State, e: Event)
    requires Inv(s) && s.token.None?
    ensures Step(s, e).token.Some? <==> SignsIn(s, e)
  {
    WhenSessionChanges(s, e);
  }

  /** Away from school the session stays as it is, on screen and in storage; only the network mark changes. */
  lemma AwayKeepsSession(s: State, e: Event)
    requires Inv(s)
    ensures s.online ==> (!Step(s, e).online <==> FindsOffline(s, e))
    ensures FindsOffline(s, e) ==>
              var next := Step(s, e);
              && !next.online && next.user == s.user && next.token == s.token && next.apis == s.apis
              && next.log == s.log && next.storage == s.storage && next.generation == s.generation
  {
  }

  // ----- undisturbed actions -----

  lemma RunTwo(s: State, a: Event, b: Event)
    ensures Run(s, [a, b]) == Step(Step(s, a), b)
  {
    var s1 := Step(s, a);
    assert [a, b][1..] == [b] && [b][1..] == [];
    assert Run(s1, [b]) == Run(Step(s1, b), []);
  }

  lemma RunFour(s: State, a: Event, b: Event, c: Event, d: Event)
    ensures Run(s, [a, b, c, d]) == Step(Step(Step(Step(s, a), b), c), d)
  {
    var s1 := Step(s, a);
    var s2 := Step(s1, b);
    assert [a, b, c, d][1..] == [b, c, d] && [b, c, d][1..] == [c, d];
    assert Run(s1, [b, c, d]) == Run(s2, [c, d]);
    RunTwo(s2, c, d);
  }

  /** No storage operation is waiting. */
  predicate Drained(s: State) {
    |s.results| == |s.log|
  }

  /** What the invariant says of the connection and the account. */
  predicate Steady(s: State) {
    && Drained(s) && s.api < |s.apis| && s.apis[s.api].host == s.baseUrl
    && (s.user.Some? <==> s.token.Some?)
    && (s.token.Some? ==> s.user.value.account == s.token.value.account)
  }

  lemma IsSteady(s: State)
    requires Inv(s) && Drained(s)
    ensures Steady(s)
  {
  }

  /** The one operation waiting runs, and the action that waits for it goes on. */
  lemma RunsAndResumes(s: State, id: nat, ok: bool)
    requires id < |s.tasks| && |s.log| == |s.results| + 1 && AwaitedBy(s.tasks[id]) == Some(|s.results|)
    ensures Step(Step(s, StorageRuns(ok)), Resume(id)) == Resumed(s.RunNext(ok), id)
    ensures s.RunNext(ok).results[|s.results|] == ok
  {
  }

  lemma LastBecomes(s: State, t: Task, u: Task)
    ensures s.Begin(t).Become(|s.tasks|, u) == s.Begin(u)
  {
    assert (s.tasks + [t])[|s.tasks| := u] == s.tasks + [u];
  }

  function SignInSession(s: State, text: string, account: User): Session {
    Session(s.baseUrl, Token(text, s.baseUrl, account.account), account)
  }

  lemma SignInStarts(s: State, text: string, account: User)
    requires Steady(s) && s.CanSignIn()
    ensures var session := SignInSession(s, text, account);
      Step(Step(s, Login), LoginAnswer(|s.tasks|, text, account))
      == s.(generation := s.generation + 1, inFlight := None,
            tasks := s.tasks + [LoginSaving(s.generation + 1, s.api, |s.log|, session)],
            log := s.log + [Save(Saved(session, s.generation + 1))])
  {
    var s1 := Step(s, Login);
    assert s1 == s.StartLogin();
    var session := SignInSession(s, text, account);
    LastBecomes(s, LoginAsking(s.generation + 1, s.api, s.baseUrl),
                LoginSaving(s.generation + 1, s.api, |s.log|, session));
  }

  /** A sign-in shows and stores the account and its token if it can be saved, and neither if not. */
  lemma SignInWorks(s: State, text: string, account: User, ok: bool)
    requires Steady(s) && s.CanSignIn()
    ensures var id := |s.tasks|;
      var end := Run(s, [Login, LoginAnswer(id, text, account), StorageRuns(ok), Resume(id)]);
      var session := SignInSession(s, text, account);
      if ok then
        && end.user == Some(account) && end.token == Some(session.token) && end.ApiToken() == end.token && end.online
        && end.storage == Some(Saved(session, s.generation + 1))
      else end.user.None? && end.token.None? && end.storage == s.storage
  {
    var id := |s.tasks|;
    RunFour(s, Login, LoginAnswer(id, text, account), StorageRuns(ok), Resume(id));
    SignInStarts(s, text, account);
    RunsAndResumes(Step(Step(s, Login), LoginAnswer(id, text, account)), id, ok);
  }

  predicate CanAsk(s: State) {
    Steady(s) && s.token.Some? && s.ApiToken() == s.token
  }

  lemma RefreshAnswered(s: State, profile: string)
    requires CanAsk(s) && s.inFlight.None?
    ensures var current := User(s.token.value.account, profile);
      Step(Step(s, Refresh), Me(|s.tasks|, profile))
      == if current == s.user.value then s.(online := true, tasks := s.tasks + [Ended])
         else s.(inFlight := Some(Flight(s.generation, |s.tasks|)),
                 tasks := s.tasks + [RefreshSaving(s.generation, |s.log|, current)],
                 log := s.log + [Save(Saved(Session(s.baseUrl, s.token.value, current), s.generation))])
  {
    var s1 := Step(s, Refresh);
    var asking := RefreshAsking(s.generation, s.api, s.baseUrl, s.token.value, s.user.value, s.ApiToken());
    assert s1 == s.Begin(asking).(inFlight := Some(Flight(s.generation, |s.tasks|)));
    LastBecomes(s, asking, Ended);
    LastBecomes(s, asking, RefreshSaving(s.generation, |s.log|, User(s.token.value.account, profile)));
  }

  /** A refresh shows and stores what the Host now says of the account, under the same token. */
  lemma RefreshWorks(s: State, profile: string)
    requires CanAsk(s) && s.inFlight.None? && profile != s.user.value.profile
    ensures var id := |s.tasks|;
      var current := User(s.token.value.account, profile);
      var end := Run(s, [Refresh, Me(id, profile), StorageRuns(true), Resume(id)]);
      && end.user == Some(current) && end.token == s.token && end.online && end.inFlight.None?
      && end.storage == Some(Saved(Session(s.baseUrl, s.token.value, current), s.generation))
  {
    var id := |s.tasks|;
    RunFour(s, Refresh, Me(id, profile), StorageRuns(true), Resume(id));
    RefreshAnswered(s, profile);
    RunsAndResumes(Step(Step(s, Refresh), Me(id, profile)), id, true);
  }

  /** If the Host says nothing new, nothing is saved. */
  lemma RefreshWithoutNews(s: State)
    requires CanAsk(s) && s.inFlight.None?
    ensures Run(s, [Refresh, Me(|s.tasks|, s.user.value.profile)]) == s.(online := true, tasks := s.tasks + [Ended])
  {
    RunTwo(s, Refresh, Me(|s.tasks|, s.user.value.profile));
    RefreshAnswered(s, s.user.value.profile);
  }

  lemma PasswordIsAnswered(s: State, profile: string)
    requires CanAsk(s)
    ensures var updated := User(s.token.value.account, profile);
      Step(Step(s, ChangePassword), PasswordAnswer(|s.tasks|, profile))
      == s.(tasks := s.tasks + [PasswordSaving(s.generation, |s.log|, updated)],
            log := s.log + [Save(Saved(Session(s.baseUrl, s.token.value, updated), s.generation))])
  {
    var s1 := Step(s, ChangePassword);
    var asking := PasswordAsking(s.generation, s.baseUrl, s.token, s.ApiToken());
    assert s1 == s.Begin(asking);
    LastBecomes(s, asking, PasswordSaving(s.generation, |s.log|, User(s.token.value.account, profile)));
  }

  /** A new password shows and stores the account as it is then, under the same token. */
  lemma PasswordChangeWorks(s: State, profile: string, ok: bool)
    requires CanAsk(s)
    ensures var id := |s.tasks|;
      var updated := User(s.token.value.account, profile);
      var end := Run(s, [ChangePassword, PasswordAnswer(id, profile), StorageRuns(ok), Resume(id)]);
      && end.user == Some(updated) && end.token == s.token
      && end.storage == (if ok then Some(Saved(Session(s.baseUrl, s.token.value, updated), s.generation)) else s.storage)
  {
    var id := |s.tasks|;
    RunFour(s, ChangePassword, PasswordAnswer(id, profile), StorageRuns(ok), Resume(id));
    PasswordIsAnswered(s, profile);
    RunsAndResumes(Step(Step(s, ChangePassword), PasswordAnswer(id, profile)), id, ok);
  }

  /** Leaving takes the account off the screen, off the connection and out of storage. */
  lemma SwitchWorks(s: State, ok: bool)
    requires Steady(s) && s.user.Some?
    ensures var end := Run(s, [Switch, StorageRuns(ok)]);
      end.user.None? && end.token.None? && end.ApiToken().None? && end.storage.None?
  {
    RunTwo(s, Switch, StorageRuns(ok));
  }

  lemma HostIsLeft(s: State, target: Host)
    requires Steady(s) && target != s.baseUrl
    ensures Step(Step(s, ChangeHost(target)), HostAnswer(|s.tasks|))
         == s.(loading := true, generation := s.generation + 1, inFlight := None, token := None, user := None,
               apis := s.apis[s.api := Api(s.baseUrl, None)], log := s.log + [Clear],
               tasks := s.tasks + [HostClearing(|s.log|, target)])
  {
    var s1 := Step(s, ChangeHost(target));
    var probing := HostProbing(s.api, s.baseUrl, target);
    assert s1 == s.Begin(probing);
    LastBecomes(s, probing, HostClearing(|s.log|, target));
  }

  /** Moving to another Host ends at its address, signed out, with a connection of its own. */
  lemma HostChangeWorks(s: State, target: Host, ok: bool)
    requires Steady(s) && target != s.baseUrl
    ensures var id := |s.tasks|;
      var end := Run(s, [ChangeHost(target), HostAnswer(id), StorageRuns(ok), Resume(id)]);
      && end.baseUrl == target && end.apis == s.apis[s.api := Api(s.baseUrl, None)] + [Api(target, None)]
      && end.api == |s.apis|
      && end.user.None? && end.token.None? && end.storage.None? && end.online && !end.loading
  {
    var id := |s.tasks|;
    RunFour(s, ChangeHost(target), HostAnswer(id), StorageRuns(ok), Resume(id));
    HostIsLeft(s, target);
    RunsAndResumes(Step(Step(s, ChangeHost(target)), HostAnswer(id)), id, ok);
  }
}
