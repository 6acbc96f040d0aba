/**
 The session gate itself (`MatchboxSessionGate`): each method is one stretch of an action
 between two awaits, written field by field and proved to be that step of the machine.
 */
module MatchboxSession {
  import opened Wrappers
  import opened SessionQueue
  import opened StudentSession
  import opened SessionInvariant
  import SessionGuarantees

  class Gate {
    var sessionGeneration: nat
    var refreshInFlight: Option<Flight>
    var baseUrl: Host
    var api: nat
    var apis: seq<Api>
    var user: Option<User>
    var token: Option<Token>
    var online: bool
    var loading: bool
    var tasks: seq<Task>
    const queue: Queue

    /** What the fields need to make up a state at all. */
    ghost predicate Wired()
      reads this, queue
    {
      queue.Valid() && api < |apis|
    }

    ghost function Now(): State
      requires Wired()
      reads this, queue
    {
      State(sessionGeneration, refreshInFlight, baseUrl, api, apis, user, token, online, loading,
                  queue.operations, queue.Results(), queue.storage, tasks)
    }

    /** The invariant of the session, which every event keeps. */
    ghost predicate Valid()
      reads this, queue
    {
      Wired() && Inv(Now())
    }

    /** Starting up has ended, with or without a stored session. */
    constructor (host: Host, stored: Option<Session>, storage: Option<Saved>, reached: bool)
      requires stored.Some? ==>
                 && stored.value.token.host == host
                 && stored.value.token.account == stored.value.user.account
      requires storage.Some? ==>
                 && stored.Some? && storage.value.generation == 0
                 && storage.value.session.host == host && storage.value.session.token == stored.value.token
                 && storage.value.session.user.account == stored.value.user.account
      ensures Valid() && SessionGuarantees.Initial(Now())
      ensures Now().baseUrl == host && Now().storage == storage && Now().online == reached
      ensures Now().user == (if stored.Some? then Some(stored.value.user) else None)
      ensures Now().token == (if stored.Some? then Some(stored.value.token) else None)
    {
      sessionGeneration, refreshInFlight := 0, None;
      baseUrl := host;
      user := if stored.Some? then Some(stored.value.user) else None;
      token := if stored.Some? then Some(stored.value.token) else None;
      api := 0;
      apis := [Api(host, if stored.Some? then Some(stored.value.token) else None)];
      online, loading := reached, false;
      tasks := [];
      queue := new Queue(storage);
      new;
      SessionGuarantees.InitialHolds(Now());
    }

    method SetToken(connection: nat, t: Option<Token>)
      requires Wired() && connection < |apis|
      modifies this`apis
      ensures Wired() && Now() == old(Now()).SetApiToken(connection, t)
    {
      apis := apis[connection := apis[connection].(token := t)];
    }

    /** What refresh, account switch and Host change do alike when they drop the session. */
    method SignOut(connection: nat) returns (cleared: nat)
      requires Wired() && connection < |apis|
      modifies this, queue
      ensures Wired() && Now() == old(Now()).SignOut(connection)
      ensures cleared == |old(Now()).log|
    {
      sessionGeneration := sessionGeneration + 1;
      refreshInFlight := None;
      SetToken(connection, None);
      token := None;
      user := None;
      cleared := queue.Enqueue(Clear);
    }

    method Refresh()
      requires Wired()
      modifies this
      ensures Wired() && Now() == old(Now()).StartRefresh()
    {
      var generation := sessionGeneration;
      if refreshInFlight.Some? && refreshInFlight.value.generation == generation {
        return;
      }
      if user.None? || token.None? {
        return;
      }
      var tracked := |tasks|;
      tasks := tasks + [RefreshAsking(generation, api, baseUrl, token.value, user.value, apis[api].token)];
      refreshInFlight := Some(Flight(generation, tracked));
    }

    /** The `finally` of a refresh. */
    method EndRefresh(id: nat)
      requires Wired() && id < |tasks|
      modifies this`tasks, this`refreshInFlight
      ensures Wired() && Now() == old(Now()).EndRefresh(id)
    {
      tasks := tasks[id := Ended];
      if refreshInFlight.Some? && refreshInFlight.value.task == id {
        refreshInFlight := None;
      }
    }

    method MeAnswered(id: nat, profile: string)
      requires Wired() && id < |tasks| && tasks[id].RefreshAsking? && tasks[id].caller.Some?
      modifies this, queue
      ensures Wired() && Now() == old(Now()).MeAnswered(id, profile)
    {
      var t := tasks[id];
      var current := User(t.caller.value.account, profile);
      if t.generation != sessionGeneration {
        EndRefresh(id);
        return;
      }
      var identityChanged := current != t.user;
      if identityChanged {
        var op := queue.Enqueue(Save(Saved(Session(t.host, t.token, current), t.generation)));
        tasks := tasks[id := RefreshSaving(t.generation, op, current)];
      } else {
        online := true;
        EndRefresh(id);
      }
    }

    method RefreshSaved(id: nat)
      requires Wired() && id < |tasks| && tasks[id].RefreshSaving?
      modifies this
      ensures Wired() && Now() == old(Now()).RefreshSaved(id)
    {
      if tasks[id].generation == sessionGeneration {
        user := Some(tasks[id].current);
        online := true;
      }
      EndRefresh(id);
    }

    method MeFailed(id: nat, offline: bool)
      requires Wired() && id < |tasks| && tasks[id].RefreshAsking? && tasks[id].api < |apis|
      modifies this, queue
      ensures Wired() && Now() == old(Now()).MeFailed(id, offline)
    {
      var t := tasks[id];
      if t.generation != sessionGeneration {
        EndRefresh(id);
      } else if offline {
        online := false;
        EndRefresh(id);
      } else {
        var op := SignOut(t.api);
        tasks := tasks[id := RefreshClearing(op)];
      }
    }

    method Login()
      requires Wired()
      modifies this
      ensures Wired() && Now() == old(Now()).StartLogin()
    {
      var generation := sessionGeneration + 1;
      sessionGeneration := generation;
      refreshInFlight := None;
      tasks := tasks + [LoginAsking(generation, api, baseUrl)];
    }

    method LoginAnswered(id: nat, text: string, account: User)
      requires Wired() && id < |tasks| && tasks[id].LoginAsking? && tasks[id].api < |apis|
      modifies this, queue
      ensures Wired() && Now() == old(Now()).LoginAnswered(id, text, account)
    {
      var t := tasks[id];
      if t.generation != sessionGeneration {
        tasks := tasks[id := Ended];
        return;
      }
      var session := Session(t.host, Token(text, apis[t.api].host, account.account), account);
      var op := queue.Enqueue(Save(Saved(session, t.generation)));
      tasks := tasks[id := LoginSaving(t.generation, t.api, op, session)];
    }

    method LoginSaved(id: nat)
      requires Wired() && id < |tasks| && tasks[id].LoginSaving?
      requires tasks[id].op < |Now().results| && tasks[id].api < |apis|
      modifies this
      ensures Wired() && Now() == old(Now()).LoginSaved(id, old(Now()).results[old(tasks)[id].op])
    {
      var t := tasks[id];
      var saved := queue.Outcome(t.op);
      tasks := tasks[id := Ended];
      if t.generation != sessionGeneration || saved != Some(true) {
        return;
      }
      SetToken(t.api, Some(t.session.token));
      token := Some(t.session.token);
      user := Some(t.session.user);
      online := true;
    }

    method SwitchAccount()
      requires Wired()
      modifies this, queue
      ensures Wired() && Now() == old(Now()).SwitchAccount()
    {
      var op := SignOut(api);
      tasks := tasks + [SwitchClearing(op)];
    }

    method SaveConnection(normalized: Host)
      requires Wired()
      modifies this`tasks
      ensures Wired() && Now() == old(Now()).StartHostChange(normalized)
    {
      tasks := tasks + [HostProbing(api, baseUrl, normalized)];
    }

    method HostAnswered(id: nat)
      requires Wired() && id < |tasks| && tasks[id].HostProbing? && tasks[id].api < |apis|
      modifies this, queue
      ensures Wired() && Now() == old(Now()).HostAnswered(id)
    {
      var t := tasks[id];
      if t.target == t.host {
        online := true;
        tasks := tasks[id := Ended];
        return;
      }
      loading := true;
      var op := SignOut(t.api);
      tasks := tasks[id := HostClearing(op, t.target)];
    }

    method HostCleared(id: nat)
      requires Wired() && id < |tasks| && tasks[id].HostClearing?
      modifies this
      ensures Wired() && Now() == old(Now()).HostCleared(id)
    {
      var normalized := tasks[id].target;
      apis := apis + [Api(normalized, None)];
      baseUrl := normalized;
      api := |apis| - 1;
      online := true;
      loading := false;
      tasks := tasks[id := Ended];
    }

    method ChangePassword()
      requires Wired()
      modifies this`tasks
      ensures Wired() && Now() == old(Now()).StartPasswordChange()
    {
      if user.Some? {
        tasks := tasks + [PasswordAsking(sessionGeneration, baseUrl, token, apis[api].token)];
      }
    }

    method PasswordAnswered(id: nat, profile: string)
      requires Wired() && id < |tasks| && tasks[id].PasswordAsking? && tasks[id].caller.Some?
      modifies this, queue
      ensures Wired() && Now() == old(Now()).PasswordAnswered(id, profile)
    {
      var t := tasks[id];
      var updated := User(t.caller.value.account, profile);
      if t.generation != sessionGeneration {
        tasks := tasks[id := Ended];
      } else if t.held.Some? {
        var op := queue.Enqueue(Save(Saved(Session(t.host, t.held.value, updated), t.generation)));
        tasks := tasks[id := PasswordSaving(t.generation, op, updated)];
      } else {
        user := Some(updated);
        tasks := tasks[id := Ended];
      }
    }

    method PasswordSaved(id: nat)
      requires Wired() && id < |tasks| && tasks[id].PasswordSaving?
      modifies this
      ensures Wired() && Now() == old(Now()).PasswordSaved(id)
    {
      if tasks[id].generation == sessionGeneration {
        user := Some(tasks[id].updated);
      }
      tasks := tasks[id := Ended];
    }

    /** A rejected request, or the last wait of an action: nothing more happens. */
    method Finish(id: nat)
      requires Wired() && id < |tasks|
      modifies this`tasks
      ensures Wired() && Now() == old(Now()).Become(id, Ended)
    {
      tasks := tasks[id := Ended];
    }

    /** The storage queue runs whichever operation may run. */
    method RunStorage(i: nat, ok: bool)
      requires Wired() && queue.MayRun(i)
      modifies queue
      ensures Wired() && |old(Now()).results| < |old(Now()).log|
      ensures Now() == old(Now()).RunNext(ok)
    {
      queue.OnlyTheOldestMayRun(i);
      queue.Run(i, ok);
    }

    /** The operation that a waiting action waits for has ended. */
    method Resume(id: nat)
      requires Wired() && Shape(Now()) && Enabled(Now(), Event.Resume(id))
      modifies this
      ensures Wired() && Now() == Resumed(old(Now()), id)
    {
      assert InRange(Now(), tasks[id]);
      match tasks[id] {
        case RefreshSaving(_, _, _) => RefreshSaved(id);
        case RefreshClearing(_) => EndRefresh(id);
        case LoginSaving(_, _, _, _) => LoginSaved(id);
        case SwitchClearing(_) => Finish(id);
        case HostClearing(_, _) => HostCleared(id);
        case PasswordSaving(_, _, _) => PasswordSaved(id);
      }
    }

    /** What a person starts: each is the first stretch of an action. */
    method Start(e: Event)
      requires Wired() && Enabled(Now(), e)
      requires e.Refresh? || e.Login? || e.Switch? || e.ChangeHost? || e.ChangePassword?
      modifies this, queue
      ensures Wired() && Now() == Step(old(Now()), e)
    {
      match e {
        case Refresh => Refresh();
        case Login => Login();
        case Switch => SwitchAccount();
        case ChangeHost(target) => SaveConnection(target);
        case ChangePassword => ChangePassword();
      }
    }

    /** What the Host answers. */
    method Answer(e: Event)
      requires Wired() && Shape(Now()) && Enabled(Now(), e)
      requires e.Me? || e.MeFails? || e.LoginAnswer? || e.Fails? || e.HostAnswer? || e.PasswordAnswer?
      modifies this, queue
      ensures Wired() && Now() == Step(old(Now()), e)
    {
      assert InRange(Now(), tasks[e.id]);
      match e {
        case Me(id, profile) => MeAnswered(id, profile);
        case MeFails(id, offline) => MeFailed(id, offline);
        case LoginAnswer(id, text, account) => LoginAnswered(id, text, account);
        case Fails(id) => Finish(id);
        case HostAnswer(id) => HostAnswered(id);
        case PasswordAnswer(id, profile) => PasswordAnswered(id, profile);
      }
    }

    /** Any event that can happen is one step of the machine, and keeps the invariant. */
    method Handle(e: Event)
      requires Valid() && Enabled(Now(), e)
      modifies this, queue
      ensures Valid() && Now() == Step(old(Now()), e)
    {
      StepKeepsInv(Now(), e);
      if e.StorageRuns? {
        var next := queue.Next();
        RunStorage(next, e.ok);
      } else if e.Resume? {
        Resume(e.id);
      } else if e.Me? || e.MeFails? || e.LoginAnswer? || e.Fails? || e.HostAnswer? || e.PasswordAnswer? {
        Answer(e);
      } else {
        Start(e);
      }
    }
  }
}
