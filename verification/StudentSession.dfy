/**
 The student app's session as a state machine: login, refresh, password change, account
 switch and Host change, cut at every `await`. Each function is one stretch between two
 awaits; the answers of the Host and of the storage queue are events.
 */
module StudentSession {
  import opened Wrappers
  import opened SessionQueue

  /** A connection object: its Host is fixed, its token is set and removed. */
  datatype Api = Api(host: Host, token: Option<Token>)

  /**
   An action that is waiting, with what it took from the state when it started. `caller`
   is the token its request went out with; `op` is the storage operation it waits for.
   */
  datatype Task =
    | RefreshAsking(generation: nat, api: nat, host: Host, token: Token, user: User, caller: Option<Token>)
    | RefreshSaving(generation: nat, op: nat, current: User)
    | RefreshClearing(op: nat)
    | LoginAsking(generation: nat, api: nat, host: Host)
    | LoginSaving(generation: nat, api: nat, op: nat, session: Session)
    | SwitchClearing(op: nat)
    | HostProbing(api: nat, host: Host, target: Host)
    | HostClearing(op: nat, target: Host)
    | PasswordAsking(generation: nat, host: Host, held: Option<Token>, caller: Option<Token>)
    | PasswordSaving(generation: nat, op: nat, updated: User)
    | Ended

  /** `refreshInFlight.current`. */
  datatype Flight = Flight(generation: nat, task: nat)

  datatype State = State(generation: nat, inFlight: Option<Flight>,
                         baseUrl: Host, api: nat, apis: seq<Api>,
                         user: Option<User>, token: Option<Token>, online: bool, loading: bool,
                         log: seq<Operation>, results: seq<bool>, storage: Option<Saved>,
                         tasks: seq<Task>)
  {
    /** The token of the current connection object. */
    function ApiToken(): Option<Token> {
      if api < |apis| then apis[api].token else None
    }

    function Begin(task: Task): State {
      this.(tasks := tasks + [task])
    }

    function Become(id: nat, task: Task): State
      requires id < |tasks|
    {
      this.(tasks := tasks[id := task])
    }

    function Enqueue(op: Operation): State {
      this.(log := log + [op])
    }

    function SetApiToken(id: nat, t: Option<Token>): State {
      if id < |apis| then this.(apis := apis[id := apis[id].(token := t)]) else this
    }

    /** Bumps the generation, forgets the account and asks for the stored session to be cleared. */
    function SignOut(connection: nat): State {
      this.(generation := generation + 1, inFlight := None, token := None, user := None)
      .SetApiToken(connection, None).Enqueue(Clear)
    }

    // ----- refresh -----

    function StartRefresh(): State {
      if inFlight.Some? && inFlight.value.generation == generation then this
      else if user.None? || token.None? then this
      else
        Begin(RefreshAsking(generation, api, baseUrl, token.value, user.value, ApiToken()))
        .(inFlight := Some(Flight(generation, |tasks|)))
    }

    /** The `finally` of a refresh. */
    function EndRefresh(id: nat): State
      requires id < |tasks|
    {
      var cleared := inFlight.Some? && inFlight.value.task == id;
      Become(id, Ended).(inFlight := if cleared then None else inFlight)
    }

    /** The Host knows the caller and answers with its account as it is now. */
    function MeAnswered(id: nat, profile: string): State
      requires id < |tasks| && tasks[id].RefreshAsking? && tasks[id].caller.Some?
    {
      var t := tasks[id];
      var current := User(t.caller.value.account, profile);
      if t.generation != generation then EndRefresh(id)
      else if current != t.user then
        Enqueue(Save(Saved(Session(t.host, t.token, current), t.generation)))
        .Become(id, RefreshSaving(t.generation, |log|, current))
      else this.(online := true).EndRefresh(id)
    }

    function RefreshSaved(id: nat): State
      requires id < |tasks| && tasks[id].RefreshSaving?
    {
      var t := tasks[id];
      if t.generation != generation then EndRefresh(id)
      else this.(user := Some(t.current), online := true).EndRefresh(id)
    }

    function MeFailed(id: nat, offline: bool): State
      requires id < |tasks| && tasks[id].RefreshAsking?
    {
      var t := tasks[id];
      if t.generation != generation then EndRefresh(id)
      else if offline then this.(online := false).EndRefresh(id)
      else SignOut(t.api).Become(id, RefreshClearing(|log|))
    }

    // ----- login -----

    /** The login form is shown, and no login of the current generation is under way. */
    predicate CanSignIn() {
      && !loading && user.None?
      && forall t <- tasks :: !((t.LoginAsking? || t.LoginSaving?) && t.generation == generation)
    }

    function StartLogin(): State {
      this.(generation := generation + 1, inFlight := None)
      .Begin(LoginAsking(generation + 1, api, baseUrl))
    }

    /** The Host of the connection used issues a token to the account that signed in. */
    function LoginAnswered(id: nat, text: string, account: User): State
      requires id < |tasks| && tasks[id].LoginAsking? && tasks[id].api < |apis|
    {
      var t := tasks[id];
      if t.generation != generation then Become(id, Ended)
      else
        var session := Session(t.host, Token(text, apis[t.api].host, account.account), account);
        Enqueue(Save(Saved(session, t.generation))).Become(id, LoginSaving(t.generation, t.api, |log|, session))
    }

    function LoginSaved(id: nat, ok: bool): State
      requires id < |tasks| && tasks[id].LoginSaving?
    {
      var t := tasks[id];
      if t.generation != generation || !ok then Become(id, Ended)
      else
        SetApiToken(t.api, Some(t.session.token))
        .(token := Some(t.session.token), user := Some(t.session.user), online := true)
        .Become(id, Ended)
    }

    // ----- switching accounts and changing the Host -----

    function SwitchAccount(): State {
      SignOut(api).Begin(SwitchClearing(|log|))
    }

    function StartHostChange(target: Host): State {
      Begin(HostProbing(api, baseUrl, target))
    }

    /** The new Host answered the probe; `host` and `api` are those seen at the start. */
    function HostAnswered(id: nat): State
      requires id < |tasks| && tasks[id].HostProbing?
    {
      var t := tasks[id];
      if t.target == t.host then this.(online := true).Become(id, Ended)
      else this.(loading := true).SignOut(t.api).Become(id, HostClearing(|log|, t.target))
    }

    function HostCleared(id: nat): State
      requires id < |tasks| && tasks[id].HostClearing?
    {
      this.(baseUrl := tasks[id].target, api := |apis|, apis := apis + [Api(tasks[id].target, None)],
            online := true, loading := false)
      .Become(id, Ended)
    }

    // ----- changing the password -----

    function StartPasswordChange(): State {
      if user.None? then this else Begin(PasswordAsking(generation, baseUrl, token, ApiToken()))
    }

    function PasswordAnswered(id: nat, profile: string): State
      requires id < |tasks| && tasks[id].PasswordAsking? && tasks[id].caller.Some?
    {
      var t := tasks[id];
      var updated := User(t.caller.value.account, profile);
      if t.generation != generation then Become(id, Ended)
      else if t.held.None? then this.(user := Some(updated)).Become(id, Ended)
      else
        Enqueue(Save(Saved(Session(t.host, t.held.value, updated), t.generation)))
        .Become(id, PasswordSaving(t.generation, |log|, updated))
    }

    function PasswordSaved(id: nat): State
      requires id < |tasks| && tasks[id].PasswordSaving?
    {
      var t := tasks[id];
      if t.generation != generation then Become(id, Ended)
      else this.(user := Some(t.updated)).Become(id, Ended)
    }

    // ----- storage -----

    /** The oldest storage operation that has not run, runs. */
    function RunNext(ok: bool): State
      requires |results| < |log|
    {
      this.(storage := Stored(storage, log[|results|], ok), results := results + [ok])
    }
  }

  /** Everything that can happen; an event that is not possible changes nothing. */
  datatype Event =
    | Refresh
    | Me(id: nat, profile: string)
    | MeFails(id: nat, offline: bool)
    | Login
    | LoginAnswer(id: nat, text: string, account: User)
    | Fails(id: nat)
    | Switch
    | ChangeHost(target: Host)
    | HostAnswer(id: nat)
    | ChangePassword
    | PasswordAnswer(id: nat, profile: string)
    | StorageRuns(ok: bool)
    | Resume(id: nat)

  /** The storage operation that an action is waiting for. */
  function AwaitedBy(t: Task): Option<nat> {
    if t.RefreshSaving? || t.RefreshClearing? || t.LoginSaving? || t.SwitchClearing? || t.HostClearing? || t.PasswordSaving?
    then Some(t.op) else None
  }

  /** The operation an action waits for has ended, and the action goes on. */
  function Resumed(s: State, id: nat): State
    requires id < |s.tasks| && AwaitedBy(s.tasks[id]).Some?
    requires AwaitedBy(s.tasks[id]).value < |s.results|
  {
    match s.tasks[id]
    case RefreshSaving(_, _, _) => s.RefreshSaved(id)
    case RefreshClearing(_) => s.EndRefresh(id)
    case LoginSaving(_, _, op, _) => s.LoginSaved(id, s.results[op])
    case SwitchClearing(_) => s.Become(id, Ended)
    case HostClearing(_, _) => s.HostCleared(id)
    case PasswordSaving(_, _, _) => s.PasswordSaved(id)
  }

  /** A rejected sign-in, an unanswered probe or a refused password just ends its action. */
  predicate MayFail(t: Task) {
    t.LoginAsking? || t.HostProbing? || t.PasswordAsking?
  }

  predicate Enabled(s: State, e: Event) {
    match e
    case Refresh => true
    case Me(id, _) => id < |s.tasks| && s.tasks[id].RefreshAsking? && s.tasks[id].caller.Some?
    case MeFails(id, _) => id < |s.tasks| && s.tasks[id].RefreshAsking?
    case Login => s.CanSignIn()
    case LoginAnswer(id, _, _) => id < |s.tasks| && s.tasks[id].LoginAsking? && s.tasks[id].api < |s.apis|
    case Fails(id) => id < |s.tasks| && MayFail(s.tasks[id])
    case Switch => s.user.Some?
    case ChangeHost(_) => true
    case HostAnswer(id) => id < |s.tasks| && s.tasks[id].HostProbing?
    case ChangePassword => s.user.Some?
    case PasswordAnswer(id, _) => id < |s.tasks| && s.tasks[id].PasswordAsking? && s.tasks[id].caller.Some?
    case StorageRuns(_) => |s.results| < |s.log|
    case Resume(id) =>
      id < |s.tasks| && AwaitedBy(s.tasks[id]).Some? && AwaitedBy(s.tasks[id]).value < |s.results|
  }

  function Step(s: State, e: Event): State {
    if !Enabled(s, e) then s
    else
      match e
      case Refresh => s.StartRefresh()
      case Me(id, profile) => s.MeAnswered(id, profile)
      case MeFails(id, offline) => s.MeFailed(id, offline)
      case Login => s.StartLogin()
      case LoginAnswer(id, text, account) => s.LoginAnswered(id, text, account)
      case Fails(id) => s.Become(id, Ended)
      case Switch => s.SwitchAccount()
      case ChangeHost(target) => s.StartHostChange(target)
      case HostAnswer(id) => s.HostAnswered(id)
      case ChangePassword => s.StartPasswordChange()
      case PasswordAnswer(id, profile) => s.PasswordAnswered(id, profile)
      case StorageRuns(ok) => s.RunNext(ok)
      case Resume(id) => Resumed(s, id)
  }

  function Run(s: State, events: seq<Event>): State
    decreases |events|
  {
    if events == [] then s else Run(Step(s, events[0]), events[1..])
  }
}
