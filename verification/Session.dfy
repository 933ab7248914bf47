/**
 The OAuth session commands as state transitions: profiles create, update, delete and select
 (internal/config/config_cmd.go), login (internal/login/login.go), logout
 (internal/login/logout.go) and token revocation (internal/oauth/revoke.go).

 The profile store changes atomically. What the user answers, whether the store can be read
 and written, and what the authorization server replies is given by an Env. Refresh tokens
 are numbered in the order in which they are issued, and know their issuer.
 */
module Session {
  import opened Wrappers

  datatype Refresh = Refresh(issuer: string, id: nat)

  // None stands for the empty refresh token.
  datatype OAuthState = OAuthState(clientID: string, refresh: Option<Refresh>, expiresAt: int)

  const EMPTY_OAUTH := OAuthState("", None, 0)

  datatype Configuration = Configuration(
    apiUrl: string, authToken: string, otlpUrl: string, dataset: string, oauth: Option<OAuthState>)

  /** What happened outside the profile store. */
  datatype Effect = Issued(token: Refresh) | Persisted(name: string) | RevokeTried(url: string, token: Refresh)

  /** issuers[i] is the authorization server that issued token i. */
  datatype World = World(profiles: map<string, Configuration>, active: string, issuers: seq<string>, log: seq<Effect>)

  const EMPTY_WORLD := World(map[], "", [], [])

  datatype Answer = Yes | No | Unreadable

  datatype Exchange = Refused | Granted(access: string, hasRefresh: bool, expiresIn: int, clientID: string)

  datatype Env = Env(
    agentMode: bool, terminal: bool,
    storeReads: bool, storeWrites: bool,
    answer: Answer,
    apiUrlVariable: string, // DASH0_API_URL
    authorizes: bool, // discovery, PKCE check, registration, browser and callback all succeed
    exchange: Exchange,
    honours: bool, // the server accepts a revocation
    now: int,
    activeAfter: string) // which profile the store makes active when one is added or removed

  datatype Failure =
    | NotInteractive | NeedsForce | FlagConflict | NothingToChange | NoActiveProfile | NoSuchProfile | NotOAuth
    | StoreUnreadable | StoreUnwritable | NoApiUrl | Aborted | PromptFailed
    | AuthorizationFailed | ExchangeFailed | NoRefreshToken | EmptyAccessToken | BadExpiry | NotPersisted | NotPersistedNorRevoked

  // The note of a success tells that a token stays valid on its server.
  datatype Outcome = Done(note: bool) | Failed(failure: Failure)

  const MAX_ACCESS_TOKEN_LIFETIME_SECONDS := 24 * 60 * 60

  // ----- Shared pieces -----

  datatype ProfileState = Missing | NoAuth | Static | OAuthEmpty | OAuthActive

  /** authKind of profiles list. */
  function AuthKind(c: Configuration): ProfileState {
    if c.oauth.Some? && c.oauth.value.refresh.Some? then OAuthActive
    else if c.oauth.Some? then OAuthEmpty
    else if c.authToken != "" then Static
    else NoAuth
  }

  /** classifyProfile of login. */
  function ClassifyProfile(w: World, name: string): ProfileState {
    if name !in w.profiles then Missing
    else
      var c := w.profiles[name];
      if c.oauth.None? && c.authToken == "" then NoAuth
      else if c.oauth.None? then Static
      else if c.oauth.value.refresh.None? then OAuthEmpty
      else OAuthActive
  }

  function RefreshOf(c: Configuration): Option<Refresh> {
    if c.oauth.Some? then c.oauth.value.refresh else None
  }

  function RefreshAt(w: World, name: string): Option<Refresh> {
    if name in w.profiles then RefreshOf(w.profiles[name]) else None
  }

  function ApiUrlAt(w: World, name: string): string {
    if name in w.profiles then w.profiles[name].apiUrl else ""
  }

  /** ConfirmDestructiveOperation: Done to go on. */
  function Confirm(e: Env, force: bool): Outcome {
    if force || e.agentMode then Done(false)
    else match e.answer
      case Yes => Done(false)
      case No => Failed(Aborted)
      case Unreadable => Failed(PromptFailed)
  }

  /** A revocation request, unless there is no token or nowhere to send it. */
  function Revoke(w: World, url: string, token: Option<Refresh>): World {
    if token.None? || url == "" then w else w.(log := w.log + [RevokeTried(url, token.value)])
  }

  /** What Revoke returns: true for a success and for a request not made. */
  function RevokeOk(e: Env, url: string, token: Option<Refresh>): bool {
    token.None? || url == "" || e.honours
  }

  function Put(w: World, name: string, c: Configuration): World {
    w.(profiles := w.profiles[name := c])
  }

  function ActiveName(w: World, e: Env): string {
    if e.storeReads && w.active in w.profiles then w.active else ""
  }

  // ----- profiles create, delete, select -----

  datatype CreateFlags = CreateFlags(apiUrl: string, authToken: string, otlpUrl: string, dataset: string, oauth: bool)

  /** AddProfile on a name that exists either fails or replaces the profile: both are possible here. */
  function Create(w: World, name: string, f: CreateFlags, e: Env): (World, Outcome) {
    if f.oauth && f.authToken != "" then (w, Failed(FlagConflict))
    else if f.oauth && f.apiUrl == "" then (w, Failed(NoApiUrl))
    else if !e.storeWrites then (w, Failed(StoreUnwritable))
    else
      var c := Configuration(f.apiUrl, f.authToken, f.otlpUrl, f.dataset, if f.oauth then Some(EMPTY_OAUTH) else None);
      (Put(w, name, c).(active := e.activeAfter), Done(false))
  }

  function Delete(w: World, name: string, e: Env): (World, Outcome) {
    if !e.storeWrites || name !in w.profiles then (w, Failed(StoreUnwritable))
    else (w.(profiles := w.profiles - {name}, active := e.activeAfter), Done(false))
  }

  function Select(w: World, name: string, e: Env): (World, Outcome) {
    if !e.storeWrites || name !in w.profiles then (w, Failed(StoreUnwritable)) else (w.(active := name), Done(false))
  }

  // ----- profiles update -----

  // None stands for a flag that was not given.
  datatype UpdateFlags = UpdateFlags(
    apiUrl: Option<string>, authToken: Option<string>, otlpUrl: Option<string>, dataset: Option<string>,
    oauth: Option<bool>, force: bool)

  function Given<T>(flag: Option<T>, before: T): T {
    if flag.Some? then flag.value else before
  }

  function TargetOAuth(f: UpdateFlags, c: Configuration): bool {
    if f.oauth.Some? then f.oauth.value else c.oauth.Some?
  }

  function Updated(f: UpdateFlags, c: Configuration): Configuration {
    var token := if f.oauth.Some? then "" else c.authToken;
    Configuration(
      Given(f.apiUrl, c.apiUrl), Given(f.authToken, token), Given(f.otlpUrl, c.otlpUrl), Given(f.dataset, c.dataset),
      if f.oauth.None? then c.oauth else if f.oauth.value then Some(EMPTY_OAUTH) else None)
  }

  /** The transitions that ask first: a static token to be discarded, OAuth tokens to be revoked. */
  predicate Destroys(f: UpdateFlags, c: Configuration) {
    && f.oauth.Some?
    && c.oauth.Some? != f.oauth.value
    && (c.authToken != "" || RefreshOf(c).Some?)
  }

  predicate LeavesOAuth(f: UpdateFlags, c: Configuration) {
    c.oauth.Some? && f.oauth == Some(false)
  }

  /** An OAuth profile that leaves OAuth has its token revoked before the write. */
  function WriteUpdate(w: World, name: string, f: UpdateFlags, c: Configuration, e: Env): (World, Outcome) {
    var w1 := if LeavesOAuth(f, c) then Revoke(w, c.apiUrl, RefreshOf(c)) else w;
    if !e.storeWrites then (w1, Failed(StoreUnwritable))
    else (Put(w1, name, Updated(f, c)), Done(LeavesOAuth(f, c) && !RevokeOk(e, c.apiUrl, RefreshOf(c))))
  }

  function Update(w: World, name: string, f: UpdateFlags, e: Env): (World, Outcome) {
    if f.apiUrl.None? && f.authToken.None? && f.otlpUrl.None? && f.dataset.None? && f.oauth.None? then
      (w, Failed(NothingToChange))
    else if f.oauth == Some(true) && f.authToken.Some? && f.authToken.value != "" then (w, Failed(FlagConflict))
    else if !e.storeReads then (w, Failed(StoreUnreadable))
    else if name !in w.profiles then (w, Failed(NoSuchProfile))
    else
      var c := w.profiles[name];
      if f.authToken.Some? && c.oauth.Some? && TargetOAuth(f, c) then (w, Failed(FlagConflict))
      else if Destroys(f, c) && e.agentMode && !f.force then (w, Failed(NeedsForce))
      else if Destroys(f, c) && Confirm(e, f.force).Failed? then (w, Confirm(e, f.force))
      else WriteUpdate(w, name, f, c, e)
  }

  // ----- login -----

  // An empty name or URL stands for a flag that was not given.
  datatype LoginOptions = LoginOptions(profileName: string, apiUrl: string)

  datatype LoginTarget = LoginTarget(
    name: string, state: ProfileState, oldRefresh: Option<Refresh>, existingApiUrl: string, apiUrl: string)

  /** Flag, environment, existing profile, and the active profile only for an implicit target. */
  function ResolveTargetApiUrl(flag: string, variable: string, existing: string, implicit: bool, active: string): string {
    if flag != "" then flag
    else if variable != "" then variable
    else if existing != "" then existing
    else if implicit then active
    else ""
  }

  function ResolveLoginTarget(w: World, o: LoginOptions, e: Env): Result<LoginTarget, Failure> {
    var name := if o.profileName != "" then o.profileName else ActiveName(w, e);
    if name == "" then Err(NoActiveProfile)
    else if !e.storeReads then Err(StoreUnreadable)
    else
      var existing := ApiUrlAt(w, name);
      var url := ResolveTargetApiUrl(o.apiUrl, e.apiUrlVariable, existing, o.profileName == "", ApiUrlAt(w, w.active));
      if url == "" then Err(NoApiUrl)
      else Ok(LoginTarget(name, ClassifyProfile(w, name), RefreshAt(w, name), existing, url))
  }

  function PromptForDestructiveTransition(t: LoginTarget, e: Env): Outcome {
    match t.state
    case OAuthEmpty => Done(false)
    case OAuthActive => Done(false)
    case _ => Confirm(e, false)
  }

  function Issue(w: World, issuer: string): World {
    w.(issuers := w.issuers + [issuer], log := w.log + [Issued(Refresh(issuer, |w.issuers|))])
  }

  function LoggedIn(w: World, t: LoginTarget, token: Refresh, g: Exchange, now: int): Configuration
    requires g.Granted?
  {
    var lifetime := if g.expiresIn > MAX_ACCESS_TOKEN_LIFETIME_SECONDS then MAX_ACCESS_TOKEN_LIFETIME_SECONDS else g.expiresIn;
    var oauth := Some(OAuthState(g.clientID, Some(token), now + lifetime));
    if t.name in w.profiles then w.profiles[t.name].(apiUrl := t.apiUrl, authToken := g.access, oauth := oauth)
    else Configuration(t.apiUrl, g.access, "", "", oauth)
  }

  /** exchangeAndValidateTokens: the token, if it is to be persisted. */
  function ExchangeTokens(w: World, t: LoginTarget, e: Env): (World, Result<Refresh, Failure>) {
    match e.exchange
    case Refused => (w, Err(ExchangeFailed))
    case Granted(access, hasRefresh, expiresIn, _) =>
      if !hasRefresh then (w, Err(NoRefreshToken))
      else
        var token, w1 := Refresh(t.apiUrl, |w.issuers|), Issue(w, t.apiUrl);
        if access == "" then (Revoke(w1, t.apiUrl, Some(token)), Err(EmptyAccessToken))
        else if expiresIn <= 0 then (Revoke(w1, t.apiUrl, Some(token)), Err(BadExpiry))
        else (w1, Ok(token))
  }

  function PersistAndRevokeOld(w: World, t: LoginTarget, token: Refresh, e: Env): (World, Outcome)
    requires e.exchange.Granted?
  {
    if !e.storeWrites then
      (Revoke(w, t.apiUrl, Some(token)),
       Failed(if RevokeOk(e, t.apiUrl, Some(token)) then NotPersisted else NotPersistedNorRevoked))
    else
      var w1 := Put(w, t.name, LoggedIn(w, t, token, e.exchange, e.now));
      var w2 := w1.(active := if t.name in w.profiles then w.active else e.activeAfter, log := w1.log + [Persisted(t.name)]);
      // With no URL recorded nothing is sent, and the note says so.
      (Revoke(w2, t.existingApiUrl, t.oldRefresh), Done(t.oldRefresh.Some? && (t.existingApiUrl == "" || !e.honours)))
  }

  function Login(w: World, o: LoginOptions, e: Env): (World, Outcome) {
    if e.agentMode || !e.terminal then (w, Failed(NotInteractive))
    else
      match ResolveLoginTarget(w, o, e)
      case Err(f) => (w, Failed(f))
      case Ok(t) =>
        var prompt := PromptForDestructiveTransition(t, e);
        if prompt.Failed? then (w, prompt)
        else if !e.authorizes then (w, Failed(AuthorizationFailed))
        else
          var (w1, token) := ExchangeTokens(w, t, e);
          match token
          case Err(f) => (w1, Failed(f))
          case Ok(token) => PersistAndRevokeOld(w1, t, token, e)
  }

  // ----- logout -----

  datatype LogoutOptions = LogoutOptions(profileName: string, force: bool)

  function Logout(w: World, o: LogoutOptions, e: Env): (World, Outcome) {
    if e.agentMode && !o.force then (w, Failed(NeedsForce))
    else
      var name := if o.profileName != "" then o.profileName else ActiveName(w, e);
      if !e.storeReads then (w, Failed(StoreUnreadable))
      else if name == "" then (w, Failed(NoActiveProfile))
      else if name !in w.profiles then (w, Failed(NoSuchProfile))
      else
        var c := w.profiles[name];
        if c.oauth.None? then (w, Failed(NotOAuth))
        else if c.oauth.value.refresh.None? then
          if c.authToken == "" then (w, Done(false))
          else if !e.storeWrites then (w, Failed(StoreUnwritable))
          else (Put(w, name, c.(authToken := "")), Done(false))
        else if Confirm(e, o.force).Failed? then (w, Confirm(e, o.force))
        else
          var w1 := Revoke(w, c.apiUrl, c.oauth.value.refresh);
          if !e.storeWrites then (w1, Failed(StoreUnwritable))
          else
            (Put(w1, name, c.(authToken := "", oauth := Some(EMPTY_OAUTH))),
             Done(!RevokeOk(e, c.apiUrl, c.oauth.value.refresh)))
  }

  // ----- Runs -----

  datatype Command =
    | CreateCmd(name: string, create: CreateFlags)
    | UpdateCmd(name: string, update: UpdateFlags)
    | DeleteCmd(name: string)
    | SelectCmd(name: string)
    | LoginCmd(login: LoginOptions)
    | LogoutCmd(logout: LogoutOptions)

  function Execute(w: World, cmd: Command, e: Env): (World, Outcome) {
    match cmd
    case CreateCmd(name, f) => Create(w, name, f, e)
    case UpdateCmd(name, f) => Update(w, name, f, e)
    case DeleteCmd(name) => Delete(w, name, e)
    case SelectCmd(name) => Select(w, name, e)
    case LoginCmd(o) => Login(w, o, e)
    case LogoutCmd(o) => Logout(w, o, e)
  }

  function Run(cmds: seq<(Command, Env)>): World {
    if cmds == [] then EMPTY_WORLD
    else Execute(Run(cmds[..|cmds| - 1]), cmds[|cmds| - 1].0, cmds[|cmds| - 1].1).0
  }
}
