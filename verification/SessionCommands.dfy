/**
 The commands as they run, step by step, on the profile store and the authorization server.
 Each method does what its transition in Session says.
 */
module SessionCommands {
  import opened Session
  import opened Wrappers

  class Cli {
    var profiles: map<string, Configuration>
    var active: string
    var issuers: seq<string>
    var log: seq<Effect>

    ghost function State(): World
      reads this
    {
      World(profiles, active, issuers, log)
    }

    constructor ()
      ensures State() == EMPTY_WORLD
    {
      profiles, active, issuers, log := map[], "", [], [];
    }

    /** UpdateProfile or AddProfile of the store. */
    method WriteProfile(name: string, c: Configuration)
      modifies this`profiles
      ensures profiles == old(profiles)[name := c]
    {
      profiles := profiles[name := c];
    }

    /** Revoke: true for a success and for a request not made, false for a failure. */
    method RevokeToken(url: string, token: Option<Refresh>, e: Env) returns (ok: bool)
      modifies this`log
      ensures State() == Revoke(old(State()), url, token)
      ensures !ok <==> log != old(log) && !e.honours
    {
      if token.None? || url == "" {
        return true;
      }
      log := log + [RevokeTried(url, token.value)];
      ok := e.honours;
    }

    method CreateProfile(name: string, f: CreateFlags, e: Env) returns (outcome: Outcome)
      modifies this
      ensures (State(), outcome) == Create(old(State()), name, f, e)
    {
      if f.oauth && f.authToken != "" {
        return Failed(FlagConflict);
      }
      if f.oauth && f.apiUrl == "" {
        return Failed(NoApiUrl);
      }
      if !e.storeWrites {
        return Failed(StoreUnwritable);
      }
      var c := Configuration(f.apiUrl, f.authToken, f.otlpUrl, f.dataset, None);
      if f.oauth {
        c := c.(oauth := Some(EMPTY_OAUTH));
      }
      WriteProfile(name, c);
      active := e.activeAfter;
      return Done(false);
    }

    method UpdateProfile(name: string, f: UpdateFlags, e: Env) returns (outcome: Outcome)
      modifies this
      ensures (State(), outcome) == Update(old(State()), name, f, e)
    {
      hide Destroys, Confirm, WriteUpdate;
      if f.apiUrl.None? && f.authToken.None? && f.otlpUrl.None? && f.dataset.None? && f.oauth.None? {
        return Failed(NothingToChange);
      }
      if f.oauth == Some(true) && f.authToken.Some? && f.authToken.value != "" {
        return Failed(FlagConflict);
      }
      if !e.storeReads {
        return Failed(StoreUnreadable);
      }
      if name !in profiles {
        return Failed(NoSuchProfile);
      }
      var existing := profiles[name];
      var currentlyOAuth := existing.oauth.Some?;
      var targetOAuth := if f.oauth.Some? then f.oauth.value else currentlyOAuth;
      if f.authToken.Some? && currentlyOAuth && targetOAuth {
        return Failed(FlagConflict);
      }
      outcome := ConfirmTransition(f, existing, targetOAuth, e);
      if outcome.Failed? {
        return;
      }
      outcome := RevokeAndWrite(name, f, existing, targetOAuth, e);
    }

    method RevokeAndWrite(name: string, f: UpdateFlags, existing: Configuration, targetOAuth: bool, e: Env)
      returns (outcome: Outcome)
      requires targetOAuth == TargetOAuth(f, existing)
      modifies this
      ensures (State(), outcome) == WriteUpdate(old(State()), name, f, existing, e)
    {
      hide Updated;
      var revoked := true;
      if f.oauth.Some? && existing.oauth.Some? && !targetOAuth {
        revoked := RevokeToken(existing.apiUrl, existing.oauth.value.refresh, e);
      }
      if !e.storeWrites {
        return Failed(StoreUnwritable);
      }
      var c := ApplyUpdate(f, existing, targetOAuth);
      WriteProfile(name, c);
      return Done(!revoked);
    }

    /** The prompts of profiles update: to discard a static token, to revoke OAuth tokens. */
    method ConfirmTransition(f: UpdateFlags, existing: Configuration, targetOAuth: bool, e: Env) returns (outcome: Outcome)
      requires targetOAuth == TargetOAuth(f, existing)
      ensures outcome == if !Destroys(f, existing) then Done(false)
                         else if e.agentMode && !f.force then Failed(NeedsForce)
                         else Confirm(e, f.force)
    {
      outcome := Done(false);
      var currentlyOAuth := existing.oauth.Some?;
      if f.oauth.Some? && !currentlyOAuth && targetOAuth {
        if existing.authToken != "" {
          outcome := Ask(f.force, e);
        }
      }
      if f.oauth.Some? && currentlyOAuth && !targetOAuth {
        if existing.authToken != "" || existing.oauth.value.refresh.Some? {
          outcome := Ask(f.force, e);
        }
      }
    }

    /** A destructive transition needs force in agent mode, and else a yes. */
    method Ask(force: bool, e: Env) returns (outcome: Outcome)
      ensures outcome == if e.agentMode && !force then Failed(NeedsForce) else Confirm(e, force)
    {
      if e.agentMode && !force {
        return Failed(NeedsForce);
      }
      outcome := ConfirmDestructiveOperation(force, e);
    }

    /** Skipped with force and in agent mode; otherwise only a yes goes on. */
    method ConfirmDestructiveOperation(force: bool, e: Env) returns (outcome: Outcome)
      ensures outcome == Confirm(e, force)
    {
      if force || e.agentMode {
        return Done(false);
      }
      match e.answer
      case Yes => return Done(false);
      case No => return Failed(Aborted);
      case Unreadable => return Failed(PromptFailed);
    }

    /** The field assignments of profiles update. */
    method ApplyUpdate(f: UpdateFlags, existing: Configuration, targetOAuth: bool) returns (c: Configuration)
      requires targetOAuth == TargetOAuth(f, existing)
      ensures c == Updated(f, existing)
    {
      c := existing;
      if f.apiUrl.Some? {
        c := c.(apiUrl := f.apiUrl.value);
      }
      if f.otlpUrl.Some? {
        c := c.(otlpUrl := f.otlpUrl.value);
      }
      if f.dataset.Some? {
        c := c.(dataset := f.dataset.value);
      }
      if f.oauth.Some? {
        if targetOAuth {
          c := c.(authToken := "", oauth := Some(EMPTY_OAUTH));
        } else {
          c := c.(oauth := None, authToken := "");
        }
      }
      if f.authToken.Some? {
        c := c.(authToken := f.authToken.value);
      }
    }

    method ExchangeAndValidateTokens(t: LoginTarget, e: Env) returns (token: Result<Refresh, Failure>)
      modifies this
      ensures (State(), token) == ExchangeTokens(old(State()), t, e)
    {
      if e.exchange.Refused? {
        return Err(ExchangeFailed);
      }
      if !e.exchange.hasRefresh {
        return Err(NoRefreshToken);
      }
      var issued := Refresh(t.apiUrl, |issuers|);
      issuers := issuers + [t.apiUrl];
      log := log + [Issued(issued)];
      if e.exchange.access == "" {
        var _ := RevokeToken(t.apiUrl, Some(issued), e);
        return Err(EmptyAccessToken);
      }
      if e.exchange.expiresIn <= 0 {
        var _ := RevokeToken(t.apiUrl, Some(issued), e);
        return Err(BadExpiry);
      }
      return Ok(issued);
    }

    method PersistAndRevoke(t: LoginTarget, token: Refresh, e: Env) returns (outcome: Outcome)
      requires e.exchange.Granted?
      modifies this
      ensures (State(), outcome) == PersistAndRevokeOld(old(State()), t, token, e)
    {
      if !e.storeWrites {
        var revoked := RevokeToken(t.apiUrl, Some(token), e);
        if !revoked {
          return Failed(NotPersistedNorRevoked);
        }
        return Failed(NotPersisted);
      }
      PersistProfile(t, token, e);
      var oldRevoked := true;
      if t.oldRefresh.Some? {
        if t.existingApiUrl == "" {
          oldRevoked := false;
        } else {
          oldRevoked := RevokeToken(t.existingApiUrl, t.oldRefresh, e);
        }
      }
      return Done(!oldRevoked);
    }

    method PersistProfile(t: LoginTarget, token: Refresh, e: Env)
      requires e.exchange.Granted?
      modifies this
      ensures profiles == old(profiles)[t.name := LoggedIn(old(State()), t, token, e.exchange, e.now)]
      ensures active == if t.name in old(profiles) then old(active) else e.activeAfter
      ensures issuers == old(issuers) && log == old(log) + [Persisted(t.name)]
    {
      var lifetime := e.exchange.expiresIn;
      if lifetime > MAX_ACCESS_TOKEN_LIFETIME_SECONDS {
        lifetime := MAX_ACCESS_TOKEN_LIFETIME_SECONDS;
      }
      var oauth := Some(OAuthState(e.exchange.clientID, Some(token), e.now + lifetime));
      if t.name in profiles {
        WriteProfile(t.name, profiles[t.name].(apiUrl := t.apiUrl, authToken := e.exchange.access, oauth := oauth));
      } else {
        WriteProfile(t.name, Configuration(t.apiUrl, e.exchange.access, "", "", oauth));
        active := e.activeAfter;
      }
      log := log + [Persisted(t.name)];
    }

    method ResolveTarget(o: LoginOptions, e: Env) returns (target: Result<LoginTarget, Failure>)
      ensures target == ResolveLoginTarget(State(), o, e)
    {
      var name := o.profileName;
      if name == "" {
        if !e.storeReads || active !in profiles || active == "" {
          return Err(NoActiveProfile);
        }
        name := active;
      }
      if !e.storeReads {
        return Err(StoreUnreadable);
      }
      var state, oldRefresh, existing := Classify(name);
      var url := ResolveUrl(o.apiUrl, e.apiUrlVariable, existing, o.profileName == "");
      if url == "" {
        return Err(NoApiUrl);
      }
      return Ok(LoginTarget(name, state, oldRefresh, existing, url));
    }

    /** State of the named profile, the token to revoke after a relogin, and its API URL. */
    method Classify(name: string) returns (state: ProfileState, oldRefresh: Option<Refresh>, existing: string)
      ensures state == ClassifyProfile(State(), name)
      ensures oldRefresh == RefreshAt(State(), name) && existing == ApiUrlAt(State(), name)
    {
      if name !in profiles {
        return Missing, None, "";
      }
      var c := profiles[name];
      if c.oauth.None? {
        return if c.authToken == "" then NoAuth else Static, None, c.apiUrl;
      }
      if c.oauth.value.refresh.None? {
        return OAuthEmpty, None, c.apiUrl;
      }
      return OAuthActive, c.oauth.value.refresh, c.apiUrl;
    }

    method ResolveUrl(flag: string, variable: string, existing: string, implicit: bool) returns (url: string)
      ensures url == ResolveTargetApiUrl(flag, variable, existing, implicit, ApiUrlAt(State(), active))
    {
      if flag != "" {
        return flag;
      }
      if variable != "" {
        return variable;
      }
      if existing != "" {
        return existing;
      }
      if implicit && active in profiles {
        return profiles[active].apiUrl;
      }
      return "";
    }

    method Prompt(t: LoginTarget, e: Env) returns (outcome: Outcome)
      ensures outcome == PromptForDestructiveTransition(t, e)
    {
      match t.state
      case OAuthEmpty => return Done(false);
      case OAuthActive => return Done(false);
      case _ => outcome := ConfirmDestructiveOperation(false, e);
    }

    method RunLogin(o: LoginOptions, e: Env) returns (outcome: Outcome)
      modifies this
      ensures (State(), outcome) == Login(old(State()), o, e)
    {
      hide ResolveLoginTarget, ExchangeTokens, PersistAndRevokeOld, PromptForDestructiveTransition;
      if e.agentMode || !e.terminal {
        return Failed(NotInteractive);
      }
      var target := ResolveTarget(o, e);
      if target.Err? {
        return Failed(target.error);
      }
      var prompt := Prompt(target.value, e);
      if prompt.Failed? {
        return prompt;
      }
      if !e.authorizes {
        return Failed(AuthorizationFailed);
      }
      var token := ExchangeAndValidateTokens(target.value, e);
      if token.Err? {
        return Failed(token.error);
      }
      GrantedIfOk(old(State()), target.value, e);
      outcome := PersistAndRevoke(target.value, token.value, e);
    }

    method RunLogout(o: LogoutOptions, e: Env) returns (outcome: Outcome)
      modifies this
      ensures (State(), outcome) == Logout(old(State()), o, e)
    {
      if e.agentMode && !o.force {
        return Failed(NeedsForce);
      }
      if !e.storeReads {
        return Failed(StoreUnreadable);
      }
      var name := o.profileName;
      if name == "" {
        if active !in profiles || active == "" {
          return Failed(NoActiveProfile);
        }
        name := active;
      }
      if name !in profiles {
        return Failed(NoSuchProfile);
      }
      var c := profiles[name];
      if c.oauth.None? {
        return Failed(NotOAuth);
      }
      if c.oauth.value.refresh.None? {
        if c.authToken != "" {
          if !e.storeWrites {
            return Failed(StoreUnwritable);
          }
          WriteProfile(name, c.(authToken := ""));
        }
        return Done(false);
      }
      outcome := ConfirmDestructiveOperation(o.force, e);
      if outcome.Failed? {
        return;
      }
      var revoked := RevokeToken(c.apiUrl, c.oauth.value.refresh, e);
      if !e.storeWrites {
        return Failed(StoreUnwritable);
      }
      WriteProfile(name, c.(authToken := "", oauth := Some(EMPTY_OAUTH)));
      return Done(!revoked);
    }
  }

  lemma GrantedIfOk(w: World, t: LoginTarget, e: Env)
    ensures ExchangeTokens(w, t, e).1.Ok? ==> e.exchange.Granted?
  {
  }
}
