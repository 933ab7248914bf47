/**
 What every run of the session commands keeps, and exactly which commands break what they
 are meant to keep.
 */
module SessionSafety {
  import opened Session
  import opened Wrappers

  // ----- The shape of a profile -----

  /** The two classifications of a profile are one, and mean this. */
  lemma KindsAgree(w: World, name: string)
    requires name in w.profiles
    ensures ClassifyProfile(w, name) == AuthKind(w.profiles[name])
    ensures var c := w.profiles[name];
            match AuthKind(c)
            case OAuthActive => c.oauth.Some? && c.oauth.value.refresh.Some?
            case OAuthEmpty => c.oauth.Some? && c.oauth.value.refresh.None?
            case Static => c.oauth.None? && c.authToken != ""
            case NoAuth => c.oauth.None? && c.authToken == ""
            case Missing => false
  {
  }

  /** An OAuth profile has an access token exactly when it has a refresh token. */
  predicate WellFormed(c: Configuration) {
    c.oauth.Some? ==> (c.authToken == "" <==> RefreshOf(c).None?)
  }

  predicate AllWellFormed(w: World) {
    forall name :: name in w.profiles ==> WellFormed(w.profiles[name])
  }

  lemma LoginKeepsWellFormed(w: World, o: LoginOptions, e: Env)
    requires AllWellFormed(w)
    ensures AllWellFormed(Login(w, o, e).0)
  {
  }

  lemma ExecuteKeepsWellFormed(w: World, cmd: Command, e: Env)
    requires AllWellFormed(w)
    ensures AllWellFormed(Execute(w, cmd, e).0)
  {
    hide Login;
    if cmd.LoginCmd? {
      LoginKeepsWellFormed(w, cmd.login, e);
    }
  }

  lemma {:induction false} RunWellFormed(cmds: seq<(Command, Env)>)
    ensures AllWellFormed(Run(cmds))
  {
    hide Execute, WellFormed;
    if cmds != [] {
      var init, last := cmds[..|cmds| - 1], cmds[|cmds| - 1];
      RunWellFormed(init);
      ExecuteKeepsWellFormed(Run(init), last.0, last.1);
    }
  }

  /** Logging out of an OAuth profile without a refresh token finds nothing to clear. */
  lemma NoStaleToken(cmds: seq<(Command, Env)>, o: LogoutOptions, e: Env)
    requires ClassifyProfile(Run(cmds), if o.profileName != "" then o.profileName else ActiveName(Run(cmds), e)) == OAuthEmpty
    ensures Logout(Run(cmds), o, e).0 == Run(cmds)
  {
    hide Run;
    RunWellFormed(cmds);
  }

  // ----- A profile's API URL is the issuer of its refresh token -----

  predicate LinkedAt(w: World, name: string) {
    RefreshAt(w, name).Some? ==> RefreshAt(w, name).value.issuer == ApiUrlAt(w, name)
  }

  ghost predicate Linked(w: World) {
    forall name :: LinkedAt(w, name)
  }

  ghost predicate TriedAtIssuer(w: World) {
    forall i :: 0 <= i < |w.log| && w.log[i].RevokeTried? ==> w.log[i].url == w.log[i].token.issuer
  }

  /** Giving an OAuth-active profile another API URL without touching its OAuth mode. */
  predicate BreaksLink(w: World, cmd: Command, e: Env) {
    && cmd.UpdateCmd? && RefreshAt(w, cmd.name).Some?
    && cmd.update.apiUrl.Some? && cmd.update.apiUrl.value != ApiUrlAt(w, cmd.name)
    && cmd.update.oauth.None? && cmd.update.authToken.None?
    && e.storeReads && e.storeWrites
  }

  /** The profile a command is about: the named one, or else the active one, if there is one. */
  function Subject(w: World, cmd: Command, e: Env): string {
    var active := if e.storeReads && w.active in w.profiles then w.active else "";
    match cmd
    case LoginCmd(o) => if o.profileName != "" then o.profileName else active
    case LogoutCmd(o) => if o.profileName != "" then o.profileName else active
    case _ => cmd.name
  }

  /** n is the same profile in both worlds, or in neither. */
  predicate SameProfile(w: World, after: World, n: string) {
    (n in after.profiles <==> n in w.profiles) && (n in w.profiles ==> after.profiles[n] == w.profiles[n])
  }

  lemma LoginSparesOthers(w: World, o: LoginOptions, e: Env, n: string)
    requires n != Subject(w, LoginCmd(o), e)
    ensures SameProfile(w, Login(w, o, e).0, n)
  {
  }

  lemma LogoutSparesOthers(w: World, o: LogoutOptions, e: Env, n: string)
    requires n != Subject(w, LogoutCmd(o), e)
    ensures SameProfile(w, Logout(w, o, e).0, n)
  {
  }

  lemma UpdateSparesOthers(w: World, name: string, f: UpdateFlags, e: Env, n: string)
    requires n != name
    ensures SameProfile(w, Update(w, name, f, e).0, n)
  {
  }

  /** A command leaves every other profile alone. */
  lemma OnlySubjectChanges(w: World, cmd: Command, e: Env, n: string)
    requires n != Subject(w, cmd, e)
    ensures SameProfile(w, Execute(w, cmd, e).0, n)
  {
    hide Login, Logout, Update;
    match cmd
    case LoginCmd(o) => LoginSparesOthers(w, o, e, n);
    case LogoutCmd(o) => LogoutSparesOthers(w, o, e, n);
    case UpdateCmd(name, f) => UpdateSparesOthers(w, name, f, e, n);
    case _ =>
  }

  lemma LoginLinks(w: World, o: LoginOptions, e: Env)
    requires LinkedAt(w, Subject(w, LoginCmd(o), e))
    ensures LinkedAt(Login(w, o, e).0, Subject(w, LoginCmd(o), e))
    ensures TriedAtIssuer(w) ==> TriedAtIssuer(Login(w, o, e).0)
  {
    hide Login, ClassifyProfile;
    LoginOutcomes(w, o, e);
  }

  lemma LogoutLinks(w: World, o: LogoutOptions, e: Env)
    requires LinkedAt(w, Subject(w, LogoutCmd(o), e))
    ensures LinkedAt(Logout(w, o, e).0, Subject(w, LogoutCmd(o), e))
    ensures TriedAtIssuer(w) ==> TriedAtIssuer(Logout(w, o, e).0)
  {
  }

  lemma UpdateLinks(w: World, name: string, f: UpdateFlags, e: Env)
    requires LinkedAt(w, name)
    ensures LinkedAt(Update(w, name, f, e).0, name) <==> !BreaksLink(w, UpdateCmd(name, f), e)
    ensures TriedAtIssuer(w) ==> TriedAtIssuer(Update(w, name, f, e).0)
  {
  }

  lemma SubjectLinks(w: World, cmd: Command, e: Env)
    requires LinkedAt(w, Subject(w, cmd, e))
    ensures LinkedAt(Execute(w, cmd, e).0, Subject(w, cmd, e)) <==> !BreaksLink(w, cmd, e)
    ensures TriedAtIssuer(w) ==> TriedAtIssuer(Execute(w, cmd, e).0)
  {
    hide Login, Logout, Update;
    match cmd
    case LoginCmd(o) => LoginLinks(w, o, e);
    case LogoutCmd(o) => LogoutLinks(w, o, e);
    case UpdateCmd(name, f) => UpdateLinks(w, name, f, e);
    case _ =>
  }

  /** The link is kept by every command but that one. */
  lemma KeepsLinkIff(w: World, cmd: Command, e: Env)
    requires Linked(w)
    ensures Linked(Execute(w, cmd, e).0) <==> !BreaksLink(w, cmd, e)
  {
    hide Execute, BreaksLink;
    var after, subject := Execute(w, cmd, e).0, Subject(w, cmd, e);
    SubjectLinks(w, cmd, e);
    forall n | n != subject ensures LinkedAt(after, n) {
      OnlySubjectChanges(w, cmd, e, n);
      assert LinkedAt(w, n);
    }
  }

  /** While the links hold, a token is only ever sent for revocation to its own issuer. */
  lemma RevokesAtIssuer(w: World, cmd: Command, e: Env)
    requires Linked(w) && TriedAtIssuer(w)
    ensures TriedAtIssuer(Execute(w, cmd, e).0)
  {
    hide Execute, TriedAtIssuer;
    assert LinkedAt(w, Subject(w, cmd, e));
    SubjectLinks(w, cmd, e);
  }

  predicate NeverBreaksLink(cmds: seq<(Command, Env)>) {
    forall i :: 0 <= i < |cmds| ==> !BreaksLink(Run(cmds[..i]), cmds[i].0, cmds[i].1)
  }

  lemma {:induction false} RunKeepsIssuers(cmds: seq<(Command, Env)>)
    requires NeverBreaksLink(cmds)
    ensures Linked(Run(cmds)) && TriedAtIssuer(Run(cmds))
  {
    hide Execute, BreaksLink;
    if cmds != [] {
      var init, last := cmds[..|cmds| - 1], cmds[|cmds| - 1];
      assert forall i :: 0 <= i < |init| ==> init[..i] == cmds[..i];
      RunKeepsIssuers(init);
      KeepsLinkIff(Run(init), last.0, last.1);
      RevokesAtIssuer(Run(init), last.0, last.1);
    }
  }

  /** Everything works, and the user agrees. */
  const SMOOTH := Env(false, true, true, true, Yes, "", true, Granted("access", true, 3600, "client"), true, 0, "p")

  /** Create at a, log in, edit the API URL to b, log out: b is sent the token that a issued. */
  function Misdirecting(a: string, b: string): seq<(Command, Env)> {
    Relocated(a, b) + [(LogoutCmd(LogoutOptions("p", false)), SMOOTH)]
  }

  function Relocated(a: string, b: string): seq<(Command, Env)> {
    [(CreateCmd("p", CreateFlags(a, "", "", "", true)), SMOOTH)]
      + [(LoginCmd(LoginOptions("p", "")), SMOOTH)]
      + [(UpdateCmd("p", UpdateFlags(Some(b), None, None, None, None, false)), SMOOTH)]
  }

  /** The profile after a login at a, with the API URL edited to url. */
  function Relocation(a: string, url: string): World {
    var c := Configuration(url, "access", "", "", Some(OAuthState("client", Some(Refresh(a, 0)), 3600)));
    World(map["p" := c], "p", [a], [Issued(Refresh(a, 0)), Persisted("p")])
  }

  lemma RunSnoc(cmds: seq<(Command, Env)>, cmd: Command, e: Env)
    ensures Run(cmds + [(cmd, e)]) == Execute(Run(cmds), cmd, e).0
  {
    assert (cmds + [(cmd, e)])[..|cmds|] == cmds;
  }

  lemma CreateAndLogin(a: string)
    requires a != ""
    ensures Run([(CreateCmd("p", CreateFlags(a, "", "", "", true)), SMOOTH)] + [(LoginCmd(LoginOptions("p", "")), SMOOTH)])
         == Relocation(a, a)
  {
    hide Login, Create;
    var create := CreateCmd("p", CreateFlags(a, "", "", "", true));
    FirstLogin(a);
    RunSnoc([], create, SMOOTH);
    assert [] + [(create, SMOOTH)] == [(create, SMOOTH)];
    RunSnoc([(create, SMOOTH)], LoginCmd(LoginOptions("p", "")), SMOOTH);
  }

  lemma FirstLogin(a: string)
    requires a != ""
    ensures var w := Create(EMPTY_WORLD, "p", CreateFlags(a, "", "", "", true), SMOOTH).0;
            Login(w, LoginOptions("p", ""), SMOOTH).0 == Relocation(a, a)
  {
    var w := World(map["p" := Configuration(a, "", "", "", Some(EMPTY_OAUTH))], "p", [], []);
    assert Create(EMPTY_WORLD, "p", CreateFlags(a, "", "", "", true), SMOOTH).0 == w;
    var after := Login(w, LoginOptions("p", ""), SMOOTH).0;
    assert after.profiles == Relocation(a, a).profiles;
    assert after.log == Relocation(a, a).log;
  }

  lemma Relocate(a: string, b: string)
    requires a != ""
    ensures Run(Relocated(a, b)) == Relocation(a, b)
  {
    hide Login;
    CreateAndLogin(a);
    RunSnoc([(CreateCmd("p", CreateFlags(a, "", "", "", true)), SMOOTH)] + [(LoginCmd(LoginOptions("p", "")), SMOOTH)],
            UpdateCmd("p", UpdateFlags(Some(b), None, None, None, None, false)), SMOOTH);
  }

  lemma EditedUrlMisdirects(a: string, b: string)
    requires a != "" && b != "" && a != b
    ensures var log := Run(Misdirecting(a, b)).log;
            |log| == 3 && log[2] == RevokeTried(b, Refresh(a, 0))
    ensures !TriedAtIssuer(Run(Misdirecting(a, b)))
  {
    hide Login, Relocated, Run;
    Relocate(a, b);
    RunSnoc(Relocated(a, b), LogoutCmd(LogoutOptions("p", false)), SMOOTH);
    var log := Run(Misdirecting(a, b)).log;
    assert log == Relocation(a, b).log + [RevokeTried(b, Refresh(a, 0))];
    assert log[2].RevokeTried? && log[2].url != log[2].token.issuer;
  }

  /** A command that fails leaves profiles and selection as they were. */
  lemma FailureLeavesStore(w: World, cmd: Command, e: Env)
    requires Execute(w, cmd, e).1.Failed?
    ensures Execute(w, cmd, e).0.profiles == w.profiles && Execute(w, cmd, e).0.active == w.active
  {
    if cmd.LoginCmd? {
      LoginIsLogin(w, cmd, e);
      LoginOutcomes(w, cmd.login, e);
    }
  }

  // ----- Login compensates -----

  /** The token a login obtains, if it obtains one. */
  function NewToken(w: World, url: string): Refresh {
    Refresh(url, |w.issuers|)
  }

  /** The superseded token goes to the profile's previous URL, if one is recorded. */
  function SupersededSent(w: World, name: string): seq<Effect> {
    if RefreshAt(w, name).Some? && ApiUrlAt(w, name) != "" then
      [RevokeTried(ApiUrlAt(w, name), RefreshAt(w, name).value)]
    else []
  }

  /** All that a login can do. It fails without effect; or it fails with a token obtained, and
      then it has tried to revoke that token at its issuer and left the store alone; or the
      token is stored, and only then the superseded one was sent to the profile's previous URL;
      the note tells that it was not, or not with success. */
  lemma LoginOutcomes(w: World, o: LoginOptions, e: Env)
    ensures var (after, outcome) := Login(w, o, e);
            match ResolveLoginTarget(w, o, e)
            case Err(_) => outcome.Failed? && after == w
            case Ok(t) =>
              var token := NewToken(w, t.apiUrl);
              || (outcome.Failed? && after == w)
              || (outcome.Failed? && after.profiles == w.profiles && after.active == w.active
                  && after.issuers == w.issuers + [t.apiUrl]
                  && after.log == w.log + [Issued(token), RevokeTried(t.apiUrl, token)])
              || (outcome.Done? && RefreshAt(after, t.name) == Some(token) && ApiUrlAt(after, t.name) == t.apiUrl
                  && after.profiles == w.profiles[t.name := after.profiles[t.name]]
                  && after.issuers == w.issuers + [t.apiUrl]
                  && after.log == w.log + [Issued(token), Persisted(t.name)] + SupersededSent(w, t.name)
                  && (outcome.note <==> RefreshAt(w, t.name).Some? && (ApiUrlAt(w, t.name) == "" || !e.honours)))
  {
  }

  /** Relogin keeps the rest of the profile. */
  lemma LoginKeepsSettings(w: World, o: LoginOptions, e: Env, name: string)
    requires name in w.profiles
    ensures var after := Login(w, o, e).0;
            && name in after.profiles
            && after.profiles[name].otlpUrl == w.profiles[name].otlpUrl
            && after.profiles[name].dataset == w.profiles[name].dataset
  {
  }

  /** Where a login authenticates: the flag, then the environment, then the profile itself. Falling
      back to the active profile's URL never makes a difference, because an implicit target is
      the active profile. */
  function LoginUrl(w: World, o: LoginOptions, e: Env): string {
    if o.apiUrl != "" then o.apiUrl
    else if e.apiUrlVariable != "" then e.apiUrlVariable
    else ApiUrlAt(w, Subject(w, LoginCmd(o), e))
  }

  lemma ActiveFallbackIsIdle(w: World, o: LoginOptions, e: Env)
    requires o.profileName == "" && ActiveName(w, e) != ""
    ensures ResolveTargetApiUrl(o.apiUrl, e.apiUrlVariable, ApiUrlAt(w, ActiveName(w, e)), true, ApiUrlAt(w, w.active))
         == LoginUrl(w, o, e)
  {
  }

  /** Whatever becomes of a login, a token it obtains comes from that URL. */
  lemma TokenFromLoginUrl(w: World, o: LoginOptions, e: Env)
    ensures var after := Login(w, o, e).0;
            after.issuers == w.issuers || (LoginUrl(w, o, e) != "" && after.issuers == w.issuers + [LoginUrl(w, o, e)])
  {
  }

  /** What a successful login leaves in the profile: that URL, the tokens issued there, a lifetime
      of at most a day, and the other settings as they were. */
  lemma LoginStores(w: World, o: LoginOptions, e: Env)
    requires Login(w, o, e).1.Done?
    ensures var after, name, url := Login(w, o, e).0, Subject(w, LoginCmd(o), e), LoginUrl(w, o, e);
            && name in after.profiles && e.exchange.Granted?
            && var c := after.profiles[name];
               && c.apiUrl == url && c.authToken == e.exchange.access
               && c.oauth == Some(OAuthState(e.exchange.clientID, Some(Refresh(url, |w.issuers|)),
                                             e.now + if e.exchange.expiresIn <= 86400 then e.exchange.expiresIn else 86400))
               && c.otlpUrl == (if name in w.profiles then w.profiles[name].otlpUrl else "")
               && c.dataset == (if name in w.profiles then w.profiles[name].dataset else "")
  {
  }

  /** A created profile is as its flags say, and without tokens in OAuth mode. */
  lemma CreateStores(w: World, name: string, f: CreateFlags, e: Env)
    requires Create(w, name, f, e).1.Done?
    ensures var after := Create(w, name, f, e).0;
            && name in after.profiles && after.log == w.log && after.issuers == w.issuers
            && var c := after.profiles[name];
               && c.apiUrl == f.apiUrl && c.authToken == f.authToken && c.otlpUrl == f.otlpUrl && c.dataset == f.dataset
               && (if f.oauth then c.oauth == Some(OAuthState("", None, 0)) && c.authToken == "" && c.apiUrl != ""
                   else c.oauth == None)
  {
  }

  /** An update sets exactly the given fields; a given OAuth mode clears the credentials first. */
  lemma UpdateSets(w: World, name: string, f: UpdateFlags, e: Env)
    requires Update(w, name, f, e).1.Done?
    ensures var after := Update(w, name, f, e).0;
            && name in w.profiles && name in after.profiles
            && var c, u := w.profiles[name], after.profiles[name];
               && (match f.apiUrl case Some(v) => u.apiUrl == v case None => u.apiUrl == c.apiUrl)
               && (match f.otlpUrl case Some(v) => u.otlpUrl == v case None => u.otlpUrl == c.otlpUrl)
               && (match f.dataset case Some(v) => u.dataset == v case None => u.dataset == c.dataset)
               && (match f.oauth
                   case Some(true) => u.oauth == Some(OAuthState("", None, 0)) && u.authToken == ""
                   case Some(false) => u.oauth == None && u.authToken == (if f.authToken.Some? then f.authToken.value else "")
                   case None => u.oauth == c.oauth && u.authToken == (if f.authToken.Some? then f.authToken.value else c.authToken))
  {
  }

  /** A logout takes the tokens and leaves the rest, the OAuth mode included. */
  lemma LogoutClears(w: World, o: LogoutOptions, e: Env)
    requires Logout(w, o, e).1.Done?
    ensures var after, name := Logout(w, o, e).0, Subject(w, LogoutCmd(o), e);
            && name in w.profiles && name in after.profiles
            && var c, u := w.profiles[name], after.profiles[name];
               && u.apiUrl == c.apiUrl && u.otlpUrl == c.otlpUrl && u.dataset == c.dataset
               && u.authToken == "" && u.oauth.Some? && u.oauth.value.refresh.None?
  {
  }

  /** The notes of logout and update: a revocation was requested and failed. */
  lemma NotesMean(w: World, cmd: Command, e: Env)
    requires (cmd.LogoutCmd? || cmd.UpdateCmd?) && Execute(w, cmd, e).1.Done?
    ensures Execute(w, cmd, e).1.note <==> Execute(w, cmd, e).0.log != w.log && !e.honours
  {
    hide Updated;
  }

  /** What each failure tells: the reason for it, and no other. */
  predicate Reason(w: World, cmd: Command, e: Env, failure: Failure) {
    var name := Subject(w, cmd, e);
    match failure
    case NotInteractive => cmd.LoginCmd? && (e.agentMode || !e.terminal)
    case NeedsForce =>
      e.agentMode && ((cmd.LogoutCmd? && !cmd.logout.force) || (cmd.UpdateCmd? && !cmd.update.force))
    case FlagConflict =>
      || (cmd.CreateCmd? && cmd.create.oauth && cmd.create.authToken != "")
      || (cmd.UpdateCmd? && cmd.update.authToken.Some? && cmd.update.oauth != Some(false))
    case NothingToChange => cmd.UpdateCmd? && cmd.update == UpdateFlags(None, None, None, None, None, cmd.update.force)
    case NoActiveProfile => (cmd.LoginCmd? || cmd.LogoutCmd?) && name == ""
    case NoSuchProfile => (cmd.UpdateCmd? || cmd.LogoutCmd?) && name !in w.profiles
    case NotOAuth => cmd.LogoutCmd? && name in w.profiles && w.profiles[name].oauth.None?
    case StoreUnreadable => !e.storeReads
    case StoreUnwritable => !e.storeWrites || ((cmd.DeleteCmd? || cmd.SelectCmd?) && name !in w.profiles)
    case NoApiUrl =>
      || (cmd.CreateCmd? && cmd.create.oauth && cmd.create.apiUrl == "")
      || (cmd.LoginCmd? && LoginUrl(w, cmd.login, e) == "")
    case Aborted => !e.agentMode && e.answer.No?
    case PromptFailed => !e.agentMode && e.answer.Unreadable?
    case AuthorizationFailed => cmd.LoginCmd? && !e.authorizes
    case ExchangeFailed => cmd.LoginCmd? && e.exchange.Refused?
    case NoRefreshToken => cmd.LoginCmd? && e.exchange.Granted? && !e.exchange.hasRefresh
    case EmptyAccessToken => cmd.LoginCmd? && e.exchange.Granted? && e.exchange.access == ""
    case BadExpiry => cmd.LoginCmd? && e.exchange.Granted? && e.exchange.expiresIn <= 0
    case NotPersisted => cmd.LoginCmd? && !e.storeWrites && e.honours
    case NotPersistedNorRevoked => cmd.LoginCmd? && !e.storeWrites && !e.honours
  }

  lemma LoginReason(w: World, o: LoginOptions, e: Env)
    ensures Login(w, o, e).1.Failed? ==> Reason(w, LoginCmd(o), e, Login(w, o, e).1.failure)
  {
    hide ClassifyProfile;
  }

  lemma LogoutReason(w: World, o: LogoutOptions, e: Env)
    ensures Logout(w, o, e).1.Failed? ==> Reason(w, LogoutCmd(o), e, Logout(w, o, e).1.failure)
  {
  }

  lemma UpdateReason(w: World, name: string, f: UpdateFlags, e: Env)
    ensures Update(w, name, f, e).1.Failed? ==> Reason(w, UpdateCmd(name, f), e, Update(w, name, f, e).1.failure)
  {
  }

  lemma FailuresMean(w: World, cmd: Command, e: Env)
    requires Execute(w, cmd, e).1.Failed?
    ensures Reason(w, cmd, e, Execute(w, cmd, e).1.failure)
  {
    hide Login, Logout, Update;
    match cmd
    case LoginCmd(o) => LoginReason(w, o, e);
    case LogoutCmd(o) => LogoutReason(w, o, e);
    case UpdateCmd(name, f) => UpdateReason(w, name, f, e);
    case _ =>
  }

  /** Which profile is active after a command that succeeds: the store decides when one was added
      or removed, the user when one was selected, and nothing else changes it. */
  lemma SelectionMeans(w: World, cmd: Command, e: Env)
    requires Execute(w, cmd, e).1.Done?
    ensures var after := Execute(w, cmd, e).0;
            && after.active == (match cmd
                                case SelectCmd(name) => name
                                case CreateCmd(_, _) => e.activeAfter
                                case DeleteCmd(_) => e.activeAfter
                                case LoginCmd(o) => if Subject(w, cmd, e) in w.profiles then w.active else e.activeAfter
                                case _ => w.active)
            && (cmd.SelectCmd? ==> after.profiles == w.profiles)
            && (cmd.DeleteCmd? ==> cmd.name !in after.profiles && after.log == w.log)
  {
    hide Updated, ClassifyProfile;
  }

  // ----- No token is abandoned -----

  ghost predicate Held(w: World, t: Refresh) {
    exists name :: RefreshAt(w, name) == Some(t)
  }

  /** A revocation was requested where it can have an effect: at the issuer. */
  predicate Tried(w: World, t: Refresh) {
    RevokeTried(t.issuer, t) in w.log
  }

  ghost predicate Settled(w: World, t: Refresh) {
    Held(w, t) || Tried(w, t)
  }

  /** Every token ever issued is stored in a profile, or was sent to its issuer for revocation. */
  ghost predicate NothingAbandoned(w: World) {
    forall i :: 0 <= i < |w.issuers| ==> Settled(w, Refresh(w.issuers[i], i))
  }

  /** Stored tokens were issued, and no two profiles share one. */
  ghost predicate Genuine(w: World) {
    && (forall n :: RefreshAt(w, n).Some? ==> WasIssued(w, RefreshAt(w, n).value))
    && (forall m, n :: RefreshAt(w, m).Some? && RefreshAt(w, m) == RefreshAt(w, n) ==> m == n)
  }

  predicate WasIssued(w: World, t: Refresh) {
    t.id < |w.issuers| && w.issuers[t.id] == t.issuer
  }

  /** A destructive change goes ahead: forced, or confirmed by a user who can be asked. */
  predicate Agreed(e: Env, force: bool) {
    force || (!e.agentMode && e.answer.Yes?)
  }

  predicate UpdateSucceeds(w: World, name: string, f: UpdateFlags, e: Env) {
    && (f.apiUrl.Some? || f.authToken.Some? || f.otlpUrl.Some? || f.dataset.Some? || f.oauth.Some?)
    && e.storeReads && e.storeWrites && name in w.profiles
    && var c := w.profiles[name];
       && (f.authToken.Some? && f.oauth == Some(true) ==> f.authToken.value == "")
       && (f.authToken.Some? && c.oauth.Some? ==> f.oauth == Some(false))
       && (Destroys(f, c) ==> Agreed(e, f.force))
  }

  predicate LoginSucceeds(w: World, o: LoginOptions, e: Env) {
    var name := Subject(w, LoginCmd(o), e);
    && !e.agentMode && e.terminal && e.storeReads && e.storeWrites && name != ""
    && (o.apiUrl != "" || e.apiUrlVariable != "" || ApiUrlAt(w, name) != "")
    && (ClassifyProfile(w, name).OAuthEmpty? || ClassifyProfile(w, name).OAuthActive? || e.answer.Yes?)
    && e.authorizes
    && e.exchange.Granted? && e.exchange.hasRefresh && e.exchange.access != "" && e.exchange.expiresIn > 0
  }

  predicate LogoutSucceeds(w: World, o: LogoutOptions, e: Env) {
    var name := Subject(w, LogoutCmd(o), e);
    && (e.agentMode ==> o.force) && e.storeReads && name != "" && name in w.profiles
    && var c := w.profiles[name];
       && c.oauth.Some?
       && if RefreshOf(c).Some? then Agreed(e, o.force) && e.storeWrites else c.authToken == "" || e.storeWrites
  }

  /** Whether a command will succeed, from what it is given. */
  predicate Succeeds(w: World, cmd: Command, e: Env) {
    match cmd
    case CreateCmd(_, f) => (f.oauth ==> f.authToken == "" && f.apiUrl != "") && e.storeWrites
    case UpdateCmd(name, f) => UpdateSucceeds(w, name, f, e)
    case DeleteCmd(name) => name in w.profiles && e.storeWrites
    case SelectCmd(name) => name in w.profiles && e.storeWrites
    case LoginCmd(o) => LoginSucceeds(w, o, e)
    case LogoutCmd(o) => LogoutSucceeds(w, o, e)
  }

  lemma LoginSucceedsIff(w: World, o: LoginOptions, e: Env)
    ensures Login(w, o, e).1.Done? <==> LoginSucceeds(w, o, e)
  {
  }

  lemma SucceedsIff(w: World, cmd: Command, e: Env)
    ensures Execute(w, cmd, e).1.Done? <==> Succeeds(w, cmd, e)
  {
    hide Login, LoginSucceeds;
    if cmd.LoginCmd? {
      LoginSucceedsIff(w, cmd.login, e);
    }
  }

  /** The commands that forget the subject's refresh token: they succeed, drop it, and either
      never revoke or have an API URL recorded that is not the token's issuer. */
  predicate Forgets(w: World, cmd: Command, e: Env) {
    var name := Subject(w, cmd, e);
    && RefreshAt(w, name).Some?
    && Succeeds(w, cmd, e)
    && match cmd
       case CreateCmd(_, _) => true
       case UpdateCmd(_, f) => f.oauth == Some(true) || (f.oauth == Some(false) && !ReachesIssuer(w, name))
       case DeleteCmd(_) => true
       case SelectCmd(_) => false
       case LoginCmd(_) => !ReachesIssuer(w, name)
       case LogoutCmd(_) => !ReachesIssuer(w, name)
  }

  /** A revocation of the profile's token is sent, and to its issuer. */
  predicate ReachesIssuer(w: World, name: string) {
    RefreshAt(w, name).Some? && ApiUrlAt(w, name) != "" && ApiUrlAt(w, name) == RefreshAt(w, name).value.issuer
  }

  /** Whether what a command adds to the log sends t to its issuer. */
  predicate TriesAgain(w: World, after: World, t: Refresh) {
    exists i :: |w.log| <= i < |after.log| && after.log[i] == RevokeTried(t.issuer, t)
  }

  /** What a command that is not a login may do to the subject's token: keep it, or drop it,
      having sent it to its issuer or forgetting it. */
  predicate KeepsOrDrops(w: World, after: World, subject: string, forgets: bool) {
    var t, u := RefreshAt(w, subject), RefreshAt(after, subject);
    && after.issuers == w.issuers
    && (u == t || u == None)
    && (after.log == w.log
        || (&& t.Some? && |after.log| == |w.log| + 1 && w.log == after.log[..|w.log|]
            && after.log[|w.log|] == RevokeTried(ApiUrlAt(w, subject), t.value)))
    && (t.Some? ==>
          (u == None && !(after.log != w.log && ApiUrlAt(w, subject) == t.value.issuer) <==> forgets))
  }

  lemma LogoutKeepsOrDrops(w: World, o: LogoutOptions, e: Env)
    ensures KeepsOrDrops(w, Logout(w, o, e).0, Subject(w, LogoutCmd(o), e), Forgets(w, LogoutCmd(o), e))
  {
  }

  lemma UpdateKeepsOrDrops(w: World, name: string, f: UpdateFlags, e: Env)
    ensures KeepsOrDrops(w, Update(w, name, f, e).0, name, Forgets(w, UpdateCmd(name, f), e))
  {
  }

  lemma OtherCommands(w: World, cmd: Command, e: Env)
    requires !cmd.LoginCmd?
    ensures KeepsOrDrops(w, Execute(w, cmd, e).0, Subject(w, cmd, e), Forgets(w, cmd, e))
  {
    hide Login, Logout, Update;
    match cmd
    case LogoutCmd(o) => LogoutKeepsOrDrops(w, o, e);
    case UpdateCmd(name, f) => UpdateKeepsOrDrops(w, name, f, e);
    case _ =>
  }

  /** What a command may do to the tokens: it touches only the subject's, which it keeps, drops
      or replaces by a new one; and a new one it does not store it sends to its issuer. */
  ghost predicate TokenStep(w: World, after: World, subject: string, forgets: bool) {
    var t, u := RefreshAt(w, subject), RefreshAt(after, subject);
    && (forall n :: n != subject ==> RefreshAt(after, n) == RefreshAt(w, n))
    && w.log <= after.log
    && (|| (after.issuers == w.issuers && (u == t || u == None))
        || (&& |after.issuers| == |w.issuers| + 1 && w.issuers <= after.issuers
            && var token := Refresh(after.issuers[|w.issuers|], |w.issuers|);
               u == Some(token) || (u == t && TriesAgain(w, after, token))))
    && (t.Some? ==> (u != t && !TriesAgain(w, after, t.value) <==> forgets))
  }

  lemma OtherTokenStep(w: World, cmd: Command, e: Env)
    requires !cmd.LoginCmd? && Genuine(w)
    ensures TokenStep(w, Execute(w, cmd, e).0, Subject(w, cmd, e), Forgets(w, cmd, e))
  {
    hide Execute, Forgets, Genuine, RefreshAt, ApiUrlAt, Subject;
    OtherCommands(w, cmd, e);
    OthersKeepTokens(w, cmd, e);
  }

  lemma OthersKeepTokens(w: World, cmd: Command, e: Env)
    ensures forall n :: n != Subject(w, cmd, e) ==> RefreshAt(Execute(w, cmd, e).0, n) == RefreshAt(w, n)
  {
    hide Execute;
    forall n | n != Subject(w, cmd, e) ensures RefreshAt(Execute(w, cmd, e).0, n) == RefreshAt(w, n) {
      OnlySubjectChanges(w, cmd, e, n);
    }
  }

  lemma LoginTokenStep(w: World, o: LoginOptions, e: Env)
    requires Genuine(w)
    ensures TokenStep(w, Login(w, o, e).0, Subject(w, LoginCmd(o), e), Forgets(w, LoginCmd(o), e))
  {
    hide Login, LoginSucceeds, ApiUrlAt, ClassifyProfile;
    LoginOutcomes(w, o, e);
    LoginSucceedsIff(w, o, e);
    OthersKeepTokens(w, LoginCmd(o), e);
    var (after, outcome) := Login(w, o, e);
    var subject := Subject(w, LoginCmd(o), e);
    var t := RefreshAt(w, subject);
    if |after.issuers| > |w.issuers| {
      var token := Refresh(after.issuers[|w.issuers|], |w.issuers|);
      assert t != Some(token);
      if outcome.Failed? {
        assert after.log[|w.log| + 1] == RevokeTried(token.issuer, token);
      } else if ReachesIssuer(w, subject) {
        assert after.log[|w.log| + 2] == RevokeTried(t.value.issuer, t.value);
      }
    }
  }

  lemma StepTokens(w: World, cmd: Command, e: Env)
    requires Genuine(w)
    ensures TokenStep(w, Execute(w, cmd, e).0, Subject(w, cmd, e), Forgets(w, cmd, e))
  {
    hide Login, Create, Update, Delete, Select, Logout, TokenStep, Forgets;
    if cmd.LoginCmd? {
      LoginTokenStep(w, cmd.login, e);
    } else {
      OtherTokenStep(w, cmd, e);
    }
  }

  lemma TokenStepGenuine(w: World, after: World, subject: string, forgets: bool)
    requires Genuine(w) && TokenStep(w, after, subject, forgets)
    ensures Genuine(after)
  {
  }

  lemma TriedAfter(w: World, after: World, t: Refresh)
    requires w.log <= after.log
    ensures Tried(after, t) <==> Tried(w, t) || TriesAgain(w, after, t)
  {
    if TriesAgain(w, after, t) {
      var i :| |w.log| <= i < |after.log| && after.log[i] == RevokeTried(t.issuer, t);
      assert after.log[i] in after.log;
    }
    if Tried(after, t) && !Tried(w, t) {
      var i :| 0 <= i < |after.log| && after.log[i] == RevokeTried(t.issuer, t);
      assert i < |w.log| ==> after.log[i] == w.log[i];
    }
  }

  lemma SettledAfter(w: World, after: World, subject: string, forgets: bool, t: Refresh)
    requires Genuine(w) && TokenStep(w, after, subject, forgets) && Settled(w, t)
    ensures Settled(after, t) <==> !(forgets && RefreshAt(w, subject) == Some(t) && !Tried(w, t))
  {
    TriedAfter(w, after, t);
    TokenStepGenuine(w, after, subject, forgets);
    if !Tried(after, t) {
      var name :| RefreshAt(w, name) == Some(t);
      if name != subject {
        assert RefreshAt(after, name) == Some(t);
      }
    }
  }

  lemma TokenStepAbandons(w: World, after: World, subject: string, forgets: bool)
    requires Genuine(w) && NothingAbandoned(w) && TokenStep(w, after, subject, forgets)
    ensures var t := RefreshAt(w, subject);
            NothingAbandoned(after) <==> !(t.Some? && !Tried(w, t.value) && forgets)
  {
    hide Settled, Tried, Held, RefreshAt;
    var t := RefreshAt(w, subject);
    forall i | 0 <= i < |w.issuers|
      ensures Settled(after, Refresh(after.issuers[i], i))
         <==> !(forgets && t == Some(Refresh(w.issuers[i], i)) && !Tried(w, Refresh(w.issuers[i], i)))
    {
      SettledAfter(w, after, subject, forgets, Refresh(w.issuers[i], i));
    }
    NewTokenSettled(w, after, subject, forgets);
    if t.Some? {
      assert WasIssued(w, t.value);
      assert t.value == Refresh(w.issuers[t.value.id], t.value.id);
    }
  }

  lemma NewTokenSettled(w: World, after: World, subject: string, forgets: bool)
    requires TokenStep(w, after, subject, forgets)
    ensures forall i :: |w.issuers| <= i < |after.issuers| ==> Settled(after, Refresh(after.issuers[i], i))
  {
    if |after.issuers| > |w.issuers| {
      TriedAfter(w, after, Refresh(after.issuers[|w.issuers|], |w.issuers|));
    }
  }

  /** Of a state in which every token is accounted for, a command makes one in which some token
      is neither stored nor was sent to its issuer exactly when it forgets one. */
  lemma AbandonsIff(w: World, cmd: Command, e: Env)
    requires Genuine(w) && NothingAbandoned(w)
    ensures Genuine(Execute(w, cmd, e).0)
    ensures var t := RefreshAt(w, Subject(w, cmd, e));
            NothingAbandoned(Execute(w, cmd, e).0) <==> !(t.Some? && !Tried(w, t.value) && Forgets(w, cmd, e))
  {
    hide Execute, TokenStep, Forgets, Genuine, NothingAbandoned, Tried;
    StepTokens(w, cmd, e);
    TokenStepGenuine(w, Execute(w, cmd, e).0, Subject(w, cmd, e), Forgets(w, cmd, e));
    TokenStepAbandons(w, Execute(w, cmd, e).0, Subject(w, cmd, e), Forgets(w, cmd, e));
  }

  predicate NeverForgets(cmds: seq<(Command, Env)>) {
    forall i :: 0 <= i < |cmds| ==> !Forgets(Run(cmds[..i]), cmds[i].0, cmds[i].1)
  }

  /** So a run that avoids those commands never leaves a token behind. */
  lemma {:induction false} RunAbandonsNothing(cmds: seq<(Command, Env)>)
    requires NeverForgets(cmds)
    ensures NothingAbandoned(Run(cmds)) && Genuine(Run(cmds))
  {
    hide Execute, Forgets;
    if cmds != [] {
      var init, last := cmds[..|cmds| - 1], cmds[|cmds| - 1];
      assert forall i :: 0 <= i < |init| ==> init[..i] == cmds[..i];
      RunAbandonsNothing(init);
      AbandonsIff(Run(init), last.0, last.1);
    }
  }

  /** Create, log in, delete: the token is neither stored nor was it sent anywhere. */
  function Deleting(a: string): seq<(Command, Env)> {
    [(CreateCmd("p", CreateFlags(a, "", "", "", true)), SMOOTH)] + [(LoginCmd(LoginOptions("p", "")), SMOOTH)]
      + [(DeleteCmd("p"), SMOOTH)]
  }

  lemma DeletionForgets(a: string)
    requires a != ""
    ensures !NothingAbandoned(Run(Deleting(a)))
  {
    hide Run, Login;
    var start := [(CreateCmd("p", CreateFlags(a, "", "", "", true)), SMOOTH)] + [(LoginCmd(LoginOptions("p", "")), SMOOTH)];
    CreateAndLogin(a);
    RunSnoc(start, DeleteCmd("p"), SMOOTH);
    var w := Run(Deleting(a));
    assert w.profiles == map[] && w.log == Relocation(a, a).log && w.issuers == [a];
    assert !Settled(w, Refresh(w.issuers[0], 0));
  }

  ghost predicate IssuersNamed(w: World) {
    forall i :: 0 <= i < |w.issuers| ==> w.issuers[i] != ""
  }

  lemma {:induction false} RunIssuersNamed(cmds: seq<(Command, Env)>)
    ensures IssuersNamed(Run(cmds))
  {
    hide Execute, Login;
    if cmds != [] {
      var init, last := cmds[..|cmds| - 1], cmds[|cmds| - 1];
      RunIssuersNamed(init);
      var w := Run(init);
      if last.0.LoginCmd? {
        assert Execute(w, last.0, last.1) == Login(w, last.0.login, last.1) by { LoginIsLogin(w, last.0, last.1); }
        LoginOutcomes(w, last.0.login, last.1);
      } else {
        OtherCommands(w, last.0, last.1);
      }
    }
  }

  lemma LoginIsLogin(w: World, cmd: Command, e: Env)
    requires cmd.LoginCmd?
    ensures Execute(w, cmd, e) == Login(w, cmd.login, e)
  {
  }

  /** While the links hold, logging in and out, leaving OAuth and selecting never forget a
      token: only replacing, deleting or re-marking an OAuth-active profile does. */
  lemma OnlyTheseForget(cmds: seq<(Command, Env)>, cmd: Command, e: Env)
    requires NeverBreaksLink(cmds)
    ensures var w := Run(cmds);
            Forgets(w, cmd, e)
            <==> && RefreshAt(w, Subject(w, cmd, e)).Some?
                 && match cmd
                    case CreateCmd(_, f) => (f.oauth ==> f.authToken == "" && f.apiUrl != "") && e.storeWrites
                    case UpdateCmd(_, f) => f.oauth == Some(true) && f.authToken.None? && e.storeReads && e.storeWrites
                    case DeleteCmd(_) => e.storeWrites
                    case _ => false
  {
    hide Run, NeverBreaksLink, LoginSucceeds, LogoutSucceeds;
    var w := Run(cmds);
    var subject := Subject(w, cmd, e);
    RunKeepsIssuers(cmds);
    RunIssuersNamed(cmds);
    RunGenuine(cmds);
    assert LinkedAt(w, subject);
    if RefreshAt(w, subject).Some? {
      assert WasIssued(w, RefreshAt(w, subject).value);
    }
  }

  lemma {:induction false} RunGenuine(cmds: seq<(Command, Env)>)
    ensures Genuine(Run(cmds))
  {
    hide Execute, Forgets;
    if cmds != [] {
      var init, last := cmds[..|cmds| - 1], cmds[|cmds| - 1];
      RunGenuine(init);
      var w := Run(init);
      StepTokens(w, last.0, last.1);
      TokenStepGenuine(w, Execute(w, last.0, last.1).0, Subject(w, last.0, last.1), Forgets(w, last.0, last.1));
    }
  }
}
