/**
 Cookie sessions and sign-in as functions: internal/service/auth_service.go,
 internal/middleware/context_middleware.go, internal/controller/user_controller.go and the session
 table of internal/repository/memory/session_queries.go.
 */
module AuthModel {
  import opened Base
  import opened Contexts
  import opened Strings
  import L = LoginSpec

  const RESERVED_PROVIDER_NAMES := ["local", "ldap", "tailscale"]
  const HOUR := 3600
  const TOTP_SESSION_EXPIRY := 3600

  datatype LocalUser = LocalUser(username: string, password: string, totpSecret: string, attributes: Attributes)

  // Durations are in seconds. capitalize and compileEmail are the utils functions of those names.
  datatype Config = Config(
    users: seq<LocalUser>,
    oauthIds: set<string>,
    ldap: bool,
    sessionExpiry: int,
    sessionMaxLifetime: int,  // 0 when there is none
    tailscale: bool,
    limits: L.Limits,
    capitalize: string -> string,
    compileEmail: string -> string)

  predicate LifetimesFit(cfg: Config) {
    cfg.sessionMaxLifetime == 0 || cfg.sessionMaxLifetime >= cfg.sessionExpiry
  }

  // The start-up checks: on the lifetimes, on provider ids, and that somebody can sign in.
  predicate ValidConfig(cfg: Config) {
    && LifetimesFit(cfg)
    && (forall name :: name in RESERVED_PROVIDER_NAMES ==> name !in cfg.oauthIds)
    && (cfg.users != [] || cfg.ldap || cfg.oauthIds != {})
  }

  datatype Session = Session(
    uuid: string, username: string, email: string, name: string, provider: string, totpPending: bool,
    oauthGroups: string, expiry: int, createdAt: int, oauthName: string, oauthSub: string)

  datatype State = State(clock: nat, minted: set<string>, sessions: map<string, Session>, logins: L.LoginCache)

  // What the world outside answers while a request is handled.
  datatype LdapAnswer = LdapError | LdapFound(dn: string, email: string)

  datatype Whois = WhoisError | WhoisNone | WhoisNode(node: TailscaleContext)

  datatype Outside = Outside(
    lockdown: bool,
    passwordOk: bool,
    codeOk: bool,
    ldap: LdapAnswer,
    ldapGroups: Option<seq<string>>,
    whois: Whois,
    emailAllowed: bool)

  // ----- Users -----

  function GetLocalUser(users: seq<LocalUser>, username: string): (user: Option<LocalUser>)
    ensures user.Some? ==> user.value in users && user.value.username == username
    ensures user.None? ==> forall u :: u in users ==> u.username != username
  {
    if users == [] then None
    else if users[0].username == username then Some(users[0])
    else GetLocalUser(users[1..], username)
  }

  datatype Search = FoundLocal | FoundLdap(dn: string, email: string) | NotFound | SearchFailed

  function SearchUser(cfg: Config, username: string, ldap: LdapAnswer): Search {
    if GetLocalUser(cfg.users, username).Some? then FoundLocal
    else if !cfg.ldap then NotFound
    else
      match ldap
      case LdapError => SearchFailed
      case LdapFound(dn, email) => FoundLdap(dn, email)
  }

  function OrElse(preferred: string, otherwise: string): string {
    if preferred != "" then preferred else otherwise
  }

  // ----- Sessions -----

  function Lifetime(cfg: Config, totpPending: bool): int {
    if totpPending then TOTP_SESSION_EXPIRY else cfg.sessionExpiry
  }

  // The session CreateSession stores; None when a tailscale session is asked for without tailscale.
  function NewSession(cfg: Config, now: nat, data: Session, uuid: string): Option<Session> {
    if data.provider == "tailscale" && !cfg.tailscale then None
    else
      Some(data.(uuid := uuid, expiry := Unix(now) + Lifetime(cfg, data.totpPending), createdAt := Unix(now)))
  }

  // Go's integer division truncates towards zero.
  function Halved(n: int): int {
    if n >= 0 then n / 2 else -(-n / 2)
  }

  function RefreshThreshold(cfg: Config): int {
    if cfg.sessionExpiry <= HOUR then Halved(cfg.sessionExpiry) else HOUR
  }

  // The stored session after RefreshSession.
  function Refreshed(cfg: Config, now: nat, session: Session): Session {
    if session.expiry - Unix(now) > RefreshThreshold(cfg) then session
    else session.(expiry := session.expiry + RefreshThreshold(cfg))
  }

  predicate TooOld(cfg: Config, now: nat, session: Session) {
    || (cfg.sessionMaxLifetime != 0 && session.createdAt != 0 && Unix(now) - session.createdAt > cfg.sessionMaxLifetime)
    || Unix(now) > session.expiry
  }

  // GetSession deletes a session that is too old.
  function GetSession(cfg: Config, s: State, now: nat, uuid: string): (State, Option<Session>) {
    if uuid !in s.sessions then (s, None)
    else if TooOld(cfg, now, s.sessions[uuid]) then (s.(sessions := s.sessions - {uuid}), None)
    else (s, Some(s.sessions[uuid]))
  }

  function NewFromSession(session: Session): UserContext {
    var base := BaseContext(session.username, session.name, session.email);
    var blank := UserContext(!session.totpPending, ProviderOAuth, session.createdAt, None, None, None, None);
    if session.provider == "local" then
      blank.(provider := ProviderLocal, local := Some(LocalContext(base, session.totpPending, NO_ATTRIBUTES)))
    else if session.provider == "ldap" then blank.(provider := ProviderLDAP, ldap := Some(LDAPContext(base, [])))
    else if session.provider == "tailscale" then
      blank.(provider := ProviderTailscale, tailscale := Some(TailscaleContext(base, "")))
    else
      var groups := if session.oauthGroups == "" then [] else Split(session.oauthGroups, ',');
      blank.(oauth := Some(OAuthContext(base, groups, session.oauthSub, session.oauthName, session.provider)))
  }

  // ----- Middleware -----

  // What cookieAuth makes of the context of a session that is not TOTP-pending; None when it is not accepted.
  function Enrich(cfg: Config, ctx: UserContext, out: Outside): Option<UserContext> {
    match ctx.provider
    case ProviderLocal =>
      if ctx.local.None? then None
      else
        var user := GetLocalUser(cfg.users, ctx.local.value.base.username);
        if user.None? then None
        else
          var attributes := user.value.attributes.(
            name := OrElse(user.value.attributes.name, cfg.capitalize(user.value.username)),
            email := OrElse(user.value.attributes.email, cfg.compileEmail(user.value.username)));
          Some(ctx.(local := Some(ctx.local.value.(attributes := attributes))))
    case ProviderTailscale =>
      if !cfg.tailscale || !out.whois.WhoisNode? then None else Some(ctx.(tailscale := Some(out.whois.node)))
    case ProviderLDAP =>
      if ctx.ldap.None? then None
      else
        var username := ctx.ldap.value.base.username;
        var search := SearchUser(cfg, username, out.ldap);
        if !search.FoundLdap? || out.ldapGroups.None? then None
        else
          var base := BaseContext(username, cfg.capitalize(username), OrElse(search.email, cfg.compileEmail(username)));
          Some(ctx.(ldap := Some(LDAPContext(base, out.ldapGroups.value))))
    case ProviderOAuth =>
      if ctx.oauth.None? || ctx.oauth.value.id !in cfg.oauthIds || !out.emailAllowed then None else Some(ctx)
    case ProviderBasicAuth => Some(ctx)
  }

  // The one refusal that deletes the session: an OAuth email that is no longer whitelisted.
  predicate Banned(cfg: Config, ctx: UserContext, out: Outside) {
    ctx.IsOAuth() && ctx.oauth.value.id in cfg.oauthIds && !out.emailAllowed
  }

  function CookieAuth(cfg: Config, s: State, now: nat, uuid: string, out: Outside): (State, Option<UserContext>) {
    var (t, session) := GetSession(cfg, s, now, uuid);
    if session.None? then (t, None)
    else
      var ctx := NewFromSession(session.value);
      if ctx.TOTPPending() then (t, Some(ctx))
      else
        var enriched := Enrich(cfg, ctx, out);
        if enriched.None? then (if Banned(cfg, ctx, out) then t.(sessions := t.sessions - {uuid}) else t, None)
        else (t.(sessions := t.sessions[uuid := Refreshed(cfg, now, session.value)]), enriched)
  }

  function Locked(cfg: Config, s: State, now: nat, username: string, out: Outside): bool {
    L.IsLocked(cfg.limits, s.logins, out.lockdown, now, username)
  }

  function Recorded(cfg: Config, s: State, now: nat, username: string, success: bool): State {
    s.(logins := L.Record(cfg.limits, s.logins, now, username, success))
  }

  // The context of a user whose password was right.
  function BasicContext(cfg: Config, username: string, search: Search, out: Outside): Option<UserContext> {
    var blank := UserContext(true, ProviderLocal, 0, None, None, None, None);
    match search
    case FoundLocal =>
      var user := GetLocalUser(cfg.users, username);
      if user.None? || user.value.totpSecret != "" then None
      else
        var base := BaseContext(
          user.value.username, cfg.capitalize(user.value.username), cfg.compileEmail(user.value.username));
        Some(blank.(local := Some(LocalContext(base, false, user.value.attributes))))
    case FoundLdap(_, email) =>
      if out.ldapGroups.None? then None
      else
        var base := BaseContext(username, cfg.capitalize(username), OrElse(email, cfg.compileEmail(username)));
        Some(blank.(provider := ProviderLDAP, ldap := Some(LDAPContext(base, out.ldapGroups.value))))
    case _ => None
  }

  function BasicAuth(cfg: Config, s: State, now: nat, username: string, out: Outside): (State, Option<UserContext>) {
    if Locked(cfg, s, now, username, out) then (s, None)
    else
      var search := SearchUser(cfg, username, out.ldap);
      if search.NotFound? || search.SearchFailed? then (s, None)
      else if !out.passwordOk then (Recorded(cfg, s, now, username, false), None)
      else (Recorded(cfg, s, now, username, true), BasicContext(cfg, username, search, out))
  }

  // A cookie that is accepted wins; basic auth is next and final; tailscale comes last.
  function Middleware(cfg: Config, s: State, now: nat, cookie: Option<string>, basic: Option<string>, out: Outside)
    : (State, Option<UserContext>)
  {
    var (t, ctx) := if cookie.Some? then CookieAuth(cfg, s, now, cookie.value, out) else (s, None);
    if ctx.Some? then (t, ctx)
    else if basic.Some? then BasicAuth(cfg, t, now, basic.value, out)
    else if cfg.tailscale && out.whois.WhoisNode? then
      (t, Some(UserContext(false, ProviderTailscale, 0, None, None, None, Some(out.whois.node))))
    else (t, None)
  }

  // ----- Handlers that create sessions: the data of the session, if they get that far -----

  const BLANK_SESSION := Session("", "", "", "", "", false, "", 0, 0, "", "")

  function UserSession(cfg: Config, user: LocalUser, pending: bool): Session {
    BLANK_SESSION.(
      username := user.username,
      name := OrElse(user.attributes.name, cfg.capitalize(user.username)),
      email := OrElse(user.attributes.email, cfg.compileEmail(user.username)),
      provider := "local", totpPending := pending)
  }

  function LdapSession(cfg: Config, username: string, email: string): Session {
    BLANK_SESSION.(
      username := username, name := cfg.capitalize(username), email := OrElse(email, cfg.compileEmail(username)),
      provider := "ldap")
  }

  function Store(s: State, session: Session): State {
    s.(sessions := s.sessions[session.uuid := session])
  }

  // The handlers return the session they stored, if any.
  function Login(cfg: Config, s: State, now: nat, username: string, uuid: string, out: Outside)
    : (State, Option<Session>)
  {
    if Locked(cfg, s, now, username, out) then (s, None)
    else
      match SearchUser(cfg, username, out.ldap)
      case NotFound => (Recorded(cfg, s, now, username, false), None)
      case SearchFailed => (s, None)
      case FoundLocal =>
        if !out.passwordOk then (Recorded(cfg, s, now, username, false), None)
        else
          var user := GetLocalUser(cfg.users, username).value;
          var session := NewSession(cfg, now, UserSession(cfg, user, user.totpSecret != ""), uuid).value;
          var stored := Store(s, session);
          (if user.totpSecret != "" then stored else Recorded(cfg, stored, now, username, true), Some(session))
      case FoundLdap(_, email) =>
        if !out.passwordOk then (Recorded(cfg, s, now, username, false), None)
        else
          var session := NewSession(cfg, now, LdapSession(cfg, username, email), uuid).value;
          (Recorded(cfg, Store(s, session), now, username, true), Some(session))
  }

  // Runs with the context the middleware found.
  function Totp(cfg: Config, s: State, now: nat, ctx: Option<UserContext>, cookie: Option<string>, uuid: string,
                out: Outside): (State, Option<Session>)
  {
    if ctx.None? || !ctx.value.TOTPPending() then (s, None)
    else
      var username := ctx.value.GetUsername();
      var user := GetLocalUser(cfg.users, username);
      if Locked(cfg, s, now, username, out) || user.None? then (s, None)
      else if !out.codeOk then (Recorded(cfg, s, now, username, false), None)
      else
        var t := if cookie.Some? then s.(sessions := s.sessions - {cookie.value}) else s;
        var session := NewSession(cfg, now, UserSession(cfg, user.value, false), uuid).value;
        (Store(Recorded(cfg, t, now, username, true), session), Some(session))
  }

  function Tailscale(cfg: Config, s: State, now: nat, ctx: Option<UserContext>, uuid: string)
    : (State, Option<Session>)
  {
    if ctx.None? || ctx.value.tailscale.None? then (s, None)
    else
      var base := ctx.value.tailscale.value.base;
      var data := BLANK_SESSION.(
        username := base.username, name := base.name, email := base.email, provider := "tailscale");
      var session := NewSession(cfg, now, data, uuid);
      (if session.Some? then Store(s, session.value) else s, session)
  }

  // The end of a completed OAuth flow with one of the configured providers.
  function OAuthCallback(cfg: Config, s: State, now: nat, data: Session, uuid: string, out: Outside)
    : (State, Option<Session>)
  {
    if data.email == "" || data.provider !in cfg.oauthIds || !out.emailAllowed then (s, None)
    else
      var session := NewSession(cfg, now, data.(totpPending := false), uuid);
      (if session.Some? then Store(s, session.value) else s, session)
  }

  function WithoutExpired(sessions: map<string, Session>, time: int): map<string, Session> {
    map k | k in sessions && !(sessions[k].expiry < time) :: sessions[k]
  }
}
