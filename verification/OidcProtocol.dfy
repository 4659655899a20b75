/**
 The OpenID Connect provider as a state machine. A call is one handler of
 internal/controller/oidc_controller.go run to its end, or one run of a background routine. What the
 handlers draw from outside comes with the call: the clock, the strings GenerateString returns, the
 user the session middleware found, and the entry a full cache evicts.
 */
module OidcProtocol {
  import opened Base
  import opened Contexts
  import opened Strings
  import opened OidcModel
  import opened OidcTable
  import C = CacheSpec

  const CACHE_SIZE := 256
  const TICKET_TTL := 10 * MINUTE
  const CODE_TTL := 1 * MINUTE
  const USED_CODE_TTL := 2 * MINUTE

  datatype State = State(
    clock: nat,
    minted: set<string>,  // what GenerateString has returned so far
    tickets: C.Cache<AuthorizeRequest>,
    codes: C.Cache<CodeEntry>,
    used: C.Cache<string>,  // sub of the session a used code was redeemed for
    sessions: Table)

  datatype Credentials = Credentials(clientId: string, clientSecret: string)

  datatype TokenRequest = TokenRequest(
    grantType: string, code: string, redirectUri: string, refreshToken: string, clientSecret: string,
    clientId: string, codeVerifier: string)

  datatype Call =
    | Authorize(req: AuthorizeRequest, user: Option<UserContext>, ticket: string, evicted: Option<string>)
    | Complete(completed: string, user: Option<UserContext>, code: string, evicted: Option<string>)
    | Token(token: TokenRequest, basic: Option<Credentials>, access: string, refresh: string, evicted: Option<string>)
    | GetUserinfo(bearer: string)
    | CleanSessions
    | SweepCaches

  datatype Event = At(time: nat, call: Call)

  datatype Response =
    | Refused(error: string)
    | Ticketed(ticket: string, prompt: string)
    | Coded(code: string)
    | Tokens(access: string, refresh: string, sub: string, scope: string)
    | Claims(userinfo: Userinfo)
    | Done

  function Initial(): State {
    State(0, {}, C.Empty(CACHE_SIZE), C.Empty(CACHE_SIZE), C.Empty(CACHE_SIZE), map[])
  }

  predicate LoggedIn(user: Option<UserContext>) {
    user.Some? && user.value.authenticated
  }

  // ----- /authorize -----

  // None when a ticket is created.
  function AuthorizeError(cfg: Config, req: AuthorizeRequest, user: Option<UserContext>): Option<string> {
    var prompts := GetPrompt(req.prompt);
    if req.clientId !in cfg.clients then Some("client not found")
    else if ValidateAuthorizeParams(cfg, req).Some? then ValidateAuthorizeParams(cfg, req)
    else if "none" in prompts && |prompts| > 1 then Some("invalid_request")
    else if !LoggedIn(user) && "none" in prompts then Some("login_required")
    else None
  }

  function AuthorizeAnswer(cfg: Config, now: nat, req: AuthorizeRequest, user: Option<UserContext>, ticket: string)
    : Response
  {
    var prompts := GetPrompt(req.prompt);
    var prompt := if "login" in prompts then "login" else if "none" in prompts then "none" else "";
    if req.maxAge != "" && user.Some? then
      var maxAge := cfg.atoi(req.maxAge);
      if maxAge.None? then Refused("invalid_request")
      else if user.value.authenticated && (user.value.authTime + maxAge.value) * SECOND < now then
        Ticketed(ticket, "login")
      else Ticketed(ticket, prompt)
    else Ticketed(ticket, prompt)
  }

  // ----- /authorize-complete -----

  function CompleteRequest(s: State, now: nat, ticket: string, user: Option<UserContext>): Option<AuthorizeRequest> {
    if !LoggedIn(user) then None else C.Get(s.tickets, now, ticket)
  }

  // ----- /token -----

  // The error, or the client whose credentials the request carries.
  datatype ClientCheck = ClientOk(client: Client) | ClientError(error: string)

  function AuthenticateClient(cfg: Config, req: TokenRequest, basic: Option<Credentials>): ClientCheck {
    if req.grantType !in SUPPORTED_GRANT_TYPES then ClientError("unsupported_grant_type")
    else if (req.clientId == "" || req.clientSecret == "") && basic.None? then ClientError("invalid_client")
    else
      var creds := if req.clientId == "" || req.clientSecret == "" then basic.value
                   else Credentials(req.clientId, req.clientSecret);
      if creds.clientId !in cfg.clients then ClientError("invalid_client")
      else if cfg.clients[creds.clientId].clientSecret != creds.clientSecret then ClientError("invalid_client")
      else ClientOk(cfg.clients[creds.clientId])
  }

  // The credentials a request presents: those of the form if both are there, the basic ones otherwise.
  predicate Presents(req: TokenRequest, basic: Option<Credentials>, id: string, secret: string) {
    if req.clientId != "" && req.clientSecret != "" then req.clientId == id && req.clientSecret == secret
    else basic == Some(Credentials(id, secret))
  }

  // The request comes from the configured client of that id, for it has its secret.
  predicate ComesFrom(cfg: Config, req: TokenRequest, basic: Option<Credentials>, id: string) {
    id in cfg.clients && Presents(req, basic, id, cfg.clients[id].clientSecret)
  }

  /** A client is accepted exactly for a known grant type and with its own secret. */
  lemma ClientExactly(cfg: Config, req: TokenRequest, basic: Option<Credentials>, id: string)
    requires ValidConfig(cfg)
    ensures var check := AuthenticateClient(cfg, req, basic);
            check.ClientOk? && check.client.clientId == id <==>
              req.grantType in {"authorization_code", "refresh_token"} && ComesFrom(cfg, req, basic, id)
    ensures var check := AuthenticateClient(cfg, req, basic);
            check.ClientOk? ==> check.client.clientId in cfg.clients
                                && check.client == cfg.clients[check.client.clientId]
  {
    assert SUPPORTED_GRANT_TYPES[0] == "authorization_code" && SUPPORTED_GRANT_TYPES[1] == "refresh_token";
  }

  // GetCodeEntry: one locked section looks the code up, checks its owner and deletes it.
  function Redeem(codes: C.Cache<CodeEntry>, now: nat, codeHash: string, clientId: string)
    : (C.Cache<CodeEntry>, Option<CodeEntry>)
  {
    var entry := C.Get(codes, now, codeHash);
    if entry.None? || entry.value.clientId != clientId then (codes, None)
    else (C.Delete(codes, codeHash), entry)
  }

  predicate ExchangeAllowed(cfg: Config, entry: CodeEntry, req: TokenRequest) {
    entry.redirectUri == req.redirectUri && ValidatePKCE(cfg, entry.codeChallenge, req.codeVerifier)
  }

  function SessionFor(cfg: Config, client: Client, entry: CodeEntry, access: string, refresh: string, now: nat)
    : Session
  {
    Session(
      entry.userinfo.sub, cfg.hash(access), cfg.hash(refresh), entry.scope, client.clientId,
      Unix(now) + cfg.sessionExpiry, Unix(now) + cfg.sessionExpiry * 2, entry.nonce, entry.userinfo)
  }

  function Rotated(cfg: Config, row: Session, access: string, refresh: string, now: nat): Session {
    row.(accessTokenHash := cfg.hash(access), refreshTokenHash := cfg.hash(refresh),
         tokenExpiresAt := Unix(now) + cfg.sessionExpiry, refreshTokenExpiresAt := Unix(now) + cfg.sessionExpiry * 2)
  }

  // The code a token request redeems, whether or not its exchange then succeeds.
  function Redeemed(cfg: Config, s: State, e: Event): Option<CodeEntry> {
    if !e.call.Token? || e.call.token.grantType != "authorization_code" then None
    else
      var check := AuthenticateClient(cfg, e.call.token, e.call.basic);
      if check.ClientError? then None
      else Redeem(s.codes, e.time, cfg.hash(e.call.token.code), check.client.clientId).1
  }

  // MarkCodeAsUsed
  function Mark(s: State, codes: C.Cache<CodeEntry>, now: nat, codeHash: string, sub: string, evicted: Option<string>)
    : State
  {
    s.(codes := codes, used := C.Set(s.used, now, codeHash, sub, USED_CODE_TTL, evicted))
  }

  ghost function CodeGrant(cfg: Config, s: State, now: nat, req: TokenRequest, client: Client, access: string,
                           refresh: string, evicted: Option<string>): (State, Response)
  {
    var codeHash := cfg.hash(req.code);
    var (codes, entry) := Redeem(s.codes, now, codeHash, client.clientId);
    if entry.None? then
      var sub := C.Get(s.used, now, codeHash);
      (if sub.Some? then s.(sessions := s.sessions - {sub.value}) else s, Refused("invalid_grant"))
    else
      var sub := entry.value.userinfo.sub;
      var marked := Mark(s, codes, now, codeHash, sub, evicted);
      var session := SessionFor(cfg, client, entry.value, access, refresh, now);
      if !ExchangeAllowed(cfg, entry.value, req) then (marked, Refused("invalid_grant"))
      else if Conflicts(s.sessions, session) then (marked, Refused("server_error"))
      else (marked.(sessions := s.sessions[sub := session]), Tokens(access, refresh, sub, session.scope))
  }

  ghost function RefreshGrant(cfg: Config, s: State, now: nat, token: string, client: Client, access: string,
                              refresh: string): (State, Response)
  {
    var row := FindByRefresh(s.sessions, cfg.hash(token));
    if row.None? then (s, Refused("server_error"))
    else if row.value.refreshTokenExpiresAt < Unix(now) then (s, Refused("invalid_grant"))
    else if row.value.clientId != client.clientId then (s, Refused("invalid_grant"))
    else
      var session := Rotated(cfg, row.value, access, refresh, now);
      (s.(sessions := s.sessions[session.sub := session]), Tokens(access, refresh, session.sub, session.scope))
  }

  ghost function TokenCall(cfg: Config, s: State, now: nat, call: Call): (State, Response)
    requires call.Token?
  {
    var check := AuthenticateClient(cfg, call.token, call.basic);
    if check.ClientError? then (s, Refused(check.error))
    else if call.token.grantType == "authorization_code" then
      CodeGrant(cfg, s, now, call.token, check.client, call.access, call.refresh, call.evicted)
    else RefreshGrant(cfg, s, now, call.token.refreshToken, check.client, call.access, call.refresh)
  }

  // ----- /userinfo -----

  ghost function UserinfoCall(cfg: Config, s: State, now: nat, token: string): (State, Response) {
    var row := FindByAccess(s.sessions, cfg.hash(token));
    if row.None? then (s, Refused("invalid_grant"))
    else if row.value.tokenExpiresAt < Unix(now) then
      (if row.value.refreshTokenExpiresAt < Unix(now) then s.(sessions := s.sessions - {row.value.sub}) else s,
       Refused("server_error"))
    else if "openid" !in Split(row.value.scope, ' ') then (s, Refused("invalid_scope"))
    else (s, Claims(CompileUserinfo(row.value.userinfo, row.value.scope)))
  }

  // ----- The machine -----

  ghost function AuthorizeCall(cfg: Config, s: State, now: nat, call: Call): (State, Response)
    requires call.Authorize?
  {
    var error := AuthorizeError(cfg, call.req, call.user);
    if error.Some? then (s, Refused(error.value))
    else
      (s.(tickets := C.Set(s.tickets, now, call.ticket, call.req, TICKET_TTL, call.evicted)),
       AuthorizeAnswer(cfg, now, call.req, call.user, call.ticket))
  }

  ghost function CompleteCall(cfg: Config, s: State, now: nat, call: Call): (State, Response)
    requires call.Complete?
  {
    var req := CompleteRequest(s, now, call.completed, call.user);
    if req.None? then (s, Refused("not logged in or no such ticket"))
    else
      var entry := NewCodeEntry(cfg, req.value, call.user.value, call.code, now);
      (s.(tickets := C.Delete(s.tickets, call.completed),
          sessions := s.sessions - {entry.userinfo.sub},
          codes := C.Set(s.codes, now, entry.codeHash, entry, CODE_TTL, call.evicted)),
       Coded(call.code))
  }

  function Drawn(call: Call): set<string> {
    match call
    case Authorize(_, _, ticket, _) => {ticket}
    case Complete(_, _, code, _) => {code}
    case Token(_, _, access, refresh, _) => {access, refresh}
    case _ => {}
  }

  // Draws first, then the handler.
  function Drawing(before: State, e: Event): State {
    before.(clock := e.time, minted := before.minted + Drawn(e.call))
  }

  ghost function Next(cfg: Config, before: State, e: Event): (State, Response) {
    var s := Drawing(before, e);
    match e.call
    case Authorize(_, _, _, _) => AuthorizeCall(cfg, s, e.time, e.call)
    case Complete(_, _, _, _) => CompleteCall(cfg, s, e.time, e.call)
    case Token(_, _, _, _, _) => TokenCall(cfg, s, e.time, e.call)
    case GetUserinfo(token) => UserinfoCall(cfg, s, e.time, token)
    case CleanSessions => (s.(sessions := WithoutDead(s.sessions, Unix(e.time), Unix(e.time))), Done)
    case SweepCaches => (SweepCall(s, e.time), Done)
  }

  function SweepCall(s: State, now: nat): State {
    s.(tickets := C.Sweep(s.tickets, now), codes := C.Sweep(s.codes, now), used := C.Sweep(s.used, now))
  }

  // The clock does not run backwards, drawn strings are new and not empty, evictions are possible ones.
  ghost predicate Enabled(cfg: Config, s: State, e: Event) {
    && s.clock <= e.time
    && Drawn(e.call) !! s.minted && "" !in Drawn(e.call)
    && match e.call
       case Authorize(req, user, ticket, evicted) =>
         AuthorizeError(cfg, req, user).None? ==> C.MayEvict(s.tickets, e.time, ticket, evicted)
       case Complete(ticket, user, code, evicted) =>
         CompleteRequest(s, e.time, ticket, user).Some? ==> C.MayEvict(s.codes, e.time, cfg.hash(code), evicted)
       case Token(req, basic, access, refresh, evicted) =>
         && access != refresh
         && (Redeemed(cfg, s, e).Some? ==> C.MayEvict(s.used, e.time, cfg.hash(req.code), evicted))
       case _ => true
  }

  // ----- Runs -----

  datatype Run = Run(states: seq<State>, events: seq<Event>, answers: seq<Response>)

  ghost predicate IsRun(cfg: Config, r: Run) {
    && |r.states| == |r.events| + 1 && |r.answers| == |r.events| && r.states[0] == Initial()
    && forall n :: 0 <= n < |r.events| ==> Step(cfg, r, n)
  }

  ghost predicate Step(cfg: Config, r: Run, n: nat)
    requires n < |r.events| && |r.states| == |r.events| + 1 && |r.answers| == |r.events|
  {
    Enabled(cfg, r.states[n], r.events[n]) && (r.states[n + 1], r.answers[n]) == Next(cfg, r.states[n], r.events[n])
  }

  // ----- What every state keeps -----

  // h is the hash of a string that was drawn earlier.
  ghost predicate MintedHash(cfg: Config, minted: set<string>, h: string) {
    exists x :: x in minted && cfg.hash(x) == h
  }

  ghost predicate GoodCodes(cfg: Config, minted: set<string>, codes: C.Cache<CodeEntry>) {
    C.Valid(codes) && forall h :: h in codes.entries ==> GoodCode(cfg, minted, h, codes.entries[h])
  }

  ghost predicate GoodCode(cfg: Config, minted: set<string>, h: string, e: C.Entry<CodeEntry>) {
    MintedHash(cfg, minted, h) && e.expiresAt.Some? && e.value.codeHash == h
  }

  ghost predicate GoodSessions(cfg: Config, minted: set<string>, sessions: Table) {
    && Unique(sessions)
    && forall k :: k in sessions ==>
         && MintedHash(cfg, minted, sessions[k].accessTokenHash)
         && MintedHash(cfg, minted, sessions[k].refreshTokenHash)
  }

  ghost predicate GoodUsed(used: C.Cache<string>) {
    C.Valid(used) && used.maxSize == CACHE_SIZE
  }

  ghost predicate WellFormed(cfg: Config, s: State) {
    && C.Valid(s.tickets) && GoodCodes(cfg, s.minted, s.codes) && GoodUsed(s.used)
    && GoodSessions(cfg, s.minted, s.sessions)
  }

  lemma FreshHash(cfg: Config, minted: set<string>, x: string)
    requires ValidConfig(cfg) && x !in minted
    ensures !MintedHash(cfg, minted, cfg.hash(x))
  {
  }

  lemma DrawWellFormed(cfg: Config, before: State, e: Event)
    requires WellFormed(cfg, before)
    ensures WellFormed(cfg, Drawing(before, e))
  {
    forall h | MintedHash(cfg, before.minted, h)
      ensures MintedHash(cfg, before.minted + Drawn(e.call), h)
    {
      var x :| x in before.minted && cfg.hash(x) == h;
      assert x in before.minted + Drawn(e.call);
    }
  }

  lemma StoreGood(cfg: Config, minted: set<string>, sessions: Table, session: Session, access: string, refresh: string)
    requires GoodSessions(cfg, minted, sessions) && access in minted && refresh in minted
    requires session.accessTokenHash == cfg.hash(access) && session.refreshTokenHash == cfg.hash(refresh)
    requires forall k :: k in sessions && k != session.sub ==>
               && sessions[k].accessTokenHash != session.accessTokenHash
               && sessions[k].refreshTokenHash != session.refreshTokenHash
    ensures GoodSessions(cfg, minted, sessions[session.sub := session])
  {
    assert MintedHash(cfg, minted, session.accessTokenHash) && MintedHash(cfg, minted, session.refreshTokenHash);
    StoreUnique(sessions, session);
  }

  lemma RemoveGood(cfg: Config, minted: set<string>, sessions: Table, sub: string)
    requires GoodSessions(cfg, minted, sessions)
    ensures GoodSessions(cfg, minted, sessions - {sub})
  {
  }

  lemma MarkGood(cfg: Config, s: State, now: nat, codeHash: string, clientId: string, sub: string,
                 evicted: Option<string>)
    requires WellFormed(cfg, s) && C.MayEvict(s.used, now, codeHash, evicted)
    ensures WellFormed(cfg, Mark(s, Redeem(s.codes, now, codeHash, clientId).0, now, codeHash, sub, evicted))
  {
    C.DeleteValid(s.codes, codeHash);
    C.SetValid(s.used, now, codeHash, sub, USED_CODE_TTL, evicted);
  }

  lemma NewSessionGood(cfg: Config, minted: set<string>, sessions: Table, session: Session, access: string,
                       refresh: string)
    requires GoodSessions(cfg, minted, sessions) && access in minted && refresh in minted
    requires session.accessTokenHash == cfg.hash(access) && session.refreshTokenHash == cfg.hash(refresh)
    requires !Conflicts(sessions, session)
    ensures GoodSessions(cfg, minted, sessions[session.sub := session])
  {
    assert forall k :: k in sessions ==> !Clashes(sessions[k], session);
    StoreGood(cfg, minted, sessions, session, access, refresh);
  }

  lemma SessionsGood(cfg: Config, s: State, sessions: Table)
    requires WellFormed(cfg, s) && GoodSessions(cfg, s.minted, sessions)
    ensures WellFormed(cfg, s.(sessions := sessions))
  {
  }

  lemma ReplayGood(cfg: Config, s: State, now: nat, req: TokenRequest, client: Client, access: string,
                   refresh: string, evicted: Option<string>)
    requires WellFormed(cfg, s) && Redeem(s.codes, now, cfg.hash(req.code), client.clientId).1.None?
    ensures WellFormed(cfg, CodeGrant(cfg, s, now, req, client, access, refresh, evicted).0)
  {
    var sub := C.Get(s.used, now, cfg.hash(req.code));
    if sub.Some? {
      RemoveGood(cfg, s.minted, s.sessions, sub.value);
    }
  }

  // An exchange that found its code leaves the marked state, with or without the new session.
  lemma ExchangeOutcome(cfg: Config, s: State, now: nat, req: TokenRequest, client: Client, access: string,
                        refresh: string, evicted: Option<string>, entry: CodeEntry)
    requires Redeem(s.codes, now, cfg.hash(req.code), client.clientId).1 == Some(entry)
    ensures var codes := Redeem(s.codes, now, cfg.hash(req.code), client.clientId).0;
            var marked := Mark(s, codes, now, cfg.hash(req.code), entry.userinfo.sub, evicted);
            var session := SessionFor(cfg, client, entry, access, refresh, now);
            var t := CodeGrant(cfg, s, now, req, client, access, refresh, evicted).0;
            || t == marked
            || (!Conflicts(s.sessions, session) && t == marked.(sessions := s.sessions[session.sub := session]))
  {
  }

  lemma ExchangeGood(cfg: Config, s: State, now: nat, req: TokenRequest, client: Client, access: string,
                     refresh: string, evicted: Option<string>, entry: CodeEntry)
    requires WellFormed(cfg, s) && access in s.minted && refresh in s.minted
    requires Redeem(s.codes, now, cfg.hash(req.code), client.clientId).1 == Some(entry)
    requires C.MayEvict(s.used, now, cfg.hash(req.code), evicted)
    ensures WellFormed(cfg, CodeGrant(cfg, s, now, req, client, access, refresh, evicted).0)
  {
    var codeHash := cfg.hash(req.code);
    MarkGood(cfg, s, now, codeHash, client.clientId, entry.userinfo.sub, evicted);
    ExchangeOutcome(cfg, s, now, req, client, access, refresh, evicted, entry);
    var session := SessionFor(cfg, client, entry, access, refresh, now);
    if !Conflicts(s.sessions, session) {
      NewSessionGood(cfg, s.minted, s.sessions, session, access, refresh);
      var codes := Redeem(s.codes, now, codeHash, client.clientId).0;
      SessionsGood(cfg, Mark(s, codes, now, codeHash, entry.userinfo.sub, evicted), s.sessions[session.sub := session]);
    }
  }

  lemma CodeGrantGood(cfg: Config, s: State, now: nat, req: TokenRequest, client: Client, access: string,
                      refresh: string, evicted: Option<string>)
    requires WellFormed(cfg, s) && access in s.minted && refresh in s.minted
    requires Redeem(s.codes, now, cfg.hash(req.code), client.clientId).1.Some? ==>
               C.MayEvict(s.used, now, cfg.hash(req.code), evicted)
    ensures WellFormed(cfg, CodeGrant(cfg, s, now, req, client, access, refresh, evicted).0)
  {
    var entry := Redeem(s.codes, now, cfg.hash(req.code), client.clientId).1;
    if entry.Some? {
      ExchangeGood(cfg, s, now, req, client, access, refresh, evicted, entry.value);
    } else {
      ReplayGood(cfg, s, now, req, client, access, refresh, evicted);
    }
  }

  lemma RefreshGrantGood(cfg: Config, s: State, minted: set<string>, now: nat, token: string, client: Client,
                         access: string, refresh: string)
    requires ValidConfig(cfg) && WellFormed(cfg, s) && GoodSessions(cfg, minted, s.sessions)
    requires access in s.minted - minted && refresh in s.minted - minted
    ensures WellFormed(cfg, RefreshGrant(cfg, s, now, token, client, access, refresh).0)
  {
    var row := FindByRefresh(s.sessions, cfg.hash(token));
    if row.Some? {
      FreshHash(cfg, minted, access);
      FreshHash(cfg, minted, refresh);
      StoreGood(cfg, s.minted, s.sessions, Rotated(cfg, row.value, access, refresh, now), access, refresh);
    }
  }

  lemma TokenGood(cfg: Config, s: State, minted: set<string>, now: nat, call: Call)
    requires ValidConfig(cfg) && WellFormed(cfg, s) && GoodSessions(cfg, minted, s.sessions) && call.Token?
    requires call.access in s.minted - minted && call.refresh in s.minted - minted
    requires Redeemed(cfg, s, At(now, call)).Some? ==>
               C.MayEvict(s.used, now, cfg.hash(call.token.code), call.evicted)
    ensures WellFormed(cfg, TokenCall(cfg, s, now, call).0)
  {
    var check := AuthenticateClient(cfg, call.token, call.basic);
    if check.ClientOk? {
      if call.token.grantType == "authorization_code" {
        CodeGrantGood(cfg, s, now, call.token, check.client, call.access, call.refresh, call.evicted);
      } else {
        RefreshGrantGood(cfg, s, minted, now, call.token.refreshToken, check.client, call.access, call.refresh);
      }
    }
  }

  lemma AuthorizeGood(cfg: Config, s: State, now: nat, call: Call)
    requires WellFormed(cfg, s) && call.Authorize?
    requires AuthorizeError(cfg, call.req, call.user).None? ==> C.MayEvict(s.tickets, now, call.ticket, call.evicted)
    ensures WellFormed(cfg, AuthorizeCall(cfg, s, now, call).0)
  {
    if AuthorizeError(cfg, call.req, call.user).None? {
      C.SetValid(s.tickets, now, call.ticket, call.req, TICKET_TTL, call.evicted);
    }
  }

  lemma NewCodeGood(cfg: Config, minted: set<string>, codes: C.Cache<CodeEntry>, now: nat, code: string,
                    entry: CodeEntry, evicted: Option<string>)
    requires GoodCodes(cfg, minted, codes) && code in minted && entry.codeHash == cfg.hash(code)
    requires C.MayEvict(codes, now, entry.codeHash, evicted)
    ensures GoodCodes(cfg, minted, C.Set(codes, now, entry.codeHash, entry, CODE_TTL, evicted))
  {
    C.SetValid(codes, now, entry.codeHash, entry, CODE_TTL, evicted);
    var codes' := C.Set(codes, now, entry.codeHash, entry, CODE_TTL, evicted);
    assert GoodCode(cfg, minted, entry.codeHash, codes'.entries[entry.codeHash]);
    assert forall h :: h in codes'.entries && h != entry.codeHash ==> codes'.entries[h] == codes.entries[h];
  }

  lemma CompleteGood(cfg: Config, s: State, now: nat, call: Call)
    requires WellFormed(cfg, s) && call.Complete? && call.code in s.minted
    requires CompleteRequest(s, now, call.completed, call.user).Some? ==>
               C.MayEvict(s.codes, now, cfg.hash(call.code), call.evicted)
    ensures WellFormed(cfg, CompleteCall(cfg, s, now, call).0)
  {
    var req := CompleteRequest(s, now, call.completed, call.user);
    if req.Some? {
      var entry := NewCodeEntry(cfg, req.value, call.user.value, call.code, now);
      C.DeleteValid(s.tickets, call.completed);
      NewCodeGood(cfg, s.minted, s.codes, now, call.code, entry, call.evicted);
      RemoveGood(cfg, s.minted, s.sessions, entry.userinfo.sub);
    }
  }

  lemma SweepCodesGood(cfg: Config, minted: set<string>, codes: C.Cache<CodeEntry>, now: nat)
    requires GoodCodes(cfg, minted, codes)
    ensures GoodCodes(cfg, minted, C.Sweep(codes, now))
  {
    C.SweepValid(codes, now);
  }

  lemma SweepGood(cfg: Config, s: State, now: nat)
    requires WellFormed(cfg, s)
    ensures WellFormed(cfg, SweepCall(s, now))
  {
    C.SweepValid(s.tickets, now);
    C.SweepValid(s.used, now);
    SweepCodesGood(cfg, s.minted, s.codes, now);
  }

  lemma CleanGood(cfg: Config, minted: set<string>, sessions: Table, now: int)
    requires GoodSessions(cfg, minted, sessions)
    ensures GoodSessions(cfg, minted, WithoutDead(sessions, now, now))
  {
  }

  lemma UserinfoGood(cfg: Config, s: State, now: nat, token: string)
    requires WellFormed(cfg, s)
    ensures WellFormed(cfg, UserinfoCall(cfg, s, now, token).0)
  {
    var row := FindByAccess(s.sessions, cfg.hash(token));
    if row.Some? {
      RemoveGood(cfg, s.minted, s.sessions, row.value.sub);
    }
  }

  lemma NextTokenGood(cfg: Config, before: State, e: Event)
    requires ValidConfig(cfg) && WellFormed(cfg, before) && Enabled(cfg, before, e) && e.call.Token?
    ensures WellFormed(cfg, TokenCall(cfg, Drawing(before, e), e.time, e.call).0)
  {
    DrawWellFormed(cfg, before, e);
    TokenGood(cfg, Drawing(before, e), before.minted, e.time, e.call);
  }

  lemma NextCompleteGood(cfg: Config, before: State, e: Event)
    requires WellFormed(cfg, before) && Enabled(cfg, before, e) && e.call.Complete?
    ensures WellFormed(cfg, CompleteCall(cfg, Drawing(before, e), e.time, e.call).0)
  {
    DrawWellFormed(cfg, before, e);
    CompleteGood(cfg, Drawing(before, e), e.time, e.call);
  }

  lemma NextAuthorizeGood(cfg: Config, before: State, e: Event)
    requires WellFormed(cfg, before) && Enabled(cfg, before, e) && e.call.Authorize?
    ensures WellFormed(cfg, AuthorizeCall(cfg, Drawing(before, e), e.time, e.call).0)
  {
    DrawWellFormed(cfg, before, e);
    AuthorizeGood(cfg, Drawing(before, e), e.time, e.call);
  }

  lemma NextWellFormed(cfg: Config, before: State, e: Event)
    requires ValidConfig(cfg) && WellFormed(cfg, before) && Enabled(cfg, before, e)
    ensures WellFormed(cfg, Next(cfg, before, e).0)
  {
    match e.call
    case Authorize(_, _, _, _) => NextAuthorizeGood(cfg, before, e);
    case Complete(_, _, _, _) => NextCompleteGood(cfg, before, e);
    case Token(_, _, _, _, _) => NextTokenGood(cfg, before, e);
    case GetUserinfo(token) =>
      DrawWellFormed(cfg, before, e);
      UserinfoGood(cfg, Drawing(before, e), e.time, token);
    case CleanSessions =>
      DrawWellFormed(cfg, before, e);
      CleanGood(cfg, before.minted, before.sessions, Unix(e.time));
    case SweepCaches =>
      DrawWellFormed(cfg, before, e);
      SweepGood(cfg, Drawing(before, e), e.time);
  }

  lemma StepWellFormed(cfg: Config, r: Run, n: nat)
    requires ValidConfig(cfg) && IsRun(cfg, r) && n < |r.events| && WellFormed(cfg, r.states[n])
    ensures WellFormed(cfg, r.states[n + 1])
  {
    assert Step(cfg, r, n);
    NextWellFormed(cfg, r.states[n], r.events[n]);
  }

  lemma InitialWellFormed(cfg: Config)
    ensures WellFormed(cfg, Initial())
  {
  }

  lemma {:induction false} RunWellFormed(cfg: Config, r: Run, n: nat)
    requires ValidConfig(cfg) && IsRun(cfg, r) && n < |r.states|
    ensures WellFormed(cfg, r.states[n])
  {
    if n > 0 {
      RunWellFormed(cfg, r, n - 1);
      StepWellFormed(cfg, r, n - 1);
    }
  }

  lemma StepGrows(cfg: Config, r: Run, n: nat)
    requires IsRun(cfg, r) && n < |r.events|
    ensures r.states[n].clock <= r.events[n].time == r.states[n + 1].clock
    ensures r.states[n + 1].minted == r.states[n].minted + Drawn(r.events[n].call)
    ensures Drawn(r.events[n].call) !! r.states[n].minted
  {
    assert Step(cfg, r, n);
  }

  lemma {:induction false} MintedGrows(cfg: Config, r: Run, i: nat, j: nat)
    requires IsRun(cfg, r) && i <= j < |r.states|
    ensures r.states[i].minted <= r.states[j].minted && r.states[i].clock <= r.states[j].clock
  {
    if i < j {
      MintedGrows(cfg, r, i, j - 1);
      StepGrows(cfg, r, j - 1);
    }
  }
}
