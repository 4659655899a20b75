/**
 What a request to the provider must show to get what it asks for, and what it is told, in terms of the
 request, the user and the rows that are stored: each condition is necessary and sufficient, over every run.
 */
module OidcAnswers {
  import opened Base
  import opened Contexts
  import opened Strings
  import opened OidcModel
  import opened OidcTable
  import opened OidcProtocol
  import opened OidcProvenance
  import C = CacheSpec
  import R = OidcReplay

  // ----- Authorization requests -----

  predicate IsPrompt(w: string) {
    w == "login" || w == "none"
  }

  lemma PromptWords(w: string)
    ensures w in SUPPORTED_PROMPTS <==> IsPrompt(w)
  {
    assert SUPPORTED_PROMPTS[0] == "login" && SUPPORTED_PROMPTS[1] == "none";
  }

  lemma {:induction false} TwoKnown(words: seq<string>, i: nat, j: nat)
    requires i < j < |words| && words[i] in SUPPORTED_PROMPTS && words[j] in SUPPORTED_PROMPTS
    ensures |Known(words, SUPPORTED_PROMPTS)| > 1
  {
    if i == 0 {
      assert words[1..][j - 1] in Known(words[1..], SUPPORTED_PROMPTS);
    } else {
      TwoKnown(words[1..], i - 1, j - 1);
    }
  }

  lemma {:induction false} NoneKnown(words: seq<string>)
    requires forall w :: w in words ==> w !in SUPPORTED_PROMPTS
    ensures Known(words, SUPPORTED_PROMPTS) == []
  {
    if words != [] {
      NoneKnown(words[1..]);
    }
  }

  lemma {:induction false} OneKnown(words: seq<string>, i: nat)
    requires i < |words| && forall j :: 0 <= j < |words| && j != i ==> words[j] !in SUPPORTED_PROMPTS
    ensures |Known(words, SUPPORTED_PROMPTS)| <= 1
  {
    if i == 0 {
      NoneKnown(words[1..]);
    } else {
      OneKnown(words[1..], i - 1);
    }
  }

  // "none" stands alone among the prompts the provider knows, and is for users who are logged in.
  ghost predicate PromptFits(req: AuthorizeRequest, user: Option<UserContext>) {
    var words := Split(req.prompt, ' ');
    && (forall i, j | 0 <= i < |words| && 0 <= j < |words| && i != j && words[i] == "none" :: !IsPrompt(words[j]))
    && ("none" in words ==> user.Some? && user.value.authenticated)
  }

  lemma PromptKnown(prompt: string, w: string)
    requires IsPrompt(w)
    ensures w in GetPrompt(prompt) <==> w in Split(prompt, ' ')
  {
    PromptWords(w);
  }

  lemma NoneAlone(words: seq<string>)
    requires "none" in words
    ensures |Known(words, SUPPORTED_PROMPTS)| <= 1 <==>
              forall i, j | 0 <= i < |words| && 0 <= j < |words| && i != j && words[i] == "none" :: !IsPrompt(words[j])
  {
    var n :| 0 <= n < |words| && words[n] == "none";
    forall j | 0 <= j < |words|
      ensures words[j] in SUPPORTED_PROMPTS <==> IsPrompt(words[j])
    {
      PromptWords(words[j]);
    }
    if i, j :| 0 <= i < |words| && 0 <= j < |words| && i != j && words[i] == "none" && IsPrompt(words[j]) {
      if i < j {
        TwoKnown(words, i, j);
      } else {
        TwoKnown(words, j, i);
      }
    } else {
      OneKnown(words, n);
    }
  }

  lemma AuthorizedExactly(cfg: Config, req: AuthorizeRequest, user: Option<UserContext>)
    ensures AuthorizeError(cfg, req, user).None? <==> Acceptable(cfg, req) && PromptFits(req, user)
  {
    ValidatedExactly(cfg, req);
    PromptKnown(req.prompt, "none");
    if "none" in Split(req.prompt, ' ') {
      assert req.prompt != "";
      NoneAlone(Split(req.prompt, ' '));
    }
  }

  // The user logged in longer ago than the request accepts.
  predicate LoggedInTooLongAgo(cfg: Config, req: AuthorizeRequest, user: Option<UserContext>, now: nat) {
    && req.maxAge != "" && user.Some? && user.value.authenticated && cfg.atoi(req.maxAge).Some?
    && (user.value.authTime + cfg.atoi(req.maxAge).value) * SECOND < now
  }

  predicate AgeReadable(cfg: Config, req: AuthorizeRequest, user: Option<UserContext>) {
    req.maxAge == "" || user.None? || cfg.atoi(req.maxAge).Some?
  }

  // What the login page is told to do.
  predicate Prompts(cfg: Config, req: AuthorizeRequest, user: Option<UserContext>, now: nat, prompt: string) {
    var words := Split(req.prompt, ' ');
    if "login" in words || LoggedInTooLongAgo(cfg, req, user, now) then prompt == "login"
    else if "none" in words then prompt == "none"
    else prompt == ""
  }

  lemma TicketPrompt(cfg: Config, now: nat, req: AuthorizeRequest, user: Option<UserContext>, ticket: string)
    requires PromptFits(req, user)
    ensures var answer := AuthorizeAnswer(cfg, now, req, user, ticket);
            && (answer.Ticketed? <==> AgeReadable(cfg, req, user))
            && (answer.Ticketed? ==> answer.ticket == ticket && Prompts(cfg, req, user, now, answer.prompt))
  {
    PromptKnown(req.prompt, "none");
    PromptKnown(req.prompt, "login");
  }

  lemma TicketStored(cfg: Config, s: State, e: Event)
    requires e.call.Authorize? && e.call.ticket !in s.tickets.entries
    ensures var (t, answer) := Next(cfg, s, e);
            var fits := Acceptable(cfg, e.call.req) && PromptFits(e.call.req, e.call.user);
            && t.codes == s.codes && t.used == s.used && t.sessions == s.sessions
            && (if fits then
                  && e.call.ticket in t.tickets.entries
                  && t.tickets.entries[e.call.ticket] == C.Entry(e.call.req, Some(e.time + 600 * SECOND))
                  && answer == AuthorizeAnswer(cfg, e.time, e.call.req, e.call.user, e.call.ticket)
                else t.tickets == s.tickets && answer.Refused?)
  {
    AuthorizedExactly(cfg, e.call.req, e.call.user);
  }

  /**
   A request gets a ticket, for ten minutes, exactly when its client trusts its redirect URI and scope, response
   type, challenge and prompts are in order. The ticket is handed out unless max_age is no number; the user is to
   log in again when the request asks for it or the last time is too long ago.
   */
  lemma TicketExactly(cfg: Config, r: Run, n: nat)
    requires IsRun(cfg, r) && n < |r.events| && r.events[n].call.Authorize?
    ensures var (e, s, t, answer) := (r.events[n], r.states[n], r.states[n + 1], r.answers[n]);
            var (req, user) := (e.call.req, e.call.user);
            var fits := Acceptable(cfg, req) && PromptFits(req, user);
            && (e.call.ticket in t.tickets.entries <==> fits)
            && (fits ==> t.tickets.entries[e.call.ticket] == C.Entry(req, Some(e.time + 600 * SECOND)))
            && (answer.Ticketed? <==> fits && AgeReadable(cfg, req, user))
            && (answer.Ticketed? ==> answer.ticket == e.call.ticket && Prompts(cfg, req, user, e.time, answer.prompt))
            && t.codes == s.codes && t.used == s.used && t.sessions == s.sessions
  {
    var e := r.events[n];
    StepGrows(cfg, r, n);
    if e.call.ticket in r.states[n].tickets.entries {
      R.TicketsDrawn(cfg, r, n, e.call.ticket);
    }
    assert Step(cfg, r, n);
    TicketStored(cfg, r.states[n], e);
    if PromptFits(e.call.req, e.call.user) {
      TicketPrompt(cfg, e.time, e.call.req, e.call.user, e.call.ticket);
    }
  }

  // ----- Completions -----

  // Ticket and session of the user go, no other session does, and a code comes that is bound to request and user.
  ghost predicate Completed(cfg: Config, s: State, t: State, e: Event, req: AuthorizeRequest, user: UserContext)
    requires e.call.Complete?
  {
    var k := cfg.hash(e.call.code);
    && e.call.completed !in t.tickets.entries
    && t.sessions == s.sessions - {cfg.uuid(user.GetUsername() + ":" + req.clientId)}
    && k in t.codes.entries && t.codes.entries[k].expiresAt == Some(e.time + 60 * SECOND)
    && Bound(cfg, t.codes.entries[k].value, req, user, e.call.code, e.time)
  }

  lemma CompleteTables(cfg: Config, s: State, e: Event, req: AuthorizeRequest)
    requires e.call.Complete? && LoggedIn(e.call.user) && C.Get(s.tickets, e.time, e.call.completed) == Some(req)
    ensures var (t, entry) := (Next(cfg, s, e).0, NewCodeEntry(cfg, req, e.call.user.value, e.call.code, e.time));
            && e.call.completed !in t.tickets.entries && t.sessions == s.sessions - {entry.userinfo.sub}
            && entry.codeHash in t.codes.entries
            && t.codes.entries[entry.codeHash] == C.Entry(entry, Some(e.time + CODE_TTL))
    ensures Next(cfg, s, e).1 == Coded(e.call.code)
  {
  }

  lemma CompletesStep(cfg: Config, s: State, e: Event, req: AuthorizeRequest)
    requires e.call.Complete? && LoggedIn(e.call.user) && C.Get(s.tickets, e.time, e.call.completed) == Some(req)
    requires Acceptable(cfg, req)
    ensures Completed(cfg, s, Next(cfg, s, e).0, e, req, e.call.user.value)
  {
    CompleteTables(cfg, s, e, req);
    CodeBound(cfg, req, e.call.user.value, e.call.code, e.time);
  }

  lemma RefusesCompletion(cfg: Config, s: State, e: Event)
    requires e.call.Complete?
    requires !LoggedIn(e.call.user) || C.Get(s.tickets, e.time, e.call.completed).None?
    ensures var (t, answer) := Next(cfg, s, e);
            answer.Refused? && t == s.(clock := e.time, minted := s.minted + {e.call.code})
  {
  }

  /**
   A completion gets a code, for a minute, exactly when the user is logged in and the ticket is live; ticket and
   session of the user are gone then, and no other session is touched.
   */
  lemma CompletionExactly(cfg: Config, r: Run, n: nat)
    requires IsRun(cfg, r) && n < |r.events| && r.events[n].call.Complete?
    ensures var (e, s, t) := (r.events[n], r.states[n], r.states[n + 1]);
            var found := C.Get(s.tickets, e.time, e.call.completed);
            if e.call.user.Some? && e.call.user.value.authenticated && found.Some? then
              r.answers[n] == Coded(e.call.code) && Completed(cfg, s, t, e, found.value, e.call.user.value)
            else r.answers[n].Refused? && t == s.(clock := e.time, minted := s.minted + {e.call.code})
  {
    var (e, s) := (r.events[n], r.states[n]);
    assert Step(cfg, r, n);
    var found := C.Get(s.tickets, e.time, e.call.completed);
    if LoggedIn(e.call.user) && found.Some? {
      TicketsTraced(cfg, r, n, e.call.completed);
      CompleteTables(cfg, s, e, found.value);
      CompletesStep(cfg, s, e, found.value);
    } else {
      RefusesCompletion(cfg, s, e);
    }
  }

  // ----- Token requests -----

  /** A token request without the secret of a configured client is refused and changes nothing. */
  lemma StrangersGetNothing(cfg: Config, r: Run, n: nat)
    requires ValidConfig(cfg) && IsRun(cfg, r) && n < |r.events| && r.events[n].call.Token?
    requires forall id :: !ComesFrom(cfg, r.events[n].call.token, r.events[n].call.basic, id)
    ensures r.answers[n].Refused?
    ensures var (s, t) := (r.states[n], r.states[n + 1]);
            t.tickets == s.tickets && t.codes == s.codes && t.used == s.used && t.sessions == s.sessions
  {
    var (token, basic) := (r.events[n].call.token, r.events[n].call.basic);
    var check := AuthenticateClient(cfg, token, basic);
    if check.ClientOk? {
      ClientExactly(cfg, token, basic, check.client.clientId);
      assert false;
    }
    assert Step(cfg, r, n);
  }

  // The client has a live code of its own, repeats its redirect URI, answers its challenge, and its user has no
  // session.
  ghost predicate MayExchange(cfg: Config, s: State, now: nat, req: TokenRequest, id: string) {
    var found := C.Get(s.codes, now, cfg.hash(req.code));
    && found.Some? && found.value.clientId == id && found.value.redirectUri == req.redirectUri
    && (found.value.codeChallenge == "" || found.value.codeChallenge == cfg.pkce(req.codeVerifier))
    && found.value.userinfo.sub !in s.sessions
  }

  lemma NoClash(cfg: Config, s: State, session: Session, access: string, refresh: string)
    requires ValidConfig(cfg) && GoodSessions(cfg, s.minted, s.sessions) && access !in s.minted && refresh !in s.minted
    requires session.accessTokenHash == cfg.hash(access) && session.refreshTokenHash == cfg.hash(refresh)
    ensures Conflicts(s.sessions, session) <==> session.sub in s.sessions
  {
    FreshHash(cfg, s.minted, access);
    FreshHash(cfg, s.minted, refresh);
    if session.sub in s.sessions {
      assert Clashes(s.sessions[session.sub], session);
    }
  }

  // The row of a fresh exchange.
  ghost predicate Granted(cfg: Config, session: Session, entry: CodeEntry, access: string, refresh: string, now: nat) {
    && session.sub == entry.userinfo.sub && session.clientId == entry.clientId && session.scope == entry.scope
    && session.nonce == entry.nonce && session.userinfo == entry.userinfo
    && session.accessTokenHash == cfg.hash(access) && session.refreshTokenHash == cfg.hash(refresh)
    && session.tokenExpiresAt == Unix(now) + cfg.sessionExpiry
    && session.refreshTokenExpiresAt == Unix(now) + 2 * cfg.sessionExpiry
  }

  // The tokens are answered and stored, for what the code is bound to, and no other row changes.
  ghost predicate Exchanged(cfg: Config, s: State, t: State, now: nat, req: TokenRequest, access: string,
                            refresh: string, answer: Response)
  {
    var found := C.Get(s.codes, now, cfg.hash(req.code));
    && found.Some?
    && var sub := found.value.userinfo.sub;
       && answer == Tokens(access, refresh, sub, found.value.scope)
       && sub in t.sessions && Granted(cfg, t.sessions[sub], found.value, access, refresh, now)
       && t.sessions == s.sessions[sub := t.sessions[sub]]
  }

  lemma CodeGrantExactly(cfg: Config, s: State, now: nat, req: TokenRequest, client: Client, access: string,
                         refresh: string, evicted: Option<string>)
    requires forall session: Session
               | session.accessTokenHash == cfg.hash(access) && session.refreshTokenHash == cfg.hash(refresh) ::
               Conflicts(s.sessions, session) <==> session.sub in s.sessions
    ensures var (t, answer) := CodeGrant(cfg, s, now, req, client, access, refresh, evicted);
            && (answer.Tokens? <==> MayExchange(cfg, s, now, req, client.clientId))
            && (answer.Tokens? ==> Exchanged(cfg, s, t, now, req, access, refresh, answer))
  {
  }

  lemma ExchangeStep(cfg: Config, s: State, e: Event, id: string)
    requires ValidConfig(cfg) && WellFormed(cfg, s) && Enabled(cfg, s, e)
    requires e.call.Token? && e.call.token.grantType == "authorization_code"
    requires ComesFrom(cfg, e.call.token, e.call.basic, id)
    ensures var (t, answer) := Next(cfg, s, e);
            && (answer.Tokens? <==> MayExchange(cfg, s, e.time, e.call.token, id))
            && (answer.Tokens? ==> Exchanged(cfg, s, t, e.time, e.call.token, e.call.access, e.call.refresh, answer))
  {
    ClientExactly(cfg, e.call.token, e.call.basic, id);
    forall session: Session
      | session.accessTokenHash == cfg.hash(e.call.access) && session.refreshTokenHash == cfg.hash(e.call.refresh)
      ensures Conflicts(s.sessions, session) <==> session.sub in s.sessions
    {
      NoClash(cfg, s, session, e.call.access, e.call.refresh);
    }
    CodeGrantExactly(cfg, Drawing(s, e), e.time, e.call.token, cfg.clients[id], e.call.access, e.call.refresh,
                     e.call.evicted);
  }

  /**
   A client that shows its secret exchanges a code exactly when the code is live and its own, redirect URI and
   verifier are right, and the user has no session with it; what it gets is what the code is bound to.
   */
  lemma ExchangeExactly(cfg: Config, r: Run, n: nat, id: string)
    requires ValidConfig(cfg) && IsRun(cfg, r) && n < |r.events|
    requires r.events[n].call.Token? && r.events[n].call.token.grantType == "authorization_code"
    requires ComesFrom(cfg, r.events[n].call.token, r.events[n].call.basic, id)
    ensures var (e, s, t, answer) := (r.events[n], r.states[n], r.states[n + 1], r.answers[n]);
            && (answer.Tokens? <==> MayExchange(cfg, s, e.time, e.call.token, id))
            && (answer.Tokens? ==> Exchanged(cfg, s, t, e.time, e.call.token, e.call.access, e.call.refresh, answer))
  {
    RunWellFormed(cfg, r, n);
    assert Step(cfg, r, n);
    ExchangeStep(cfg, r.states[n], r.events[n], id);
  }

  // The client has a row with this refresh token that is not past its second lifetime.
  predicate MayRefresh(cfg: Config, s: State, now: nat, token: string, id: string, k: string) {
    && k in s.sessions && s.sessions[k].refreshTokenHash == cfg.hash(token)
    && s.sessions[k].refreshTokenExpiresAt >= Unix(now) && s.sessions[k].clientId == id
  }

  // New tokens are answered and replace the old ones; the row grants what it granted.
  ghost predicate Renewed(cfg: Config, s: State, t: State, now: nat, k: string, access: string, refresh: string,
                          answer: Response)
    requires k in s.sessions
  {
    && answer == Tokens(access, refresh, k, s.sessions[k].scope)
    && t.sessions == s.sessions[k := s.sessions[k].(
         accessTokenHash := cfg.hash(access), refreshTokenHash := cfg.hash(refresh),
         tokenExpiresAt := Unix(now) + cfg.sessionExpiry, refreshTokenExpiresAt := Unix(now) + 2 * cfg.sessionExpiry)]
  }

  lemma RefreshGrantExactly(cfg: Config, s: State, now: nat, token: string, client: Client, access: string,
                            refresh: string)
    requires Unique(s.sessions)
    ensures var (t, answer) := RefreshGrant(cfg, s, now, token, client, access, refresh);
            && (answer.Tokens? <==> exists k :: MayRefresh(cfg, s, now, token, client.clientId, k))
            && (forall k :: MayRefresh(cfg, s, now, token, client.clientId, k) ==>
                 Renewed(cfg, s, t, now, k, access, refresh, answer))
            && (!answer.Tokens? ==> t == s)
  {
    var row := FindByRefresh(s.sessions, cfg.hash(token));
    if found: Session :| row == Some(found) {
      assert found.sub in s.sessions && s.sessions[found.sub] == found;
      assert found.refreshTokenExpiresAt >= Unix(now) && found.clientId == client.clientId ==>
               MayRefresh(cfg, s, now, token, client.clientId, found.sub);
    }
  }

  lemma RefreshStep(cfg: Config, s: State, e: Event, id: string)
    requires ValidConfig(cfg) && Unique(s.sessions)
    requires e.call.Token? && e.call.token.grantType == "refresh_token"
    requires ComesFrom(cfg, e.call.token, e.call.basic, id)
    ensures var ((t, answer), token) := (Next(cfg, s, e), e.call.token.refreshToken);
            && (answer.Tokens? <==> exists k :: MayRefresh(cfg, s, e.time, token, id, k))
            && (forall k :: MayRefresh(cfg, s, e.time, token, id, k) ==>
                 Renewed(cfg, s, t, e.time, k, e.call.access, e.call.refresh, answer))
            && (!answer.Tokens? ==> t.sessions == s.sessions)
  {
    var drawn := Drawing(s, e);
    ClientExactly(cfg, e.call.token, e.call.basic, id);
    RefreshGrantExactly(cfg, drawn, e.time, e.call.token.refreshToken, cfg.clients[id], e.call.access, e.call.refresh);
    assert forall k :: MayRefresh(cfg, s, e.time, e.call.token.refreshToken, id, k) <==>
                       MayRefresh(cfg, drawn, e.time, e.call.token.refreshToken, id, k);
  }

  /**
   A client that shows its secret gets new tokens exactly for a refresh token of its own that is not past two
   lifetimes. They replace the old ones; the session grants what it granted.
   */
  lemma RefreshExactly(cfg: Config, r: Run, n: nat, id: string)
    requires ValidConfig(cfg) && IsRun(cfg, r) && n < |r.events|
    requires r.events[n].call.Token? && r.events[n].call.token.grantType == "refresh_token"
    requires ComesFrom(cfg, r.events[n].call.token, r.events[n].call.basic, id)
    ensures var (e, s, t, answer) := (r.events[n], r.states[n], r.states[n + 1], r.answers[n]);
            && (answer.Tokens? <==> exists k :: MayRefresh(cfg, s, e.time, e.call.token.refreshToken, id, k))
            && (forall k :: MayRefresh(cfg, s, e.time, e.call.token.refreshToken, id, k) ==>
                 Renewed(cfg, s, t, e.time, k, e.call.access, e.call.refresh, answer))
            && (!answer.Tokens? ==> t.sessions == s.sessions)
  {
    RunWellFormed(cfg, r, n);
    assert Step(cfg, r, n);
    RefreshStep(cfg, r.states[n], r.events[n], id);
  }

  // ----- Userinfo -----

  // The row of this access token is within its first lifetime, and openid was granted.
  predicate MayRead(cfg: Config, s: State, now: nat, token: string, k: string) {
    && k in s.sessions && s.sessions[k].accessTokenHash == cfg.hash(token)
    && s.sessions[k].tokenExpiresAt >= Unix(now) && "openid" in Split(s.sessions[k].scope, ' ')
  }

  // A row found past both lifetimes goes; otherwise nothing changes.
  ghost predicate ReadSessions(cfg: Config, before: Table, after: Table, now: nat, token: string) {
    forall k ::
      && (k in after <==>
           && k in before
           && !(before[k].accessTokenHash == cfg.hash(token) && before[k].tokenExpiresAt < Unix(now)
                && before[k].refreshTokenExpiresAt < Unix(now)))
      && (k in after ==> after[k] == before[k])
  }

  lemma UserinfoReads(cfg: Config, s: State, now: nat, token: string)
    requires Unique(s.sessions)
    ensures ReadSessions(cfg, s.sessions, UserinfoCall(cfg, s, now, token).0.sessions, now, token)
  {
    var row := FindByAccess(s.sessions, cfg.hash(token));
    if found: Session :| row == Some(found) {
      assert found.sub in s.sessions && s.sessions[found.sub] == found;
    }
  }

  lemma UserinfoStep(cfg: Config, s: State, now: nat, token: string)
    requires Unique(s.sessions)
    ensures var answer := UserinfoCall(cfg, s, now, token).1;
            && (answer.Claims? <==> exists k :: MayRead(cfg, s, now, token, k))
            && (forall k :: MayRead(cfg, s, now, token, k) ==>
                 answer.Claims?
                 && Releases(answer.userinfo, s.sessions[k].userinfo, Split(s.sessions[k].scope, ' ')))
  {
    var row := FindByAccess(s.sessions, cfg.hash(token));
    if found: Session :| row == Some(found) {
      assert found.sub in s.sessions && s.sessions[found.sub] == found;
      assert found.tokenExpiresAt >= Unix(now) && "openid" in Split(found.scope, ' ') ==>
               MayRead(cfg, s, now, token, found.sub);
    }
  }

  /**
   Claims are released exactly for an access token within its lifetime whose session has openid. A session that is
   found past both its lifetimes is deleted, and no other.
   */
  lemma UserinfoExactly(cfg: Config, r: Run, n: nat)
    requires ValidConfig(cfg) && IsRun(cfg, r) && n < |r.events| && r.events[n].call.GetUserinfo?
    ensures var (e, s, answer) := (r.events[n], r.states[n], r.answers[n]);
            && (answer.Claims? <==> exists k :: MayRead(cfg, s, e.time, e.call.bearer, k))
            && (forall k :: MayRead(cfg, s, e.time, e.call.bearer, k) ==>
                 answer.Claims?
                 && Releases(answer.userinfo, s.sessions[k].userinfo, Split(s.sessions[k].scope, ' ')))
    ensures ReadSessions(cfg, r.states[n].sessions, r.states[n + 1].sessions, r.events[n].time, r.events[n].call.bearer)
  {
    var (e, s) := (r.events[n], r.states[n]);
    RunWellFormed(cfg, r, n);
    assert Step(cfg, r, n);
    UserinfoStep(cfg, Drawing(s, e), e.time, e.call.bearer);
    UserinfoReads(cfg, Drawing(s, e), e.time, e.call.bearer);
    assert forall k :: MayRead(cfg, s, e.time, e.call.bearer, k) <==>
                       MayRead(cfg, Drawing(s, e), e.time, e.call.bearer, k);
  }

  // Each claim is what the context of the user says, if its scope was requested, and empty otherwise.
  ghost predicate ClaimsOf(claims: Userinfo, user: UserContext, words: seq<string>) {
    var local := user.provider == ProviderLocal && user.local.Some?;
    && claims.name == (if "profile" in words then user.GetName() else "")
    && claims.preferredUsername == (if "profile" in words then user.GetUsername() else "")
    && claims.profile ==
         (if "profile" in words && local then user.local.value.attributes.profile else NO_PROFILE)
    && claims.email == (if "email" in words then user.GetEmail() else "")
    && (claims.emailVerified <==> "email" in words && user.GetEmail() != "")
    && claims.groups ==
         (if "groups" !in words then []
          else if user.provider == ProviderLDAP && user.ldap.Some? then user.ldap.value.groups
          else if user.provider == ProviderOAuth && user.oauth.Some? then user.oauth.value.groups
          else [])
    && claims.phoneNumber == (if "phone" in words && local then user.local.value.attributes.phoneNumber else "")
    && claims.phoneVerified == (if "phone" in words then Some(claims.phoneNumber != "") else None)
    && claims.address == (if "address" in words && local then Some(user.local.value.attributes.address) else None)
  }

  lemma ReleasedClaims(claims: Userinfo, stored: Userinfo, user: UserContext, sub: string, time: nat, granted: string,
                       requested: string)
    requires Releases(claims, stored, Split(granted, ' ')) && Describes(stored, user, sub, time)
    requires GrantedOf(granted, requested)
    ensures ClaimsOf(claims, user, Split(requested, ' ')) && claims.sub == sub && claims.updatedAt == Unix(time)
  {
  }

  /**
   Whoever reads claims is told, claim by claim, what the context of the user said who completed the authorization
   request, and only claims for which that request asked; it asked for openid.
   */
  lemma ClaimsExactly(cfg: Config, r: Run, n: nat) returns (k: string, o: Origin)
    requires ValidConfig(cfg) && IsRun(cfg, r) && n < |r.events|
    requires r.events[n].call.GetUserinfo? && r.answers[n].Claims?
    ensures MayRead(cfg, r.states[n], r.events[n].time, r.events[n].call.bearer, k)
    ensures o.exchanged < n && Originates(cfg, r, o, r.states[n].sessions[k])
    ensures var (claims, words) := (r.answers[n].userinfo, Split(r.events[o.authorized].call.req.scope, ' '));
            && "openid" in words && claims.sub == k
            && claims.updatedAt == Unix(r.events[o.completed].time)
            && ClaimsOf(claims, r.events[o.completed].call.user.value, words)
  {
    UserinfoExactly(cfg, r, n);
    k :| MayRead(cfg, r.states[n], r.events[n].time, r.events[n].call.bearer, k);
    Provenance(cfg, r, n, k);
    RunWellFormed(cfg, r, n);
    var session := r.states[n].sessions[k];
    o :| o.exchanged < n && Originates(cfg, r, o, session);
    ReleasedClaims(r.answers[n].userinfo, session.userinfo, r.events[o.completed].call.user.value, session.sub,
                   r.events[o.completed].time, session.scope, r.events[o.authorized].call.req.scope);
  }
}
