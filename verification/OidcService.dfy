/**
 internal/service/oidc_service.go and internal/controller/oidc_controller.go with the caches and the
 session table updated in place. Each handler does to the state, and answers, what the protocol says.
 */
module OidcServices {
  import opened Base
  import opened Contexts
  import opened Strings
  import opened OidcModel
  import opened OidcTable
  import opened OidcProtocol
  import opened CacheStores
  import opened OidcStores
  import C = CacheSpec

  // A token request on the drawn state is the whole step.
  lemma TokenStep(cfg: Config, before: OidcProtocol.State, e: Event)
    requires ValidConfig(cfg) && WellFormed(cfg, before) && e.call.Token? && before.clock <= e.time
    requires Drawn(e.call) !! before.minted && "" !in Drawn(e.call) && e.call.access != e.call.refresh
    requires Redeemed(cfg, Drawing(before, e), e).Some? ==>
               C.MayEvict(before.used, e.time, cfg.hash(e.call.token.code), e.call.evicted)
    ensures Enabled(cfg, before, e)
    ensures Next(cfg, before, e) == TokenCall(cfg, Drawing(before, e), e.time, e.call)
    ensures WellFormed(cfg, TokenCall(cfg, Drawing(before, e), e.time, e.call).0)
  {
    NextWellFormed(cfg, before, e);
  }

  lemma CompleteStep(cfg: Config, before: OidcProtocol.State, e: Event)
    requires ValidConfig(cfg) && WellFormed(cfg, before) && e.call.Complete? && before.clock <= e.time
    requires Drawn(e.call) !! before.minted && "" !in Drawn(e.call)
    requires CompleteRequest(Drawing(before, e), e.time, e.call.completed, e.call.user).Some? ==>
               C.MayEvict(before.codes, e.time, cfg.hash(e.call.code), e.call.evicted)
    ensures Enabled(cfg, before, e)
    ensures Next(cfg, before, e) == CompleteCall(cfg, Drawing(before, e), e.time, e.call)
    ensures WellFormed(cfg, CompleteCall(cfg, Drawing(before, e), e.time, e.call).0)
  {
    NextWellFormed(cfg, before, e);
  }

  class OidcService {
    const cfg: Config
    const tickets: CacheStore<AuthorizeRequest>
    const codes: CacheStore<CodeEntry>
    const used: CacheStore<string>
    const store: OidcStore
    ghost var clock: nat
    ghost var minted: set<string>

    ghost function Repr(): set<object> {
      {this, tickets, codes, used, store}
    }

    ghost function State(): OidcProtocol.State
      reads Repr()
    {
      OidcProtocol.State(clock, minted, tickets.State(), codes.State(), used.State(), store.oidcSessions)
    }

    ghost predicate Apart() {
      && tickets as object != codes && tickets as object != used && codes as object != used
      && store as object != tickets && store as object != codes && store as object != used
      && this as object !in {tickets, codes, used, store}
    }

    ghost predicate Valid()
      reads Repr()
    {
      Apart() && ValidConfig(cfg) && WellFormed(cfg, State())
    }

    constructor (cfg: Config)
      requires ValidConfig(cfg)
      ensures this.cfg == cfg && Valid() && State() == Initial() && fresh(Repr())
    {
      this.cfg := cfg;
      tickets := new CacheStore(CACHE_SIZE);
      codes := new CacheStore(CACHE_SIZE);
      used := new CacheStore(CACHE_SIZE);
      store := new OidcStore();
      clock, minted := 0, {};
      new;
      InitialWellFormed(cfg);
    }

    // ----- Codes and tokens -----

    method CreateCode(now: nat, req: AuthorizeRequest, user: UserContext, code: string)
      returns (ghost evicted: Option<string>)
      requires codes.Valid()
      modifies codes
      ensures codes.Valid()
      ensures C.MayEvict(old(codes.State()), now, cfg.hash(code), evicted)
      ensures var entry := NewCodeEntry(cfg, req, user, code, now);
              codes.State() == C.Set(old(codes.State()), now, entry.codeHash, entry, CODE_TTL, evicted)
    {
      var sub := CreateSub(cfg, user, req.clientId);
      var entry := CodeEntry(
        cfg.hash(code), GrantedScope(req.scope), req.redirectUri, req.clientId, req.nonce, "",
        UserinfoFromContext(user, sub, now), user.authTime);
      if req.codeChallenge != "" {
        if req.codeChallengeMethod == "S256" {
          entry := entry.(codeChallenge := req.codeChallenge);
        } else {
          entry := entry.(codeChallenge := cfg.pkce(req.codeChallenge));
        }
      }
      evicted := codes.Set(now, entry.codeHash, entry, CODE_TTL);
    }

    method GetCodeEntry(now: nat, codeHash: string, clientId: string) returns (entry: Option<CodeEntry>)
      requires codes.Valid()
      modifies codes
      ensures codes.Valid()
      ensures (codes.State(), entry) == Redeem(old(codes.State()), now, codeHash, clientId)
      ensures entry.None? ==> codes.State() == old(codes.State())
      ensures entry.Some? ==> entry.value.clientId == clientId && codeHash !in codes.State().entries
    {
      entry := codes.Get(now, codeHash);
      if entry.None? {
        return None;
      }
      if entry.value.clientId != clientId {
        return None;
      }
      codes.Delete(codeHash);
    }

    method MarkCodeAsUsed(now: nat, codeHash: string, sub: string) returns (ghost evicted: Option<string>)
      requires used.Valid()
      modifies used
      ensures used.Valid()
      ensures C.MayEvict(old(used.State()), now, codeHash, evicted)
      ensures used.State() == C.Set(old(used.State()), now, codeHash, sub, USED_CODE_TTL, evicted)
    {
      evicted := used.Set(now, codeHash, sub, USED_CODE_TTL);
    }

    method GenerateAccessToken(now: nat, client: Client, entry: CodeEntry, access: string, refresh: string)
      returns (answer: Option<Response>)
      requires Unique(store.oidcSessions)
      modifies store
      ensures var session := SessionFor(cfg, client, entry, access, refresh, now);
              if Conflicts(old(store.oidcSessions), session) then
                answer == None && store.oidcSessions == old(store.oidcSessions)
              else
                && answer == Some(Tokens(access, refresh, entry.userinfo.sub, entry.scope))
                && store.oidcSessions == old(store.oidcSessions)[entry.userinfo.sub := session]
    {
      var tokenExpiresAt := Unix(now) + cfg.sessionExpiry;
      var refreshTokenExpiresAt := Unix(now) + cfg.sessionExpiry * 2;
      var created := store.CreateOIDCSession(
        Session(entry.userinfo.sub, cfg.hash(access), cfg.hash(refresh), entry.scope, client.clientId, tokenExpiresAt,
                refreshTokenExpiresAt, entry.nonce, entry.userinfo));
      if !created {
        return None;
      }
      return Some(Tokens(access, refresh, entry.userinfo.sub, entry.scope));
    }

    method RefreshAccessToken(now: nat, token: string, client: Client, access: string, refresh: string)
      returns (answer: Response)
      requires Apart() && Unique(store.oidcSessions)
      modifies store
      ensures (State(), answer) == RefreshGrant(cfg, old(State()), now, token, client, access, refresh)
    {
      var entry := store.GetOIDCSessionByRefreshTokenHash(cfg.hash(token));
      if entry.None? {
        return Refused("server_error");
      }
      var row := entry.value;
      if row.refreshTokenExpiresAt < Unix(now) {
        return Refused("invalid_grant");
      }
      if row.clientId != client.clientId {
        return Refused("invalid_grant");
      }
      var tokenExpiresAt := Unix(now) + cfg.sessionExpiry;
      var refreshTokenExpiresAt := Unix(now) + cfg.sessionExpiry * 2;
      var found := store.UpdateOIDCSession(
        Session(row.sub, cfg.hash(access), cfg.hash(refresh), row.scope, row.clientId, tokenExpiresAt,
                refreshTokenExpiresAt, row.nonce, row.userinfo));
      assert found;
      return Tokens(access, refresh, row.sub, row.scope);
    }

    // ----- Handlers -----

    // What a request draws, and when.
    ghost method Draw(e: Event)
      requires Valid()
      modifies this`clock, this`minted
      ensures Valid() && State() == Drawing(old(State()), e)
    {
      DrawWellFormed(cfg, State(), e);
      clock, minted := e.time, minted + Drawn(e.call);
    }

    method Authorize(now: nat, req: AuthorizeRequest, user: Option<UserContext>, ticket: string)
      returns (answer: Response, ghost evicted: Option<string>)
      requires Valid() && clock <= now && ticket !in minted && ticket != ""
      modifies Repr()
      ensures Valid()
      ensures var e := At(now, Call.Authorize(req, user, ticket, evicted));
              Enabled(cfg, old(State()), e) && (State(), answer) == Next(cfg, old(State()), e)
    {
      evicted := None;
      clock, minted := now, minted + {ticket};
      var error := AuthorizeError(cfg, req, user);
      if error.Some? {
        answer := Refused(error.value);
      } else {
        evicted := tickets.Set(now, ticket, req, TICKET_TTL);
        answer := AuthorizeAnswer(cfg, now, req, user, ticket);
      }
      NextWellFormed(cfg, old(State()), At(now, Call.Authorize(req, user, ticket, evicted)));
    }

    method CompleteTicket(now: nat, ticket: string, user: Option<UserContext>, code: string)
      returns (answer: Response, ghost evicted: Option<string>)
      requires Valid()
      modifies tickets, codes, store
      ensures CompleteRequest(old(State()), now, ticket, user).Some? ==>
                C.MayEvict(old(codes.State()), now, cfg.hash(code), evicted)
      ensures (State(), answer) == CompleteCall(cfg, old(State()), now, Call.Complete(ticket, user, code, evicted))
    {
      evicted := None;
      if user.None? || !user.value.authenticated {
        return Refused("not logged in or no such ticket"), evicted;
      }
      var req := tickets.Get(now, ticket);
      if req.None? {
        return Refused("not logged in or no such ticket"), evicted;
      }
      tickets.Delete(ticket);
      store.DeleteOIDCSessionBySub(CreateSub(cfg, user.value, req.value.clientId));
      evicted := CreateCode(now, req.value, user.value, code);
      answer := Coded(code);
    }

    method AuthorizeComplete(now: nat, ticket: string, user: Option<UserContext>, code: string)
      returns (answer: Response, ghost evicted: Option<string>)
      requires Valid() && clock <= now && code !in minted && code != ""
      modifies Repr()
      ensures Valid()
      ensures var e := At(now, Call.Complete(ticket, user, code, evicted));
              Enabled(cfg, old(State()), e) && (State(), answer) == Next(cfg, old(State()), e)
    {
      ghost var before := State();
      Draw(At(now, Call.Complete(ticket, user, code, None)));
      answer, evicted := CompleteTicket(now, ticket, user, code);
      CompleteStep(cfg, before, At(now, Call.Complete(ticket, user, code, evicted)));
    }

    // The authorization_code branch of the token endpoint.
    method ExchangeCode(now: nat, req: TokenRequest, client: Client, access: string, refresh: string)
      returns (answer: Response, ghost evicted: Option<string>)
      requires Valid()
      modifies codes, used, store
      ensures codes.Valid() && used.Valid()
      ensures Redeem(old(codes.State()), now, cfg.hash(req.code), client.clientId).1.Some? ==>
                C.MayEvict(old(used.State()), now, cfg.hash(req.code), evicted)
      ensures (State(), answer) == CodeGrant(cfg, old(State()), now, req, client, access, refresh, evicted)
    {
      evicted := None;
      var codeHash := cfg.hash(req.code);
      var entry := GetCodeEntry(now, codeHash, client.clientId);
      if entry.None? {
        var sub := used.Get(now, codeHash);
        if sub.Some? {
          store.DeleteOIDCSessionBySub(sub.value);
        }
        return Refused("invalid_grant"), evicted;
      }
      evicted := MarkCodeAsUsed(now, codeHash, entry.value.userinfo.sub);
      if entry.value.redirectUri != req.redirectUri {
        return Refused("invalid_grant"), evicted;
      }
      if !ValidatePKCE(cfg, entry.value.codeChallenge, req.codeVerifier) {
        return Refused("invalid_grant"), evicted;
      }
      var tokens := GenerateAccessToken(now, client, entry.value, access, refresh);
      if tokens.None? {
        return Refused("server_error"), evicted;
      }
      return tokens.value, evicted;
    }

    method GrantTokens(now: nat, req: TokenRequest, basic: Option<Credentials>, access: string, refresh: string)
      returns (answer: Response, ghost evicted: Option<string>)
      requires Valid()
      modifies codes, used, store
      ensures Redeemed(cfg, old(State()), At(now, Call.Token(req, basic, access, refresh, evicted))).Some? ==>
                C.MayEvict(old(used.State()), now, cfg.hash(req.code), evicted)
      ensures (State(), answer) == TokenCall(cfg, old(State()), now, Call.Token(req, basic, access, refresh, evicted))
    {
      evicted := None;
      var check := AuthenticateClient(cfg, req, basic);
      if check.ClientError? {
        answer := Refused(check.error);
      } else if req.grantType == "authorization_code" {
        answer, evicted := ExchangeCode(now, req, check.client, access, refresh);
      } else {
        answer := RefreshAccessToken(now, req.refreshToken, check.client, access, refresh);
      }
    }

    method Token(now: nat, req: TokenRequest, basic: Option<Credentials>, access: string, refresh: string)
      returns (answer: Response, ghost evicted: Option<string>)
      requires Valid() && clock <= now && {access, refresh} !! minted && "" !in {access, refresh} && access != refresh
      modifies Repr()
      ensures Valid()
      ensures var e := At(now, Call.Token(req, basic, access, refresh, evicted));
              Enabled(cfg, old(State()), e) && (State(), answer) == Next(cfg, old(State()), e)
    {
      ghost var before := State();
      Draw(At(now, Call.Token(req, basic, access, refresh, None)));
      answer, evicted := GrantTokens(now, req, basic, access, refresh);
      TokenStep(cfg, before, At(now, Call.Token(req, basic, access, refresh, evicted)));
    }

    method Userinfo(now: nat, token: string) returns (answer: Response)
      requires Valid() && clock <= now
      modifies this, store
      ensures Valid()
      ensures (State(), answer) == Next(cfg, old(State()), At(now, GetUserinfo(token)))
    {
      clock := now;
      assert minted + {} == minted;
      var entry := store.GetOIDCSessionByAccessTokenHash(cfg.hash(token));
      if entry.None? {
        answer := Refused("invalid_grant");
      } else if entry.value.tokenExpiresAt < Unix(now) {
        if entry.value.refreshTokenExpiresAt < Unix(now) {
          store.DeleteOIDCSessionBySub(entry.value.sub);
        }
        answer := Refused("server_error");
      } else if "openid" !in Split(entry.value.scope, ' ') {
        answer := Refused("invalid_scope");
      } else {
        answer := Claims(CompileUserinfo(entry.value.userinfo, entry.value.scope));
      }
      NextWellFormed(cfg, old(State()), At(now, GetUserinfo(token)));
    }

    // One tick of the cleanup routine.
    method Cleanup(now: nat)
      requires Valid() && clock <= now
      modifies this, store
      ensures Valid()
      ensures State() == Next(cfg, old(State()), At(now, CleanSessions)).0
    {
      clock := now;
      assert minted + {} == minted;
      store.DeleteExpiredOIDCSessions(Unix(now), Unix(now));
      NextWellFormed(cfg, old(State()), At(now, CleanSessions));
    }

    // One tick of the cache sweeper.
    method SweepAll(now: nat)
      requires Valid() && clock <= now
      modifies Repr()
      ensures Valid()
      ensures State() == Next(cfg, old(State()), At(now, SweepCaches)).0
    {
      clock := now;
      assert minted + {} == minted;
      codes.Sweep(now);
      used.Sweep(now);
      tickets.Sweep(now);
      NextWellFormed(cfg, old(State()), At(now, SweepCaches));
    }
  }
}
