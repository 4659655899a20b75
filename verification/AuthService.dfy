/**
 Sign-in with the session table, the login cache and the lockdown fields updated in place. Each
 handler does to the state, and answers, what AuthModel says.
 */
module AuthStores {
  import opened Base
  import opened AuthModel

  // internal/repository/memory/session_queries.go
  class SessionStore {
    var sessions: map<string, Session>

    constructor ()
      ensures sessions == map[]
    {
      sessions := map[];
    }

    method CreateSession(arg: Session)
      modifies this
      ensures sessions == old(sessions)[arg.uuid := arg]
    {
      sessions := sessions[arg.uuid := arg];
    }

    method GetSession(uuid: string) returns (sess: Option<Session>)
      ensures sess == if uuid in sessions then Some(sessions[uuid]) else None
    {
      if uuid !in sessions {
        return None;
      }
      return Some(sessions[uuid]);
    }

    // The id and the creation time of the row stay, whatever the argument says.
    method UpdateSession(arg: Session) returns (found: bool)
      modifies this
      ensures found <==> arg.uuid in old(sessions)
      ensures sessions ==
              if found then
                var row := old(sessions)[arg.uuid];
                old(sessions)[arg.uuid := arg.(uuid := row.uuid, createdAt := row.createdAt)]
              else old(sessions)
    {
      if arg.uuid !in sessions {
        return false;
      }
      var sess := sessions[arg.uuid];
      sess := sess.(username := arg.username);
      sess := sess.(email := arg.email);
      sess := sess.(name := arg.name);
      sess := sess.(provider := arg.provider);
      sess := sess.(totpPending := arg.totpPending);
      sess := sess.(oauthGroups := arg.oauthGroups);
      sess := sess.(expiry := arg.expiry);
      sess := sess.(oauthName := arg.oauthName);
      sess := sess.(oauthSub := arg.oauthSub);
      sessions := sessions[arg.uuid := sess];
      return true;
    }

    method DeleteSession(uuid: string)
      modifies this
      ensures sessions == old(sessions) - {uuid}
    {
      sessions := sessions - {uuid};
    }

    method DeleteExpiredSessions(expiry: int)
      modifies this
      ensures sessions == WithoutExpired(old(sessions), expiry)
    {
      ghost var removed: set<string> := {};
      var unvisited := sessions.Keys;
      assert sessions - {} == sessions;
      while unvisited != {}
        invariant unvisited <= sessions.Keys && removed <= old(sessions).Keys
        invariant sessions == old(sessions) - removed
        invariant forall k :: k in removed ==> old(sessions)[k].expiry < expiry
        invariant forall k :: k in sessions && k !in unvisited ==> !(sessions[k].expiry < expiry)
      {
        var k :| k in unvisited;
        unvisited := unvisited - {k};
        if sessions[k].expiry < expiry {
          sessions := sessions - {k};
          removed := removed + {k};
        }
      }
    }
  }
}

module AuthServices {
  import opened Base
  import opened Contexts
  import opened AuthModel
  import opened AuthProtocol
  import opened AuthStores
  import opened CacheStores
  import C = CacheSpec
  import K = Lockdown
  import L = LoginSpec

  class AuthService {
    const cfg: Config
    const logins: CacheStore<L.LoginAttempt>
    const store: SessionStore
    var active: bool  // a lockdown is on
    var until: int
    ghost var clock: nat
    ghost var minted: set<string>

    ghost function Repr(): set<object> {
      {this, logins, store}
    }

    ghost function State(): AuthModel.State
      reads Repr()
    {
      AuthModel.State(clock, minted, store.sessions, logins.State())
    }

    // Rows are filed under their ids, and login records never expire.
    ghost predicate Valid()
      reads Repr()
    {
      && L.Valid(cfg.limits, logins.State())
      && logins as object != store && this as object !in {logins, store}
      && forall k :: k in store.sessions ==> store.sessions[k].uuid == k
    }

    constructor (cfg: Config)
      ensures this.cfg == cfg && Valid() && State() == Initial(cfg) && !active && fresh(Repr())
    {
      this.cfg := cfg;
      logins := new CacheStore(cfg.limits.CacheSize());
      store := new SessionStore();
      active, until := false, 0;
      clock, minted := 0, {};
    }

    static method CalculateLockdownLimit(localUsers: nat, ldapUsers: Option<int>, maxRetries: int, jitter: Option<nat>)
      returns (limit: int)
      ensures limit == L.LockdownLimit(localUsers, ldapUsers, maxRetries, jitter)
    {
      var userCount: int := localUsers;
      if ldapUsers.Some? {
        userCount := userCount + ldapUsers.value;
      }
      limit := userCount * maxRetries;
      if jitter.Some? {
        limit := limit + jitter.value;
      }
      if limit < 256 {
        limit := 256;
      }
    }

    // ----- Users -----

    method GetLocalUser(username: string) returns (user: Option<LocalUser>)
      ensures user == AuthModel.GetLocalUser(cfg.users, username)
    {
      var i := 0;
      while i < |cfg.users|
        invariant 0 <= i <= |cfg.users|
        invariant AuthModel.GetLocalUser(cfg.users, username) == AuthModel.GetLocalUser(cfg.users[i..], username)
      {
        if cfg.users[i].username == username {
          return Some(cfg.users[i]);
        }
        i := i + 1;
      }
      return None;
    }

    method SearchUser(username: string, ldap: LdapAnswer) returns (search: Search)
      ensures search == AuthModel.SearchUser(cfg, username, ldap)
    {
      var user := GetLocalUser(username);
      if user.Some? {
        return FoundLocal;
      }
      if cfg.ldap {
        if ldap == LdapError {
          return SearchFailed;
        }
        return FoundLdap(ldap.dn, ldap.email);
      }
      return NotFound;
    }

    // ----- Rate limiting and lockdown -----

    method IsInLockdown() returns (locked: bool)
      ensures locked == active
    {
      return active;
    }

    method IsAccountLocked(now: nat, identifier: string) returns (locked: bool)
      ensures locked == L.IsLocked(cfg.limits, logins.State(), active, now, identifier)
    {
      locked := IsInLockdown();
      if locked {
        return true;
      }
      if cfg.limits.maxRetries <= 0 || cfg.limits.timeout <= 0 {
        return false;
      }
      var attempt := logins.Get(now, identifier);
      if attempt.None? {
        return false;
      }
      return attempt.value.lockedUntil > now;
    }

    // spawned tells that a lockdownMode goroutine was started instead of recording the failure.
    method RecordLoginAttempt(now: nat, identifier: string, success: bool) returns (spawned: bool)
      requires Valid()
      modifies logins
      ensures Valid()
      ensures logins.State() == L.Record(cfg.limits, old(logins.State()), now, identifier, success)
      ensures spawned <==> !cfg.limits.Off() && L.Floods(cfg.limits, old(logins.State()), success) && !active
    {
      L.RecordValid(cfg.limits, logins.State(), now, identifier, success);
      if cfg.limits.maxRetries <= 0 || cfg.limits.timeout <= 0 {
        return false;
      }
      var size := logins.Size();
      if !success && cfg.limits.lockdownEnabled && size >= cfg.limits.maxLogins {
        var locked := IsInLockdown();
        return !locked;
      }
      spawned := false;
      StoreAttempt(now, identifier, success);
    }

    // The read and the write under one lock of the login cache.
    method StoreAttempt(now: nat, identifier: string, success: bool)
      requires L.Valid(cfg.limits, logins.State()) && L.Records(cfg.limits, logins.State(), success)
      modifies logins
      ensures logins.State() == L.Record(cfg.limits, old(logins.State()), now, identifier, success)
    {
      ghost var before := logins.State();
      var entry := logins.Get(now, identifier);
      var attempt: L.LoginAttempt;
      if entry.None? {
        attempt := L.LoginAttempt(0, now, 0);
        if !success {
          attempt := attempt.(failedAttempts := 1);
          if attempt.failedAttempts >= cfg.limits.maxRetries {
            attempt := attempt.(lockedUntil := now + cfg.limits.timeout * SECOND);
          }
        }
      } else {
        attempt := entry.value.(lastAttempt := now);
        if success {
          attempt := attempt.(failedAttempts := 0, lockedUntil := 0);
        } else {
          attempt := attempt.(failedAttempts := attempt.failedAttempts + 1);
          if attempt.failedAttempts >= cfg.limits.maxRetries {
            attempt := attempt.(lockedUntil := now + cfg.limits.timeout * SECOND);
          }
        }
      }
      ghost var evicted := logins.Set(now, identifier, attempt, 0);
      C.EvictsEarliest(before, now, identifier, evicted);
    }

    // The first critical section of lockdownMode; entered tells that this goroutine stays to wait.
    method EnterLockdown(now: nat) returns (entered: bool)
      modifies this`active, this`until
      ensures entered <==> !old(active)
      ensures active && until == if entered then now + cfg.limits.timeout * SECOND else old(until)
      ensures forall w: K.World, g: nat | K.Enabled(w, K.Enter(g)) && K.Agrees(w, now, old(active), old(until)) ::
                var t := K.Next(cfg.limits, w, K.Enter(g));
                K.Agrees(t, now, active, until) && (entered <==> t.goroutines[g] == K.Waiting)
    {
      forall w: K.World, g: nat | K.Enabled(w, K.Enter(g)) {
        K.EnterFields(cfg.limits, w, g);
      }
      if active {
        return false;
      }
      active := true;
      until := now + cfg.limits.timeout * SECOND;
      return true;
    }

    // Its second critical section: the cache is empty before the lockdown is seen to end.
    method LeaveLockdown()
      requires Valid()
      modifies this`active, this`until, logins
      ensures Valid() && !active && until == 0
      ensures logins.State() == C.Empty(logins.maxSize)
      ensures forall w: K.World, g: nat | K.Enabled(w, K.Wake(g)) && w.logins == old(logins.State()) ::
                var t := K.Next(cfg.limits, K.Next(cfg.limits, w, K.Wake(g)), K.Leave(g));
                K.Agrees(t, w.clock, active, until) && t.logins == logins.State()
    {
      LeavesLikeProtocol();
      logins.Clear();
      active := false;
      until := 0;
    }

    lemma LeavesLikeProtocol()
      ensures forall w: K.World, g: nat | K.Enabled(w, K.Wake(g)) && w.logins == logins.State() ::
                && K.Enabled(K.Next(cfg.limits, w, K.Wake(g)), K.Leave(g))
                && var t := K.Next(cfg.limits, K.Next(cfg.limits, w, K.Wake(g)), K.Leave(g));
                   K.Agrees(t, w.clock, false, 0) && t.logins == C.Empty(logins.maxSize)
    {
      forall w: K.World, g: nat | K.Enabled(w, K.Wake(g)) && w.logins == logins.State()
        ensures K.Enabled(K.Next(cfg.limits, w, K.Wake(g)), K.Leave(g))
        ensures var t := K.Next(cfg.limits, K.Next(cfg.limits, w, K.Wake(g)), K.Leave(g));
                K.Agrees(t, w.clock, false, 0) && t.logins == C.Empty(logins.maxSize)
      {
        K.LeaveFields(cfg.limits, w, g);
      }
    }

    // ----- Sessions -----

    method CreateSession(now: nat, data: Session, uuid: string) returns (created: Option<Session>)
      requires Valid()
      modifies store
      ensures Valid()
      ensures created == NewSession(cfg, now, data, uuid)
      ensures State() == if created.Some? then Store(old(State()), created.value) else old(State())
    {
      if data.provider == "tailscale" && !cfg.tailscale {
        return None;
      }
      var expiry;
      if data.totpPending {
        expiry := 3600;
      } else {
        expiry := cfg.sessionExpiry;
      }
      var session := data.(uuid := uuid, expiry := Unix(now) + expiry, createdAt := Unix(now));
      store.CreateSession(session);
      return Some(session);
    }

    method RefreshSession(now: nat, uuid: string) returns (refreshed: bool)
      requires Valid()
      modifies store
      ensures Valid()
      ensures refreshed <==> uuid in old(store.sessions)
      ensures store.sessions ==
              if refreshed then old(store.sessions)[uuid := Refreshed(cfg, now, old(store.sessions)[uuid])]
              else old(store.sessions)
    {
      var session := store.GetSession(uuid);
      if session.None? {
        return false;
      }
      var refreshThreshold;
      if cfg.sessionExpiry <= 3600 {
        refreshThreshold := Halved(cfg.sessionExpiry);
      } else {
        refreshThreshold := 3600;
      }
      if session.value.expiry - Unix(now) > refreshThreshold {
        return true;
      }
      var newExpiry := session.value.expiry + refreshThreshold;
      refreshed := store.UpdateSession(session.value.(expiry := newExpiry));
    }

    method GetSession(now: nat, uuid: string) returns (found: Option<Session>)
      requires Valid()
      modifies store
      ensures Valid()
      ensures (State(), found) == AuthModel.GetSession(cfg, old(State()), now, uuid)
    {
      var session := store.GetSession(uuid);
      if session.None? {
        return None;
      }
      if cfg.sessionMaxLifetime != 0 && session.value.createdAt != 0 {
        if Unix(now) - session.value.createdAt > cfg.sessionMaxLifetime {
          store.DeleteSession(uuid);
          return None;
        }
      }
      if Unix(now) > session.value.expiry {
        store.DeleteSession(uuid);
        return None;
      }
      return session;
    }

    // ----- Middleware -----

    // The details cookieAuth adds to the context of a session.
    method FillContext(ctx: UserContext, out: Outside) returns (filled: Option<UserContext>)
      requires Valid()
      ensures filled == Enrich(cfg, ctx, out)
    {
      match ctx.provider {
        case ProviderLocal =>
          if ctx.local.None? {
            return None;
          }
          var user := GetLocalUser(ctx.local.value.base.username);
          if user.None? {
            return None;
          }
          var attributes := user.value.attributes;
          if attributes.name == "" {
            attributes := attributes.(name := cfg.capitalize(user.value.username));
          }
          if attributes.email == "" {
            attributes := attributes.(email := cfg.compileEmail(user.value.username));
          }
          return Some(ctx.(local := Some(ctx.local.value.(attributes := attributes))));
        case ProviderTailscale =>
          if !cfg.tailscale || !out.whois.WhoisNode? {
            return None;
          }
          return Some(ctx.(tailscale := Some(out.whois.node)));
        case ProviderLDAP =>
          if ctx.ldap.None? {
            return None;
          }
          var base := ctx.ldap.value.base;
          var search := SearchUser(base.username, out.ldap);
          if !search.FoundLdap? || out.ldapGroups.None? {
            return None;
          }
          base := base.(name := cfg.capitalize(base.username), email := cfg.compileEmail(base.username));
          if search.email != "" {
            base := base.(email := search.email);
          }
          return Some(ctx.(ldap := Some(LDAPContext(base, out.ldapGroups.value))));
        case ProviderOAuth =>
          if ctx.oauth.None? || ctx.oauth.value.id !in cfg.oauthIds || !out.emailAllowed {
            return None;
          }
          return Some(ctx);
        case ProviderBasicAuth =>
          return Some(ctx);
      }
    }

    method CookieAuth(now: nat, uuid: string, out: Outside) returns (ctx: Option<UserContext>)
      requires Valid()
      modifies store
      ensures Valid()
      ensures (State(), ctx) == AuthModel.CookieAuth(cfg, old(State()), now, uuid, out)
    {
      var session := GetSession(now, uuid);
      if session.None? {
        return None;
      }
      var userContext := NewFromSession(session.value);
      if userContext.TOTPPending() {
        return Some(userContext);
      }
      ctx := FillContext(userContext, out);
      if ctx.None? {
        if userContext.IsOAuth() && userContext.oauth.value.id in cfg.oauthIds && !out.emailAllowed {
          store.DeleteSession(uuid);
        }
        return None;
      }
      var refreshed := RefreshSession(now, uuid);
    }

    method BasicAuth(now: nat, username: string, out: Outside) returns (ctx: Option<UserContext>)
      requires Valid() && out.lockdown == active
      modifies logins
      ensures Valid()
      ensures (State(), ctx) == AuthModel.BasicAuth(cfg, old(State()), now, username, out)
    {
      ctx := None;
      var locked := IsAccountLocked(now, username);
      if locked {
        return;
      }
      var search := SearchUser(username, out.ldap);
      if search.NotFound? || search.SearchFailed? {
        return;
      }
      if !out.passwordOk {
        var _ := RecordLoginAttempt(now, username, false);
        return;
      }
      var _ := RecordLoginAttempt(now, username, true);
      if search.FoundLocal? {
        var user := GetLocalUser(username);
        if user.Some? && user.value.totpSecret == "" {
          var name := user.value.username;
          var base := BaseContext(name, cfg.capitalize(name), cfg.compileEmail(name));
          var local := LocalContext(base, false, user.value.attributes);
          ctx := Some(UserContext(true, ProviderLocal, 0, Some(local), None, None, None));
        }
      } else if out.ldapGroups.Some? {
        var base := BaseContext(username, cfg.capitalize(username), cfg.compileEmail(username));
        if search.email != "" {
          base := base.(email := search.email);
        }
        var ldap := LDAPContext(base, out.ldapGroups.value);
        ctx := Some(UserContext(true, ProviderLDAP, 0, None, None, Some(ldap), None));
      }
    }

    method Middleware(now: nat, cookie: Option<string>, basic: Option<string>, out: Outside)
      returns (ctx: Option<UserContext>)
      requires Valid() && out.lockdown == active
      modifies store, logins
      ensures Valid()
      ensures (State(), ctx) == AuthModel.Middleware(cfg, old(State()), now, cookie, basic, out)
    {
      if cookie.Some? {
        ctx := CookieAuth(now, cookie.value, out);
        if ctx.Some? {
          return;
        }
      }
      if basic.Some? {
        ctx := BasicAuth(now, basic.value, out);
        return;
      }
      if cfg.tailscale && out.whois.WhoisNode? {
        return Some(UserContext(false, ProviderTailscale, 0, None, None, None, Some(out.whois.node)));
      }
      return None;
    }

    // ----- Handlers -----

    method LoginHandler(now: nat, username: string, uuid: string, out: Outside) returns (created: Option<Session>)
      requires Valid() && out.lockdown == active
      modifies store, logins
      ensures Valid()
      ensures (State(), created) == Login(cfg, old(State()), now, username, uuid, out)
    {
      created := None;
      var locked := IsAccountLocked(now, username);
      if locked {
        return;
      }
      var search := SearchUser(username, out.ldap);
      if search.SearchFailed? {
        return;
      }
      if search.NotFound? || !out.passwordOk {
        var _ := RecordLoginAttempt(now, username, false);
        return;
      }
      var data := BLANK_SESSION.(
        username := username, name := cfg.capitalize(username), email := cfg.compileEmail(username),
        provider := "local");
      if search.FoundLocal? {
        var localUser := GetLocalUser(username);
        if localUser.value.attributes.name != "" {
          data := data.(name := localUser.value.attributes.name);
        }
        if localUser.value.attributes.email != "" {
          data := data.(email := localUser.value.attributes.email);
        }
        if localUser.value.totpSecret != "" {
          created := CreateSession(now, data.(totpPending := true), uuid);
          return;
        }
      } else {
        data := data.(provider := "ldap");
        if search.email != "" {
          data := data.(email := search.email);
        }
      }
      created := CreateSession(now, data, uuid);
      var _ := RecordLoginAttempt(now, username, true);
    }

    method TotpHandler(now: nat, ctx: Option<UserContext>, cookie: Option<string>, uuid: string, out: Outside)
      returns (created: Option<Session>)
      requires Valid() && out.lockdown == active
      modifies store, logins
      ensures Valid()
      ensures (State(), created) == Totp(cfg, old(State()), now, ctx, cookie, uuid, out)
    {
      created := None;
      if ctx.None? || !ctx.value.TOTPPending() {
        return;
      }
      var username := ctx.value.GetUsername();
      var locked := IsAccountLocked(now, username);
      if locked {
        return;
      }
      var user := GetLocalUser(username);
      if user.None? {
        return;
      }
      if !out.codeOk {
        var _ := RecordLoginAttempt(now, username, false);
        return;
      }
      if cookie.Some? {
        store.DeleteSession(cookie.value);
      }
      var _ := RecordLoginAttempt(now, username, true);
      var data := UserSession(cfg, user.value, false);
      created := CreateSession(now, data, uuid);
    }

    method TailscaleHandler(now: nat, ctx: Option<UserContext>, uuid: string) returns (created: Option<Session>)
      requires Valid()
      modifies store
      ensures Valid()
      ensures (State(), created) == Tailscale(cfg, old(State()), now, ctx, uuid)
    {
      if ctx.None? || ctx.value.tailscale.None? {
        return None;
      }
      var base := ctx.value.tailscale.value.base;
      var data := BLANK_SESSION.(
        username := base.username, name := base.name, email := base.email, provider := "tailscale");
      created := CreateSession(now, data, uuid);
    }

    method OAuthHandler(now: nat, data: Session, uuid: string, out: Outside) returns (created: Option<Session>)
      requires Valid()
      modifies store
      ensures Valid()
      ensures (State(), created) == OAuthCallback(cfg, old(State()), now, data, uuid, out)
    {
      if data.email == "" {
        return None;
      }
      if data.provider !in cfg.oauthIds || !out.emailAllowed {
        return None;
      }
      created := CreateSession(now, data.(totpPending := false), uuid);
    }

    method LogoutHandler(cookie: Option<string>)
      requires Valid()
      modifies store
      ensures Valid()
      ensures store.sessions == if cookie.Some? then old(store.sessions) - {cookie.value} else old(store.sessions)
    {
      if cookie.Some? {
        store.DeleteSession(cookie.value);
      }
    }

    // The tickers, and what ends a lockdown does to the login cache.
    method RunTask(e: Event)
      requires Valid() && (e.call.CleanExpired? || e.call.ClearLogins? || e.call.SweepLogins?)
      modifies store, logins
      ensures Valid()
      ensures State() == Handle(cfg, old(State()), None, e).0
    {
      if e.call.CleanExpired? {
        store.DeleteExpiredSessions(Unix(e.time));
      } else if e.call.ClearLogins? {
        logins.Clear();
      } else {
        L.SweepKeepsLogins(cfg.limits, logins.State(), e.time);
        logins.Sweep(e.time);
      }
    }

    method HandleSignIn(e: Event, ctx: Option<UserContext>) returns (created: Option<Session>)
      requires Valid() && e.out.lockdown == active && (e.call.LoginCall? || e.call.TotpCall?)
      modifies store, logins
      ensures Valid()
      ensures (State(), created) == Handle(cfg, old(State()), ctx, e)
    {
      if e.call.LoginCall? {
        created := LoginHandler(e.time, e.call.username, e.call.uuid, e.out);
      } else {
        created := TotpHandler(e.time, ctx, e.call.cookie, e.call.uuid, e.out);
      }
    }

    method HandleOther(e: Event, ctx: Option<UserContext>) returns (created: Option<Session>)
      requires Valid() && (e.call.TailscaleCall? || e.call.OAuthCall? || e.call.Logout? || e.call.Visit?)
      modifies store
      ensures Valid()
      ensures (State(), created) == Handle(cfg, old(State()), ctx, e)
    {
      created := None;
      if e.call.TailscaleCall? {
        created := TailscaleHandler(e.time, ctx, e.call.uuid);
      } else if e.call.OAuthCall? {
        created := OAuthHandler(e.time, e.call.data, e.call.uuid, e.out);
      } else if e.call.Logout? {
        LogoutHandler(e.call.cookie);
      }
    }

    method Dispatch(e: Event, ctx: Option<UserContext>) returns (created: Option<Session>)
      requires Valid() && e.out.lockdown == active
      modifies store, logins
      ensures Valid()
      ensures (State(), created) == Handle(cfg, old(State()), ctx, e)
    {
      if e.call.LoginCall? || e.call.TotpCall? {
        created := HandleSignIn(e, ctx);
      } else if e.call.CleanExpired? || e.call.ClearLogins? || e.call.SweepLogins? {
        RunTask(e);
        created := None;
      } else {
        created := HandleOther(e, ctx);
      }
    }

    /** One request, or one background task, is one step of the protocol. */
    method Serve(e: Event) returns (answer: Answer)
      requires Valid() && e.out.lockdown == active && Enabled(State(), e)
      modifies Repr()
      ensures Valid() && active == old(active)
      ensures (State(), answer) == Next(cfg, old(State()), e)
    {
      clock, minted := e.time, minted + Drawn(e.call);
      var ctx: Option<UserContext> := None;
      if BehindMiddleware(e.call) {
        ctx := Middleware(e.time, Cookie(e.call), Basic(e.call), e.out);
      }
      var created := Dispatch(e, ctx);
      answer := Answer(ctx, created);
    }
  }
}
