/** When a full session reaches further than now plus the configured expiry. */
module AuthExpiry {
  import opened Base
  import opened AuthModel
  import opened AuthProtocol
  import opened AuthSessions
  import C = CacheSpec

  ghost predicate Within(cfg: Config, s: State, k: string) {
    k in s.sessions && !s.sessions[k].totpPending ==> s.sessions[k].expiry <= Unix(s.clock) + cfg.sessionExpiry
  }

  ghost predicate NeverBeyond(cfg: Config) {
    forall r: Run, n: nat, k: string | IsRun(cfg, r) && AfterEpoch(r) && n < |r.states| :: Within(cfg, r.states[n], k)
  }

  // A refresh adds an hour although less than an hour has passed.
  predicate Overshoots(cfg: Config) {
    HOUR < cfg.sessionExpiry < 2 * HOUR
  }

  lemma {:induction false} StaysWithin(cfg: Config, r: Run, n: nat, k: string)
    requires IsRun(cfg, r) && n < |r.states| && !Overshoots(cfg)
    ensures Within(cfg, r.states[n], k)
  {
    if n > 0 && k in r.states[n].sessions && !r.states[n].sessions[k].totpPending {
      BornOrCarried(cfg, r, n - 1, k);
      StepDraws(cfg, r, n - 1);
      UnixMonotonic(r.states[n - 1].clock, r.states[n].clock);
      if k in r.states[n - 1].sessions {
        StaysWithin(cfg, r, n - 1, k);
      }
    }
  }

  // ----- Somebody signs in, whatever is configured -----

  // The world at its most agreeable.
  function Answering(): Outside {
    Outside(false, true, true, LdapFound("dn", "mail"), Some([]), WhoisNone, true)
  }

  predicate Recognized(cfg: Config, session: Session) {
    match session.provider
    case "local" => GetLocalUser(cfg.users, session.username).Some?
    case "ldap" => cfg.ldap && GetLocalUser(cfg.users, session.username).None?
    case "tailscale" => false
    case _ => session.provider in cfg.oauthIds
  }

  // A full session stored in the first second.
  predicate Started(cfg: Config, session: Session) {
    && !session.totpPending && Recognized(cfg, session)
    && session.createdAt == 1 && session.expiry == 1 + cfg.sessionExpiry
  }

  ghost predicate SignedIn(cfg: Config, r: Run, k: string) {
    && IsRun(cfg, r) && AfterEpoch(r) && Final(r).clock == SECOND
    && k in Final(r).sessions && Started(cfg, Final(r).sessions[k])
  }

  function Nothing(cfg: Config): Run {
    Run([Initial(cfg)], [], [])
  }

  lemma NobodyLocked(cfg: Config, s: State, now: nat, username: string)
    requires s.logins == C.Empty(cfg.limits.CacheSize())
    ensures !Locked(cfg, s, now, username, Answering())
  {
  }

  lemma LoginStarts(cfg: Config, s: State, e: Event)
    requires e.call.LoginCall? && e == At(SECOND, LoginCall(e.call.username, "id"), Answering())
    requires s.logins == C.Empty(cfg.limits.CacheSize())
    requires var user := GetLocalUser(cfg.users, e.call.username);
             if user.Some? then user.value.totpSecret == "" else cfg.ldap
    ensures var t := Next(cfg, s, e).0;
            t.clock == SECOND && "id" in t.sessions && Started(cfg, t.sessions["id"])
  {
    NobodyLocked(cfg, Drawing(s, e), SECOND, e.call.username);
    NextDraws(cfg, s, e);
  }

  lemma LoginRun(cfg: Config, username: string) returns (r: Run)
    requires var user := GetLocalUser(cfg.users, username);
             if user.Some? then user.value.totpSecret == "" else cfg.ldap
    ensures SignedIn(cfg, r, "id")
  {
    var e := At(SECOND, LoginCall(username, "id"), Answering());
    LoginStarts(cfg, Initial(cfg), e);
    r := Extend(cfg, Nothing(cfg), e);
  }

  // A login that waits for a code.
  lemma LoginWaits(cfg: Config, s: State, username: string)
    requires GetLocalUser(cfg.users, username).Some? && GetLocalUser(cfg.users, username).value.totpSecret != ""
    requires s.logins == C.Empty(cfg.limits.CacheSize())
    ensures var t := Next(cfg, s, At(SECOND, LoginCall(username, "pending"), Answering())).0;
            && t.clock == SECOND && t.minted == s.minted + {"pending"} && t.logins == s.logins
            && "pending" in t.sessions && t.sessions["pending"].provider == "local" && t.sessions["pending"].totpPending
            && t.sessions["pending"].username == username
            && t.sessions["pending"].createdAt == 1 && t.sessions["pending"].expiry == 1 + TOTP_SESSION_EXPIRY
  {
    var e := At(SECOND, LoginCall(username, "pending"), Answering());
    NobodyLocked(cfg, Drawing(s, e), SECOND, username);
    NextDraws(cfg, s, e);
  }

  function CodeEvent(): Event {
    At(SECOND, TotpCall(Some("pending"), None, "id"), Answering())
  }

  lemma PendingEnters(cfg: Config, s: State, username: string)
    requires "pending" in s.sessions && s.sessions["pending"].provider == "local" && s.sessions["pending"].totpPending
    requires s.sessions["pending"].username == username && LifetimesFit(cfg) && cfg.sessionExpiry >= 0
    requires s.sessions["pending"].createdAt == 1 && s.sessions["pending"].expiry == 1 + TOTP_SESSION_EXPIRY
    ensures var (t, ctx) := Entered(cfg, s, CodeEvent());
            t == s && ctx.Some? && ctx.value.TOTPPending() && ctx.value.GetUsername() == username
  {
  }

  lemma CodeStarts(cfg: Config, s: State, username: string)
    requires "pending" in s.sessions && s.sessions["pending"].provider == "local" && s.sessions["pending"].totpPending
    requires s.sessions["pending"].username == username && LifetimesFit(cfg) && cfg.sessionExpiry >= 0
    requires s.sessions["pending"].createdAt == 1 && s.sessions["pending"].expiry == 1 + TOTP_SESSION_EXPIRY
    requires GetLocalUser(cfg.users, username).Some? && s.logins == C.Empty(cfg.limits.CacheSize())
    ensures var t := Next(cfg, s, CodeEvent()).0;
            t.clock == SECOND && "id" in t.sessions && Started(cfg, t.sessions["id"])
  {
    var drawn := Drawing(s, CodeEvent());
    PendingEnters(cfg, drawn, username);
    NobodyLocked(cfg, drawn, SECOND, username);
    NextDraws(cfg, s, CodeEvent());
  }

  lemma TotpRun(cfg: Config, username: string) returns (r: Run)
    requires GetLocalUser(cfg.users, username).Some? && GetLocalUser(cfg.users, username).value.totpSecret != ""
    requires LifetimesFit(cfg) && cfg.sessionExpiry >= 0
    ensures SignedIn(cfg, r, "id")
  {
    LoginWaits(cfg, Initial(cfg), username);
    var waiting := Extend(cfg, Nothing(cfg), At(SECOND, LoginCall(username, "pending"), Answering()));
    CodeStarts(cfg, Final(waiting), username);
    r := Extend(cfg, waiting, CodeEvent());
  }

  lemma OAuthRun(cfg: Config, provider: string) returns (r: Run)
    requires ValidConfig(cfg) && provider in cfg.oauthIds
    ensures SignedIn(cfg, r, "id")
  {
    var data := BLANK_SESSION.(username := "mail", name := "Mail", email := "mail", provider := provider);
    var e := At(SECOND, OAuthCall(data, "id"), Answering());
    NextDraws(cfg, Initial(cfg), e);
    assert RESERVED_PROVIDER_NAMES[0] == "local" && RESERVED_PROVIDER_NAMES[1] == "ldap";
    assert RESERVED_PROVIDER_NAMES[2] == "tailscale";
    r := Extend(cfg, Nothing(cfg), e);
  }

  lemma SignInRun(cfg: Config) returns (r: Run)
    requires ValidConfig(cfg) && cfg.sessionExpiry >= 0
    ensures SignedIn(cfg, r, "id")
  {
    if cfg.users != [] {
      var user := cfg.users[0];
      if user.totpSecret == "" {
        r := LoginRun(cfg, user.username);
      } else {
        r := TotpRun(cfg, user.username);
      }
    } else if cfg.ldap {
      r := LoginRun(cfg, "x");
    } else {
      var provider :| provider in cfg.oauthIds;
      r := OAuthRun(cfg, provider);
    }
  }

  // ----- And comes back an hour before the deadline -----

  lemma Accepted(cfg: Config, s: State, now: nat, k: string)
    requires k in s.sessions && !s.sessions[k].totpPending && Recognized(cfg, s.sessions[k])
    requires !TooOld(cfg, now, s.sessions[k])
    ensures CookieAuth(cfg, s, now, k, Answering()).0.sessions == s.sessions[k := Refreshed(cfg, now, s.sessions[k])]
    ensures CookieAuth(cfg, s, now, k, Answering()).1.Some?
  {
  }

  lemma LateVisit(cfg: Config, before: State, k: string)
    requires Overshoots(cfg) && LifetimesFit(cfg) && k in before.sessions && Started(cfg, before.sessions[k])
    ensures var e := At((1 + cfg.sessionExpiry - HOUR) * SECOND, Visit(Some(k), None), Answering());
            !Within(cfg, Next(cfg, before, e).0, k)
  {
    var e := At((1 + cfg.sessionExpiry - HOUR) * SECOND, Visit(Some(k), None), Answering());
    assert Unix(e.time) == 1 + cfg.sessionExpiry - HOUR;
    Accepted(cfg, Drawing(before, e), e.time, k);
    NextDraws(cfg, before, e);
  }

  lemma OvershootRun(cfg: Config)
    requires ValidConfig(cfg) && Overshoots(cfg)
    ensures !NeverBeyond(cfg)
  {
    var r := SignInRun(cfg);
    LateVisit(cfg, Final(r), "id");
    var q := Extend(cfg, r, At((1 + cfg.sessionExpiry - HOUR) * SECOND, Visit(Some("id"), None), Answering()));
    assert !Within(cfg, q.states[|q.states| - 1], "id");
  }

  /**
   A session that is past its second factor never reaches further than now plus the configured
   expiry, in any run, exactly when that expiry does not lie strictly between one and two hours.
   */
  lemma NeverBeyondExactly(cfg: Config)
    requires ValidConfig(cfg)
    ensures NeverBeyond(cfg) <==> !Overshoots(cfg)
  {
    if Overshoots(cfg) {
      OvershootRun(cfg);
    } else {
      forall r: Run, n: nat, k: string | IsRun(cfg, r) && AfterEpoch(r) && n < |r.states|
        ensures Within(cfg, r.states[n], k)
      {
        StaysWithin(cfg, r, n, k);
      }
    }
  }
}
