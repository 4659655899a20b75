/**
 What a request must show to be somebody, to get a session or to lose one: each condition is necessary and
 sufficient, over every run of sign-in.
 */
module AuthAnswers {
  import opened Base
  import opened Contexts
  import opened AuthModel
  import opened AuthProtocol
  import opened AuthSessions
  import opened AuthLockout

  // ----- Users -----

  ghost predicate IsLocalUser(cfg: Config, username: string) {
    exists user :: user in cfg.users && user.username == username
  }

  // Found in the directory, and not shadowed by a local user.
  ghost predicate IsLdapUser(cfg: Config, username: string, out: Outside) {
    !IsLocalUser(cfg, username) && cfg.ldap && out.ldap.LdapFound?
  }

  lemma SearchExactly(cfg: Config, username: string, out: Outside)
    ensures GetLocalUser(cfg.users, username).Some? <==> IsLocalUser(cfg, username)
    ensures SearchUser(cfg, username, out.ldap).FoundLocal? <==> IsLocalUser(cfg, username)
    ensures SearchUser(cfg, username, out.ldap).FoundLdap? <==> IsLdapUser(cfg, username, out)
  {
  }

  predicate HasSecret(cfg: Config, username: string) {
    var user := GetLocalUser(cfg.users, username);
    user.Some? && user.value.totpSecret != ""
  }

  // ----- Credentials -----

  // The right password of a user who is not locked out and who needs no second factor, or of one in the directory
  // whose groups are known.
  ghost predicate SignsIn(cfg: Config, s: State, now: nat, username: string, out: Outside) {
    && !Locked(cfg, s, now, username, out) && out.passwordOk
    && ((IsLocalUser(cfg, username) && !HasSecret(cfg, username))
        || (IsLdapUser(cfg, username, out) && out.ldapGroups.Some?))
  }

  // The email the directory knows, or one made from the name.
  predicate DirectoryEmail(cfg: Config, email: string, username: string, out: Outside) {
    out.ldap.LdapFound? && if out.ldap.email != "" then email == out.ldap.email else email == cfg.compileEmail(username)
  }

  // The attributes of the user, with defaults for a name or an email that is not set.
  predicate OwnNameAndEmail(cfg: Config, name: string, email: string, username: string) {
    var user := GetLocalUser(cfg.users, username);
    && user.Some?
    && name == (if user.value.attributes.name != "" then user.value.attributes.name else cfg.capitalize(username))
    && email == (if user.value.attributes.email != "" then user.value.attributes.email else cfg.compileEmail(username))
  }

  // An authenticated context for that name, as a local user or as one of the directory.
  ghost predicate SignedInAs(cfg: Config, ctx: UserContext, username: string, out: Outside) {
    && ctx.authenticated && !ctx.TOTPPending() && ctx.authTime == 0 && ctx.GetUsername() == username
    && ctx.GetName() == cfg.capitalize(username)
    && if IsLocalUser(cfg, username) then
         ctx.IsLocal() && ctx.GetEmail() == cfg.compileEmail(username)
         && GetLocalUser(cfg.users, username).Some?
         && ctx.local.value.attributes == GetLocalUser(cfg.users, username).value.attributes
       else
         ctx.IsLDAP() && out.ldapGroups == Some(ctx.ldap.value.groups)
         && DirectoryEmail(cfg, ctx.GetEmail(), username, out)
  }

  lemma BasicExactly(cfg: Config, s: State, now: nat, username: string, out: Outside)
    ensures var ctx := BasicAuth(cfg, s, now, username, out).1;
            && (ctx.Some? <==> SignsIn(cfg, s, now, username, out))
            && (ctx.Some? ==> SignedInAs(cfg, ctx.value, username, out))
  {
    SearchExactly(cfg, username, out);
  }

  // The context of a request without an accepted cookie.
  ghost predicate WithoutCookie(cfg: Config, s: State, e: Event, ctx: Option<UserContext>) {
    if Basic(e.call).Some? then
      var username := Basic(e.call).value;
      && (ctx.Some? <==> SignsIn(cfg, s, e.time, username, e.out))
      && (ctx.Some? ==> SignedInAs(cfg, ctx.value, username, e.out))
    else
      && (ctx.Some? <==> cfg.tailscale && e.out.whois.WhoisNode?)
      && (ctx.Some? ==> !ctx.value.authenticated && ctx.value.provider == ProviderTailscale
                        && ctx.value.tailscale == Some(e.out.whois.node))
  }

  lemma EnteredWithoutCookie(cfg: Config, s: State, e: Event)
    requires BehindMiddleware(e.call) && CookieRefused(cfg, s, e)
    ensures WithoutCookie(cfg, s, e, Entered(cfg, s, e).1)
  {
    var t := s;
    if Cookie(e.call).Some? {
      CookieLeavesLogins(cfg, s, e.time, Cookie(e.call).value, e.out);
      t := CookieAuth(cfg, s, e.time, Cookie(e.call).value, e.out).0;
    }
    if Basic(e.call).Some? {
      BasicExactly(cfg, t, e.time, Basic(e.call).value, e.out);
    }
  }

  /**
   Where no cookie is accepted, credentials decide alone: they make somebody of the request exactly with the right
   password of a user who is not locked out and needs no second factor, and then it is that user. Without
   credentials a node of the tailnet is recognized, but not authenticated.
   */
  lemma CredentialsExactly(cfg: Config, r: Run, n: nat)
    requires IsRun(cfg, r) && n < |r.events|
    requires var call := r.events[n].call; call.Visit? || call.Logout? || call.TotpCall? || call.TailscaleCall?
    requires CookieRefused(cfg, Drawing(r.states[n], r.events[n]), r.events[n])
    ensures WithoutCookie(cfg, r.states[n], r.events[n], r.answers[n].context)
  {
    assert Step(cfg, r, n);
    EnteredWithoutCookie(cfg, Drawing(r.states[n], r.events[n]), r.events[n]);
  }

  // ----- Cookies -----

  // The session is within its expiry and its maximum lifetime.
  predicate InDate(cfg: Config, now: nat, session: Session) {
    && Unix(now) <= session.expiry
    && (cfg.sessionMaxLifetime == 0 || session.createdAt == 0
        || Unix(now) <= session.createdAt + cfg.sessionMaxLifetime)
  }

  // Its user can still sign in that way.
  ghost predicate StillWelcome(cfg: Config, session: Session, out: Outside) {
    match session.provider
    case "local" => session.totpPending || IsLocalUser(cfg, session.username)
    case "ldap" => IsLdapUser(cfg, session.username, out) && out.ldapGroups.Some?
    case "tailscale" => cfg.tailscale && out.whois.WhoisNode?
    case _ => session.provider in cfg.oauthIds && out.emailAllowed
  }

  // A provider that is still configured, and an email that it no longer lets in.
  predicate EmailBanned(cfg: Config, session: Session, out: Outside) {
    && session.provider !in ["local", "ldap", "tailscale"]
    && session.provider in cfg.oauthIds && !out.emailAllowed
  }

  // What a refresh adds: half the lifetime, an hour at most.
  function Extension(cfg: Config): int {
    if cfg.sessionExpiry > 3600 then 3600
    else if cfg.sessionExpiry >= 0 then cfg.sessionExpiry / 2
    else -(-cfg.sessionExpiry / 2)
  }

  // The session after its cookie was shown: gone when it is out of date or its email is banned; extended when it was
  // accepted close to its end; otherwise as it was. No other session changes.
  ghost predicate ShownCookie(cfg: Config, now: nat, out: Outside, k: string, before: map<string, Session>,
                              after: map<string, Session>)
    requires k in before
  {
    var session := before[k];
    if !InDate(cfg, now, session) || EmailBanned(cfg, session, out) then after == before - {k}
    else if !StillWelcome(cfg, session, out) || session.totpPending || session.expiry - Unix(now) > Extension(cfg) then
      after == before
    else after == before[k := session.(expiry := session.expiry + Extension(cfg))]
  }

  lemma CookieExactly(cfg: Config, s: State, now: nat, k: string, out: Outside)
    requires k in s.sessions ==> (s.sessions[k].totpPending ==> s.sessions[k].provider == "local")
    ensures CookieAuth(cfg, s, now, k, out).1.Some? <==>
              k in s.sessions && InDate(cfg, now, s.sessions[k]) && StillWelcome(cfg, s.sessions[k], out)
    ensures var after := CookieAuth(cfg, s, now, k, out).0.sessions;
            if k in s.sessions then ShownCookie(cfg, now, out, k, s.sessions, after) else after == s.sessions
  {
    if k in s.sessions {
      SearchExactly(cfg, s.sessions[k].username, out);
    }
  }

  /**
   A cookie is accepted exactly when its session is stored and in date and its user can still sign in that way, or
   it waits for its second factor.
   */
  lemma AcceptsExactly(cfg: Config, r: Run, n: nat, k: string)
    requires IsRun(cfg, r) && n < |r.events|
    requires BehindMiddleware(r.events[n].call) && Cookie(r.events[n].call) == Some(k)
    ensures var (e, sessions) := (r.events[n], r.states[n].sessions);
            Accepts(cfg, r, n, k) <==>
              k in sessions && InDate(cfg, e.time, sessions[k]) && StillWelcome(cfg, sessions[k], e.out)
  {
    GoodSessions(cfg, r, n, k);
    CookieExactly(cfg, Drawing(r.states[n], r.events[n]), r.events[n].time, k, r.events[n].out);
  }

  // The sessions after the middleware.
  ghost predicate AfterMiddleware(cfg: Config, e: Event, before: map<string, Session>, after: map<string, Session>) {
    if BehindMiddleware(e.call) && Cookie(e.call).Some? && Cookie(e.call).value in before then
      ShownCookie(cfg, e.time, e.out, Cookie(e.call).value, before, after)
    else after == before
  }

  lemma EnteredExactly(cfg: Config, s: State, e: Event)
    requires forall k :: GoodSession(s, k)
    ensures AfterMiddleware(cfg, e, s.sessions, Entered(cfg, s, e).0.sessions)
  {
    if BehindMiddleware(e.call) && Cookie(e.call).Some? {
      assert GoodSession(s, Cookie(e.call).value);
      CookieExactly(cfg, s, e.time, Cookie(e.call).value, e.out);
    }
  }

  lemma StateGood(cfg: Config, r: Run, n: nat)
    requires IsRun(cfg, r) && n < |r.events|
    ensures forall k :: GoodSession(Drawing(r.states[n], r.events[n]), k)
  {
    forall k
      ensures GoodSession(Drawing(r.states[n], r.events[n]), k)
    {
      GoodSessions(cfg, r, n, k);
    }
  }

  /** A visit does to the sessions what its cookie calls for, and nothing else. */
  lemma VisitExactly(cfg: Config, r: Run, n: nat)
    requires IsRun(cfg, r) && n < |r.events| && r.events[n].call.Visit?
    ensures AfterMiddleware(cfg, r.events[n], r.states[n].sessions, r.states[n + 1].sessions)
  {
    StateGood(cfg, r, n);
    assert Step(cfg, r, n);
    EnteredExactly(cfg, Drawing(r.states[n], r.events[n]), r.events[n]);
  }

  // ----- Sessions that are made -----

  // The session is stored under its id and starts now, for an hour if it waits for its second factor.
  ghost predicate Made(cfg: Config, e: Event, uuid: string, session: Session, before: map<string, Session>,
                       after: map<string, Session>)
  {
    && session.uuid == uuid && session.createdAt == Unix(e.time) && after == before[uuid := session]
    && session.expiry == Unix(e.time) + if session.totpPending then 3600 else cfg.sessionExpiry
  }

  // A local session that waits for a code if the user has a secret, or one of the directory.
  ghost predicate LoginSession(cfg: Config, session: Session, username: string, out: Outside) {
    && session.username == username
    && if IsLocalUser(cfg, username) then
         && session.provider == "local" && (session.totpPending <==> HasSecret(cfg, username))
         && OwnNameAndEmail(cfg, session.name, session.email, username)
       else
         && session.provider == "ldap" && !session.totpPending && session.name == cfg.capitalize(username)
         && DirectoryEmail(cfg, session.email, username, out)
  }

  lemma LoginStep(cfg: Config, before: State, e: Event)
    requires e.call.LoginCall?
    ensures var ((t, answer), username) := (Next(cfg, before, e), e.call.username);
            && (answer.created.Some? <==>
                 && !Locked(cfg, before, e.time, username, e.out) && e.out.passwordOk
                 && (IsLocalUser(cfg, username) || IsLdapUser(cfg, username, e.out)))
            && (answer.created.Some? ==>
                 var session := answer.created.value;
                 && Made(cfg, e, e.call.uuid, session, before.sessions, t.sessions)
                 && LoginSession(cfg, session, username, e.out))
            && (answer.created.None? ==> t.sessions == before.sessions)
  {
    SearchExactly(cfg, e.call.username, e.out);
  }

  /**
   A login makes a session exactly with the right password of a known user who is not locked out: one that waits for
   a code when the user has a secret, a full one otherwise.
   */
  lemma LoginExactly(cfg: Config, r: Run, n: nat)
    requires IsRun(cfg, r) && n < |r.events| && r.events[n].call.LoginCall?
    ensures var (e, before, after, created) := (r.events[n], r.states[n], r.states[n + 1], r.answers[n].created);
            var username := e.call.username;
            && (created.Some? <==>
                 && !Locked(cfg, before, e.time, username, e.out) && e.out.passwordOk
                 && (IsLocalUser(cfg, username) || IsLdapUser(cfg, username, e.out)))
            && (created.Some? ==>
                 && Made(cfg, e, e.call.uuid, created.value, before.sessions, after.sessions)
                 && LoginSession(cfg, created.value, username, e.out))
            && (created.None? ==> after.sessions == before.sessions)
  {
    assert Step(cfg, r, n);
    LoginStep(cfg, r.states[n], r.events[n]);
  }

  // The cookie is of a session that waits for its second factor.
  ghost predicate Waiting(cfg: Config, s: State, e: Event) {
    && Cookie(e.call).Some? && Cookie(e.call).value in s.sessions
    && s.sessions[Cookie(e.call).value].totpPending && InDate(cfg, e.time, s.sessions[Cookie(e.call).value])
  }

  lemma PendingContext(cfg: Config, s: State, e: Event)
    requires BehindMiddleware(e.call) && forall k :: GoodSession(s, k)
    ensures var (t, ctx) := Entered(cfg, s, e);
            && (ctx.Some? && ctx.value.TOTPPending() <==> Waiting(cfg, s, e))
            && (Waiting(cfg, s, e) ==>
                 t == s && ctx.value.GetUsername() == s.sessions[Cookie(e.call).value].username)
  {
    if Cookie(e.call).Some? {
      assert GoodSession(s, Cookie(e.call).value);
    }
    if CookieRefused(cfg, s, e) {
      EnteredWithoutCookie(cfg, s, e);
    }
  }

  lemma CodeStep(cfg: Config, s: State, e: Event, t: State, ctx: Option<UserContext>)
    requires e.call.TotpCall? && (t, ctx) == Entered(cfg, s, e) && forall k :: GoodSession(s, k)
    ensures var (after, created) := Handle(cfg, t, ctx, e);
            if created.Some? then
              var k := Cookie(e.call);
              && Waiting(cfg, s, e) && e.out.codeOk && created.value.username == s.sessions[k.value].username
              && IsLocalUser(cfg, created.value.username)
              && !Locked(cfg, s, e.time, created.value.username, e.out)
              && Made(cfg, e, e.call.uuid, created.value, s.sessions - {k.value}, after.sessions)
              && created.value.provider == "local" && !created.value.totpPending
              && OwnNameAndEmail(cfg, created.value.name, created.value.email, created.value.username)
            else
              && after.sessions == t.sessions
              && (Waiting(cfg, s, e) ==>
                   var username := s.sessions[Cookie(e.call).value].username;
                   !e.out.codeOk || !IsLocalUser(cfg, username) || Locked(cfg, s, e.time, username, e.out))
  {
    PendingContext(cfg, s, e);
    if Waiting(cfg, s, e) {
      SearchExactly(cfg, s.sessions[Cookie(e.call).value].username, e.out);
    }
  }

  /**
   A code makes a full session exactly when it is right, its cookie is of a session that waits for it, and the user
   exists and is not locked out. The waiting session is gone then.
   */
  lemma CodeExactly(cfg: Config, r: Run, n: nat)
    requires IsRun(cfg, r) && n < |r.events| && r.events[n].call.TotpCall?
    ensures var (e, s, after, created) := (r.events[n], r.states[n], r.states[n + 1], r.answers[n].created);
            && (created.Some? <==>
                 && Waiting(cfg, s, e) && e.out.codeOk
                 && var username := s.sessions[Cookie(e.call).value].username;
                    IsLocalUser(cfg, username) && !Locked(cfg, s, e.time, username, e.out))
            && (created.Some? ==>
                 var k := Cookie(e.call).value;
                 && created.value.username == s.sessions[k].username
                 && created.value.provider == "local" && !created.value.totpPending
                 && OwnNameAndEmail(cfg, created.value.name, created.value.email, created.value.username)
                 && Made(cfg, e, e.call.uuid, created.value, s.sessions - {k}, after.sessions))
            && (created.None? ==> AfterMiddleware(cfg, e, s.sessions, after.sessions))
  {
    var (e, drawn) := (r.events[n], Drawing(r.states[n], r.events[n]));
    StateGood(cfg, r, n);
    assert Step(cfg, r, n);
    var (t, ctx) := Entered(cfg, drawn, e);
    CodeStep(cfg, drawn, e, t, ctx);
    EnteredExactly(cfg, drawn, e);
  }

  /** The callback makes a session exactly for a whitelisted email at a configured provider. */
  lemma CallbackExactly(cfg: Config, r: Run, n: nat)
    requires ValidConfig(cfg) && IsRun(cfg, r) && n < |r.events| && r.events[n].call.OAuthCall?
    ensures var (e, s, after, created) := (r.events[n], r.states[n], r.states[n + 1], r.answers[n].created);
            && (created.Some? <==>
                 e.call.data.email != "" && e.call.data.provider in cfg.oauthIds && e.out.emailAllowed)
            && (created.Some? ==>
                 && created.value == e.call.data.(uuid := e.call.uuid, totpPending := false,
                                                  createdAt := created.value.createdAt, expiry := created.value.expiry)
                 && Made(cfg, e, e.call.uuid, created.value, s.sessions, after.sessions))
            && (created.None? ==> after.sessions == s.sessions)
  {
    assert Step(cfg, r, n);
    assert RESERVED_PROVIDER_NAMES[2] == "tailscale";
  }

  /** A node of the tailnet gets a session in its own name exactly while tailscale is on. */
  lemma NodeExactly(cfg: Config, r: Run, n: nat)
    requires IsRun(cfg, r) && n < |r.events| && r.events[n].call.TailscaleCall?
    ensures var (ctx, created) := (r.answers[n].context, r.answers[n].created);
            && (created.Some? <==> cfg.tailscale && ctx.Some? && ctx.value.tailscale.Some?)
            && (created.Some? ==>
                 var base := ctx.value.tailscale.value.base;
                 && created.value.provider == "tailscale" && created.value.username == base.username
                 && created.value.name == base.name && created.value.email == base.email && !created.value.totpPending)
  {
    assert Step(cfg, r, n);
  }

  // ----- Sessions that end -----

  /** Cleanup takes exactly the sessions past their expiry, so no cookie is lost by it. */
  lemma CleanupExactly(cfg: Config, r: Run, n: nat)
    requires IsRun(cfg, r) && n < |r.events| && r.events[n].call.CleanExpired?
    ensures var (e, before, after) := (r.events[n], r.states[n].sessions, r.states[n + 1].sessions);
            && (forall k :: k in after <==> k in before && Unix(e.time) <= before[k].expiry)
            && (forall k :: k in after ==> after[k] == before[k])
            && (forall k :: k in before && InDate(cfg, e.time, before[k]) ==> k in after)
  {
    assert Step(cfg, r, n);
  }

  lemma LogoutStep(cfg: Config, s: State, e: Event)
    requires e.call.Logout? && forall k :: GoodSession(Drawing(s, e), k)
    ensures var after := Next(cfg, s, e).0.sessions;
            if Cookie(e.call).Some? then after == s.sessions - {Cookie(e.call).value} else after == s.sessions
  {
    EnteredExactly(cfg, Drawing(s, e), e);
  }

  lemma LogoutExactly(cfg: Config, r: Run, n: nat)
    requires IsRun(cfg, r) && n < |r.events| && r.events[n].call.Logout?
    ensures var (cookie, s, after) := (Cookie(r.events[n].call), r.states[n].sessions, r.states[n + 1].sessions);
            after == if cookie.Some? then s - {cookie.value} else s
  {
    StateGood(cfg, r, n);
    assert Step(cfg, r, n);
    LogoutStep(cfg, r.states[n], r.events[n]);
  }

  // What ends a session for good: its cookie is shown out of date, with a banned email, to log out, or with the code
  // it waits for.
  ghost predicate Ends(cfg: Config, r: Run, n: nat, k: string)
    requires n < |r.events| && |r.states| == |r.events| + 1 && |r.answers| == |r.events|
  {
    var (e, s) := (r.events[n], r.states[n].sessions);
    && BehindMiddleware(e.call) && Cookie(e.call) == Some(k) && k in s
    && (!InDate(cfg, e.time, s[k]) || EmailBanned(cfg, s[k], e.out) || e.call.Logout?
        || (e.call.TotpCall? && r.answers[n].created.Some?))
  }

  lemma EndedIsGone(cfg: Config, r: Run, n: nat, k: string)
    requires IsRun(cfg, r) && n < |r.events| && Ends(cfg, r, n, k)
    ensures k !in r.states[n + 1].sessions
  {
    var (e, drawn) := (r.events[n], Drawing(r.states[n], r.events[n]));
    StoredIsMinted(cfg, r, n, k);
    StepDraws(cfg, r, n);
    if e.call.Logout? {
      LogoutExactly(cfg, r, n);
    } else if e.call.TotpCall? {
      CodeExactly(cfg, r, n);
    } else {
      StateGood(cfg, r, n);
      assert Step(cfg, r, n);
      EnteredExactly(cfg, drawn, e);
    }
  }

  /** Once a session has ended in one of these ways, its cookie is never accepted again. */
  lemma EndedStaysOut(cfg: Config, r: Run, n: nat, m: nat, k: string)
    requires IsRun(cfg, r) && n < m < |r.events| && Ends(cfg, r, n, k)
    ensures !Accepts(cfg, r, m, k)
  {
    StoredIsMinted(cfg, r, n, k);
    TimePasses(cfg, r, n, n + 1);
    EndedIsGone(cfg, r, n, k);
    GoneForGood(cfg, r, n + 1, m, k);
  }
}
