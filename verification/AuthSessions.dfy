/** What a stored cookie session is at any point of any run: where it came from, and when it ends. */
module AuthSessions {
  import opened Base
  import opened Contexts
  import opened AuthModel
  import opened AuthProtocol
  import opened Strings

  // ----- A session is the one its creating request stored, up to its expiry -----

  lemma StoredIsMinted(cfg: Config, r: Run, n: nat, k: string)
    requires IsRun(cfg, r) && n < |r.states| && k in r.states[n].sessions
    ensures k in r.states[n].minted
  {
    GoodSessions(cfg, r, n, k);
  }

  // The session is new after step n or was there before, the same or extended.
  lemma BornOrCarried(cfg: Config, r: Run, n: nat, k: string)
    requires IsRun(cfg, r) && n < |r.events| && k in r.states[n + 1].sessions
    ensures var (before, after) := (r.states[n].sessions, r.states[n + 1].sessions);
            if k in before then after[k] == before[k] || Extended(cfg, r.events[n].time, before[k], after[k])
            else r.answers[n].created == Some(after[k]) && k == after[k].uuid && BornNow(cfg, r.events[n], after[k])
  {
    StepSessions(cfg, r, n, k);
    if k in r.states[n].sessions {
      StoredIsMinted(cfg, r, n, k);
      StepDraws(cfg, r, n);
    }
  }

  ghost predicate CreatedAt(cfg: Config, r: Run, i: nat, session: Session) {
    && i < |r.events| && i < |r.answers| && r.answers[i].created.Some?
    && BornNow(cfg, r.events[i], r.answers[i].created.value)
    && session == r.answers[i].created.value.(expiry := session.expiry)
  }

  /** A stored session is, but for its expiry, one that an earlier request created. */
  lemma {:induction false} StoredWasCreated(cfg: Config, r: Run, n: nat, k: string)
    requires IsRun(cfg, r) && n < |r.states| && k in r.states[n].sessions
    ensures exists i: nat :: i < n && CreatedAt(cfg, r, i, r.states[n].sessions[k])
  {
    if n > 0 {
      BornOrCarried(cfg, r, n - 1, k);
      if k in r.states[n - 1].sessions {
        StoredWasCreated(cfg, r, n - 1, k);
        var i: nat :| i < n - 1 && CreatedAt(cfg, r, i, r.states[n - 1].sessions[k]);
        assert CreatedAt(cfg, r, i, r.states[n].sessions[k]);
      } else {
        assert CreatedAt(cfg, r, n - 1, r.states[n].sessions[k]);
      }
    }
  }

  // ----- Sliding expiry -----

  // The number of steps up to state n that changed the stored session.
  ghost function Refreshes(r: Run, n: nat, k: string): nat
    requires n < |r.states|
  {
    if n == 0 then 0
    else
      var (before, after) := (r.states[n - 1].sessions, r.states[n].sessions);
      Refreshes(r, n - 1, k) + if k in before && k in after && before[k] != after[k] then 1 else 0
  }

  lemma {:induction false} NotYetRefreshed(cfg: Config, r: Run, n: nat, k: string)
    requires IsRun(cfg, r) && n < |r.states| && k !in r.states[n].minted
    ensures Refreshes(r, n, k) == 0
  {
    if n > 0 {
      TimePasses(cfg, r, n - 1, n);
      NotYetRefreshed(cfg, r, n - 1, k);
      if k in r.states[n - 1].sessions {
        StoredIsMinted(cfg, r, n - 1, k);
      }
    }
  }

  // The expiry of a session that was refreshed that often.
  ghost predicate Slid(cfg: Config, s: Session, refreshes: nat) {
    && s.expiry == s.createdAt + Lifetime(cfg, s.totpPending) + refreshes * RefreshThreshold(cfg)
    && (s.totpPending ==> refreshes == 0)
  }

  // No session reaches further than this from the time given.
  predicate InReach(cfg: Config, s: Session, now: nat) {
    s.expiry <= Unix(now) + Max(Lifetime(cfg, s.totpPending), 2 * RefreshThreshold(cfg))
  }

  lemma ExtendedSlides(cfg: Config, now: nat, before: Session, after: Session, refreshes: nat)
    requires Slid(cfg, before, refreshes) && Extended(cfg, now, before, after)
    requires before.totpPending ==> before.provider == "local"
    ensures Slid(cfg, after, refreshes + 1) && InReach(cfg, after, now)
  {
    assert (refreshes + 1) * RefreshThreshold(cfg) == refreshes * RefreshThreshold(cfg) + RefreshThreshold(cfg);
  }

  lemma ReachGrows(cfg: Config, s: Session, before: nat, now: nat)
    requires InReach(cfg, s, before) && before <= now
    ensures InReach(cfg, s, now)
  {
    UnixMonotonic(before, now);
  }

  lemma {:induction false} Slides(cfg: Config, r: Run, n: nat, k: string)
    requires IsRun(cfg, r) && n < |r.states| && k in r.states[n].sessions
    ensures Slid(cfg, r.states[n].sessions[k], Refreshes(r, n, k))
    ensures InReach(cfg, r.states[n].sessions[k], r.states[n].clock)
  {
    if n > 0 {
      var (before, after) := (r.states[n - 1].sessions, r.states[n].sessions);
      BornOrCarried(cfg, r, n - 1, k);
      StepDraws(cfg, r, n - 1);
      if k !in before {
        NotYetRefreshed(cfg, r, n - 1, k);
      } else {
        Slides(cfg, r, n - 1, k);
        GoodSessions(cfg, r, n - 1, k);
        if before[k] == after[k] {
          ReachGrows(cfg, after[k], r.states[n - 1].clock, r.states[n].clock);
        } else {
          ExtendedSlides(cfg, r.events[n - 1].time, before[k], after[k], Refreshes(r, n - 1, k));
        }
      }
    }
  }

  /**
   A session expires a whole number of thresholds after its first deadline, one per refresh, and
   never later than the longer of its first lifetime and two thresholds from now. A session that
   waits for its second factor is never extended.
   */
  lemma SlidingExpiry(cfg: Config, r: Run, n: nat, k: string)
    requires IsRun(cfg, r) && n < |r.states| && k in r.states[n].sessions
    ensures var s := r.states[n].sessions[k];
            && s.expiry == s.createdAt + Lifetime(cfg, s.totpPending) + Refreshes(r, n, k) * RefreshThreshold(cfg)
            && s.expiry <= Unix(r.states[n].clock) + Max(Lifetime(cfg, s.totpPending), 2 * RefreshThreshold(cfg))
            && (s.totpPending ==> Refreshes(r, n, k) == 0)
  {
    Slides(cfg, r, n, k);
  }

  // ----- The maximum lifetime, and no way back -----

  // No clock reads zero; a zero creation time is the one GetSession takes for "unknown".
  ghost predicate AfterEpoch(r: Run) {
    forall n :: 0 <= n < |r.events| ==> r.events[n].time >= SECOND
  }

  // Request n shows cookie k, which is accepted.
  ghost predicate Accepts(cfg: Config, r: Run, n: nat, k: string)
    requires n < |r.events| && |r.states| == |r.events| + 1
  {
    && BehindMiddleware(r.events[n].call) && Cookie(r.events[n].call) == Some(k)
    && CookieAuth(cfg, Drawing(r.states[n], r.events[n]), r.events[n].time, k, r.events[n].out).1.Some?
  }

  /** An accepted cookie was created at most the maximum lifetime ago. */
  lemma AcceptedWithinLifetime(cfg: Config, r: Run, n: nat, k: string)
    requires IsRun(cfg, r) && AfterEpoch(r) && n < |r.events| && Accepts(cfg, r, n, k)
    requires cfg.sessionMaxLifetime != 0
    ensures k in r.states[n].sessions
    ensures exists i: nat :: i < n && CreatedAt(cfg, r, i, r.states[n].sessions[k])
              && Unix(r.events[n].time) <= Unix(r.events[i].time) + cfg.sessionMaxLifetime
  {
    var s := r.states[n].sessions[k];
    StoredWasCreated(cfg, r, n, k);
    var i: nat :| i < n && CreatedAt(cfg, r, i, s);
    UnixMonotonic(SECOND, r.events[i].time);
    assert s.createdAt == Unix(r.events[i].time) >= 1;
  }

  lemma {:induction false} GoneForGood(cfg: Config, r: Run, i: nat, j: nat, k: string)
    requires IsRun(cfg, r) && i <= j < |r.states|
    requires k in r.states[i].minted && k !in r.states[i].sessions
    ensures k !in r.states[j].sessions
  {
    if i < j {
      GoneForGood(cfg, r, i, j - 1, k);
      TimePasses(cfg, r, i, j - 1);
      StepDraws(cfg, r, j - 1);
      if k in r.states[j].sessions {
        BornOrCarried(cfg, r, j - 1, k);
      }
    }
  }

  lemma TooOldIsRemoved(cfg: Config, s: State, e: Event, k: string)
    requires k in s.sessions && TooOld(cfg, e.time, s.sessions[k])
    requires BehindMiddleware(e.call) && Cookie(e.call) == Some(k)
    ensures k !in Entered(cfg, s, e).0.sessions
  {
  }

  lemma NextRemovesTooOld(cfg: Config, before: State, e: Event, k: string)
    requires k in before.sessions && TooOld(cfg, e.time, before.sessions[k])
    requires BehindMiddleware(e.call) && Cookie(e.call) == Some(k) && k !in Drawn(e.call)
    ensures k !in Next(cfg, before, e).0.sessions
  {
    var drawn := Drawing(before, e);
    TooOldIsRemoved(cfg, drawn, e, k);
    var (s, ctx) := Entered(cfg, drawn, e);
    if k in Handle(cfg, s, ctx, e).0.sessions {
      HandledSessions(cfg, s, ctx, e, k);
    }
  }

  /** A cookie once turned away as too old is never accepted again. */
  lemma RejectedStaysRejected(cfg: Config, r: Run, n: nat, m: nat, k: string)
    requires IsRun(cfg, r) && n < m < |r.events|
    requires BehindMiddleware(r.events[n].call) && Cookie(r.events[n].call) == Some(k)
    requires k in r.states[n].sessions && TooOld(cfg, r.events[n].time, r.states[n].sessions[k])
    ensures !Accepts(cfg, r, m, k)
  {
    StoredIsMinted(cfg, r, n, k);
    StepDraws(cfg, r, n);
    assert Step(cfg, r, n);
    NextRemovesTooOld(cfg, r.states[n], r.events[n], k);
    GoneForGood(cfg, r, n + 1, m, k);
  }

  // ----- Whom an accepted cookie speaks for -----

  // The user, provider and sign-in time of the session; and what must still be true of them.
  ghost predicate SpeaksFor(cfg: Config, ctx: UserContext, session: Session, out: Outside) {
    && ctx.authTime == session.createdAt && (ctx.authenticated <==> !session.totpPending)
    && (session.provider != "tailscale" ==> ctx.GetUsername() == session.username)
    && match session.provider
       case "local" =>
         && ctx.IsLocal() && (ctx.TOTPPending() <==> session.totpPending)
         && ctx.GetName() == session.name && ctx.GetEmail() == session.email
         && (!session.totpPending ==>
              var user := GetLocalUser(cfg.users, session.username);
              && user.Some?
              && var (own, shown) := (user.value.attributes, ctx.local.value.attributes);
                 && shown == own.(name := shown.name, email := shown.email)
                 && shown.name == (if own.name != "" then own.name else cfg.capitalize(session.username))
                 && shown.email == (if own.email != "" then own.email else cfg.compileEmail(session.username)))
       case "ldap" =>
         && ctx.IsLDAP() && cfg.ldap && GetLocalUser(cfg.users, session.username).None? && out.ldap.LdapFound?
         && out.ldapGroups == Some(ctx.ldap.value.groups) && ctx.GetName() == cfg.capitalize(session.username)
         && ctx.GetEmail() ==
              (if out.ldap.email != "" then out.ldap.email else cfg.compileEmail(session.username))
       case "tailscale" =>
         && ctx.provider == ProviderTailscale && cfg.tailscale
         && out.whois.WhoisNode? && ctx.tailscale == Some(out.whois.node)
       case _ =>
         && ctx.IsOAuth() && ctx.oauth.value.id == session.provider && session.provider in cfg.oauthIds
         && out.emailAllowed && ctx.GetEmail() == session.email && ctx.GetName() == session.name
         && ctx.oauth.value.sub == session.oauthSub && ctx.oauth.value.displayName == session.oauthName
         && (if session.oauthGroups == "" then ctx.oauth.value.groups == []
             else Join(ctx.oauth.value.groups, ',') == session.oauthGroups && ctx.oauth.value.groups != []
                  && forall g :: g in ctx.oauth.value.groups ==> ',' !in g)
  }

  // What the request that created a session was told.
  ghost predicate Vouches(cfg: Config, e: Event, ctx: Option<UserContext>, session: Session) {
    match session.provider
    case "local" =>
      || (&& e.call.LoginCall? && e.call.username == session.username && e.out.passwordOk
          && GetLocalUser(cfg.users, session.username).Some?
          && (session.totpPending <==> GetLocalUser(cfg.users, session.username).value.totpSecret != ""))
      || (&& e.call.TotpCall? && e.out.codeOk && !session.totpPending
          && ctx.Some? && ctx.value.TOTPPending() && ctx.value.GetUsername() == session.username)
    case "ldap" =>
      && e.call.LoginCall? && e.call.username == session.username && e.out.passwordOk
      && SearchUser(cfg, session.username, e.out.ldap).FoundLdap?
    case "tailscale" =>
      && e.call.TailscaleCall? && cfg.tailscale && ctx.Some? && ctx.value.tailscale.Some?
      && ctx.value.tailscale.value.base.username == session.username
    case _ =>
      && e.call.OAuthCall? && e.call.data.provider == session.provider && session.provider in cfg.oauthIds
      && e.out.emailAllowed && session.email != ""
      && e.call.data.username == session.username && e.call.data.email == session.email
  }

  lemma CreatedVouched(cfg: Config, s: State, ctx: Option<UserContext>, e: Event)
    requires ValidConfig(cfg) && Handle(cfg, s, ctx, e).1.Some?
    ensures Vouches(cfg, e, ctx, Handle(cfg, s, ctx, e).1.value)
  {
    assert RESERVED_PROVIDER_NAMES[0] == "local" && RESERVED_PROVIDER_NAMES[1] == "ldap";
    assert RESERVED_PROVIDER_NAMES[2] == "tailscale";
  }

  lemma StepVouched(cfg: Config, r: Run, i: nat)
    requires ValidConfig(cfg) && IsRun(cfg, r) && i < |r.events| && r.answers[i].created.Some?
    ensures Vouches(cfg, r.events[i], r.answers[i].context, r.answers[i].created.value)
  {
    assert Step(cfg, r, i);
    var (s, ctx) := Entered(cfg, Drawing(r.states[i], r.events[i]), r.events[i]);
    CreatedVouched(cfg, s, ctx, r.events[i]);
  }

  /**
   The context of an accepted cookie is that of its session: the user may still sign in that way, and
   an earlier request that created the session was given the password, the code, the tailnet node or
   the whitelisted email it takes.
   */
  lemma AcceptedSpeaksFor(cfg: Config, r: Run, n: nat, k: string)
    requires ValidConfig(cfg) && IsRun(cfg, r) && n < |r.events| && Accepts(cfg, r, n, k)
    ensures k in r.states[n].sessions && r.answers[n].context.Some?
    ensures SpeaksFor(cfg, r.answers[n].context.value, r.states[n].sessions[k], r.events[n].out)
    ensures exists i: nat :: i < n && CreatedAt(cfg, r, i, r.states[n].sessions[k])
              && Vouches(cfg, r.events[i], r.answers[i].context, r.states[n].sessions[k])
  {
    var session := CookieOf(cfg, r, n, k);
    StoredWasCreated(cfg, r, n, k);
    var i: nat :| i < n && CreatedAt(cfg, r, i, session);
    StepVouched(cfg, r, i);
  }

  lemma CookieOf(cfg: Config, r: Run, n: nat, k: string) returns (session: Session)
    requires IsRun(cfg, r) && n < |r.events| && Accepts(cfg, r, n, k)
    ensures k in r.states[n].sessions && session == r.states[n].sessions[k] && r.answers[n].context.Some?
    ensures SpeaksFor(cfg, r.answers[n].context.value, session, r.events[n].out)
  {
    assert Step(cfg, r, n);
    CookieSpeaksFor(cfg, Drawing(r.states[n], r.events[n]), r.events[n].time, k, r.events[n].out);
    session := r.states[n].sessions[k];
  }

  lemma LocalSpeaksFor(cfg: Config, s: State, now: nat, k: string, out: Outside)
    requires CookieAuth(cfg, s, now, k, out).1.Some? && s.sessions[k].provider == "local"
    ensures SpeaksFor(cfg, CookieAuth(cfg, s, now, k, out).1.value, s.sessions[k], out)
  {
  }

  lemma OAuthSpeaksFor(cfg: Config, s: State, now: nat, k: string, out: Outside)
    requires CookieAuth(cfg, s, now, k, out).1.Some? && s.sessions[k].provider !in RESERVED_PROVIDER_NAMES
    ensures SpeaksFor(cfg, CookieAuth(cfg, s, now, k, out).1.value, s.sessions[k], out)
  {
    assert RESERVED_PROVIDER_NAMES[0] == "local" && RESERVED_PROVIDER_NAMES[1] == "ldap";
    assert RESERVED_PROVIDER_NAMES[2] == "tailscale";
    JoinSplit(s.sessions[k].oauthGroups, ',');
    SplitHasNoSeparator(s.sessions[k].oauthGroups, ',');
  }

  lemma DirectorySpeaksFor(cfg: Config, s: State, now: nat, k: string, out: Outside)
    requires CookieAuth(cfg, s, now, k, out).1.Some? && s.sessions[k].provider in ["ldap", "tailscale"]
    ensures SpeaksFor(cfg, CookieAuth(cfg, s, now, k, out).1.value, s.sessions[k], out)
  {
  }

  lemma CookieSpeaksFor(cfg: Config, s: State, now: nat, k: string, out: Outside)
    requires CookieAuth(cfg, s, now, k, out).1.Some?
    ensures k in s.sessions
    ensures SpeaksFor(cfg, CookieAuth(cfg, s, now, k, out).1.value, s.sessions[k], out)
  {
    if s.sessions[k].provider == "local" {
      LocalSpeaksFor(cfg, s, now, k, out);
    } else if s.sessions[k].provider in ["ldap", "tailscale"] {
      DirectorySpeaksFor(cfg, s, now, k, out);
    } else {
      OAuthSpeaksFor(cfg, s, now, k, out);
    }
  }
}
