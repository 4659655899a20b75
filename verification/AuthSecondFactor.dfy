/** Whoever has a TOTP secret is let in as a local user only after a password and a code. */
module AuthSecondFactor {
  import opened Base
  import opened Contexts
  import opened AuthModel
  import opened AuthProtocol
  import opened AuthSessions
  import E = AuthExpiry

  predicate HasSecret(cfg: Config, username: string) {
    var user := GetLocalUser(cfg.users, username);
    user.Some? && user.value.totpSecret != ""
  }

  // ----- Contexts that speak for a local user come from a stored local session -----

  predicate LocalSession(session: Session, username: string, pending: bool) {
    session.provider == "local" && session.username == username && session.totpPending == pending
  }

  // A local context that is authenticated, or waits for its second factor.
  predicate Speaks(ctx: UserContext, username: string, pending: bool) {
    && ctx.provider == ProviderLocal && ctx.GetUsername() == username
    && if pending then ctx.TOTPPending() else ctx.authenticated
  }

  lemma CookieSpeaks(cfg: Config, s: State, now: nat, k: string, out: Outside, username: string, pending: bool)
    requires CookieAuth(cfg, s, now, k, out).1.Some?
    requires Speaks(CookieAuth(cfg, s, now, k, out).1.value, username, pending)
    ensures k in s.sessions && LocalSession(s.sessions[k], username, pending) && !TooOld(cfg, now, s.sessions[k])
  {
  }

  lemma BasicSpeaks(cfg: Config, s: State, now: nat, name: string, out: Outside, username: string, pending: bool)
    requires BasicAuth(cfg, s, now, name, out).1.Some? && HasSecret(cfg, username)
    ensures !Speaks(BasicAuth(cfg, s, now, name, out).1.value, username, pending)
  {
  }

  ghost predicate FromSession(s: State, e: Event, username: string, pending: bool) {
    && Cookie(e.call).Some? && Cookie(e.call).value in s.sessions
    && LocalSession(s.sessions[Cookie(e.call).value], username, pending)
  }

  lemma EnteredSpeaks(cfg: Config, s: State, e: Event, username: string, pending: bool)
    requires HasSecret(cfg, username)
    requires Entered(cfg, s, e).1.Some? && Speaks(Entered(cfg, s, e).1.value, username, pending)
    ensures FromSession(s, e, username, pending)
    ensures !TooOld(cfg, e.time, s.sessions[Cookie(e.call).value])
  {
    var (t, ctx) := if Cookie(e.call).Some? then CookieAuth(cfg, s, e.time, Cookie(e.call).value, e.out) else (s, None);
    if ctx.Some? {
      CookieSpeaks(cfg, s, e.time, Cookie(e.call).value, e.out, username, pending);
    } else if Basic(e.call).Some? {
      BasicSpeaks(cfg, t, e.time, Basic(e.call).value, e.out, username, pending);
    }
  }

  // ----- Local sessions are created by a login or by a code -----

  // The request was a login with the right password.
  predicate PasswordGiven(e: Event, username: string) {
    e.call.LoginCall? && e.call.username == username && e.out.passwordOk
  }

  // The request was a right code, sent with a context that waits for it.
  ghost predicate CodeGiven(e: Event, ctx: Option<UserContext>, username: string) {
    e.call.TotpCall? && e.out.codeOk && ctx.Some? && Speaks(ctx.value, username, true)
  }

  lemma CreatedLocal(cfg: Config, s: State, ctx: Option<UserContext>, e: Event, username: string, pending: bool)
    requires "local" !in cfg.oauthIds && HasSecret(cfg, username)
    requires Handle(cfg, s, ctx, e).1.Some? && LocalSession(Handle(cfg, s, ctx, e).1.value, username, pending)
    ensures if pending then PasswordGiven(e, username) else CodeGiven(e, ctx, username)
  {
  }

  // ----- The same over runs -----

  lemma ContextFromSession(cfg: Config, r: Run, n: nat, username: string, pending: bool)
    requires IsRun(cfg, r) && n < |r.events| && HasSecret(cfg, username)
    requires r.answers[n].context.Some? && Speaks(r.answers[n].context.value, username, pending)
    ensures FromSession(r.states[n], r.events[n], username, pending)
    ensures !TooOld(cfg, r.events[n].time, r.states[n].sessions[Cookie(r.events[n].call).value])
  {
    assert Step(cfg, r, n);
    EnteredSpeaks(cfg, Drawing(r.states[n], r.events[n]), r.events[n], username, pending);
  }

  lemma CreationOfLocal(cfg: Config, r: Run, i: nat, username: string, pending: bool)
    requires IsRun(cfg, r) && "local" !in cfg.oauthIds && i < |r.events| && HasSecret(cfg, username)
    requires r.answers[i].created.Some? && LocalSession(r.answers[i].created.value, username, pending)
    ensures if pending then PasswordGiven(r.events[i], username)
            else CodeGiven(r.events[i], r.answers[i].context, username)
  {
    assert Step(cfg, r, i);
    var (s, ctx) := Entered(cfg, Drawing(r.states[i], r.events[i]), r.events[i]);
    CreatedLocal(cfg, s, ctx, r.events[i], username, pending);
  }

  // The session behind such a context was created by the matching request.
  lemma SpeakerCreated(cfg: Config, r: Run, n: nat, username: string, pending: bool)
    requires IsRun(cfg, r) && "local" !in cfg.oauthIds && n < |r.events| && HasSecret(cfg, username)
    requires r.answers[n].context.Some? && Speaks(r.answers[n].context.value, username, pending)
    ensures FromSession(r.states[n], r.events[n], username, pending)
    ensures exists i: nat :: i < n
              && CreatedAt(cfg, r, i, r.states[n].sessions[Cookie(r.events[n].call).value])
              && if pending then PasswordGiven(r.events[i], username)
                 else CodeGiven(r.events[i], r.answers[i].context, username)
  {
    ContextFromSession(cfg, r, n, username, pending);
    var k := Cookie(r.events[n].call).value;
    StoredWasCreated(cfg, r, n, k);
    var i: nat :| i < n && CreatedAt(cfg, r, i, r.states[n].sessions[k]);
    CreationOfLocal(cfg, r, i, username, pending);
  }

  /**
   Request n shows the cookie of a session which an earlier request created for that user on a right
   code; and that request in turn showed the cookie of a pending session which a still earlier login
   created on a right password.
   */
  ghost predicate BothFactorsGiven(cfg: Config, r: Run, n: nat, username: string)
    requires n < |r.events| && |r.states| == |r.events| + 1 && |r.answers| == |r.events|
  {
    && FromSession(r.states[n], r.events[n], username, false)
    && exists j: nat, i: nat ::
         && j < i < n
         && CreatedAt(cfg, r, i, r.states[n].sessions[Cookie(r.events[n].call).value])
         && CodeGiven(r.events[i], r.answers[i].context, username)
         && FromSession(r.states[i], r.events[i], username, true)
         && CreatedAt(cfg, r, j, r.states[i].sessions[Cookie(r.events[i].call).value])
         && PasswordGiven(r.events[j], username)
  }

  ghost predicate RunsAs(r: Run, n: nat, username: string) {
    n < |r.answers| && r.answers[n].context.Some? && Speaks(r.answers[n].context.value, username, false)
  }

  /** Every request that runs as an authenticated local user with a TOTP secret has both factors behind it. */
  lemma BothFactors(cfg: Config, r: Run, n: nat, username: string)
    requires ValidConfig(cfg) && IsRun(cfg, r) && RunsAs(r, n, username) && HasSecret(cfg, username)
    ensures BothFactorsGiven(cfg, r, n, username)
  {
    assert "local" == RESERVED_PROVIDER_NAMES[0];
    FactorsBehind(cfg, r, n, username);
  }

  lemma FactorsBehind(cfg: Config, r: Run, n: nat, username: string)
    requires "local" !in cfg.oauthIds && IsRun(cfg, r) && RunsAs(r, n, username) && HasSecret(cfg, username)
    ensures BothFactorsGiven(cfg, r, n, username)
  {
    SpeakerCreated(cfg, r, n, username, false);
    var i: nat :| i < n && CreatedAt(cfg, r, i, r.states[n].sessions[Cookie(r.events[n].call).value])
                  && CodeGiven(r.events[i], r.answers[i].context, username);
    SpeakerCreated(cfg, r, i, username, true);
    var j: nat :| j < i && CreatedAt(cfg, r, j, r.states[i].sessions[Cookie(r.events[i].call).value])
                  && PasswordGiven(r.events[j], username);
  }

  // ----- What the start-up check on provider ids is for -----

  // An OAuth provider called "local" signs its user in under the name of a local one.
  function NamedLocal(username: string): seq<Event> {
    var data := BLANK_SESSION.(username := username, name := "Mail", email := "mail", provider := "local");
    [At(SECOND, OAuthCall(data, "id"), E.Answering()), At(SECOND, Visit(Some("id"), None), E.Answering())]
  }

  lemma NamedLocalSession(cfg: Config, username: string)
    requires "local" in cfg.oauthIds
    ensures var s := Next(cfg, Initial(cfg), NamedLocal(username)[0]).0;
            && s.clock == SECOND && "id" in s.sessions && LocalSession(s.sessions["id"], username, false)
            && s.sessions["id"].expiry == 1 + cfg.sessionExpiry && s.sessions["id"].createdAt == 1
  {
    NextDraws(cfg, Initial(cfg), NamedLocal(username)[0]);
  }

  lemma NamedLocalVisit(cfg: Config, before: State, username: string)
    requires "id" in before.sessions && LocalSession(before.sessions["id"], username, false)
    requires before.sessions["id"].expiry == 1 + cfg.sessionExpiry && before.sessions["id"].createdAt == 1
    requires cfg.sessionExpiry >= 0 && LifetimesFit(cfg) && GetLocalUser(cfg.users, username).Some?
    ensures var ctx := Next(cfg, before, NamedLocal(username)[1]).1.context;
            ctx.Some? && Speaks(ctx.value, username, false)
  {
    assert Unix(SECOND) == 1;
  }

  lemma NamedLocalRun(cfg: Config, username: string) returns (r: Run)
    requires "local" in cfg.oauthIds && HasSecret(cfg, username) && cfg.sessionExpiry >= 0 && LifetimesFit(cfg)
    ensures IsRun(cfg, r) && AfterEpoch(r) && RunsAs(r, 1, username) && !BothFactorsGiven(cfg, r, 1, username)
  {
    var events := NamedLocal(username);
    NamedLocalSession(cfg, username);
    r := Extend(cfg, E.Nothing(cfg), events[0]);
    NamedLocalVisit(cfg, Final(r), username);
    r := Extend(cfg, r, events[1]);
  }

  // With a negative expiry every full session is born dead.
  lemma {:induction false} BornDead(cfg: Config, r: Run, n: nat, k: string)
    requires IsRun(cfg, r) && n < |r.states| && cfg.sessionExpiry < 0
    ensures k in r.states[n].sessions && !r.states[n].sessions[k].totpPending ==>
              r.states[n].sessions[k].expiry < Unix(r.states[n].clock)
  {
    if n > 0 && k in r.states[n].sessions && !r.states[n].sessions[k].totpPending {
      BornOrCarried(cfg, r, n - 1, k);
      StepDraws(cfg, r, n - 1);
      UnixMonotonic(r.states[n - 1].clock, r.states[n].clock);
      if k in r.states[n - 1].sessions {
        BornDead(cfg, r, n - 1, k);
      }
    }
  }

  lemma NobodyRuns(cfg: Config, r: Run, n: nat, username: string)
    requires IsRun(cfg, r) && cfg.sessionExpiry < 0 && HasSecret(cfg, username)
    ensures !RunsAs(r, n, username)
  {
    if RunsAs(r, n, username) {
      ContextFromSession(cfg, r, n, username, false);
      BornDead(cfg, r, n, Cookie(r.events[n].call).value);
      StepDraws(cfg, r, n);
      UnixMonotonic(r.states[n].clock, r.events[n].time);
      assert false;
    }
  }

  ghost predicate SecondFactorHolds(cfg: Config, username: string) {
    forall r: Run, n: nat | IsRun(cfg, r) && AfterEpoch(r) && RunsAs(r, n, username) ::
      BothFactorsGiven(cfg, r, n, username)
  }

  /**
   No OAuth provider may be called "local": that is exactly what the second factor depends on, in a
   configuration under which anybody can stay signed in at all.
   */
  lemma SecondFactorExactly(cfg: Config, username: string)
    requires HasSecret(cfg, username) && LifetimesFit(cfg)
    ensures SecondFactorHolds(cfg, username) <==> "local" !in cfg.oauthIds || cfg.sessionExpiry < 0
  {
    if "local" in cfg.oauthIds && cfg.sessionExpiry >= 0 {
      var r := NamedLocalRun(cfg, username);
    } else {
      forall r: Run, n: nat | IsRun(cfg, r) && AfterEpoch(r) && RunsAs(r, n, username)
        ensures BothFactorsGiven(cfg, r, n, username)
      {
        if cfg.sessionExpiry < 0 {
          NobodyRuns(cfg, r, n, username);
        } else {
          FactorsBehind(cfg, r, n, username);
        }
      }
    }
  }
}
