/** Sign-in and cookie sessions as a state machine: one call is one request or one background task. */
module AuthProtocol {
  import opened Base
  import opened Contexts
  import opened AuthModel
  import C = CacheSpec

  datatype Call =
    | LoginCall(username: string, uuid: string)
    | TotpCall(cookie: Option<string>, basic: Option<string>, uuid: string)
    | TailscaleCall(cookie: Option<string>, basic: Option<string>, uuid: string)
    | OAuthCall(data: Session, uuid: string)
    | Logout(cookie: Option<string>, basic: Option<string>)
    | Visit(cookie: Option<string>, basic: Option<string>)  // any other request behind the middleware
    | CleanExpired
    | ClearLogins  // the end of a lockdown
    | SweepLogins

  datatype Event = At(time: nat, call: Call, out: Outside)

  // The context the request ran with, and the session it stored.
  datatype Answer = Answer(context: Option<UserContext>, created: Option<Session>)

  function Initial(cfg: Config): State {
    State(0, {}, map[], C.Empty(cfg.limits.CacheSize()))
  }

  function Drawn(call: Call): set<string> {
    match call
    case LoginCall(_, uuid) => {uuid}
    case TotpCall(_, _, uuid) => {uuid}
    case TailscaleCall(_, _, uuid) => {uuid}
    case OAuthCall(_, uuid) => {uuid}
    case _ => {}
  }

  function Drawing(before: State, e: Event): State {
    before.(clock := e.time, minted := before.minted + Drawn(e.call))
  }

  // The cookie and credentials the middleware looks at.
  function Cookie(call: Call): Option<string> {
    match call
    case TotpCall(cookie, _, _) => cookie
    case TailscaleCall(cookie, _, _) => cookie
    case Logout(cookie, _) => cookie
    case Visit(cookie, _) => cookie
    case _ => None
  }

  function Basic(call: Call): Option<string> {
    match call
    case TotpCall(_, basic, _) => basic
    case TailscaleCall(_, basic, _) => basic
    case Logout(_, basic) => basic
    case Visit(_, basic) => basic
    case _ => None
  }

  predicate BehindMiddleware(call: Call) {
    call.TotpCall? || call.TailscaleCall? || call.Logout? || call.Visit?
  }

  // The state the handler starts from, and its context.
  function Entered(cfg: Config, s: State, e: Event): (State, Option<UserContext>) {
    if BehindMiddleware(e.call) then Middleware(cfg, s, e.time, Cookie(e.call), Basic(e.call), e.out) else (s, None)
  }

  function Handle(cfg: Config, s: State, ctx: Option<UserContext>, e: Event): (State, Option<Session>) {
    match e.call
    case LoginCall(username, uuid) => Login(cfg, s, e.time, username, uuid, e.out)
    case TotpCall(cookie, _, uuid) => Totp(cfg, s, e.time, ctx, cookie, uuid, e.out)
    case TailscaleCall(_, _, uuid) => Tailscale(cfg, s, e.time, ctx, uuid)
    case OAuthCall(data, uuid) => OAuthCallback(cfg, s, e.time, data, uuid, e.out)
    case Logout(cookie, _) => (if cookie.Some? then s.(sessions := s.sessions - {cookie.value}) else s, None)
    case Visit(_, _) => (s, None)
    case CleanExpired => (s.(sessions := WithoutExpired(s.sessions, Unix(e.time))), None)
    case ClearLogins => (s.(logins := C.Empty(s.logins.maxSize)), None)
    case SweepLogins => (s.(logins := C.Sweep(s.logins, e.time)), None)
  }

  function Next(cfg: Config, before: State, e: Event): (State, Answer) {
    var (s, ctx) := Entered(cfg, Drawing(before, e), e);
    var (t, created) := Handle(cfg, s, ctx, e);
    (t, Answer(ctx, created))
  }

  ghost predicate Enabled(s: State, e: Event) {
    s.clock <= e.time && Drawn(e.call) !! s.minted
  }

  datatype Run = Run(states: seq<State>, events: seq<Event>, answers: seq<Answer>)

  ghost predicate IsRun(cfg: Config, r: Run) {
    && |r.states| == |r.events| + 1 && |r.answers| == |r.events| && r.states[0] == Initial(cfg)
    && forall n :: 0 <= n < |r.events| ==> Step(cfg, r, n)
  }

  ghost predicate Step(cfg: Config, r: Run, n: nat)
    requires n < |r.events| && |r.states| == |r.events| + 1 && |r.answers| == |r.events|
  {
    Enabled(r.states[n], r.events[n]) && (r.states[n + 1], r.answers[n]) == Next(cfg, r.states[n], r.events[n])
  }

  function Final(r: Run): State
    requires r.states != []
  {
    r.states[|r.states| - 1]
  }

  // A run goes on with any event that its last state allows.
  lemma Extend(cfg: Config, r: Run, e: Event) returns (q: Run)
    requires IsRun(cfg, r) && Enabled(Final(r), e)
    ensures IsRun(cfg, q) && q.events == r.events + [e] && Final(q) == Next(cfg, Final(r), e).0
    ensures q.states == r.states + [Final(q)] && q.answers == r.answers + [Next(cfg, Final(r), e).1]
  {
    var (t, answer) := Next(cfg, Final(r), e);
    q := Run(r.states + [t], r.events + [e], r.answers + [answer]);
    forall n | 0 <= n < |q.events|
      ensures Step(cfg, q, n)
    {
      if n < |r.events| {
        assert Step(cfg, r, n);
      }
    }
  }

  // ----- What the middleware and the handlers can do to the session table -----

  // An accepted session whose refresh was due.
  ghost predicate Extended(cfg: Config, now: nat, before: Session, after: Session) {
    && !(before.totpPending && before.provider == "local")
    && !TooOld(cfg, now, before)
    && before.expiry - Unix(now) <= RefreshThreshold(cfg)
    && after == before.(expiry := before.expiry + RefreshThreshold(cfg))
  }

  ghost predicate KeptOrExtended(cfg: Config, now: nat, before: map<string, Session>, after: map<string, Session>,
                                 k: string)
    requires k in after
  {
    k in before && (after[k] == before[k] || Extended(cfg, now, before[k], after[k]))
  }

  lemma CookieSessions(cfg: Config, s: State, now: nat, uuid: string, out: Outside, k: string)
    requires k in CookieAuth(cfg, s, now, uuid, out).0.sessions
    ensures KeptOrExtended(cfg, now, s.sessions, CookieAuth(cfg, s, now, uuid, out).0.sessions, k)
  {
  }

  lemma EnteredSessions(cfg: Config, s: State, e: Event, k: string)
    requires k in Entered(cfg, s, e).0.sessions
    ensures KeptOrExtended(cfg, e.time, s.sessions, Entered(cfg, s, e).0.sessions, k)
  {
    if BehindMiddleware(e.call) && Cookie(e.call).Some? {
      var t := CookieAuth(cfg, s, e.time, Cookie(e.call).value, e.out).0;
      if k in t.sessions {
        CookieSessions(cfg, s, e.time, Cookie(e.call).value, e.out, k);
      }
    }
  }

  // A session a handler stores is new: its id was just drawn, it starts now, and its lifetime is the usual one.
  ghost predicate BornNow(cfg: Config, e: Event, session: Session) {
    && session.uuid in Drawn(e.call)
    && session.createdAt == Unix(e.time)
    && session.expiry == Unix(e.time) + Lifetime(cfg, session.totpPending)
    && (session.totpPending ==> session.provider == "local")
  }

  lemma LoginSessions(cfg: Config, s: State, now: nat, username: string, uuid: string, out: Outside, k: string)
    requires k in Login(cfg, s, now, username, uuid, out).0.sessions
    ensures var (t, created) := Login(cfg, s, now, username, uuid, out);
            || (k in s.sessions && t.sessions[k] == s.sessions[k])
            || (created == Some(t.sessions[k]) && k == t.sessions[k].uuid
                && BornNow(cfg, At(now, LoginCall(username, uuid), out), t.sessions[k]))
  {
  }

  lemma TotpSessions(cfg: Config, s: State, ctx: Option<UserContext>, e: Event, k: string)
    requires e.call.TotpCall? && k in Handle(cfg, s, ctx, e).0.sessions
    ensures var (t, created) := Handle(cfg, s, ctx, e);
            || (k in s.sessions && t.sessions[k] == s.sessions[k])
            || (created == Some(t.sessions[k]) && k == t.sessions[k].uuid && BornNow(cfg, e, t.sessions[k]))
  {
  }

  lemma HandledSessions(cfg: Config, s: State, ctx: Option<UserContext>, e: Event, k: string)
    requires k in Handle(cfg, s, ctx, e).0.sessions
    ensures var (t, created) := Handle(cfg, s, ctx, e);
            || (k in s.sessions && t.sessions[k] == s.sessions[k])
            || (created == Some(t.sessions[k]) && k == t.sessions[k].uuid && BornNow(cfg, e, t.sessions[k]))
  {
    match e.call
    case LoginCall(username, uuid) => LoginSessions(cfg, s, e.time, username, uuid, e.out, k);
    case TotpCall(_, _, _) => TotpSessions(cfg, s, ctx, e, k);
    case _ =>
  }

  lemma NextSessions(cfg: Config, before: State, e: Event, k: string)
    requires k in Next(cfg, before, e).0.sessions
    ensures var (t, answer) := Next(cfg, before, e);
            || KeptOrExtended(cfg, e.time, before.sessions, t.sessions, k)
            || (answer.created == Some(t.sessions[k]) && k == t.sessions[k].uuid && BornNow(cfg, e, t.sessions[k]))
  {
    var (s, ctx) := Entered(cfg, Drawing(before, e), e);
    HandledSessions(cfg, s, ctx, e, k);
    if k in s.sessions {
      EnteredSessions(cfg, Drawing(before, e), e, k);
    }
  }

  lemma StepSessions(cfg: Config, r: Run, n: nat, k: string)
    requires IsRun(cfg, r) && n < |r.events| && k in r.states[n + 1].sessions
    ensures var (before, after) := (r.states[n].sessions, r.states[n + 1].sessions);
            || KeptOrExtended(cfg, r.events[n].time, before, after, k)
            || (r.answers[n].created == Some(after[k]) && k == after[k].uuid && BornNow(cfg, r.events[n], after[k]))
  {
    assert Step(cfg, r, n);
    NextSessions(cfg, r.states[n], r.events[n], k);
  }

  lemma EnteredDraws(cfg: Config, s: State, e: Event)
    ensures Entered(cfg, s, e).0.clock == s.clock && Entered(cfg, s, e).0.minted == s.minted
  {
  }

  lemma HandledDraws(cfg: Config, s: State, ctx: Option<UserContext>, e: Event)
    ensures Handle(cfg, s, ctx, e).0.clock == s.clock && Handle(cfg, s, ctx, e).0.minted == s.minted
  {
  }

  lemma NextDraws(cfg: Config, before: State, e: Event)
    ensures Next(cfg, before, e).0.clock == e.time && Next(cfg, before, e).0.minted == before.minted + Drawn(e.call)
  {
    EnteredDraws(cfg, Drawing(before, e), e);
    var (s, ctx) := Entered(cfg, Drawing(before, e), e);
    HandledDraws(cfg, s, ctx, e);
  }

  lemma StepDraws(cfg: Config, r: Run, n: nat)
    requires IsRun(cfg, r) && n < |r.events|
    ensures r.states[n].clock <= r.events[n].time == r.states[n + 1].clock
    ensures Drawn(r.events[n].call) !! r.states[n].minted
    ensures r.states[n + 1].minted == r.states[n].minted + Drawn(r.events[n].call)
  {
    assert Step(cfg, r, n);
    NextDraws(cfg, r.states[n], r.events[n]);
  }

  lemma {:induction false} TimePasses(cfg: Config, r: Run, i: nat, j: nat)
    requires IsRun(cfg, r) && i <= j < |r.states|
    ensures r.states[i].clock <= r.states[j].clock && r.states[i].minted <= r.states[j].minted
  {
    if i < j {
      TimePasses(cfg, r, i, j - 1);
      StepDraws(cfg, r, j - 1);
    }
  }

  // Stored sessions are filed under drawn ids, and pending ones belong to local users.
  ghost predicate GoodSession(s: State, k: string) {
    k in s.sessions ==>
      && k in s.minted && s.sessions[k].uuid == k
      && (s.sessions[k].totpPending ==> s.sessions[k].provider == "local")
  }

  lemma {:induction false} GoodSessions(cfg: Config, r: Run, n: nat, k: string)
    requires IsRun(cfg, r) && n < |r.states|
    ensures GoodSession(r.states[n], k)
  {
    if n > 0 && k in r.states[n].sessions {
      GoodSessions(cfg, r, n - 1, k);
      StepSessions(cfg, r, n - 1, k);
      StepDraws(cfg, r, n - 1);
    }
  }
}
