/** Rate limiting over whole runs of sign-in: what the login cache knows, and what a locked name cannot do. */
module AuthLockout {
  import opened Base
  import opened Contexts
  import opened AuthModel
  import opened AuthProtocol
  import C = CacheSpec
  import L = LoginSpec
  import T = LoginTheorems

  // ----- The login events of a request -----

  function BasicAttempts(cfg: Config, s: State, now: nat, username: string, out: Outside): seq<T.Event> {
    var search := SearchUser(cfg, username, out.ldap);
    if Locked(cfg, s, now, username, out) || search.NotFound? || search.SearchFailed? then []
    else [T.Attempt(now, username, out.passwordOk)]
  }

  // The middleware looks at credentials when no cookie is accepted.
  function EnteredAttempts(cfg: Config, s: State, e: Event): seq<T.Event> {
    if !BehindMiddleware(e.call) || Basic(e.call).None? then []
    else if Cookie(e.call).Some? then
      var (t, ctx) := CookieAuth(cfg, s, e.time, Cookie(e.call).value, e.out);
      if ctx.Some? then [] else BasicAttempts(cfg, t, e.time, Basic(e.call).value, e.out)
    else BasicAttempts(cfg, s, e.time, Basic(e.call).value, e.out)
  }

  function LoginAttempts(cfg: Config, s: State, now: nat, username: string, out: Outside): seq<T.Event> {
    if Locked(cfg, s, now, username, out) then []
    else
      match SearchUser(cfg, username, out.ldap)
      case NotFound => [T.Attempt(now, username, false)]
      case SearchFailed => []
      case FoundLocal =>
        // a password that only opens the second factor is not yet a success
        if out.passwordOk && GetLocalUser(cfg.users, username).value.totpSecret != "" then []
        else [T.Attempt(now, username, out.passwordOk)]
      case FoundLdap(_, _) => [T.Attempt(now, username, out.passwordOk)]
  }

  function TotpAttempts(cfg: Config, s: State, now: nat, ctx: Option<UserContext>, out: Outside): seq<T.Event> {
    if ctx.None? || !ctx.value.TOTPPending() then []
    else
      var username := ctx.value.GetUsername();
      if Locked(cfg, s, now, username, out) || GetLocalUser(cfg.users, username).None? then []
      else [T.Attempt(now, username, out.codeOk)]
  }

  function HandledAttempts(cfg: Config, s: State, ctx: Option<UserContext>, e: Event): seq<T.Event> {
    match e.call
    case LoginCall(username, _) => LoginAttempts(cfg, s, e.time, username, e.out)
    case TotpCall(_, _, _) => TotpAttempts(cfg, s, e.time, ctx, e.out)
    case ClearLogins => [T.Clear]
    case SweepLogins => [T.Sweep(e.time)]
    case _ => []
  }

  function Attempts(cfg: Config, before: State, e: Event): seq<T.Event> {
    var drawn := Drawing(before, e);
    var (s, ctx) := Entered(cfg, drawn, e);
    EnteredAttempts(cfg, drawn, e) + HandledAttempts(cfg, s, ctx, e)
  }

  ghost function Batches(cfg: Config, r: Run): (batches: seq<seq<T.Event>>)
    requires |r.states| == |r.events| + 1
    ensures |batches| == |r.events|
    ensures forall n :: 0 <= n < |r.events| ==> batches[n] == Attempts(cfg, r.states[n], r.events[n])
  {
    seq(|r.events|, n requires 0 <= n < |r.events| => Attempts(cfg, r.states[n], r.events[n]))
  }

  function Flat(batches: seq<seq<T.Event>>): seq<T.Event> {
    if batches == [] then [] else Flat(batches[..|batches| - 1]) + batches[|batches| - 1]
  }

  // The login events of the first n steps.
  ghost function History(cfg: Config, r: Run, n: nat): seq<T.Event>
    requires n <= |r.events| && |r.states| == |r.events| + 1
  {
    Flat(Batches(cfg, r)[..n])
  }

  // ----- The login cache is what its history makes it -----

  lemma {:induction false} AfterBoth(limits: L.Limits, c: L.LoginCache, first: seq<T.Event>, second: seq<T.Event>)
    ensures T.After(limits, c, first + second) == T.After(limits, T.After(limits, c, first), second)
  {
    if second == [] {
      assert first + second == first;
    } else {
      assert (first + second)[..|first + second| - 1] == first + second[..|second| - 1];
      AfterBoth(limits, c, first, second[..|second| - 1]);
    }
  }

  lemma AfterOne(limits: L.Limits, c: L.LoginCache, e: T.Event)
    ensures T.After(limits, c, [e]) == T.Next(limits, c, e)
  {
    assert [e][..0] == [];
  }

  lemma BasicLogins(cfg: Config, s: State, now: nat, username: string, out: Outside)
    ensures BasicAuth(cfg, s, now, username, out).0.logins ==
            T.After(cfg.limits, s.logins, BasicAttempts(cfg, s, now, username, out))
  {
    AfterOne(cfg.limits, s.logins, T.Attempt(now, username, out.passwordOk));
  }

  lemma CookieLeavesLogins(cfg: Config, s: State, now: nat, k: string, out: Outside)
    ensures CookieAuth(cfg, s, now, k, out).0.logins == s.logins
  {
  }

  // After the cookie, if any, was refused in state t.
  lemma RefusedLogins(cfg: Config, s: State, t: State, e: Event)
    requires t.logins == s.logins && Basic(e.call).Some?
    ensures BasicAuth(cfg, t, e.time, Basic(e.call).value, e.out).0.logins ==
            T.After(cfg.limits, s.logins, BasicAttempts(cfg, t, e.time, Basic(e.call).value, e.out))
  {
    BasicLogins(cfg, t, e.time, Basic(e.call).value, e.out);
  }

  lemma EnteredLogins(cfg: Config, s: State, e: Event)
    ensures Entered(cfg, s, e).0.logins == T.After(cfg.limits, s.logins, EnteredAttempts(cfg, s, e))
  {
    if BehindMiddleware(e.call) {
      if Cookie(e.call).Some? {
        CookieLeavesLogins(cfg, s, e.time, Cookie(e.call).value, e.out);
        if Basic(e.call).Some? {
          RefusedLogins(cfg, s, CookieAuth(cfg, s, e.time, Cookie(e.call).value, e.out).0, e);
        }
      } else if Basic(e.call).Some? {
        RefusedLogins(cfg, s, s, e);
      }
    }
  }

  lemma LoginLogins(cfg: Config, s: State, now: nat, username: string, uuid: string, out: Outside)
    ensures Login(cfg, s, now, username, uuid, out).0.logins ==
            T.After(cfg.limits, s.logins, LoginAttempts(cfg, s, now, username, out))
  {
    if !Locked(cfg, s, now, username, out) {
      var search := SearchUser(cfg, username, out.ldap);
      if search.NotFound? {
        AfterOne(cfg.limits, s.logins, T.Attempt(now, username, false));
      } else {
        AfterOne(cfg.limits, s.logins, T.Attempt(now, username, out.passwordOk));
      }
    }
  }

  lemma TotpLogins(cfg: Config, s: State, now: nat, ctx: Option<UserContext>, cookie: Option<string>, uuid: string,
                   out: Outside)
    ensures Totp(cfg, s, now, ctx, cookie, uuid, out).0.logins ==
            T.After(cfg.limits, s.logins, TotpAttempts(cfg, s, now, ctx, out))
  {
    if ctx.Some? {
      AfterOne(cfg.limits, s.logins, T.Attempt(now, ctx.value.GetUsername(), out.codeOk));
    }
  }

  lemma HandledLogins(cfg: Config, s: State, ctx: Option<UserContext>, e: Event)
    ensures Handle(cfg, s, ctx, e).0.logins == T.After(cfg.limits, s.logins, HandledAttempts(cfg, s, ctx, e))
  {
    match e.call
    case LoginCall(username, uuid) => LoginLogins(cfg, s, e.time, username, uuid, e.out);
    case TotpCall(cookie, _, uuid) => TotpLogins(cfg, s, e.time, ctx, cookie, uuid, e.out);
    case ClearLogins => AfterOne(cfg.limits, s.logins, T.Clear);
    case SweepLogins => AfterOne(cfg.limits, s.logins, T.Sweep(e.time));
    case _ =>
  }

  lemma NextLogins(cfg: Config, before: State, e: Event)
    ensures Next(cfg, before, e).0.logins == T.After(cfg.limits, before.logins, Attempts(cfg, before, e))
  {
    var drawn := Drawing(before, e);
    var (s, ctx) := Entered(cfg, drawn, e);
    EnteredLogins(cfg, drawn, e);
    HandledLogins(cfg, s, ctx, e);
    AfterBoth(cfg.limits, before.logins, EnteredAttempts(cfg, drawn, e), HandledAttempts(cfg, s, ctx, e));
  }

  lemma StepLogins(cfg: Config, r: Run, n: nat)
    requires IsRun(cfg, r) && n < |r.events|
    ensures r.states[n + 1].logins == T.After(cfg.limits, r.states[n].logins, Attempts(cfg, r.states[n], r.events[n]))
  {
    assert Step(cfg, r, n);
    NextLogins(cfg, r.states[n], r.events[n]);
  }

  lemma StepBatch(cfg: Config, r: Run, n: nat)
    requires IsRun(cfg, r) && n < |r.events|
    ensures r.states[n + 1].logins == T.After(cfg.limits, r.states[n].logins, Batches(cfg, r)[n])
  {
    StepLogins(cfg, r, n);
  }

  // A chain of caches, each the result of a batch of events on the one before.
  lemma {:induction false} AfterFlat(limits: L.Limits, caches: seq<L.LoginCache>, batches: seq<seq<T.Event>>, n: nat)
    requires n <= |batches| && |caches| == |batches| + 1
    requires forall i :: 0 <= i < |batches| ==> caches[i + 1] == T.After(limits, caches[i], batches[i])
    ensures caches[n] == T.After(limits, caches[0], Flat(batches[..n]))
  {
    if n > 0 {
      AfterFlat(limits, caches, batches, n - 1);
      assert batches[..n][..n - 1] == batches[..n - 1];
      AfterBoth(limits, caches[0], Flat(batches[..n - 1]), batches[n - 1]);
      assert caches[n - 1 + 1] == T.After(limits, caches[n - 1], batches[n - 1]);
    }
  }

  lemma AllBatches(cfg: Config, r: Run)
    requires IsRun(cfg, r)
    ensures forall i :: 0 <= i < |r.events| ==>
              r.states[i + 1].logins == T.After(cfg.limits, r.states[i].logins, Batches(cfg, r)[i])
  {
    forall i | 0 <= i < |r.events|
      ensures r.states[i + 1].logins == T.After(cfg.limits, r.states[i].logins, Batches(cfg, r)[i])
    {
      StepBatch(cfg, r, i);
    }
  }

  lemma ChainOfLogins(cfg: Config, states: seq<State>, batches: seq<seq<T.Event>>, n: nat)
    requires n < |states| == |batches| + 1
    requires forall i :: 0 <= i < |batches| ==>
               states[i + 1].logins == T.After(cfg.limits, states[i].logins, batches[i])
    ensures states[n].logins == T.After(cfg.limits, states[0].logins, Flat(batches[..n]))
  {
    var caches := seq(|states|, i requires 0 <= i < |states| => states[i].logins);
    forall i | 0 <= i < |batches|
      ensures caches[i + 1] == T.After(cfg.limits, caches[i], batches[i])
    {
      assert states[i + 1].logins == T.After(cfg.limits, states[i].logins, batches[i]);
    }
    AfterFlat(cfg.limits, caches, batches, n);
  }

  lemma LoginsFollowHistory(cfg: Config, r: Run, n: nat)
    requires IsRun(cfg, r) && n < |r.states|
    ensures r.states[n].logins == T.After(cfg.limits, C.Empty(cfg.limits.CacheSize()), History(cfg, r, n))
  {
    AllBatches(cfg, r);
    ChainOfLogins(cfg, r.states, Batches(cfg, r), n);
  }

  // ----- A locked name -----

  // The failures at the end of what is on record for id reach the limit, and the timeout runs.
  ghost predicate LockedOut(cfg: Config, r: Run, n: nat, id: string)
    requires n < |r.events| && |r.states| == |r.events| + 1
  {
    T.Locks(cfg.limits, T.Trail(cfg.limits, History(cfg, r, n), id), r.events[n].time)
  }

  lemma LockedOutIsLocked(cfg: Config, r: Run, n: nat, id: string)
    requires IsRun(cfg, r) && n < |r.events| && !cfg.limits.Off()
    ensures Locked(cfg, r.states[n], r.events[n].time, id, r.events[n].out) <==>
            r.events[n].out.lockdown || LockedOut(cfg, r, n, id)
  {
    LoginsFollowHistory(cfg, r, n);
    T.LockoutExact(cfg.limits, History(cfg, r, n), r.events[n].time, id);
  }

  // The middleware comes to the credentials: there is no cookie, or it is not accepted.
  ghost predicate CookieRefused(cfg: Config, s: State, e: Event) {
    Cookie(e.call).Some? ==> CookieAuth(cfg, s, e.time, Cookie(e.call).value, e.out).1.None?
  }

  // Credentials of a locked name give no context and leave no trace.
  lemma LockedBasic(cfg: Config, s: State, e: Event)
    requires BehindMiddleware(e.call) && Basic(e.call).Some? && CookieRefused(cfg, s, e)
    requires Locked(cfg, s, e.time, Basic(e.call).value, e.out)
    ensures Entered(cfg, s, e).1.None? && EnteredAttempts(cfg, s, e) == []
  {
    if Cookie(e.call).Some? {
      CookieLeavesLogins(cfg, s, e.time, Cookie(e.call).value, e.out);
    }
  }

  lemma BasicNamesItself(cfg: Config, s: State, now: nat, username: string, out: Outside)
    requires BasicAuth(cfg, s, now, username, out).1.Some?
    ensures BasicAuth(cfg, s, now, username, out).1.value.GetUsername() == username
    ensures !Locked(cfg, s, now, username, out)
  {
  }

  // A context in the name of a locked user was not made from credentials.
  lemma LockedContext(cfg: Config, s: State, e: Event)
    requires BehindMiddleware(e.call) && Entered(cfg, s, e).1.Some?
    requires Locked(cfg, s, e.time, Entered(cfg, s, e).1.value.GetUsername(), e.out)
    ensures EnteredAttempts(cfg, s, e) == [] && Entered(cfg, s, e).0.logins == s.logins
  {
    EnteredLogins(cfg, s, e);
    if Basic(e.call).Some? && CookieRefused(cfg, s, e) {
      if Cookie(e.call).Some? {
        CookieLeavesLogins(cfg, s, e.time, Cookie(e.call).value, e.out);
        var t := CookieAuth(cfg, s, e.time, Cookie(e.call).value, e.out).0;
        BasicNamesItself(cfg, t, e.time, Basic(e.call).value, e.out);
      } else {
        BasicNamesItself(cfg, s, e.time, Basic(e.call).value, e.out);
      }
    }
  }

  lemma LockedCode(cfg: Config, s: State, ctx: UserContext, e: Event)
    requires e.call.TotpCall? && Locked(cfg, s, e.time, ctx.GetUsername(), e.out)
    ensures Handle(cfg, s, Some(ctx), e).1.None? && HandledAttempts(cfg, s, Some(ctx), e) == []
  {
  }

  lemma LockedTotp(cfg: Config, s: State, e: Event)
    requires e.call.TotpCall? && Entered(cfg, s, e).1.Some?
    requires Locked(cfg, s, e.time, Entered(cfg, s, e).1.value.GetUsername(), e.out)
    ensures var (t, ctx) := Entered(cfg, s, e);
            && Handle(cfg, t, ctx, e).1.None?
            && EnteredAttempts(cfg, s, e) == [] && HandledAttempts(cfg, t, ctx, e) == []
  {
    var (t, ctx) := Entered(cfg, s, e);
    LockedContext(cfg, s, e);
    LockedCode(cfg, t, ctx.value, e);
  }

  // What a request can do under the name id.
  ghost predicate TriesLogin(e: Event, id: string) {
    e.call.LoginCall? && e.call.username == id
  }

  ghost predicate TriesBasic(cfg: Config, before: State, e: Event, id: string) {
    BehindMiddleware(e.call) && Basic(e.call) == Some(id) && CookieRefused(cfg, Drawing(before, e), e)
  }

  ghost predicate TriesCode(e: Event, answer: Answer, id: string) {
    e.call.TotpCall? && answer.context.Some? && answer.context.value.GetUsername() == id
  }

  lemma LockedNext(cfg: Config, before: State, e: Event, id: string)
    requires Locked(cfg, Drawing(before, e), e.time, id, e.out)
    ensures var answer := Next(cfg, before, e).1;
            && (TriesLogin(e, id) ==> answer.created.None? && Attempts(cfg, before, e) == [])
            && (TriesBasic(cfg, before, e, id) ==> answer.context.None? && Attempts(cfg, before, e) == [])
            && (TriesCode(e, answer, id) ==> answer.created.None? && Attempts(cfg, before, e) == [])
  {
    var drawn := Drawing(before, e);
    if TriesBasic(cfg, before, e, id) {
      LockedBasic(cfg, drawn, e);
    } else if TriesCode(e, Next(cfg, before, e).1, id) {
      LockedTotp(cfg, drawn, e);
    }
  }

  /**
   In every run, while a name is locked out no login, no code and no basic authentication under it
   succeeds, with or without a cookie that is refused, and none of them adds to what is on record.
   */
  lemma NoSignInWhileLockedOut(cfg: Config, r: Run, n: nat, id: string)
    requires IsRun(cfg, r) && n < |r.events| && !cfg.limits.Off() && LockedOut(cfg, r, n, id)
    ensures var (e, answer) := (r.events[n], r.answers[n]);
            && (TriesLogin(e, id) ==> answer.created.None?)
            && (TriesBasic(cfg, r.states[n], e, id) ==> answer.context.None?)
            && (TriesCode(e, answer, id) ==> answer.created.None?)
            && (TriesLogin(e, id) || TriesBasic(cfg, r.states[n], e, id) || TriesCode(e, answer, id) ==>
                 r.states[n + 1].logins == r.states[n].logins)
  {
    LockedOutIsLocked(cfg, r, n, id);
    StepLogins(cfg, r, n);
    LockedStep(cfg, r, n, id);
  }

  lemma LockedStep(cfg: Config, r: Run, n: nat, id: string)
    requires IsRun(cfg, r) && n < |r.events| && Locked(cfg, r.states[n], r.events[n].time, id, r.events[n].out)
    ensures var (e, answer) := (r.events[n], r.answers[n]);
            && (TriesLogin(e, id) ==> answer.created.None? && Attempts(cfg, r.states[n], e) == [])
            && (TriesBasic(cfg, r.states[n], e, id) ==> answer.context.None? && Attempts(cfg, r.states[n], e) == [])
            && (TriesCode(e, answer, id) ==> answer.created.None? && Attempts(cfg, r.states[n], e) == [])
  {
    assert Step(cfg, r, n);
    LockedNext(cfg, r.states[n], r.events[n], id);
  }
}
