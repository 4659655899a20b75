/**
 Deleting expired sessions cannot be observed. The reference provider below never deletes a session
 for its age; with sessions of at least 30 seconds the real one accepts and refuses the same requests,
 wherever cleanup runs.
 */
module OidcCleanup {
  import opened Base
  import opened OidcModel
  import opened OidcTable
  import opened OidcProtocol
  import C = CacheSpec
  import P = OidcProvenance

  // ----- The provider that never cleans up -----

  ghost function KeepNext(cfg: Config, s: State, e: Event): (State, Response) {
    match e.call
    case CleanSessions => (s, Done)
    case GetUserinfo(_) => (Drawing(s, e), Next(cfg, s, e).1)
    case _ => Next(cfg, s, e)
  }

  // Why a request is refused is not compared, only that it is.
  function Blur(answer: Response): Response {
    if answer.Refused? then Refused("") else answer
  }

  function Requests(events: seq<Event>): seq<Event> {
    if events == [] then []
    else
      var init, last := events[..|events| - 1], events[|events| - 1];
      if last.call.CleanSessions? then Requests(init) else Requests(init) + [last]
  }

  // What the requesters see of a run.
  function Outcomes(events: seq<Event>, answers: seq<Response>): seq<Response>
    requires |events| == |answers|
  {
    if events == [] then []
    else
      var n := |events| - 1;
      if events[n].call.CleanSessions? then Outcomes(events[..n], answers[..n])
      else Outcomes(events[..n], answers[..n]) + [Blur(answers[n])]
  }

  ghost function KeepAfter(cfg: Config, requests: seq<Event>): State {
    if requests == [] then Initial()
    else
      var n := |requests| - 1;
      KeepNext(cfg, KeepAfter(cfg, requests[..n]), requests[n]).0
  }

  ghost function KeepOutcomes(cfg: Config, requests: seq<Event>): seq<Response> {
    if requests == [] then []
    else
      var n := |requests| - 1;
      KeepOutcomes(cfg, requests[..n]) + [Blur(KeepNext(cfg, KeepAfter(cfg, requests[..n]), requests[n]).1)]
  }

  // ----- How the two providers correspond -----

  ghost predicate LongEnough(cfg: Config) {
    cfg.sessionExpiry * 2 * SECOND >= CODE_TTL
  }

  // A row outlives every code that was stored for its sub: it is at least as young as the code.
  ghost predicate Outlives(cfg: Config, row: Session, code: C.Entry<CodeEntry>) {
    && code.expiresAt.Some? && code.expiresAt.value >= CODE_TTL
    && row.refreshTokenExpiresAt >= Unix(code.expiresAt.value - CODE_TTL) + cfg.sessionExpiry * 2
  }

  ghost predicate CodesOutlived(cfg: Config, codes: C.Cache<CodeEntry>, sessions: Table) {
    forall h :: h in codes.entries && codes.entries[h].value.userinfo.sub in sessions ==>
      Outlives(cfg, sessions[codes.entries[h].value.userinfo.sub], codes.entries[h])
  }

  ghost predicate CodesRecent(codes: C.Cache<CodeEntry>, now: nat) {
    forall h :: h in codes.entries ==>
      codes.entries[h].expiresAt.Some? && CODE_TTL <= codes.entries[h].expiresAt.value <= now + CODE_TTL
  }

  // kept has the rows of cleaned and some dead ones.
  ghost predicate OnlyDeadDiffer(cleaned: Table, kept: Table, now: nat) {
    && (forall k :: k in cleaned ==> k in kept && kept[k] == cleaned[k])
    && (forall k :: k in kept && k !in cleaned ==> Dead(kept[k], Unix(now), Unix(now)))
  }

  ghost predicate SameButSessions(s: State, t: State) {
    s.minted == t.minted && s.tickets == t.tickets && s.codes == t.codes && s.used == t.used
  }

  ghost predicate CorrespondsAt(cfg: Config, s: State, t: State, now: nat) {
    && SameButSessions(s, t)
    && WellFormed(cfg, t)
    && CodesOutlived(cfg, t.codes, t.sessions) && CodesRecent(t.codes, now)
    && OnlyDeadDiffer(s.sessions, t.sessions, now)
  }

  ghost predicate Corresponds(cfg: Config, s: State, t: State) {
    t.clock <= s.clock && CorrespondsAt(cfg, s, t, s.clock)
  }

  // A code that can still be redeemed has no dead row for its sub.
  lemma LiveCodeNoDeadRow(cfg: Config, row: Session, code: C.Entry<CodeEntry>, now: nat)
    requires LongEnough(cfg) && Outlives(cfg, row, code) && !C.Expired(code, now)
    ensures !Dead(row, Unix(now), Unix(now))
  {
  }

  lemma DeadStaysDead(cleaned: Table, kept: Table, before: nat, now: nat)
    requires OnlyDeadDiffer(cleaned, kept, before) && before <= now
    ensures OnlyDeadDiffer(cleaned, kept, now)
  {
    UnixMonotonic(before, now);
  }

  // ----- Lookups agree, except on dead rows -----

  lemma RefreshLookup(cleaned: Table, kept: Table, now: nat, hash: string)
    requires Unique(kept) && OnlyDeadDiffer(cleaned, kept, now)
    ensures var row := FindByRefresh(kept, hash);
            || FindByRefresh(cleaned, hash) == row
            || (FindByRefresh(cleaned, hash).None? && row.Some? && Dead(row.value, Unix(now), Unix(now)))
  {
  }

  lemma AccessLookup(cleaned: Table, kept: Table, now: nat, hash: string)
    requires Unique(kept) && OnlyDeadDiffer(cleaned, kept, now)
    ensures var row := FindByAccess(kept, hash);
            || FindByAccess(cleaned, hash) == row
            || (FindByAccess(cleaned, hash).None? && row.Some? && Dead(row.value, Unix(now), Unix(now)))
  {
  }

  // With new tokens only the sub can clash.
  lemma ClashIsSub(cfg: Config, minted: set<string>, sessions: Table, session: Session, access: string, refresh: string)
    requires ValidConfig(cfg) && GoodSessions(cfg, minted, sessions) && access !in minted && refresh !in minted
    requires session.accessTokenHash == cfg.hash(access) && session.refreshTokenHash == cfg.hash(refresh)
    ensures Conflicts(sessions, session) <==> session.sub in sessions
  {
    FreshHash(cfg, minted, access);
    FreshHash(cfg, minted, refresh);
    if session.sub in sessions {
      assert Clashes(sessions[session.sub], session);
    }
  }

  lemma SubmapGood(cfg: Config, minted: set<string>, cleaned: Table, kept: Table, now: nat)
    requires GoodSessions(cfg, minted, kept) && OnlyDeadDiffer(cleaned, kept, now)
    ensures GoodSessions(cfg, minted, cleaned)
  {
  }

  // ----- One call on corresponding states -----

  // Same answers, up to the reason of a refusal, and the tables still differ in dead rows only.
  ghost predicate Agree(one: (State, Response), other: (State, Response), now: nat) {
    && SameButSessions(one.0, other.0)
    && OnlyDeadDiffer(one.0.sessions, other.0.sessions, now)
    && Blur(one.1) == Blur(other.1)
  }

  lemma ExchangeAgrees(cfg: Config, s: State, t: State, minted: set<string>, now: nat, req: TokenRequest,
                       client: Client, access: string, refresh: string)
    requires ValidConfig(cfg) && LongEnough(cfg) && SameButSessions(s, t)
    requires OnlyDeadDiffer(s.sessions, t.sessions, now) && GoodSessions(cfg, minted, t.sessions)
    requires CodesOutlived(cfg, t.codes, t.sessions) && access !in minted && refresh !in minted
    requires Redeem(s.codes, now, cfg.hash(req.code), client.clientId).1.Some?
    ensures var entry := Redeem(s.codes, now, cfg.hash(req.code), client.clientId).1.value;
            var session := SessionFor(cfg, client, entry, access, refresh, now);
            Conflicts(s.sessions, session) <==> Conflicts(t.sessions, session)
  {
    var h := cfg.hash(req.code);
    var entry := Redeem(s.codes, now, h, client.clientId).1.value;
    var session := SessionFor(cfg, client, entry, access, refresh, now);
    SubmapGood(cfg, minted, s.sessions, t.sessions, now);
    ClashIsSub(cfg, minted, s.sessions, session, access, refresh);
    ClashIsSub(cfg, minted, t.sessions, session, access, refresh);
    if session.sub in t.sessions {
      LiveCodeNoDeadRow(cfg, t.sessions[session.sub], t.codes.entries[h], now);
    }
  }

  lemma ReplayAgrees(cfg: Config, s: State, t: State, now: nat, req: TokenRequest, client: Client, access: string,
                     refresh: string, evicted: Option<string>)
    requires SameButSessions(s, t) && OnlyDeadDiffer(s.sessions, t.sessions, now)
    requires Redeem(s.codes, now, cfg.hash(req.code), client.clientId).1.None?
    ensures Agree(CodeGrant(cfg, s, now, req, client, access, refresh, evicted),
                  CodeGrant(cfg, t, now, req, client, access, refresh, evicted), now)
  {
  }

  // Both tables take the new session or neither does.
  lemma FoundAgrees(cfg: Config, s: State, t: State, now: nat, req: TokenRequest, client: Client, access: string,
                    refresh: string, evicted: Option<string>)
    requires SameButSessions(s, t) && OnlyDeadDiffer(s.sessions, t.sessions, now)
    requires Redeem(s.codes, now, cfg.hash(req.code), client.clientId).1.Some?
    requires var entry := Redeem(s.codes, now, cfg.hash(req.code), client.clientId).1.value;
             var session := SessionFor(cfg, client, entry, access, refresh, now);
             Conflicts(s.sessions, session) <==> Conflicts(t.sessions, session)
    ensures Agree(CodeGrant(cfg, s, now, req, client, access, refresh, evicted),
                  CodeGrant(cfg, t, now, req, client, access, refresh, evicted), now)
  {
  }

  lemma CodeGrantAgrees(cfg: Config, s: State, t: State, minted: set<string>, now: nat, req: TokenRequest,
                        client: Client, access: string, refresh: string, evicted: Option<string>)
    requires ValidConfig(cfg) && LongEnough(cfg) && SameButSessions(s, t)
    requires OnlyDeadDiffer(s.sessions, t.sessions, now) && GoodSessions(cfg, minted, t.sessions)
    requires CodesOutlived(cfg, t.codes, t.sessions) && access !in minted && refresh !in minted
    ensures Agree(CodeGrant(cfg, s, now, req, client, access, refresh, evicted),
                  CodeGrant(cfg, t, now, req, client, access, refresh, evicted), now)
  {
    if Redeem(s.codes, now, cfg.hash(req.code), client.clientId).1.Some? {
      ExchangeAgrees(cfg, s, t, minted, now, req, client, access, refresh);
      FoundAgrees(cfg, s, t, now, req, client, access, refresh, evicted);
    } else {
      ReplayAgrees(cfg, s, t, now, req, client, access, refresh, evicted);
    }
  }

  lemma RefreshGrantAgrees(cfg: Config, s: State, t: State, now: nat, token: string, client: Client, access: string,
                           refresh: string)
    requires SameButSessions(s, t) && Unique(t.sessions) && OnlyDeadDiffer(s.sessions, t.sessions, now)
    ensures Agree(RefreshGrant(cfg, s, now, token, client, access, refresh),
                  RefreshGrant(cfg, t, now, token, client, access, refresh), now)
  {
    RefreshLookup(s.sessions, t.sessions, now, cfg.hash(token));
  }

  lemma TokenAgrees(cfg: Config, s: State, t: State, minted: set<string>, now: nat, call: Call)
    requires ValidConfig(cfg) && LongEnough(cfg) && SameButSessions(s, t) && call.Token?
    requires OnlyDeadDiffer(s.sessions, t.sessions, now) && GoodSessions(cfg, minted, t.sessions)
    requires CodesOutlived(cfg, t.codes, t.sessions) && call.access !in minted && call.refresh !in minted
    ensures Agree(TokenCall(cfg, s, now, call), TokenCall(cfg, t, now, call), now)
  {
    var check := AuthenticateClient(cfg, call.token, call.basic);
    if check.ClientOk? {
      if call.token.grantType == "authorization_code" {
        CodeGrantAgrees(cfg, s, t, minted, now, call.token, check.client, call.access, call.refresh, call.evicted);
      } else {
        RefreshGrantAgrees(cfg, s, t, now, call.token.refreshToken, check.client, call.access, call.refresh);
      }
    }
  }

  lemma DeadDropped(cleaned: Table, kept: Table, now: nat, hash: string)
    requires Unique(kept) && OnlyDeadDiffer(cleaned, kept, now) && FindByAccess(cleaned, hash).Some?
    requires Dead(FindByAccess(cleaned, hash).value, Unix(now), Unix(now))
    ensures OnlyDeadDiffer(cleaned - {FindByAccess(cleaned, hash).value.sub}, kept, now)
  {
    AccessLookup(cleaned, kept, now, hash);
  }

  lemma UserinfoAgrees(cfg: Config, s: State, t: State, now: nat, token: string)
    requires SameButSessions(s, t) && Unique(t.sessions) && OnlyDeadDiffer(s.sessions, t.sessions, now)
    ensures Agree(UserinfoCall(cfg, s, now, token), (t, UserinfoCall(cfg, t, now, token).1), now)
  {
    var hash := cfg.hash(token);
    AccessLookup(s.sessions, t.sessions, now, hash);
    var row := FindByAccess(s.sessions, hash);
    if row.Some? && Dead(row.value, Unix(now), Unix(now)) {
      DeadDropped(s.sessions, t.sessions, now, hash);
    }
  }

  lemma CompleteAgrees(cfg: Config, s: State, t: State, now: nat, call: Call)
    requires SameButSessions(s, t) && OnlyDeadDiffer(s.sessions, t.sessions, now) && call.Complete?
    ensures Agree(CompleteCall(cfg, s, now, call), CompleteCall(cfg, t, now, call), now)
  {
  }

  lemma AuthorizeAgrees(cfg: Config, s: State, t: State, now: nat, call: Call)
    requires SameButSessions(s, t) && OnlyDeadDiffer(s.sessions, t.sessions, now) && call.Authorize?
    ensures Agree(AuthorizeCall(cfg, s, now, call), AuthorizeCall(cfg, t, now, call), now)
  {
  }

  lemma NextAgrees(cfg: Config, s: State, t: State, e: Event)
    requires ValidConfig(cfg) && LongEnough(cfg) && Corresponds(cfg, s, t) && Enabled(cfg, s, e)
    requires !e.call.CleanSessions?
    ensures Agree(Next(cfg, s, e), KeepNext(cfg, t, e), e.time)
  {
    DeadStaysDead(s.sessions, t.sessions, s.clock, e.time);
    match e.call
    case Authorize(_, _, _, _) => AuthorizeAgrees(cfg, Drawing(s, e), Drawing(t, e), e.time, e.call);
    case Complete(_, _, _, _) => CompleteAgrees(cfg, Drawing(s, e), Drawing(t, e), e.time, e.call);
    case Token(_, _, _, _, _) => TokenAgrees(cfg, Drawing(s, e), Drawing(t, e), t.minted, e.time, e.call);
    case GetUserinfo(token) => UserinfoAgrees(cfg, Drawing(s, e), Drawing(t, e), e.time, token);
    case SweepCaches =>
  }

  lemma CleanAgrees(s: State, t: State, now: nat)
    requires SameButSessions(s, t) && OnlyDeadDiffer(s.sessions, t.sessions, now)
    ensures OnlyDeadDiffer(WithoutDead(s.sessions, Unix(now), Unix(now)), t.sessions, now)
  {
  }

  // ----- What the provider that never cleans up keeps -----

  lemma KeepWellFormed(cfg: Config, s: State, t: State, e: Event)
    requires ValidConfig(cfg) && WellFormed(cfg, t) && Enabled(cfg, s, e)
    requires SameButSessions(s, t) && t.clock <= s.clock
    ensures WellFormed(cfg, KeepNext(cfg, t, e).0)
  {
    match e.call
    case CleanSessions =>
    case GetUserinfo(_) => DrawWellFormed(cfg, t, e);
    case _ => NextWellFormed(cfg, t, e);
  }

  lemma KeepRecent(cfg: Config, t: State, e: Event, before: nat)
    requires CodesRecent(t.codes, before) && before <= e.time
    ensures CodesRecent(KeepNext(cfg, t, e).0.codes, e.time)
  {
    var codes := KeepNext(cfg, t, e).0.codes;
    forall h | h in codes.entries
      ensures codes.entries[h].expiresAt.Some? && CODE_TTL <= codes.entries[h].expiresAt.value <= e.time + CODE_TTL
    {
      if !e.call.CleanSessions? && !e.call.GetUserinfo? {
        P.CodesAfter(cfg, t, e, h);
      }
    }
  }

  lemma OutlivedByNew(cfg: Config, row: Session, code: C.Entry<CodeEntry>, now: nat)
    requires code.expiresAt.Some? && CODE_TTL <= code.expiresAt.value <= now + CODE_TTL
    requires row.refreshTokenExpiresAt == Unix(now) + cfg.sessionExpiry * 2
    ensures Outlives(cfg, row, code)
  {
    UnixMonotonic(code.expiresAt.value - CODE_TTL, now);
  }

  lemma TokenOutlived(cfg: Config, t: State, e: Event, before: nat, h: string)
    requires Unique(t.sessions) && CodesOutlived(cfg, t.codes, t.sessions)
    requires CodesRecent(t.codes, before) && before <= e.time && e.call.Token?
    requires h in Next(cfg, t, e).0.codes.entries
    ensures var (codes, sessions) := (Next(cfg, t, e).0.codes, Next(cfg, t, e).0.sessions);
            var sub := codes.entries[h].value.userinfo.sub;
            sub in sessions ==> Outlives(cfg, sessions[sub], codes.entries[h])
  {
    var codes, sessions := Next(cfg, t, e).0.codes, Next(cfg, t, e).0.sessions;
    var sub := codes.entries[h].value.userinfo.sub;
    P.CodesAfter(cfg, t, e, h);
    if sub in sessions {
      P.SessionsAfter(cfg, t, e, sub);
      if !(sub in t.sessions && sessions[sub] == t.sessions[sub]) {
        OutlivedByNew(cfg, sessions[sub], codes.entries[h], e.time);
      }
    }
  }

  lemma CompleteOutlived(cfg: Config, t: State, now: nat, call: Call, h: string)
    requires CodesOutlived(cfg, t.codes, t.sessions) && call.Complete?
    requires h in CompleteCall(cfg, t, now, call).0.codes.entries
    ensures var t' := CompleteCall(cfg, t, now, call).0;
            var (codes, sessions) := (t'.codes, t'.sessions);
            var sub := codes.entries[h].value.userinfo.sub;
            sub in sessions ==> Outlives(cfg, sessions[sub], codes.entries[h])
  {
    P.CompletedCodes(cfg, t, now, call, h);
  }

  lemma KeepOutlived(cfg: Config, t: State, e: Event, before: nat)
    requires Unique(t.sessions) && CodesOutlived(cfg, t.codes, t.sessions)
    requires CodesRecent(t.codes, before) && before <= e.time
    ensures CodesOutlived(cfg, KeepNext(cfg, t, e).0.codes, KeepNext(cfg, t, e).0.sessions)
  {
    if e.call.Token? {
      forall h | h in Next(cfg, t, e).0.codes.entries {
        TokenOutlived(cfg, t, e, before, h);
      }
    } else if e.call.Complete? {
      forall h | h in CompleteCall(cfg, Drawing(t, e), e.time, e.call).0.codes.entries {
        CompleteOutlived(cfg, Drawing(t, e), e.time, e.call, h);
      }
    }
  }

  lemma Clocks(cfg: Config, s: State, t: State, e: Event)
    ensures Next(cfg, s, e).0.clock == e.time
    ensures KeepNext(cfg, t, e).0.clock == if e.call.CleanSessions? then t.clock else e.time
  {
  }

  lemma CleanCorresponds(cfg: Config, s: State, t: State, e: Event)
    requires Corresponds(cfg, s, t) && s.clock <= e.time && e.call.CleanSessions?
    ensures Corresponds(cfg, Next(cfg, s, e).0, t)
  {
    DeadStaysDead(s.sessions, t.sessions, s.clock, e.time);
    CleanAgrees(s, t, e.time);
  }

  lemma RequestCorresponds(cfg: Config, s: State, t: State, e: Event)
    requires ValidConfig(cfg) && LongEnough(cfg) && Corresponds(cfg, s, t) && Enabled(cfg, s, e)
    requires !e.call.CleanSessions?
    ensures CorrespondsAt(cfg, Next(cfg, s, e).0, KeepNext(cfg, t, e).0, e.time)
    ensures Blur(Next(cfg, s, e).1) == Blur(KeepNext(cfg, t, e).1)
  {
    KeepWellFormed(cfg, s, t, e);
    KeepRecent(cfg, t, e, s.clock);
    KeepOutlived(cfg, t, e, s.clock);
    NextAgrees(cfg, s, t, e);
  }

  lemma CorrespondsNext(cfg: Config, s: State, t: State, e: Event)
    requires ValidConfig(cfg) && LongEnough(cfg) && Corresponds(cfg, s, t) && Enabled(cfg, s, e)
    ensures Corresponds(cfg, Next(cfg, s, e).0, KeepNext(cfg, t, e).0)
    ensures Blur(Next(cfg, s, e).1) == Blur(KeepNext(cfg, t, e).1)
  {
    Clocks(cfg, s, t, e);
    if e.call.CleanSessions? {
      CleanCorresponds(cfg, s, t, e);
    } else {
      RequestCorresponds(cfg, s, t, e);
    }
  }

  // ----- Runs -----

  lemma StepCorresponds(cfg: Config, r: Run, m: nat, t: State)
    requires ValidConfig(cfg) && LongEnough(cfg) && IsRun(cfg, r) && m < |r.events| && Corresponds(cfg, r.states[m], t)
    ensures Corresponds(cfg, r.states[m + 1], KeepNext(cfg, t, r.events[m]).0)
    ensures Blur(r.answers[m]) == Blur(KeepNext(cfg, t, r.events[m]).1)
  {
    assert Step(cfg, r, m);
    CorrespondsNext(cfg, r.states[m], t, r.events[m]);
  }

  lemma KeepGrows(cfg: Config, events: seq<Event>, m: nat)
    requires m < |events|
    ensures var (before, after) := (Requests(events[..m]), Requests(events[..m + 1]));
            var t := KeepAfter(cfg, before);
            && KeepAfter(cfg, after) == KeepNext(cfg, t, events[m]).0
            && KeepOutcomes(cfg, after) == KeepOutcomes(cfg, before) +
               if events[m].call.CleanSessions? then [] else [Blur(KeepNext(cfg, t, events[m]).1)]
  {
    assert events[..m + 1][..m] == events[..m];
    if !events[m].call.CleanSessions? {
      var after := Requests(events[..m + 1]);
      assert after[..|after| - 1] == Requests(events[..m]);
    }
  }

  lemma OutcomesGrow(events: seq<Event>, answers: seq<Response>, m: nat)
    requires m < |events| == |answers|
    ensures Outcomes(events[..m + 1], answers[..m + 1]) == Outcomes(events[..m], answers[..m]) +
            if events[m].call.CleanSessions? then [] else [Blur(answers[m])]
  {
    assert events[..m + 1][..m] == events[..m] && answers[..m + 1][..m] == answers[..m];
  }

  lemma {:induction false} RunsCorrespond(cfg: Config, r: Run, n: nat)
    requires ValidConfig(cfg) && LongEnough(cfg) && IsRun(cfg, r) && n <= |r.events|
    ensures Corresponds(cfg, r.states[n], KeepAfter(cfg, Requests(r.events[..n])))
    ensures Outcomes(r.events[..n], r.answers[..n]) == KeepOutcomes(cfg, Requests(r.events[..n]))
  {
    if n > 0 {
      var m := n - 1;
      RunsCorrespond(cfg, r, m);
      StepCorresponds(cfg, r, m, KeepAfter(cfg, Requests(r.events[..m])));
      KeepGrows(cfg, r.events, m);
      OutcomesGrow(r.events, r.answers, m);
    }
  }

  /** What requesters see is what a provider that never deletes sessions for their age would show. */
  lemma SeenAsIfNeverCleaned(cfg: Config, r: Run)
    requires ValidConfig(cfg) && LongEnough(cfg) && IsRun(cfg, r)
    ensures Outcomes(r.events, r.answers) == KeepOutcomes(cfg, Requests(r.events))
  {
    RunsCorrespond(cfg, r, |r.events|);
    assert r.events[..|r.events|] == r.events && r.answers[..|r.events|] == r.answers;
  }

  /** Two runs with the same requests have the same outcomes, wherever cleanup ran in either. */
  lemma CleanupUnobservable(cfg: Config, r: Run, q: Run)
    requires ValidConfig(cfg) && LongEnough(cfg) && IsRun(cfg, r) && IsRun(cfg, q)
    requires Requests(r.events) == Requests(q.events)
    ensures Outcomes(r.events, r.answers) == Outcomes(q.events, q.answers)
  {
    SeenAsIfNeverCleaned(cfg, r);
    SeenAsIfNeverCleaned(cfg, q);
  }

  /**
   With shorter sessions it can be: a code that is still good, for a sub whose row is dead, is refused
   as long as the row is there and accepted once cleanup took it away.
   */
  lemma CleanupObservable(cfg: Config, s: State, now: nat, req: TokenRequest, client: Client, access: string,
                          refresh: string, evicted: Option<string>)
    requires ValidConfig(cfg) && GoodSessions(cfg, s.minted, s.sessions) && access !in s.minted && refresh !in s.minted
    requires Redeem(s.codes, now, cfg.hash(req.code), client.clientId).1.Some?
    requires var entry := Redeem(s.codes, now, cfg.hash(req.code), client.clientId).1.value;
             && ExchangeAllowed(cfg, entry, req)
             && entry.userinfo.sub in s.sessions && Dead(s.sessions[entry.userinfo.sub], Unix(now), Unix(now))
    ensures CodeGrant(cfg, s, now, req, client, access, refresh, evicted).1 == Refused("server_error")
    ensures var cleaned := s.(sessions := WithoutDead(s.sessions, Unix(now), Unix(now)));
            CodeGrant(cfg, cleaned, now, req, client, access, refresh, evicted).1.Tokens?
  {
    var entry := Redeem(s.codes, now, cfg.hash(req.code), client.clientId).1.value;
    var session := SessionFor(cfg, client, entry, access, refresh, now);
    var cleaned := WithoutDead(s.sessions, Unix(now), Unix(now));
    CleanGood(cfg, s.minted, s.sessions, Unix(now));
    ClashIsSub(cfg, s.minted, s.sessions, session, access, refresh);
    ClashIsSub(cfg, s.minted, cleaned, session, access, refresh);
  }
}
