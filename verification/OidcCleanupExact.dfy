/**
 Cleanup cannot be observed exactly when twice the session expiry covers the minute a code lives. The
 witness for shorter sessions is one run with and without a cleanup: a user completes two requests,
 the client exchanges the first code at once and the second when the session of the first is dead.
 */
module OidcCleanupExact {
  import opened Base
  import opened Contexts
  import opened Strings
  import opened OidcModel
  import opened OidcTable
  import opened OidcProtocol
  import opened OidcCleanup
  import C = CacheSpec

  // Some client can get a code at all.
  ghost predicate Usable(cfg: Config, id: string, uri: string) {
    id in cfg.clients && uri in cfg.clients[id].trustedRedirectUris
  }

  ghost predicate NeverObserved(cfg: Config) {
    forall r: Run, q: Run | IsRun(cfg, r) && IsRun(cfg, q) && Requests(r.events) == Requests(q.events) ::
      Outcomes(r.events, r.answers) == Outcomes(q.events, q.answers)
  }

  const USER := UserContext(
    true, ProviderLocal, 0, Some(LocalContext(BaseContext("u", "U", "u@x"), false, NO_ATTRIBUTES)), None, None, None)

  function Req(id: string, uri: string): AuthorizeRequest {
    AuthorizeRequest("openid", "code", id, uri, "", "", "", "", "", "")
  }

  function Exchange(code: string, uri: string): TokenRequest {
    TokenRequest("authorization_code", code, uri, "", "", "", "")
  }

  // ----- The events -----

  function Authorizing(id: string, uri: string, ticket: string): Event {
    At(0, Authorize(Req(id, uri), Some(USER), ticket, None))
  }

  function Completing(ticket: string, code: string): Event {
    At(0, Complete(ticket, Some(USER), code, None))
  }

  function Exchanging(cfg: Config, id: string, uri: string, time: nat, code: string, access: string, refresh: string)
    : Event
    requires id in cfg.clients
  {
    At(time, Token(Exchange(code, uri), Some(Credentials(id, cfg.clients[id].clientSecret)), access, refresh, None))
  }

  // The first second at which a session of second zero is dead.
  function Later(cfg: Config): nat {
    Max(0, cfg.sessionExpiry * 2 + 1) * SECOND
  }

  // ----- What each event does -----

  function Ticket(id: string, uri: string): C.Entry<AuthorizeRequest> {
    C.Entry(Req(id, uri), Some(TICKET_TTL))
  }

  function Stored(cfg: Config, id: string, uri: string, code: string): C.Entry<CodeEntry> {
    C.Entry(NewCodeEntry(cfg, Req(id, uri), USER, code, 0), Some(CODE_TTL))
  }

  predicate Roomy<T>(c: C.Cache<T>) {
    c.maxSize == CACHE_SIZE && |c.entries| < 4
  }

  lemma RequestIsFine(cfg: Config, id: string, uri: string)
    requires Usable(cfg, id, uri)
    ensures AuthorizeError(cfg, Req(id, uri), Some(USER)) == None
  {
    SplitPiece("openid", ' ');
    TrimmedIsFixed("openid");
    assert GetPrompt("") == [];
    assert SUPPORTED_RESPONSE_TYPES[0] == "code";
  }

  lemma Authorized(cfg: Config, s: State, id: string, uri: string, ticket: string)
    requires Usable(cfg, id, uri) && s.clock == 0 && ticket !in s.minted && ticket != "" && Roomy(s.tickets)
    ensures var (e, t) := (Authorizing(id, uri, ticket), Next(cfg, s, Authorizing(id, uri, ticket)).0);
            && Enabled(cfg, s, e) && t.clock == 0 && t.minted == s.minted + {ticket}
            && t.tickets.maxSize == CACHE_SIZE && t.tickets.entries == s.tickets.entries[ticket := Ticket(id, uri)]
            && t.codes == s.codes && t.used == s.used && t.sessions == s.sessions
  {
    RequestIsFine(cfg, id, uri);
  }

  lemma Completed(cfg: Config, s: State, id: string, uri: string, ticket: string, code: string)
    requires s.clock == 0 && code !in s.minted && code != "" && Roomy(s.codes)
    requires ticket in s.tickets.entries && s.tickets.entries[ticket] == Ticket(id, uri)
    ensures var (e, t) := (Completing(ticket, code), Next(cfg, s, Completing(ticket, code)).0);
            && Enabled(cfg, s, e) && t.clock == 0 && t.minted == s.minted + {code}
            && t.tickets.entries == s.tickets.entries - {ticket}
            && t.codes.maxSize == CACHE_SIZE
            && t.codes.entries == s.codes.entries[cfg.hash(code) := Stored(cfg, id, uri, code)]
            && t.used == s.used && t.sessions == s.sessions - {CreateSub(cfg, USER, id)}
  {
  }

  // The client and its request are accepted, and the request names the code.
  lemma CodeFound(cfg: Config, s: State, id: string, uri: string, e: Event, code: string)
    requires ValidConfig(cfg) && id in cfg.clients
    requires e.call.Token? && e == Exchanging(cfg, id, uri, e.time, code, e.call.access, e.call.refresh)
    requires C.Get(s.codes, e.time, cfg.hash(code)) == Some(Stored(cfg, id, uri, code).value)
    ensures var entry := Stored(cfg, id, uri, code).value;
            && AuthenticateClient(cfg, e.call.token, e.call.basic) == ClientOk(cfg.clients[id])
            && Redeem(s.codes, e.time, cfg.hash(code), id) == (C.Delete(s.codes, cfg.hash(code)), Some(entry))
            && ExchangeAllowed(cfg, entry, e.call.token) && Redeemed(cfg, s, e) == Some(entry)
  {
    assert SUPPORTED_GRANT_TYPES[0] == "authorization_code";
  }

  lemma Granting(cfg: Config, s: State, id: string, uri: string, e: Event, code: string)
    requires ValidConfig(cfg) && id in cfg.clients && s.clock <= e.time && Roomy(s.used)
    requires e.call.Token? && e == Exchanging(cfg, id, uri, e.time, code, e.call.access, e.call.refresh)
    requires C.Get(s.codes, e.time, cfg.hash(code)) == Some(Stored(cfg, id, uri, code).value)
    requires Drawn(e.call) !! s.minted && "" !in Drawn(e.call) && e.call.access != e.call.refresh
    ensures Enabled(cfg, s, e)
    ensures Next(cfg, s, e) ==
            CodeGrant(cfg, Drawing(s, e), e.time, e.call.token, cfg.clients[id], e.call.access, e.call.refresh, None)
  {
    CodeFound(cfg, s, id, uri, e, code);
    CodeFound(cfg, Drawing(s, e), id, uri, e, code);
  }

  lemma GrantedAfresh(cfg: Config, s: State, id: string, uri: string, e: Event, code: string)
    requires ValidConfig(cfg) && id in cfg.clients && Roomy(s.used) && s.sessions == map[]
    requires e.call.Token? && e == Exchanging(cfg, id, uri, 0, code, e.call.access, e.call.refresh)
    requires C.Get(s.codes, 0, cfg.hash(code)) == Some(Stored(cfg, id, uri, code).value)
    ensures var entry := Stored(cfg, id, uri, code).value;
            var client := cfg.clients[id];
            var t := CodeGrant(cfg, s, 0, e.call.token, client, e.call.access, e.call.refresh, None).0;
            && t.clock == s.clock && t.minted == s.minted && t.codes == C.Delete(s.codes, cfg.hash(code))
            && t.used.maxSize == CACHE_SIZE && t.used.entries.Keys == s.used.entries.Keys + {cfg.hash(code)}
            && t.sessions == map[entry.userinfo.sub := SessionFor(cfg, client, entry, e.call.access, e.call.refresh, 0)]
  {
    CodeFound(cfg, s, id, uri, e, code);
  }

  // ----- The last request, with and without the cleanup -----

  // What it finds: the second code, and the dead session of the first.
  ghost predicate Ripe(cfg: Config, id: string, uri: string, s: State) {
    && id in cfg.clients && s.clock == 0 && {"a2", "r2"} !! s.minted
    && C.Get(s.codes, Later(cfg), cfg.hash("c2")) == Some(Stored(cfg, id, uri, "c2").value)
    && Roomy(s.used)
    && CreateSub(cfg, USER, id) in s.sessions
    && Dead(s.sessions[CreateSub(cfg, USER, id)], Unix(Later(cfg)), Unix(Later(cfg)))
  }

  function Last(cfg: Config, id: string, uri: string): Event
    requires id in cfg.clients
  {
    Exchanging(cfg, id, uri, Later(cfg), "c2", "a2", "r2")
  }

  lemma SameGrant(cfg: Config, s: State, t: State, now: nat, req: TokenRequest, client: Client)
    requires s.codes == t.codes && s.used == t.used && s.sessions == t.sessions
    ensures CodeGrant(cfg, s, now, req, client, "a2", "r2", None).1 ==
            CodeGrant(cfg, t, now, req, client, "a2", "r2", None).1
  {
  }

  lemma LastGrant(cfg: Config, s: State, id: string, uri: string)
    requires ValidConfig(cfg) && id in cfg.clients && s.clock <= Later(cfg) && Roomy(s.used)
    requires {"a2", "r2"} !! s.minted
    requires C.Get(s.codes, Later(cfg), cfg.hash("c2")) == Some(Stored(cfg, id, uri, "c2").value)
    ensures var e := Last(cfg, id, uri);
            && Enabled(cfg, s, e)
            && Next(cfg, s, e).1 == CodeGrant(cfg, s, e.time, e.call.token, cfg.clients[id], "a2", "r2", None).1
  {
    var e := Last(cfg, id, uri);
    Granting(cfg, s, id, uri, e, "c2");
    SameGrant(cfg, s, Drawing(s, e), e.time, e.call.token, cfg.clients[id]);
  }

  lemma RipeGrants(cfg: Config, s: State, id: string, uri: string)
    requires ValidConfig(cfg) && Ripe(cfg, id, uri, s) && GoodSessions(cfg, s.minted, s.sessions)
    ensures var e := Last(cfg, id, uri);
            var cleaned := s.(sessions := WithoutDead(s.sessions, Unix(e.time), Unix(e.time)));
            && CodeGrant(cfg, s, e.time, e.call.token, cfg.clients[id], "a2", "r2", None).1.Refused?
            && CodeGrant(cfg, cleaned, e.time, e.call.token, cfg.clients[id], "a2", "r2", None).1.Tokens?
  {
    var e := Last(cfg, id, uri);
    CodeFound(cfg, s, id, uri, e, "c2");
    CleanupObservable(cfg, s, e.time, e.call.token, cfg.clients[id], "a2", "r2", None);
  }

  lemma RefusedBefore(cfg: Config, s: State, id: string, uri: string)
    requires ValidConfig(cfg) && Ripe(cfg, id, uri, s) && GoodSessions(cfg, s.minted, s.sessions)
    ensures Enabled(cfg, s, Last(cfg, id, uri)) && Next(cfg, s, Last(cfg, id, uri)).1.Refused?
  {
    LastGrant(cfg, s, id, uri);
    RipeGrants(cfg, s, id, uri);
  }

  // t is s after the cleanup.
  ghost predicate Cleaned(cfg: Config, s: State, t: State) {
    && t.clock == Later(cfg) && t.minted == s.minted && t.codes == s.codes && t.used == s.used
    && t.sessions == WithoutDead(s.sessions, Unix(Later(cfg)), Unix(Later(cfg)))
  }

  lemma GrantedAfter(cfg: Config, s: State, t: State, id: string, uri: string)
    requires ValidConfig(cfg) && Ripe(cfg, id, uri, s) && GoodSessions(cfg, s.minted, s.sessions) && Cleaned(cfg, s, t)
    ensures Enabled(cfg, t, Last(cfg, id, uri)) && Next(cfg, t, Last(cfg, id, uri)).1.Tokens?
  {
    var e := Last(cfg, id, uri);
    LastGrant(cfg, t, id, uri);
    RipeGrants(cfg, s, id, uri);
    SameGrant(cfg, t, s.(sessions := WithoutDead(s.sessions, Unix(e.time), Unix(e.time))), e.time, e.call.token,
              cfg.clients[id]);
  }

  // ----- The run -----

  function Final(r: Run): State
    requires r.states != []
  {
    r.states[|r.states| - 1]
  }

  lemma Extend(cfg: Config, r: Run, e: Event) returns (q: Run)
    requires IsRun(cfg, r) && Enabled(cfg, Final(r), e)
    ensures IsRun(cfg, q) && q.events == r.events + [e] && q.answers == r.answers + [Next(cfg, Final(r), e).1]
    ensures Final(q) == Next(cfg, Final(r), e).0
  {
    var (t, answer) := Next(cfg, Final(r), e);
    q := Run(r.states + [t], r.events + [e], r.answers + [answer]);
    forall n | 0 <= n < |q.events|
      ensures Step(cfg, q, n)
    {
      if n < |r.events| {
        assert Step(cfg, r, n);
      }
    }
  }

  ghost predicate Ticketing(cfg: Config, r: Run, minted: set<string>, tickets: map<string, C.Entry<AuthorizeRequest>>) {
    IsRun(cfg, r) &&
    var s := Final(r);
    && s.clock == 0 && s.minted == minted && s.tickets.maxSize == CACHE_SIZE && s.tickets.entries == tickets
    && s.codes == C.Empty(CACHE_SIZE) && s.used == C.Empty(CACHE_SIZE) && s.sessions == map[]
  }

  lemma OneMoreTicket(cfg: Config, r: Run, minted: set<string>, tickets: map<string, C.Entry<AuthorizeRequest>>,
                      id: string, uri: string, ticket: string) returns (q: Run)
    requires Ticketing(cfg, r, minted, tickets) && Usable(cfg, id, uri)
    requires ticket !in minted && ticket != "" && |tickets| < 4
    ensures Ticketing(cfg, q, minted + {ticket}, tickets[ticket := Ticket(id, uri)])
  {
    Authorized(cfg, Final(r), id, uri, ticket);
    q := Extend(cfg, r, Authorizing(id, uri, ticket));
  }

  ghost predicate Coding(cfg: Config, r: Run, minted: set<string>, tickets: map<string, C.Entry<AuthorizeRequest>>,
                         codes: map<string, C.Entry<CodeEntry>>) {
    IsRun(cfg, r) &&
    var s := Final(r);
    && s.clock == 0 && s.minted == minted && s.tickets.entries == tickets
    && s.codes.maxSize == CACHE_SIZE && s.codes.entries == codes
    && s.used == C.Empty(CACHE_SIZE) && s.sessions == map[]
  }

  lemma OneMoreCode(cfg: Config, r: Run, minted: set<string>, tickets: map<string, C.Entry<AuthorizeRequest>>,
                    codes: map<string, C.Entry<CodeEntry>>, id: string, uri: string, ticket: string, code: string)
    returns (q: Run)
    requires Coding(cfg, r, minted, tickets, codes) && code !in minted && code != "" && |codes| < 4
    requires ticket in tickets && tickets[ticket] == Ticket(id, uri)
    ensures Coding(cfg, q, minted + {code}, tickets - {ticket}, codes[cfg.hash(code) := Stored(cfg, id, uri, code)])
  {
    Completed(cfg, Final(r), id, uri, ticket, code);
    q := Extend(cfg, r, Completing(ticket, code));
    assert Final(r).sessions - {CreateSub(cfg, USER, id)} == map[];
  }

  lemma TwoTickets(cfg: Config, id: string, uri: string, t: string, u: string) returns (r: Run)
    requires Usable(cfg, id, uri) && t != u && t != "" && u != ""
    ensures Ticketing(cfg, r, {} + {t} + {u}, map[][t := Ticket(id, uri)][u := Ticket(id, uri)])
  {
    r := OneMoreTicket(cfg, Run([Initial()], [], []), {}, map[], id, uri, t);
    r := OneMoreTicket(cfg, r, {} + {t}, map[][t := Ticket(id, uri)], id, uri, u);
  }

  lemma TicketsThenCodes(cfg: Config, r: Run, minted: set<string>, tickets: map<string, C.Entry<AuthorizeRequest>>)
    requires Ticketing(cfg, r, minted, tickets)
    ensures Coding(cfg, r, minted, tickets, map[])
  {
  }

  ghost predicate HasCode(cfg: Config, codes: C.Cache<CodeEntry>, id: string, uri: string, code: string) {
    cfg.hash(code) in codes.entries && codes.entries[cfg.hash(code)] == Stored(cfg, id, uri, code)
  }

  ghost predicate HasTwoCodes(cfg: Config, r: Run, minted: set<string>, id: string, uri: string, c: string, d: string) {
    && IsRun(cfg, r)
    && Final(r).clock == 0 && Final(r).minted == minted
    && HasCode(cfg, Final(r).codes, id, uri, c) && HasCode(cfg, Final(r).codes, id, uri, d)
    && Final(r).used == C.Empty(CACHE_SIZE) && Final(r).sessions == map[]
  }

  lemma TwoCodes(cfg: Config, id: string, uri: string, t: string, u: string, c: string, d: string) returns (q: Run)
    requires Usable(cfg, id, uri) && cfg.hash(c) != cfg.hash(d) && "" !in {t, u, c, d}
    requires t != u && c != d && {c, d} !! {t, u}
    ensures HasTwoCodes(cfg, q, {} + {t} + {u} + {c} + {d}, id, uri, c, d)
  {
    var e := Ticket(id, uri);
    var (minted, tickets) := ({} + {t} + {u}, map[][t := e][u := e]);
    var r := TwoTickets(cfg, id, uri, t, u);
    TicketsThenCodes(cfg, r, minted, tickets);
    r := OneMoreCode(cfg, r, minted, tickets, map[], id, uri, t, c);
    q := SecondCode(cfg, r, minted + {c}, tickets - {t}, id, uri, u, c, d);
  }

  lemma SecondCode(cfg: Config, r: Run, minted: set<string>, tickets: map<string, C.Entry<AuthorizeRequest>>,
                   id: string, uri: string, u: string, c: string, d: string) returns (q: Run)
    requires Coding(cfg, r, minted, tickets, map[][cfg.hash(c) := Stored(cfg, id, uri, c)])
    requires d !in minted && d != "" && u in tickets && tickets[u] == Ticket(id, uri) && cfg.hash(c) != cfg.hash(d)
    ensures HasTwoCodes(cfg, q, minted + {d}, id, uri, c, d)
  {
    var codes := map[][cfg.hash(c) := Stored(cfg, id, uri, c)];
    q := OneMoreCode(cfg, r, minted, tickets, codes, id, uri, u, d);
  }

  lemma StillInTime(cfg: Config)
    requires !LongEnough(cfg)
    ensures Later(cfg) <= CODE_TTL
  {
  }

  lemma SecondCodeLives(cfg: Config, codes: C.Cache<CodeEntry>, id: string, uri: string, c: string, d: string)
    requires cfg.hash(c) != cfg.hash(d) && Later(cfg) <= CODE_TTL
    requires HasCode(cfg, codes, id, uri, c) && HasCode(cfg, codes, id, uri, d)
    ensures C.Get(codes, 0, cfg.hash(c)) == Some(Stored(cfg, id, uri, c).value)
    ensures C.Get(C.Delete(codes, cfg.hash(c)), Later(cfg), cfg.hash(d)) == Some(Stored(cfg, id, uri, d).value)
  {
  }

  lemma FirstSessionDies(cfg: Config, client: Client, entry: CodeEntry)
    ensures Dead(SessionFor(cfg, client, entry, "a1", "r1", 0), Unix(Later(cfg)), Unix(Later(cfg)))
  {
  }

  // An exchange that nothing stands in the way of.
  ghost predicate Clear(cfg: Config, s: State, id: string, uri: string, e: Event, code: string) {
    && id in cfg.clients && s.clock == 0 && s.used == C.Empty(CACHE_SIZE) && s.sessions == map[]
    && e.call.Token? && e == Exchanging(cfg, id, uri, 0, code, e.call.access, e.call.refresh)
    && C.Get(s.codes, 0, cfg.hash(code)) == Some(Stored(cfg, id, uri, code).value)
    && Drawn(e.call) !! s.minted && "" !in Drawn(e.call) && e.call.access != e.call.refresh
  }

  ghost predicate Redone(cfg: Config, s: State, t: State, id: string, uri: string, e: Event, code: string)
    requires id in cfg.clients && e.call.Token?
  {
    var entry := Stored(cfg, id, uri, code).value;
    && t.clock == 0 && t.minted == s.minted + Drawn(e.call)
    && t.codes == C.Delete(s.codes, cfg.hash(code))
    && t.used.maxSize == CACHE_SIZE && t.used.entries.Keys == {cfg.hash(code)}
    && t.sessions ==
       map[entry.userinfo.sub := SessionFor(cfg, cfg.clients[id], entry, e.call.access, e.call.refresh, 0)]
  }

  lemma Exchanged(cfg: Config, s: State, id: string, uri: string, e: Event, code: string)
    requires ValidConfig(cfg) && Clear(cfg, s, id, uri, e, code)
    ensures Enabled(cfg, s, e) && Redone(cfg, s, Next(cfg, s, e).0, id, uri, e, code)
  {
    Granting(cfg, s, id, uri, e, code);
    GrantedAfresh(cfg, Drawing(s, e), id, uri, e, code);
  }

  lemma ExchangeRun(cfg: Config, r: Run, id: string, uri: string, e: Event, code: string) returns (q: Run)
    requires ValidConfig(cfg) && IsRun(cfg, r) && Clear(cfg, Final(r), id, uri, e, code)
    ensures IsRun(cfg, q) && Redone(cfg, Final(r), Final(q), id, uri, e, code)
  {
    Exchanged(cfg, Final(r), id, uri, e, code);
    q := Extend(cfg, r, e);
  }

  lemma FirstIsClear(cfg: Config, r: Run, minted: set<string>, id: string, uri: string)
    requires id in cfg.clients && !LongEnough(cfg)
    requires HasTwoCodes(cfg, r, minted, id, uri, "c1", "c2") && {"a1", "r1", "a2", "r2"} !! minted
    requires cfg.hash("c1") != cfg.hash("c2")
    ensures Clear(cfg, Final(r), id, uri, Exchanging(cfg, id, uri, 0, "c1", "a1", "r1"), "c1")
    ensures C.Get(C.Delete(Final(r).codes, cfg.hash("c1")), Later(cfg), cfg.hash("c2")) ==
            Some(Stored(cfg, id, uri, "c2").value)
  {
    StillInTime(cfg);
    SecondCodeLives(cfg, Final(r).codes, id, uri, "c1", "c2");
  }

  lemma FirstExchange(cfg: Config, r: Run, minted: set<string>, id: string, uri: string) returns (q: Run)
    requires ValidConfig(cfg) && id in cfg.clients && !LongEnough(cfg)
    requires HasTwoCodes(cfg, r, minted, id, uri, "c1", "c2") && {"a1", "r1", "a2", "r2"} !! minted
    requires cfg.hash("c1") != cfg.hash("c2")
    ensures IsRun(cfg, q) && Ripe(cfg, id, uri, Final(q))
  {
    var e := Exchanging(cfg, id, uri, 0, "c1", "a1", "r1");
    FirstIsClear(cfg, r, minted, id, uri);
    q := ExchangeRun(cfg, r, id, uri, e, "c1");
    RedoneIsRipe(cfg, Final(r), Final(q), id, uri, e);
  }

  lemma OneUsed(used: C.Cache<string>, k: string)
    requires used.entries.Keys == {k}
    ensures |used.entries| == 1
  {
    assert |used.entries| == |used.entries.Keys| == |{k}|;
  }

  lemma LastAreNew(minted: set<string>)
    requires {"a1", "r1", "a2", "r2"} !! minted
    ensures {"a2", "r2"} !! minted + {"a1", "r1"}
  {
  }

  lemma RedoneIsRipe(cfg: Config, s: State, t: State, id: string, uri: string, e: Event)
    requires id in cfg.clients && e == Exchanging(cfg, id, uri, 0, "c1", "a1", "r1")
    requires Redone(cfg, s, t, id, uri, e, "c1") && {"a1", "r1", "a2", "r2"} !! s.minted
    requires C.Get(t.codes, Later(cfg), cfg.hash("c2")) == Some(Stored(cfg, id, uri, "c2").value)
    ensures Ripe(cfg, id, uri, t)
  {
    FirstSessionDies(cfg, cfg.clients[id], Stored(cfg, id, uri, "c1").value);
    OneUsed(t.used, cfg.hash("c1"));
    LastAreNew(s.minted);
  }

  lemma FinalGood(cfg: Config, r: Run)
    requires ValidConfig(cfg) && IsRun(cfg, r)
    ensures GoodSessions(cfg, Final(r).minted, Final(r).sessions)
  {
    RunWellFormed(cfg, r, |r.states| - 1);
  }

  lemma CleanupStep(cfg: Config, r: Run) returns (q: Run)
    requires IsRun(cfg, r) && Final(r).clock <= Later(cfg)
    ensures IsRun(cfg, q) && q.events == r.events + [At(Later(cfg), CleanSessions)]
    ensures Cleaned(cfg, Final(r), Final(q))
  {
    q := Extend(cfg, r, At(Later(cfg), CleanSessions));
  }

  lemma RunRefused(cfg: Config, r: Run, id: string, uri: string)
    requires ValidConfig(cfg) && IsRun(cfg, r) && Ripe(cfg, id, uri, Final(r))
    ensures Enabled(cfg, Final(r), Last(cfg, id, uri)) && Next(cfg, Final(r), Last(cfg, id, uri)).1.Refused?
  {
    FinalGood(cfg, r);
    RefusedBefore(cfg, Final(r), id, uri);
  }

  lemma RunGranted(cfg: Config, r: Run, t: State, id: string, uri: string)
    requires ValidConfig(cfg) && IsRun(cfg, r) && Ripe(cfg, id, uri, Final(r)) && Cleaned(cfg, Final(r), t)
    ensures Enabled(cfg, t, Last(cfg, id, uri)) && Next(cfg, t, Last(cfg, id, uri)).1.Tokens?
  {
    FinalGood(cfg, r);
    GrantedAfter(cfg, Final(r), t, id, uri);
  }

  lemma WithoutCleanup(cfg: Config, r: Run, id: string, uri: string) returns (q: Run)
    requires ValidConfig(cfg) && IsRun(cfg, r) && Ripe(cfg, id, uri, Final(r))
    ensures IsRun(cfg, q) && q.events == r.events + [Last(cfg, id, uri)] && q.answers[|r.events|].Refused?
  {
    RunRefused(cfg, r, id, uri);
    q := Extend(cfg, r, Last(cfg, id, uri));
  }

  lemma WithCleanup(cfg: Config, r: Run, id: string, uri: string) returns (q: Run)
    requires ValidConfig(cfg) && IsRun(cfg, r) && Ripe(cfg, id, uri, Final(r))
    ensures IsRun(cfg, q)
    ensures q.events == r.events + [At(Later(cfg), CleanSessions)] + [Last(cfg, id, uri)]
    ensures q.answers[|r.events| + 1].Tokens?
  {
    var p := CleanupStep(cfg, r);
    RunGranted(cfg, r, Final(p), id, uri);
    q := Extend(cfg, p, Last(cfg, id, uri));
  }

  lemma RequestsGrow(events: seq<Event>, e: Event)
    ensures Requests(events + [e]) == Requests(events) + if e.call.CleanSessions? then [] else [e]
  {
    assert (events + [e])[..|events|] == events;
  }

  lemma LastOutcome(events: seq<Event>, answers: seq<Response>)
    requires |events| == |answers| > 0 && !events[|events| - 1].call.CleanSessions?
    ensures var outcomes := Outcomes(events, answers);
            outcomes != [] && outcomes[|outcomes| - 1] == Blur(answers[|answers| - 1])
  {
  }

  lemma HashesDiffer(cfg: Config, x: string, y: string)
    requires ValidConfig(cfg) && x != y
    ensures cfg.hash(x) != cfg.hash(y)
  {
  }

  const DRAWN: set<string> := {} + {"t1"} + {"t2"} + {"c1"} + {"c2"}

  lemma TokensAreNew()
    ensures {"a1", "r1", "a2", "r2"} !! DRAWN
  {
  }

  lemma OpeningRun(cfg: Config, id: string, uri: string) returns (r: Run)
    requires Usable(cfg, id, uri) && cfg.hash("c1") != cfg.hash("c2")
    ensures HasTwoCodes(cfg, r, DRAWN, id, uri, "c1", "c2")
  {
    r := TwoCodes(cfg, id, uri, "t1", "t2", "c1", "c2");
  }

  lemma RipeRun(cfg: Config, id: string, uri: string) returns (q: Run)
    requires ValidConfig(cfg) && Usable(cfg, id, uri) && !LongEnough(cfg)
    ensures IsRun(cfg, q) && Ripe(cfg, id, uri, Final(q))
  {
    HashesDiffer(cfg, "c1", "c2");
    TokensAreNew();
    var r := OpeningRun(cfg, id, uri);
    q := FirstExchange(cfg, r, DRAWN, id, uri);
  }

  lemma Observed(cfg: Config, id: string, uri: string)
    requires ValidConfig(cfg) && Usable(cfg, id, uri) && !LongEnough(cfg)
    ensures !NeverObserved(cfg)
  {
    var ripe := RipeRun(cfg, id, uri);
    var r := WithoutCleanup(cfg, ripe, id, uri);
    var q := WithCleanup(cfg, ripe, id, uri);
    Differ(r, q, ripe.events, At(Later(cfg), CleanSessions), Last(cfg, id, uri));
  }

  lemma Differ(r: Run, q: Run, events: seq<Event>, clean: Event, last: Event)
    requires clean.call.CleanSessions? && !last.call.CleanSessions?
    requires r.events == events + [last] && |r.answers| == |r.events| && r.answers[|events|].Refused?
    requires q.events == events + [clean] + [last] && |q.answers| == |q.events| && q.answers[|events| + 1].Tokens?
    ensures Requests(r.events) == Requests(q.events) && Outcomes(r.events, r.answers) != Outcomes(q.events, q.answers)
  {
    RequestsGrow(events, clean);
    RequestsGrow(events, last);
    RequestsGrow(events + [clean], last);
    LastOutcome(r.events, r.answers);
    LastOutcome(q.events, q.answers);
  }

  /** For a provider that has a usable client, cleanup is never observed exactly when sessions are long enough. */
  lemma CleanupUnobservableExactly(cfg: Config, id: string, uri: string)
    requires ValidConfig(cfg) && Usable(cfg, id, uri)
    ensures NeverObserved(cfg) <==> LongEnough(cfg)
  {
    if LongEnough(cfg) {
      forall r: Run, q: Run | IsRun(cfg, r) && IsRun(cfg, q) && Requests(r.events) == Requests(q.events)
        ensures Outcomes(r.events, r.answers) == Outcomes(q.events, q.answers)
      {
        CleanupUnobservable(cfg, r, q);
      }
    } else {
      Observed(cfg, id, uri);
    }
  }
}
