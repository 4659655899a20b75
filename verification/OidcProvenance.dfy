/**
 Where sessions come from. In every run every stored session leads back to one authorization request
 of its client that passed validation, was completed by a logged-in user, and was exchanged by that
 client with the right redirect URI and PKCE verifier (RFC 6749 sections 4.1.2 and 4.1.3, RFC 7636
 section 4.6). Refreshing leaves what the session grants as it was (RFC 6749 section 6).
 */
module OidcProvenance {
  import opened Base
  import opened Contexts
  import opened OidcModel
  import opened OidcTable
  import opened OidcProtocol
  import C = CacheSpec

  // ----- One step: what can be in each table afterwards -----

  // The event stores a ticket for its request.
  ghost predicate StoresTicket(cfg: Config, e: Event, k: string, entry: C.Entry<AuthorizeRequest>) {
    && e.call.Authorize? && e.call.ticket == k && AuthorizeError(cfg, e.call.req, e.call.user).None?
    && entry == C.Entry(e.call.req, Some(e.time + TICKET_TTL))
  }

  lemma AuthorizedTickets(cfg: Config, s: State, now: nat, call: Call, k: string)
    requires call.Authorize? && k in AuthorizeCall(cfg, s, now, call).0.tickets.entries
    ensures var entry := AuthorizeCall(cfg, s, now, call).0.tickets.entries[k];
            (k in s.tickets.entries && entry == s.tickets.entries[k]) || StoresTicket(cfg, At(now, call), k, entry)
  {
    if AuthorizeError(cfg, call.req, call.user).None? {
      C.SetOrigin(s.tickets, now, call.ticket, call.req, TICKET_TTL, call.evicted, k);
    }
  }

  lemma TicketsAfter(cfg: Config, s: State, e: Event, k: string)
    requires k in Next(cfg, s, e).0.tickets.entries
    ensures var entry := Next(cfg, s, e).0.tickets.entries[k];
            (k in s.tickets.entries && entry == s.tickets.entries[k]) || StoresTicket(cfg, e, k, entry)
  {
    if e.call.Authorize? {
      AuthorizedTickets(cfg, Drawing(s, e), e.time, e.call, k);
    }
  }

  // The event completes an authorization request and stores a code for it.
  ghost predicate StoresCode(cfg: Config, s: State, e: Event, entry: C.Entry<CodeEntry>) {
    && e.call.Complete?
    && var req := CompleteRequest(s, e.time, e.call.completed, e.call.user);
       && req.Some?
       && entry ==
          C.Entry(NewCodeEntry(cfg, req.value, e.call.user.value, e.call.code, e.time), Some(e.time + CODE_TTL))
  }

  lemma CompletedCodes(cfg: Config, s: State, now: nat, call: Call, k: string)
    requires call.Complete? && k in CompleteCall(cfg, s, now, call).0.codes.entries
    ensures var entry := CompleteCall(cfg, s, now, call).0.codes.entries[k];
            (k in s.codes.entries && entry == s.codes.entries[k]) || StoresCode(cfg, s, At(now, call), entry)
  {
    var req := CompleteRequest(s, now, call.completed, call.user);
    if req.Some? {
      var entry := NewCodeEntry(cfg, req.value, call.user.value, call.code, now);
      C.SetOrigin(s.codes, now, entry.codeHash, entry, CODE_TTL, call.evicted, k);
    }
  }

  lemma CodesAfter(cfg: Config, s: State, e: Event, k: string)
    requires k in Next(cfg, s, e).0.codes.entries
    ensures var entry := Next(cfg, s, e).0.codes.entries[k];
            (k in s.codes.entries && entry == s.codes.entries[k]) || StoresCode(cfg, s, e, entry)
  {
    if e.call.Complete? {
      CompletedCodes(cfg, Drawing(s, e), e.time, e.call, k);
    }
  }

  // The event exchanges a code for the session.
  ghost predicate Exchanges(cfg: Config, s: State, e: Event, session: Session) {
    && e.call.Token? && e.call.token.grantType == "authorization_code"
    && Redeemed(cfg, s, e).Some?
    && ExchangeAllowed(cfg, Redeemed(cfg, s, e).value, e.call.token)
    && var check := AuthenticateClient(cfg, e.call.token, e.call.basic);
       && check.ClientOk?
       && session == SessionFor(cfg, check.client, Redeemed(cfg, s, e).value, e.call.access, e.call.refresh, e.time)
  }

  // The event gives a stored session new tokens.
  ghost predicate Rotates(cfg: Config, e: Event, row: Session, session: Session) {
    e.call.Token? && session == Rotated(cfg, row, e.call.access, e.call.refresh, e.time)
  }

  lemma TokenSessions(cfg: Config, s: State, now: nat, call: Call, k: string)
    requires Unique(s.sessions) && call.Token? && k in TokenCall(cfg, s, now, call).0.sessions
    ensures var session := TokenCall(cfg, s, now, call).0.sessions[k];
            || (k in s.sessions && session == s.sessions[k])
            || (k == session.sub && Exchanges(cfg, s, At(now, call), session))
            || (k in s.sessions && Rotates(cfg, At(now, call), s.sessions[k], session))
  {
  }

  lemma SessionsAfter(cfg: Config, s: State, e: Event, k: string)
    requires Unique(s.sessions) && k in Next(cfg, s, e).0.sessions
    ensures var session := Next(cfg, s, e).0.sessions[k];
            || (k in s.sessions && session == s.sessions[k])
            || (k == session.sub && Exchanges(cfg, s, e, session))
            || (k in s.sessions && Rotates(cfg, e, s.sessions[k], session))
  {
    if e.call.Token? {
      TokenSessions(cfg, Drawing(s, e), e.time, e.call, k);
    }
  }

  // ----- Runs -----

  // Event a is an authorization request that passed validation and got the ticket.
  ghost predicate AuthorizedAt(cfg: Config, r: Run, a: nat, ticket: string, req: AuthorizeRequest) {
    && a < |r.events| && r.events[a].call.Authorize?
    && r.events[a].call.ticket == ticket && r.events[a].call.req == req
    && Acceptable(cfg, req)
  }

  // What a code is bound to: the client and redirect URI of the request, which that client trusts, and the user.
  ghost predicate Bound(cfg: Config, entry: CodeEntry, req: AuthorizeRequest, user: UserContext, code: string,
                        time: nat) {
    && entry.codeHash == cfg.hash(code) && entry.authTime == user.authTime
    && entry.clientId == req.clientId && entry.nonce == req.nonce && GrantedOf(entry.scope, req.scope)
    && entry.redirectUri == req.redirectUri
    && req.clientId in cfg.clients && entry.redirectUri in cfg.clients[req.clientId].trustedRedirectUris
    && Describes(entry.userinfo, user, cfg.uuid(user.GetUsername() + ":" + req.clientId), time)
  }

  lemma CodeBound(cfg: Config, req: AuthorizeRequest, user: UserContext, code: string, time: nat)
    requires Acceptable(cfg, req)
    ensures Bound(cfg, NewCodeEntry(cfg, req, user, code, time), req, user, code, time)
  {
    ScopeGranted(req.scope);
  }

  // A logged-in user completed the request of event a at event c, in time, and got the code.
  ghost predicate CompletedAt(cfg: Config, r: Run, a: nat, c: nat, entry: CodeEntry) {
    && a < c < |r.events| && r.events[c].call.Complete? && LoggedIn(r.events[c].call.user)
    && r.events[a].call.Authorize?
    && AuthorizedAt(cfg, r, a, r.events[c].call.completed, r.events[a].call.req)
    && r.events[a].time <= r.events[c].time <= r.events[a].time + 600 * SECOND
    && var (req, user, code) := (r.events[a].call.req, r.events[c].call.user.value, r.events[c].call.code);
       && entry == NewCodeEntry(cfg, req, user, code, r.events[c].time)
       && Bound(cfg, entry, req, user, code, r.events[c].time)
  }

  ghost predicate AnswersChallenge(cfg: Config, req: AuthorizeRequest, verifier: string) {
    || req.codeChallenge == ""
    || (req.codeChallengeMethod == "S256" && req.codeChallenge == cfg.pkce(verifier))
    || (req.codeChallengeMethod != "S256" && req.codeChallenge == verifier)
  }

  // The client of the request exchanged that code at event x, in time, with the matching redirect
  // URI and verifier.
  ghost predicate ExchangedAt(cfg: Config, r: Run, a: nat, c: nat, x: nat)
    requires a < c < |r.events| && r.events[a].call.Authorize? && r.events[c].call.Complete?
  {
    var req := r.events[a].call.req;
    && c < x < |r.events| && r.events[x].call.Token?
    && ComesFrom(cfg, r.events[x].call.token, r.events[x].call.basic, req.clientId)
    && r.events[x].call.token.grantType == "authorization_code"
    && r.events[x].call.token.code == r.events[c].call.code
    && r.events[x].call.token.redirectUri == req.redirectUri
    && AnswersChallenge(cfg, req, r.events[x].call.token.codeVerifier)
    && r.events[c].time <= r.events[x].time <= r.events[c].time + 60 * SECOND
  }

  // What a session grants is fixed by the request and the user.
  ghost predicate Grants(cfg: Config, session: Session, req: AuthorizeRequest, user: UserContext, completed: nat) {
    && session.sub == cfg.uuid(user.GetUsername() + ":" + req.clientId)
    && GrantedOf(session.scope, req.scope)
    && session.clientId == req.clientId
    && req.clientId in cfg.clients && req.redirectUri in cfg.clients[req.clientId].trustedRedirectUris
    && session.nonce == req.nonce
    && Describes(session.userinfo, user, session.sub, completed)
  }

  datatype Origin = Origin(authorized: nat, completed: nat, exchanged: nat)

  ghost predicate Originates(cfg: Config, r: Run, o: Origin, session: Session) {
    && (exists entry :: CompletedAt(cfg, r, o.authorized, o.completed, entry))
    && ExchangedAt(cfg, r, o.authorized, o.completed, o.exchanged)
    && Grants(cfg, session, r.events[o.authorized].call.req, r.events[o.completed].call.user.value,
              r.events[o.completed].time)
  }

  // ----- Invariants -----

  ghost predicate TicketTraced(cfg: Config, r: Run, n: nat, k: string, e: C.Entry<AuthorizeRequest>) {
    exists a: nat :: a < n && AuthorizedAt(cfg, r, a, k, e.value) && e.expiresAt == Some(r.events[a].time + TICKET_TTL)
  }

  ghost predicate CodeTraced(cfg: Config, r: Run, n: nat, e: C.Entry<CodeEntry>) {
    exists a: nat, c: nat ::
      c < n && CompletedAt(cfg, r, a, c, e.value) && e.expiresAt == Some(r.events[c].time + CODE_TTL)
  }

  ghost predicate SessionTraced(cfg: Config, r: Run, n: nat, session: Session) {
    exists o: Origin :: o.exchanged < n && Originates(cfg, r, o, session)
  }

  lemma {:induction false} TicketsTraced(cfg: Config, r: Run, n: nat, k: string)
    requires IsRun(cfg, r) && n < |r.states| && k in r.states[n].tickets.entries
    ensures TicketTraced(cfg, r, n, k, r.states[n].tickets.entries[k])
  {
    if n > 0 {
      assert Step(cfg, r, n - 1);
      TicketsAfter(cfg, r.states[n - 1], r.events[n - 1], k);
      if k in r.states[n - 1].tickets.entries && r.states[n].tickets.entries[k] == r.states[n - 1].tickets.entries[k] {
        TicketsTraced(cfg, r, n - 1, k);
      } else {
        ValidatedExactly(cfg, r.events[n - 1].call.req);
        assert AuthorizedAt(cfg, r, n - 1, k, r.events[n - 1].call.req);
      }
    }
  }

  lemma {:induction false} CodesTraced(cfg: Config, r: Run, n: nat, k: string)
    requires IsRun(cfg, r) && n < |r.states| && k in r.states[n].codes.entries
    ensures CodeTraced(cfg, r, n, r.states[n].codes.entries[k])
  {
    if n > 0 {
      var s := r.states[n - 1];
      CodesStepAfter(cfg, r, n - 1, k);
      if k in s.codes.entries && r.states[n].codes.entries[k] == s.codes.entries[k] {
        CodesTraced(cfg, r, n - 1, k);
      } else {
        CompletionTraced(cfg, r, n - 1, r.states[n].codes.entries[k]);
      }
    }
  }

  lemma CodesStepAfter(cfg: Config, r: Run, n: nat, k: string)
    requires IsRun(cfg, r) && n < |r.events| && k in r.states[n + 1].codes.entries
    ensures var entry := r.states[n + 1].codes.entries[k];
            || (k in r.states[n].codes.entries && entry == r.states[n].codes.entries[k])
            || StoresCode(cfg, r.states[n], r.events[n], entry)
  {
    assert Step(cfg, r, n);
    CodesAfter(cfg, r.states[n], r.events[n], k);
  }

  lemma CompletionTraced(cfg: Config, r: Run, c: nat, stored: C.Entry<CodeEntry>)
    requires IsRun(cfg, r) && c < |r.events| && StoresCode(cfg, r.states[c], r.events[c], stored)
    ensures CodeTraced(cfg, r, c + 1, stored)
  {
    var e := r.events[c];
    TicketsTraced(cfg, r, c, e.call.completed);
    var entry := r.states[c].tickets.entries[e.call.completed];
    var a: nat :| a < c && AuthorizedAt(cfg, r, a, e.call.completed, entry.value)
                  && entry.expiresAt == Some(r.events[a].time + TICKET_TTL);
    StepGrows(cfg, r, a);
    StepGrows(cfg, r, c);
    MintedGrows(cfg, r, a + 1, c);
    CodeBound(cfg, entry.value, e.call.user.value, e.call.code, e.time);
    assert CompletedAt(cfg, r, a, c, stored.value);
  }

  lemma StoredCodeGood(cfg: Config, r: Run, n: nat, k: string)
    requires ValidConfig(cfg) && IsRun(cfg, r) && n < |r.states| && k in r.states[n].codes.entries
    ensures GoodCode(cfg, r.states[n].minted, k, r.states[n].codes.entries[k])
  {
    RunWellFormed(cfg, r, n);
  }

  lemma CompletionMints(cfg: Config, r: Run, c: nat, x: nat)
    requires IsRun(cfg, r) && c < x < |r.events| && r.events[c].call.Complete?
    ensures r.events[c].call.code in r.states[x].minted && r.events[c].time <= r.events[x].time
  {
    StepGrows(cfg, r, c);
    StepGrows(cfg, r, x);
    MintedGrows(cfg, r, c + 1, x);
  }

  lemma SameHash(cfg: Config, x: string, y: string)
    requires ValidConfig(cfg) && cfg.hash(x) == cfg.hash(y)
    ensures x == y
  {
  }

  // A code found under the hash of a presented code is that code.
  lemma PresentedCode(cfg: Config, r: Run, x: nat, presented: string) returns (a: nat, c: nat)
    requires ValidConfig(cfg) && IsRun(cfg, r) && x < |r.events|
    requires C.Get(r.states[x].codes, r.events[x].time, cfg.hash(presented)).Some?
    ensures c < x && CompletedAt(cfg, r, a, c, r.states[x].codes.entries[cfg.hash(presented)].value)
    ensures presented == r.events[c].call.code
    ensures r.events[c].time <= r.events[x].time <= r.events[c].time + CODE_TTL
  {
    var s := r.states[x];
    var k := cfg.hash(presented);
    StoredCodeGood(cfg, r, x, k);
    CodesTraced(cfg, r, x, k);
    var stored := s.codes.entries[k];
    a, c :| c < x && CompletedAt(cfg, r, a, c, stored.value) && stored.expiresAt == Some(r.events[c].time + CODE_TTL);
    CompletionMints(cfg, r, c, x);
    SameHash(cfg, presented, r.events[c].call.code);
  }

  lemma ExchangeTraced(cfg: Config, r: Run, x: nat, session: Session)
    requires ValidConfig(cfg) && IsRun(cfg, r) && x < |r.events| && Exchanges(cfg, r.states[x], r.events[x], session)
    ensures SessionTraced(cfg, r, x + 1, session)
  {
    var e := r.events[x];
    var a, c := PresentedCode(cfg, r, x, e.call.token.code);
    PkceExact(cfg, r.events[a].call.req, e.call.token.codeVerifier);
    ClientExactly(cfg, e.call.token, e.call.basic, r.events[a].call.req.clientId);
    assert Originates(cfg, r, Origin(a, c, x), session);
  }

  lemma SessionsStepAfter(cfg: Config, r: Run, n: nat, k: string)
    requires ValidConfig(cfg) && IsRun(cfg, r) && n < |r.events| && k in r.states[n + 1].sessions
    ensures var session := r.states[n + 1].sessions[k];
            || (k in r.states[n].sessions && session == r.states[n].sessions[k])
            || (k == session.sub && Exchanges(cfg, r.states[n], r.events[n], session))
            || (k in r.states[n].sessions && Rotates(cfg, r.events[n], r.states[n].sessions[k], session))
  {
    RunWellFormed(cfg, r, n);
    assert Step(cfg, r, n);
    SessionsAfter(cfg, r.states[n], r.events[n], k);
  }

  // New tokens change nothing about what a session grants or where it comes from.
  lemma RotationTraced(cfg: Config, r: Run, n: nat, row: Session, session: Session)
    requires n < |r.events| && SessionTraced(cfg, r, n, row)
    requires session == row || Rotates(cfg, r.events[n], row, session)
    ensures SessionTraced(cfg, r, n + 1, session)
  {
    var o: Origin :| o.exchanged < n && Originates(cfg, r, o, row);
    assert Originates(cfg, r, o, session);
  }

  lemma TracedStep(cfg: Config, r: Run, n: nat, k: string)
    requires ValidConfig(cfg) && IsRun(cfg, r) && n < |r.events| && k in r.states[n + 1].sessions
    requires k in r.states[n].sessions ==> SessionTraced(cfg, r, n, r.states[n].sessions[k])
    ensures SessionTraced(cfg, r, n + 1, r.states[n + 1].sessions[k])
  {
    var session := r.states[n + 1].sessions[k];
    SessionsStepAfter(cfg, r, n, k);
    if Exchanges(cfg, r.states[n], r.events[n], session) {
      ExchangeTraced(cfg, r, n, session);
    } else {
      RotationTraced(cfg, r, n, r.states[n].sessions[k], session);
    }
  }

  /**
   Every session stored at any point of a run, refreshed or not, has an origin before that point
   that fixes everything it grants.
   */
  lemma {:induction false} Provenance(cfg: Config, r: Run, n: nat, k: string)
    requires ValidConfig(cfg) && IsRun(cfg, r) && n < |r.states| && k in r.states[n].sessions
    ensures SessionTraced(cfg, r, n, r.states[n].sessions[k])
  {
    if n > 0 {
      if k in r.states[n - 1].sessions {
        Provenance(cfg, r, n - 1, k);
      }
      TracedStep(cfg, r, n - 1, k);
    }
  }
}
