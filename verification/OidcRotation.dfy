/**
 Token rotation (RFC 6749 section 6). In every run a sub has at most one working pair of tokens, the
 pair last handed out for it, and no refresh token works twice.
 */
module OidcRotation {
  import opened Base
  import opened OidcModel
  import opened OidcTable
  import opened OidcProtocol

  // ----- One step -----

  // The row holds the pair, handed out at that time for one lifetime and for two.
  ghost predicate HoldsTokens(cfg: Config, row: Session, access: string, refresh: string, time: nat) {
    && row.accessTokenHash == cfg.hash(access) && row.refreshTokenHash == cfg.hash(refresh)
    && row.tokenExpiresAt == Unix(time) + cfg.sessionExpiry
    && row.refreshTokenExpiresAt == Unix(time) + 2 * cfg.sessionExpiry
  }

  // A token response for k stores its tokens in the row of k; otherwise the row is the old one.
  ghost predicate RowFollows(cfg: Config, e: Event, before: Table, answer: Response, after: Table, k: string)
    requires k in after
  {
    if answer.Tokens? && answer.sub == k then
      e.call.Token? && answer.access == e.call.access && answer.refresh == e.call.refresh
      && HoldsTokens(cfg, after[k], answer.access, answer.refresh, e.time)
    else k in before && after[k] == before[k]
  }

  lemma TokenRow(cfg: Config, s: State, now: nat, call: Call, k: string)
    requires Unique(s.sessions) && call.Token? && k in TokenCall(cfg, s, now, call).0.sessions
    ensures var (t, answer) := TokenCall(cfg, s, now, call);
            RowFollows(cfg, At(now, call), s.sessions, answer, t.sessions, k)
  {
  }

  lemma NextRow(cfg: Config, s: State, e: Event, k: string)
    requires Unique(s.sessions) && k in Next(cfg, s, e).0.sessions
    ensures RowFollows(cfg, e, s.sessions, Next(cfg, s, e).1, Next(cfg, s, e).0.sessions, k)
  {
    if e.call.Token? {
      TokenRow(cfg, Drawing(s, e), e.time, e.call, k);
    }
  }

  lemma StepRow(cfg: Config, r: Run, n: nat, k: string)
    requires ValidConfig(cfg) && IsRun(cfg, r) && n < |r.events| && k in r.states[n + 1].sessions
    ensures RowFollows(cfg, r.events[n], r.states[n].sessions, r.answers[n], r.states[n + 1].sessions, k)
  {
    RunWellFormed(cfg, r, n);
    assert Step(cfg, r, n);
    NextRow(cfg, r.states[n], r.events[n], k);
  }

  // ----- The working pair is the last one handed out -----

  ghost predicate Issues(r: Run, i: nat, sub: string)
    requires i < |r.answers|
  {
    r.answers[i].Tokens? && r.answers[i].sub == sub
  }

  // Event i handed out the tokens in the row, and no event between i and n handed out others.
  ghost predicate LastIssue(cfg: Config, r: Run, n: nat, row: Session, k: string, i: nat)
    requires n <= |r.answers| == |r.events|
  {
    && i < n && Issues(r, i, k)
    && HoldsTokens(cfg, row, r.answers[i].access, r.answers[i].refresh, r.events[i].time)
    && forall j: nat :: i < j < n ==> !Issues(r, j, k)
  }

  lemma {:induction false} LastPairStored(cfg: Config, r: Run, n: nat, k: string) returns (i: nat)
    requires ValidConfig(cfg) && IsRun(cfg, r) && n < |r.states| && k in r.states[n].sessions
    ensures LastIssue(cfg, r, n, r.states[n].sessions[k], k, i)
  {
    assert n > 0;
    StepRow(cfg, r, n - 1, k);
    if Issues(r, n - 1, k) {
      i := n - 1;
    } else {
      i := LastPairStored(cfg, r, n - 1, k);
    }
  }

  lemma UserinfoRow(cfg: Config, r: Run, n: nat) returns (k: string)
    requires ValidConfig(cfg) && IsRun(cfg, r) && n < |r.events|
    requires r.events[n].call.GetUserinfo? && r.answers[n].Claims?
    ensures k in r.states[n].sessions && r.states[n].sessions[k].accessTokenHash == cfg.hash(r.events[n].call.bearer)
    ensures Unix(r.events[n].time) <= r.states[n].sessions[k].tokenExpiresAt
  {
    RunWellFormed(cfg, r, n);
    assert Step(cfg, r, n);
    k :| k in r.states[n].sessions && r.states[n].sessions[k].accessTokenHash == cfg.hash(r.events[n].call.bearer);
  }

  /** An access token that opens userinfo is the one last handed out for its sub, and not past its lifetime. */
  lemma AcceptedAccessIsLast(cfg: Config, r: Run, n: nat) returns (k: string, i: nat)
    requires ValidConfig(cfg) && IsRun(cfg, r) && n < |r.events|
    requires r.events[n].call.GetUserinfo? && r.answers[n].Claims?
    ensures i < n && Issues(r, i, k) && r.answers[i].access == r.events[n].call.bearer
    ensures Unix(r.events[n].time) <= Unix(r.events[i].time) + cfg.sessionExpiry
    ensures forall j: nat :: i < j < n ==> !Issues(r, j, k)
  {
    k := UserinfoRow(cfg, r, n);
    i := LastPairStored(cfg, r, n, k);
    assert cfg.hash(r.answers[i].access) == cfg.hash(r.events[n].call.bearer);
  }

  ghost predicate Refreshes(cfg: Config, r: Run, n: nat, token: string)
    requires n < |r.events| && |r.answers| == |r.events|
  {
    && r.events[n].call.Token? && r.events[n].call.token.grantType == "refresh_token"
    && r.events[n].call.token.refreshToken == token && r.answers[n].Tokens?
  }

  // An accepted refresh finds the row of its token and gives it the drawn tokens.
  lemma RefreshRow(cfg: Config, r: Run, n: nat, token: string) returns (k: string)
    requires ValidConfig(cfg) && IsRun(cfg, r) && n < |r.events| && Refreshes(cfg, r, n, token)
    ensures k in r.states[n].sessions && r.states[n].sessions[k].refreshTokenHash == cfg.hash(token)
    ensures Issues(r, n, k)
    ensures Unix(r.events[n].time) <= r.states[n].sessions[k].refreshTokenExpiresAt
  {
    RunWellFormed(cfg, r, n);
    assert Step(cfg, r, n);
    k :| k in r.states[n].sessions && r.states[n].sessions[k].refreshTokenHash == cfg.hash(token);
  }

  /** A refresh token that is accepted is the one last handed out for its sub, at most two lifetimes ago. */
  lemma AcceptedRefreshIsLast(cfg: Config, r: Run, n: nat, token: string) returns (k: string, i: nat)
    requires ValidConfig(cfg) && IsRun(cfg, r) && n < |r.events| && Refreshes(cfg, r, n, token)
    ensures i < n && Issues(r, i, k) && r.answers[i].refresh == token && Issues(r, n, k)
    ensures Unix(r.events[n].time) <= Unix(r.events[i].time) + 2 * cfg.sessionExpiry
    ensures forall j: nat :: i < j < n ==> !Issues(r, j, k)
  {
    k := RefreshRow(cfg, r, n, token);
    i := LastPairStored(cfg, r, n, k);
    assert cfg.hash(r.answers[i].refresh) == cfg.hash(token);
  }

  // ----- No refresh token works twice -----

  // The refresh token was drawn earlier and is in no row.
  ghost predicate Spent(cfg: Config, s: State, token: string) {
    && token in s.minted
    && forall k :: k in s.sessions ==> s.sessions[k].refreshTokenHash != cfg.hash(token)
  }

  lemma StoredRefreshMinted(cfg: Config, s: State, k: string, token: string)
    requires ValidConfig(cfg) && WellFormed(cfg, s) && k in s.sessions
    requires s.sessions[k].refreshTokenHash == cfg.hash(token)
    ensures token in s.minted
  {
    var x :| x in s.minted && cfg.hash(x) == s.sessions[k].refreshTokenHash;
  }

  // A row that changes in a step gets a token that was never drawn before.
  lemma NewRefreshHash(cfg: Config, r: Run, n: nat, k: string, token: string)
    requires ValidConfig(cfg) && IsRun(cfg, r) && n < |r.events| && k in r.states[n + 1].sessions
    requires token in r.states[n].minted
    ensures if Issues(r, n, k) then r.states[n + 1].sessions[k].refreshTokenHash != cfg.hash(token)
            else k in r.states[n].sessions && r.states[n + 1].sessions[k] == r.states[n].sessions[k]
  {
    StepRow(cfg, r, n, k);
    StepGrows(cfg, r, n);
  }

  lemma RefreshSpends(cfg: Config, r: Run, n: nat, token: string)
    requires ValidConfig(cfg) && IsRun(cfg, r) && n < |r.events| && Refreshes(cfg, r, n, token)
    ensures Spent(cfg, r.states[n + 1], token)
  {
    var holder := RefreshRow(cfg, r, n, token);
    RunWellFormed(cfg, r, n);
    StoredRefreshMinted(cfg, r.states[n], holder, token);
    StepGrows(cfg, r, n);
    var after := r.states[n + 1].sessions;
    forall k | k in after
      ensures after[k].refreshTokenHash != cfg.hash(token)
    {
      NewRefreshHash(cfg, r, n, k, token);
    }
  }

  lemma {:induction false} StaysSpent(cfg: Config, r: Run, i: nat, n: nat, token: string)
    requires ValidConfig(cfg) && IsRun(cfg, r) && i <= n < |r.states| && Spent(cfg, r.states[i], token)
    ensures Spent(cfg, r.states[n], token)
  {
    if i < n {
      StaysSpent(cfg, r, i, n - 1, token);
      StepGrows(cfg, r, n - 1);
      var now := r.states[n].sessions;
      forall k | k in now
        ensures now[k].refreshTokenHash != cfg.hash(token)
      {
        NewRefreshHash(cfg, r, n - 1, k, token);
      }
    }
  }

  /** No refresh token is accepted twice. */
  lemma RefreshTokenWorksOnce(cfg: Config, r: Run, i: nat, j: nat, token: string)
    requires ValidConfig(cfg) && IsRun(cfg, r) && i <= j < |r.events|
    requires Refreshes(cfg, r, i, token) && Refreshes(cfg, r, j, token)
    ensures i == j
  {
    if i < j {
      RefreshSpends(cfg, r, i, token);
      StaysSpent(cfg, r, i + 1, j, token);
      var k := RefreshRow(cfg, r, j, token);
    }
  }

  /** In every reachable state no two sessions share an access or a refresh token. */
  lemma TokensUnique(cfg: Config, r: Run, n: nat)
    requires ValidConfig(cfg) && IsRun(cfg, r) && n < |r.states|
    ensures Unique(r.states[n].sessions)
  {
    RunWellFormed(cfg, r, n);
  }
}
