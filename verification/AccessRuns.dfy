/**
 The policy over runs of a server that answers for itself which OAuth emails may sign in. Under the deny
 policy no session of an undecided email is ever stored, and the deny policy is the stricter one for whole
 requests. Under the allow policy it need not be.
 */
module AccessRuns {
  import opened Base
  import opened Contexts
  import opened Strings
  import opened Acls
  import opened Access
  import opened AccessRequests
  import C = CacheSpec
  import E = AuthExpiry
  import L = LoginSpec
  import M = AuthModel
  import P = AuthProtocol
  import S = AuthSessions

  // The effect of the whitelists where the request makes the server ask about an OAuth email.
  function Asked(v: Server, s: M.State, e: P.Event): Option<Effect> {
    if e.call.OAuthCall? then Some(EmailEffect(v.lib, v.lists, e.call.data.provider, e.call.data.email))
    else if P.BehindMiddleware(e.call) && P.Cookie(e.call).Some? then
      var session := M.GetSession(v.cfg, s, e.time, P.Cookie(e.call).value).1;
      var ctx := if session.None? then None else M.NewFromSession(session.value).oauth;
      if ctx.None? then None else Some(EmailEffect(v.lib, v.lists, ctx.value.id, ctx.value.base.email))
    else None
  }

  ghost predicate AnswersItself(v: Server, policy: Policy, s: M.State, e: P.Event) {
    Asked(v, s, e).Some? ==>
      e.out.emailAllowed == Standard(v.lib, v.global, policy).EffectToAccess(Asked(v, s, e).value)
  }

  // A run of the server under the policy.
  ghost predicate Runs(v: Server, policy: Policy, r: P.Run) {
    P.IsRun(v.cfg, r) && forall n :: 0 <= n < |r.events| ==> AnswersItself(v, policy, r.states[n], r.events[n])
  }

  // ----- Under the deny policy -----

  // The session of an OAuth cookie was created by a callback that found its email whitelisted.
  lemma CookieWasAllowed(v: Server, policy: Policy, r: P.Run, n: nat, q: AccessRequests.Request)
    requires M.ValidConfig(v.cfg) && Runs(v, policy, r) && n < |r.states|
    requires OAuthOf(v, r.states[n], q).Some? && OAuthOf(v, r.states[n], q).value.id in v.cfg.oauthIds
    ensures Standard(v.lib, v.global, policy).EffectToAccess(CookieEffect(v, r.states[n], q))
  {
    var k := q.cookie.value;
    var session := r.states[n].sessions[k];
    S.StoredWasCreated(v.cfg, r, n, k);
    var i: nat :| i < n && S.CreatedAt(v.cfg, r, i, session);
    S.StepVouched(v.cfg, r, i);
    assert S.Vouches(v.cfg, r.events[i], r.answers[i].context, session);
    assert AnswersItself(v, policy, r.states[i], r.events[i]);
  }

  /**
   In every run under the deny policy each stored OAuth session has an email that a whitelist names, and no
   request is granted that the allow policy would refuse.
   */
  lemma DenyRunsAreStricter(v: Server, r: P.Run, n: nat, q: AccessRequests.Request)
    requires M.ValidConfig(v.cfg) && Runs(v, PolicyDeny, r) && n < |r.states|
    ensures !EmailUndecided(v, r.states[n], q)
    ensures AccessRequests.Verdict(v, PolicyDeny, r.states[n], q).Granted() ==>
              AccessRequests.Verdict(v, PolicyAllow, r.states[n], q).Granted()
  {
    if EmailUndecided(v, r.states[n], q) {
      CookieWasAllowed(v, PolicyDeny, r, n, q);
    }
    DenyIsStricterExactly(v, r.states[n], q);
  }

  // ----- Under the allow policy -----

  const OPEN_LISTS := IpLists([], [], [])

  // One user with a password, one OAuth provider, no whitelist and no address list.
  function Example(lib: Library, limits: L.Limits, username: string, provider: string): Server {
    var user := M.LocalUser(username, "hash", "", NO_ATTRIBUTES);
    Server(M.Config([user], {provider}, false, M.HOUR, 0, false, limits, s => s, s => s), lib,
           Whitelists([], map[]), OPEN_LISTS)
  }

  // An app that names the user only.
  function UsersApp(username: string): App {
    App("", username, "", "", "", "", OPEN_LISTS, "", "")
  }

  function Callback(provider: string): P.Event {
    var data := M.BLANK_SESSION.(username := "o", name := "O", email := "mail", provider := provider);
    P.At(SECOND, P.OAuthCall(data, "id"), E.Answering())
  }

  // The cookie of the OAuth session next to the credentials of the user.
  function BothShown(username: string): AccessRequests.Request {
    AccessRequests.Request(SECOND, Some("id"), Some(username), E.Answering(), Some(UsersApp(username)), "", "")
  }

  predicate Usual(username: string, provider: string) {
    && username != "" && ',' !in username && Trimmed(username) && username[0] != '/'
    && provider !in M.RESERVED_PROVIDER_NAMES
  }

  // The callback under no whitelist stores the session.
  predicate Stored(s: M.State, provider: string, limits: L.Limits) {
    && "id" in s.sessions && s.sessions["id"].provider == provider && s.sessions["id"].email == "mail"
    && !s.sessions["id"].totpPending && s.sessions["id"].expiry == 1 + M.HOUR && s.sessions["id"].oauthGroups == ""
    && s.logins == C.Empty(limits.CacheSize())
  }

  lemma NoWhitelist(v: Server, provider: string, email: string)
    requires v.lists == Whitelists([], map[])
    ensures EmailEffect(v.lib, v.lists, provider, email) == EffectAbstain
  {
    assert Join([], ',') == "";
  }

  lemma CallbackStores(cfg: M.Config, s: M.State, provider: string)
    requires provider in cfg.oauthIds && provider != "tailscale" && cfg.sessionExpiry == M.HOUR
    requires s.logins == C.Empty(cfg.limits.CacheSize())
    ensures Stored(P.Next(cfg, s, Callback(provider)).0, provider, cfg.limits)
  {
  }

  lemma ExampleRun(lib: Library, limits: L.Limits, username: string, provider: string) returns (r: P.Run)
    requires Usual(username, provider)
    ensures Runs(Example(lib, limits, username, provider), PolicyAllow, r)
    ensures Stored(P.Final(r), provider, limits)
  {
    var v := Example(lib, limits, username, provider);
    assert M.RESERVED_PROVIDER_NAMES[2] == "tailscale";
    CallbackStores(v.cfg, P.Initial(v.cfg), provider);
    r := P.Extend(v.cfg, E.Nothing(v.cfg), Callback(provider));
    NoWhitelist(v, provider, "mail");
  }

  lemma CookieUndecided(v: Server, s: M.State, username: string, provider: string)
    requires Usual(username, provider) && Stored(s, provider, v.cfg.limits)
    requires v.lists == Whitelists([], map[]) && v.cfg.sessionMaxLifetime == 0 && provider in v.cfg.oauthIds
    ensures EmailUndecided(v, s, BothShown(username))
    ensures OAuthOf(v, s, BothShown(username)).value.base.email == "mail"
  {
    assert M.RESERVED_PROVIDER_NAMES[0] == "local" && M.RESERVED_PROVIDER_NAMES[1] == "ldap";
    assert M.RESERVED_PROVIDER_NAMES[2] == "tailscale" && Unix(SECOND) == 1;
    NoWhitelist(v, provider, "mail");
  }

  lemma CredentialsGood(v: Server, s: M.State, username: string)
    requires s.logins == C.Empty(v.cfg.limits.CacheSize())
    requires v.cfg.users == [M.LocalUser(username, "hash", "", NO_ATTRIBUTES)]
    ensures var ctx := AccessRequests.BasicContext(v, s, BothShown(username));
            ctx.Some? && ctx.value.provider == ProviderLocal && ctx.value.GetUsername() == username
  {
    E.NobodyLocked(v.cfg, s, SECOND, username);
  }

  // A list of one name, or of none.
  lemma Names(lib: Library, username: string, provider: string)
    requires Usual(username, provider)
    ensures TrimSpace(username) != "" && CheckFilter(lib, username, username) == Match
  {
    TrimmedIsFixed(username);
    BlankExactly(username);
    assert Join([username], ',') == username;
    assert username in [username];
    FilterIsList(lib, [username], username);
  }

  lemma AppNamesUser(lib: Library, username: string, provider: string, ctx: UserContext)
    requires Usual(username, provider) && ctx.provider == ProviderLocal && ctx.GetUsername() == username
    ensures UserVerdict(lib, Some(UsersApp(username)), ctx) == Some(true)
    ensures GroupsFit(lib, Some(UsersApp(username)), ctx)
  {
    Names(lib, username, provider);
  }

  lemma NothingElseDecides(v: Server, username: string)
    requires v.global == OPEN_LISTS
    ensures UserMatters(v, BothShown(username))
  {
  }

  /**
   With any user who has no second factor and any OAuth provider, a server without whitelists has a run under the
   allow policy after which a request is refused that the deny policy would grant: the user's own credentials, next
   to an OAuth cookie that the app does not let in.
   */
  lemma AllowCanRefuse(lib: Library, limits: L.Limits, username: string, provider: string) returns (r: P.Run)
    requires Usual(username, provider)
    ensures M.ValidConfig(Example(lib, limits, username, provider).cfg)
    ensures Runs(Example(lib, limits, username, provider), PolicyAllow, r)
    ensures var (v, s, q) := (Example(lib, limits, username, provider), P.Final(r), BothShown(username));
            && Displaced(v, s, q)
            && AccessRequests.Verdict(v, PolicyDeny, s, q).Granted()
            && !AccessRequests.Verdict(v, PolicyAllow, s, q).Granted()
  {
    r := ExampleRun(lib, limits, username, provider);
    var (v, s, q) := (Example(lib, limits, username, provider), P.Final(r), BothShown(username));
    CookieUndecided(v, s, username, provider);
    CredentialsGood(v, s, username);
    AppNamesUser(lib, username, provider, AccessRequests.BasicContext(v, s, q).value);
    NothingElseDecides(v, username);
    assert CheckFilter(lib, "", "mail") == FilterEmpty;
    DenyIsStricterExactly(v, s, q);
  }
}
