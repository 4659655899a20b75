/**
 A whole request to the proxy: the context middleware, then the proxy handler. The policy counts twice,
 because it also decides about an OAuth email that no whitelist mentions.
 */
module AccessRequests {
  import opened Base
  import opened Contexts
  import opened Strings
  import opened Acls
  import opened Access
  import M = AuthModel

  // The whitelist of a provider, or the global one when it has none.
  datatype Whitelists = Whitelists(global: seq<string>, providers: map<string, seq<string>>) {
    function For(provider: string): seq<string> {
      if provider in providers && providers[provider] != [] then providers[provider] else global
    }
  }

  // What IsEmailWhitelisted hands to the policy engine.
  function EmailEffect(lib: Library, lists: Whitelists, provider: string, email: string): Effect {
    match CheckFilter(lib, Join(lists.For(provider), ','), email)
    case FilterEmpty => EffectAbstain
    case Match => EffectAllow
    case _ => EffectDeny
  }

  /**
   An email is allowed exactly when the list that counts names it, the one of the provider if that has entries and
   the global one otherwise; a list that says nothing abstains.
   */
  lemma EmailExactly(lib: Library, lists: Whitelists, provider: string, email: string)
    ensures var own := if provider in lists.providers then lists.providers[provider] else [];
            var list := if own == [] then lists.global else own;
            && (EmailEffect(lib, lists, provider, email) == EffectAbstain <==> Blank(Join(list, ',')))
            && ((forall item :: item in list ==> ',' !in item) && !LooksLikeRegex(Join(list, ',')) ==>
                 (EmailEffect(lib, lists, provider, email) == EffectAllow <==>
                   !Blank(Join(list, ',')) && exists item :: item in list && TrimSpace(item) == email))
  {
    var list := lists.For(provider);
    FilterFails(lib, Join(list, ','), email);
    if list == [] {
      assert Join(list, ',') == "";
    } else if (forall item :: item in list ==> ',' !in item) && !LooksLikeRegex(Join(list, ',')) {
      if !Blank(Join(list, ',')) {
        FilterIsList(lib, list, email);
      }
    }
  }

  datatype Request = Request(
    now: nat, cookie: Option<string>, basic: Option<string>, out: M.Outside,
    acls: Option<App>, ip: string, path: string)

  datatype Server = Server(cfg: M.Config, lib: Library, lists: Whitelists, global: IpLists)

  // The OAuth session behind the cookie, if that is what it is.
  function OAuthOf(v: Server, s: M.State, r: Request): Option<OAuthContext> {
    if r.cookie.None? then None
    else
      var session := M.GetSession(v.cfg, s, r.now, r.cookie.value).1;
      if session.None? then None else M.NewFromSession(session.value).oauth
  }

  function CookieEffect(v: Server, s: M.State, r: Request): Effect {
    var ctx := OAuthOf(v, s, r);
    if ctx.None? then EffectDeny else EmailEffect(v.lib, v.lists, ctx.value.id, ctx.value.base.email)
  }

  // The answers of the outside, with the one the server gives itself.
  function Answered(v: Server, policy: Policy, s: M.State, r: Request): M.Outside {
    r.out.(emailAllowed := Standard(v.lib, v.global, policy).EffectToAccess(CookieEffect(v, s, r)))
  }

  function ContextOf(v: Server, policy: Policy, s: M.State, r: Request): Option<UserContext> {
    M.Middleware(v.cfg, s, r.now, r.cookie, r.basic, Answered(v, policy, s, r)).1
  }

  function Verdict(v: Server, policy: Policy, s: M.State, r: Request): Access.Verdict {
    Decide(Standard(v.lib, v.global, policy), Access.Request(r.acls, ContextOf(v, policy, s, r), r.ip, r.path))
  }

  // ----- Where the policies part -----

  // The cookie is good for a configured provider, and no whitelist says anything about the email.
  predicate EmailUndecided(v: Server, s: M.State, r: Request) {
    var ctx := OAuthOf(v, s, r);
    ctx.Some? && ctx.value.id in v.cfg.oauthIds && CookieEffect(v, s, r) == EffectAbstain
  }

  // Without that cookie the credentials of the request sign somebody in.
  function BasicContext(v: Server, s: M.State, r: Request): Option<UserContext> {
    if r.basic.None? then None else M.BasicAuth(v.cfg, s, r.now, r.basic.value, r.out).1
  }

  lemma BasicIgnoresSessions(cfg: M.Config, s: M.State, t: M.State, now: nat, username: string, out: M.Outside,
                             out': M.Outside)
    requires t.logins == s.logins && out' == out.(emailAllowed := out'.emailAllowed)
    ensures M.BasicAuth(cfg, t, now, username, out').1 == M.BasicAuth(cfg, s, now, username, out).1
  {
  }

  lemma OAuthCookie(v: Server, s: M.State, r: Request, out: M.Outside)
    requires OAuthOf(v, s, r).Some? && OAuthOf(v, s, r).value.id in v.cfg.oauthIds
    ensures var ctx := M.CookieAuth(v.cfg, s, r.now, r.cookie.value, out).1;
            if out.emailAllowed then ctx.Some? && ctx.value.IsOAuth() && ctx.value.oauth == OAuthOf(v, s, r)
              && (ctx.value.authenticated <==> !M.GetSession(v.cfg, s, r.now, r.cookie.value).1.value.totpPending)
            else ctx.None?
    ensures M.CookieAuth(v.cfg, s, r.now, r.cookie.value, out).0.logins == s.logins
  {
  }

  lemma OtherCookie(v: Server, s: M.State, r: Request, out: M.Outside, out': M.Outside)
    requires r.cookie.Some? && out' == out.(emailAllowed := out'.emailAllowed)
    requires OAuthOf(v, s, r).Some? && OAuthOf(v, s, r).value.id in v.cfg.oauthIds ==>
               out'.emailAllowed == out.emailAllowed
    ensures M.CookieAuth(v.cfg, s, r.now, r.cookie.value, out') == M.CookieAuth(v.cfg, s, r.now, r.cookie.value, out)
  {
  }

  lemma SameContext(v: Server, s: M.State, r: Request)
    requires !EmailUndecided(v, s, r)
    ensures ContextOf(v, PolicyDeny, s, r) == ContextOf(v, PolicyAllow, s, r)
  {
    var (deny, allow) := (Answered(v, PolicyDeny, s, r), Answered(v, PolicyAllow, s, r));
    var t := s;
    if r.cookie.Some? {
      OtherCookie(v, s, r, allow, deny);
      t := M.CookieAuth(v.cfg, s, r.now, r.cookie.value, allow).0;
    }
    if r.basic.Some? {
      BasicIgnoresSessions(v.cfg, t, t, r.now, r.basic.value, allow, deny);
    }
  }

  // With an undecided email the allow policy keeps the OAuth user.
  lemma AllowKeeps(v: Server, s: M.State, r: Request)
    requires EmailUndecided(v, s, r)
    ensures var ctx := ContextOf(v, PolicyAllow, s, r);
            && ctx.Some? && ctx.value.IsOAuth() && ctx.value.oauth == OAuthOf(v, s, r)
            && (ctx.value.authenticated <==> !M.GetSession(v.cfg, s, r.now, r.cookie.value).1.value.totpPending)
  {
    OAuthCookie(v, s, r, Answered(v, PolicyAllow, s, r));
  }

  lemma BasicIsAuthenticated(cfg: M.Config, s: M.State, now: nat, username: string, out: M.Outside)
    ensures var ctx := M.BasicAuth(cfg, s, now, username, out).1;
            ctx.Some? ==> ctx.value.authenticated && !ctx.value.IsOAuth()
  {
  }

  // The deny policy drops it, and the credentials decide.
  lemma DenyDrops(v: Server, s: M.State, r: Request)
    requires EmailUndecided(v, s, r)
    ensures var (ctx, basic) := (ContextOf(v, PolicyDeny, s, r), BasicContext(v, s, r));
            && (basic.Some? ==> ctx == basic && basic.value.authenticated)
            && (basic.None? ==> ctx.None? || !ctx.value.authenticated)
  {
    var deny := Answered(v, PolicyDeny, s, r);
    OAuthCookie(v, s, r, deny);
    if r.basic.Some? {
      var t := M.CookieAuth(v.cfg, s, r.now, r.cookie.value, deny).0;
      BasicIgnoresSessions(v.cfg, s, t, r.now, r.basic.value, r.out, deny);
      BasicIsAuthenticated(v.cfg, s, r.now, r.basic.value, r.out);
    }
  }

  // Neither address nor path settles the request.
  ghost predicate UserMatters(v: Server, r: Request) {
    var q := Access.Request(r.acls, None, r.ip, r.path);
    !BypassedIP(v.lib, v.global, q) && !OpenPath(v.lib, q) && WelcomeIP(v.lib, v.global, q)
  }

  // The app names the user of the credentials, but not the OAuth user that the allow policy puts in their place.
  ghost predicate Displaced(v: Server, s: M.State, r: Request) {
    && EmailUndecided(v, s, r) && BasicContext(v, s, r).Some? && r.acls.Some? && UserMatters(v, r)
    && UserVerdict(v.lib, r.acls, BasicContext(v, s, r).value) == Some(true)
    && GroupsFit(v.lib, r.acls, BasicContext(v, s, r).value)
    && !OAuthFits(v, s, r)
  }

  ghost predicate OAuthFits(v: Server, s: M.State, r: Request)
    requires EmailUndecided(v, s, r) && r.acls.Some?
  {
    var o := OAuthOf(v, s, r).value;
    && !M.GetSession(v.cfg, s, r.now, r.cookie.value).1.value.totpPending
    && CheckFilter(v.lib, r.acls.value.oauthWhitelist, o.base.email) == Match
    && (o.id in {"google", "github"} || InGroup(v.lib, r.acls.value.oauthGroups, o.groups))
  }

  lemma Undecided(v: Server, s: M.State, r: Request)
    requires EmailUndecided(v, s, r)
    ensures Verdict(v, PolicyDeny, s, r).Granted() && !Verdict(v, PolicyAllow, s, r).Granted() <==> Displaced(v, s, r)
  {
    AllowKeeps(v, s, r);
    DenyDrops(v, s, r);
    var (allow, deny) := (ContextOf(v, PolicyAllow, s, r), ContextOf(v, PolicyDeny, s, r));
    GrantedExactly(v.lib, v.global, PolicyAllow, Access.Request(r.acls, allow, r.ip, r.path));
    GrantedExactly(v.lib, v.global, PolicyDeny, Access.Request(r.acls, deny, r.ip, r.path));
    assert OAuthOf(v, s, r) == allow.value.oauth;
    AddressesOnly(v, r, allow);
    AddressesOnly(v, r, deny);
  }

  // Address and path are judged without looking at the user.
  lemma AddressesOnly(v: Server, r: Request, ctx: Option<UserContext>)
    ensures var (q, p) := (Access.Request(r.acls, ctx, r.ip, r.path), Access.Request(r.acls, None, r.ip, r.path));
            && (BypassedIP(v.lib, v.global, q) <==> BypassedIP(v.lib, v.global, p))
            && (OpenPath(v.lib, q) <==> OpenPath(v.lib, p))
            && (WelcomeIP(v.lib, v.global, q) <==> WelcomeIP(v.lib, v.global, p))
  {
  }

  /**
   For a whole request the deny policy is the stricter one exactly when the policy does not also change
   who makes the request in favour of a user whom the app does not let in: an OAuth cookie whose email no
   whitelist mentions, next to credentials of a user whom the app names.
   */
  lemma DenyIsStricterExactly(v: Server, s: M.State, r: Request)
    ensures (Verdict(v, PolicyDeny, s, r).Granted() ==> Verdict(v, PolicyAllow, s, r).Granted()) <==>
            !Displaced(v, s, r)
  {
    if EmailUndecided(v, s, r) {
      Undecided(v, s, r);
    } else {
      SameContext(v, s, r);
      DenyIsStricter(StandardRules(v.lib, v.global),
                     Access.Request(r.acls, ContextOf(v, PolicyAllow, s, r), r.ip, r.path));
    }
  }
}
