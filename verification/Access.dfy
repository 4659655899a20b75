/**
 The access decision: internal/service/access_controls_rules.go, internal/service/policy_engine.go and
 the order of checks in internal/controller/proxy_controller.go.
 */
module Access {
  import opened Base
  import opened Contexts
  import opened Strings
  import opened Acls

  // compile gives the matcher of a regular expression, None when it does not compile; inRange tells
  // whether an address is the given one or in the given network, None when either is malformed.
  datatype Library = Library(
    compile: string -> Option<string -> bool>,
    inRange: (string, string) -> Option<bool>)

  datatype Effect = EffectAbstain | EffectAllow | EffectDeny

  datatype RuleName =
    RuleUserAllowed | RuleOAuthGroup | RuleLDAPGroup | RuleAuthEnabled | RuleIPAllowed | RuleIPBypassed

  datatype AclContext = AclContext(acls: Option<App>, user: Option<UserContext>, ip: string, path: string)

  // ----- Filters -----

  datatype Filter = FilterEmpty | FilterError | Match | NoMatch

  predicate ListsItem(items: seq<string>, input: string) {
    exists item :: item in items && TrimSpace(item) == input
  }

  predicate LooksLikeRegex(filter: string) {
    filter != "" && filter[0] == '/' && filter[|filter| - 1] == '/'
  }

  // A filter that is one slash makes the source slice out of bounds; the request is refused, as for an error.
  function CheckFilter(lib: Library, filter: string, input: string): Filter {
    if TrimSpace(filter) == "" then FilterEmpty
    else if LooksLikeRegex(filter) && |filter| == 1 then FilterError
    else if LooksLikeRegex(filter) && lib.compile(filter[1..|filter| - 1]).None? then FilterError
    else if LooksLikeRegex(filter) && lib.compile(filter[1..|filter| - 1]).value(input) then Match
    else if ListsItem(Split(filter, ','), input) then Match
    else NoMatch
  }

  // A filter that prints a list of items matches exactly what some item is, spaces around it aside.
  lemma FilterIsList(lib: Library, items: seq<string>, input: string)
    requires items != [] && forall i :: i in items ==> ',' !in i
    requires !Blank(Join(items, ',')) && !LooksLikeRegex(Join(items, ','))
    ensures CheckFilter(lib, Join(items, ','), input) ==
            if exists item :: item in items && TrimSpace(item) == input then Match else NoMatch
  {
    SplitJoin(items, ',');
    BlankExactly(Join(items, ','));
  }

  // Broken are a lone slash and an expression between slashes that does not compile; empty is a blank filter.
  lemma FilterFails(lib: Library, filter: string, input: string)
    ensures CheckFilter(lib, filter, input) == FilterEmpty <==> Blank(filter)
    ensures CheckFilter(lib, filter, input) == FilterError <==>
              filter == "/" || exists pattern :: filter == "/" + pattern + "/" && lib.compile(pattern).None?
  {
    BlankExactly(filter);
    if LooksLikeRegex(filter) {
      if |filter| == 1 {
        assert filter == "/";
      } else {
        var pattern := filter[1..|filter| - 1];
        assert filter == "/" + pattern + "/";
        assert forall x :: filter == "/" + x + "/" ==> x == ("/" + x + "/")[1..|x| + 1] == pattern;
      }
    }
    if Blank(filter) && filter != "" {
      assert filter[0] in filter;
    }
  }

  // A regular expression without commas between slashes matches what it matches, and its own text.
  lemma FilterIsRegex(lib: Library, pattern: string, input: string)
    requires ',' !in pattern && lib.compile(pattern).Some?
    ensures CheckFilter(lib, "/" + pattern + "/", input) ==
            if lib.compile(pattern).value(input) || input == "/" + pattern + "/" then Match else NoMatch
  {
    var filter := "/" + pattern + "/";
    assert filter[0] == '/' && filter[|filter| - 1] == '/' && filter[1..|filter| - 1] == pattern;
    TrimmedIsFixed(filter);
    SplitPiece(filter, ',');
  }

  // Whether a filter is empty or broken does not depend on the input.
  predicate Usable(lib: Library, filter: string) {
    && TrimSpace(filter) != ""
    && (LooksLikeRegex(filter) ==> |filter| > 1 && lib.compile(filter[1..|filter| - 1]).Some?)
  }

  lemma UsableFilter(lib: Library, filter: string, input: string)
    ensures Usable(lib, filter) <==> CheckFilter(lib, filter, input) in {Match, NoMatch}
  {
  }

  // ----- The rules -----

  function UserAllowed(lib: Library, ctx: AclContext): Effect {
    if ctx.user.None? then EffectDeny
    else if ctx.acls.None? then EffectAbstain
    else
      var user, acls := ctx.user.value, ctx.acls.value;
      if user.provider == ProviderOAuth then
        if user.oauth.Some? && CheckFilter(lib, acls.oauthWhitelist, user.oauth.value.base.email) == Match then
          EffectAllow
        else EffectDeny
      else if acls.usersBlock != "" then
        if CheckFilter(lib, acls.usersBlock, user.GetUsername()) == NoMatch then EffectAllow else EffectDeny
      else
        match CheckFilter(lib, acls.usersAllow, user.GetUsername())
        case FilterEmpty => EffectAbstain
        case Match => EffectAllow
        case _ => EffectDeny
  }

  // The loop over the groups of the user stops at the first match or error.
  function AnyGroup(lib: Library, filter: string, groups: seq<string>): Effect {
    if groups == [] then EffectDeny
    else
      match CheckFilter(lib, filter, TrimSpace(groups[0]))
      case Match => EffectAllow
      case NoMatch => AnyGroup(lib, filter, groups[1..])
      case _ => EffectDeny
  }

  const OVERRIDE_PROVIDERS: set<string> := {"google", "github"}

  function OAuthGroup(lib: Library, ctx: AclContext): Effect {
    if ctx.user.None? then EffectDeny
    else if ctx.acls.None? || !ctx.user.value.IsOAuth() || ctx.acls.value.oauthGroups == "" then EffectAllow
    else if ctx.user.value.oauth.value.id in OVERRIDE_PROVIDERS then EffectAllow
    else AnyGroup(lib, ctx.acls.value.oauthGroups, ctx.user.value.oauth.value.groups)
  }

  function LDAPGroup(lib: Library, ctx: AclContext): Effect {
    if ctx.user.None? then EffectDeny
    else if ctx.acls.None? || !ctx.user.value.IsLDAP() || ctx.acls.value.ldapGroups == "" then EffectAllow
    else AnyGroup(lib, ctx.acls.value.ldapGroups, ctx.user.value.ldap.value.groups)
  }

  // Allow means that the resource needs no authentication.
  function AuthEnabled(lib: Library, ctx: AclContext): Effect {
    if ctx.acls.None? then EffectDeny
    else
      var (block, allow) := (ctx.acls.value.pathBlock, ctx.acls.value.pathAllow);
      if block != "" && lib.compile(block).None? then EffectDeny
      else if block != "" && !lib.compile(block).value(ctx.path) then EffectAllow
      else if allow != "" && lib.compile(allow).None? then EffectDeny
      else if allow != "" && lib.compile(allow).value(ctx.path) then EffectAllow
      else EffectDeny
  }

  // Global entries come first, then those of the app.
  function Merged(global: IpLists, acls: Option<App>): IpLists {
    if acls.None? then global
    else
      var app := acls.value.ip;
      IpLists(global.allow + app.allow, global.block + app.block, global.bypass + app.bypass)
  }

  // The loop over a list of addresses and networks; malformed entries are skipped.
  predicate AnyRange(lib: Library, list: seq<string>, ip: string) {
    list != [] && (lib.inRange(list[0], ip) == Some(true) || AnyRange(lib, list[1..], ip))
  }

  function IPAllowed(lib: Library, global: IpLists, ctx: AclContext): Effect {
    var lists := Merged(global, ctx.acls);
    if AnyRange(lib, lists.block, ctx.ip) then EffectDeny
    else if AnyRange(lib, lists.allow, ctx.ip) then EffectAllow
    else if lists.allow != [] then EffectDeny
    else EffectAllow
  }

  function IPBypassed(lib: Library, global: IpLists, ctx: AclContext): Effect {
    if AnyRange(lib, Merged(global, ctx.acls).bypass, ctx.ip) then EffectAllow else EffectDeny
  }

  // ----- The policy engine -----

  datatype Policy = PolicyAllow | PolicyDeny

  type Rule = AclContext -> Effect

  datatype Engine = Engine(rules: map<RuleName, Rule>, policy: Policy) {
    function EffectToAccess(effect: Effect): bool {
      match effect
      case EffectAllow => true
      case EffectDeny => false
      case EffectAbstain => policy == PolicyAllow
    }

    function EvaluateRuleByName(name: RuleName, ctx: AclContext): Effect {
      if name in rules then rules[name](ctx) else EffectDeny
    }

    predicate Evaluate(name: RuleName, ctx: AclContext) {
      EffectToAccess(EvaluateRuleByName(name, ctx))
    }
  }

  function StandardRules(lib: Library, global: IpLists): map<RuleName, Rule> {
    map[RuleUserAllowed := (ctx: AclContext) => UserAllowed(lib, ctx),
        RuleOAuthGroup := (ctx: AclContext) => OAuthGroup(lib, ctx),
        RuleLDAPGroup := (ctx: AclContext) => LDAPGroup(lib, ctx),
        RuleAuthEnabled := (ctx: AclContext) => AuthEnabled(lib, ctx),
        RuleIPAllowed := (ctx: AclContext) => IPAllowed(lib, global, ctx),
        RuleIPBypassed := (ctx: AclContext) => IPBypassed(lib, global, ctx)]
  }

  // ----- The proxy handler -----

  datatype Request = Request(acls: Option<App>, user: Option<UserContext>, ip: string, path: string)

  // Identity headers are sent with Identified only.
  datatype Verdict =
    Passed | Identified(user: UserContext) | ForbiddenIP | ForbiddenUser | ForbiddenGroup | LoginNeeded
  {
    predicate Granted() { Passed? || Identified? }
  }

  const NOBODY := UserContext(false, ProviderLocal, 0, None, None, None, None)

  function Decide(engine: Engine, r: Request): Verdict {
    var anonymous := AclContext(r.acls, None, r.ip, r.path);
    var user := if r.user.Some? then r.user.value else NOBODY;
    var known := anonymous.(user := Some(user));
    if engine.Evaluate(RuleIPBypassed, anonymous) || engine.Evaluate(RuleAuthEnabled, anonymous) then Passed
    else if !engine.Evaluate(RuleIPAllowed, anonymous) then ForbiddenIP
    else if !user.authenticated then LoginNeeded
    else if !engine.Evaluate(RuleUserAllowed, known) then ForbiddenUser
    else if user.IsOAuth() && !engine.Evaluate(RuleOAuthGroup, known) then ForbiddenGroup
    else if user.IsLDAP() && !engine.Evaluate(RuleLDAPGroup, known) then ForbiddenGroup
    else Identified(user)
  }

  function Standard(lib: Library, global: IpLists, policy: Policy): Engine {
    Engine(StandardRules(lib, global), policy)
  }

  // ----- What the loops decide -----

  // Some entry, wherever it stands, covers the address.
  ghost predicate Covers(lib: Library, entries: set<string>, ip: string) {
    exists e :: e in entries && lib.inRange(e, ip) == Some(true)
  }

  function SetOf(list: seq<string>): set<string> {
    set e | e in list
  }

  lemma {:induction false} AnyRangeIsCover(lib: Library, list: seq<string>, ip: string)
    ensures AnyRange(lib, list, ip) <==> Covers(lib, SetOf(list), ip)
  {
    if list != [] {
      AnyRangeIsCover(lib, list[1..], ip);
      assert list == [list[0]] + list[1..];
      assert list[0] in SetOf(list);
      assert SetOf(list) == {list[0]} + SetOf(list[1..]);
    }
  }

  lemma {:induction false} AnyGroupIsMatch(lib: Library, filter: string, groups: seq<string>)
    ensures AnyGroup(lib, filter, groups) ==
            if Usable(lib, filter) && exists g :: g in groups && CheckFilter(lib, filter, TrimSpace(g)) == Match
            then EffectAllow else EffectDeny
  {
    if groups != [] {
      AnyGroupIsMatch(lib, filter, groups[1..]);
      UsableFilter(lib, filter, TrimSpace(groups[0]));
      assert groups == [groups[0]] + groups[1..];
    }
  }

  // ----- Granting, exactly -----

  // The entries of a list that count for a request: the global ones and those of the app.
  ghost function Together(global: seq<string>, app: Option<seq<string>>): set<string> {
    SetOf(global) + if app.Some? then SetOf(app.value) else {}
  }

  ghost function Bypassed(global: IpLists, acls: Option<App>): set<string> {
    Together(global.bypass, if acls.Some? then Some(acls.value.ip.bypass) else None)
  }

  ghost function Blocked(global: IpLists, acls: Option<App>): set<string> {
    Together(global.block, if acls.Some? then Some(acls.value.ip.block) else None)
  }

  ghost function Allowed(global: IpLists, acls: Option<App>): set<string> {
    Together(global.allow, if acls.Some? then Some(acls.value.ip.allow) else None)
  }

  lemma MergedIsTogether(global: IpLists, acls: Option<App>)
    ensures SetOf(Merged(global, acls).bypass) == Bypassed(global, acls)
    ensures SetOf(Merged(global, acls).block) == Blocked(global, acls)
    ensures SetOf(Merged(global, acls).allow) == Allowed(global, acls)
  {
  }

  ghost predicate BypassedIP(lib: Library, global: IpLists, r: Request) {
    Covers(lib, Bypassed(global, r.acls), r.ip)
  }

  // No entry of a block list covers the address, and one of an allow list does if there is any.
  ghost predicate WelcomeIP(lib: Library, global: IpLists, r: Request) {
    && !Covers(lib, Blocked(global, r.acls), r.ip)
    && (Allowed(global, r.acls) == {} || Covers(lib, Allowed(global, r.acls), r.ip))
  }

  // The path is off the list of paths that need authentication, or on the list of those that do not.
  predicate OpenPath(lib: Library, r: Request) {
    r.acls.Some? &&
    var app := r.acls.value;
    || (app.pathBlock != "" && lib.compile(app.pathBlock).Some? && !lib.compile(app.pathBlock).value(r.path))
    || (&& (app.pathBlock == "" || lib.compile(app.pathBlock).Some?)
        && app.pathAllow != "" && lib.compile(app.pathAllow).Some? && lib.compile(app.pathAllow).value(r.path))
  }

  // What the app says about the user; None when it says nothing.
  function UserVerdict(lib: Library, acls: Option<App>, user: UserContext): Option<bool> {
    if acls.None? then None
    else if user.provider == ProviderOAuth then
      Some(user.oauth.Some? && CheckFilter(lib, acls.value.oauthWhitelist, user.oauth.value.base.email) == Match)
    else if acls.value.usersBlock != "" then
      Some(CheckFilter(lib, acls.value.usersBlock, user.GetUsername()) == NoMatch)
    else if TrimSpace(acls.value.usersAllow) == "" then None
    else Some(CheckFilter(lib, acls.value.usersAllow, user.GetUsername()) == Match)
  }

  ghost predicate InGroup(lib: Library, filter: string, groups: seq<string>) {
    filter == "" || (Usable(lib, filter) && exists g :: g in groups && CheckFilter(lib, filter, TrimSpace(g)) == Match)
  }

  ghost predicate GroupsFit(lib: Library, acls: Option<App>, user: UserContext) {
    acls.None? ||
    (&& (user.IsOAuth() && user.oauth.value.id !in {"google", "github"} ==>
          InGroup(lib, acls.value.oauthGroups, user.oauth.value.groups))
     && (user.IsLDAP() ==> InGroup(lib, acls.value.ldapGroups, user.ldap.value.groups)))
  }

  ghost predicate UserFits(lib: Library, policy: Policy, r: Request) {
    && r.user.Some? && r.user.value.authenticated && GroupsFit(lib, r.acls, r.user.value)
    && var verdict := UserVerdict(lib, r.acls, r.user.value);
       if verdict.Some? then verdict.value else policy == PolicyAllow
  }

  lemma AddressChecks(lib: Library, global: IpLists, policy: Policy, r: Request)
    ensures var (engine, ctx) := (Standard(lib, global, policy), AclContext(r.acls, None, r.ip, r.path));
            && (engine.Evaluate(RuleIPBypassed, ctx) <==> BypassedIP(lib, global, r))
            && (engine.Evaluate(RuleIPAllowed, ctx) <==> WelcomeIP(lib, global, r))
            && (engine.Evaluate(RuleAuthEnabled, ctx) <==> OpenPath(lib, r))
  {
    var lists := Merged(global, r.acls);
    MergedIsTogether(global, r.acls);
    AnyRangeIsCover(lib, lists.bypass, r.ip);
    AnyRangeIsCover(lib, lists.block, r.ip);
    AnyRangeIsCover(lib, lists.allow, r.ip);
    if lists.allow != [] {
      assert lists.allow[0] in SetOf(lists.allow);
    }
  }

  lemma GroupChecks(lib: Library, global: IpLists, policy: Policy, acls: Option<App>, ip: string, path: string,
                    user: UserContext)
    ensures var (engine, ctx) := (Standard(lib, global, policy), AclContext(acls, Some(user), ip, path));
            && (user.IsOAuth() ==> (engine.Evaluate(RuleOAuthGroup, ctx) <==> GroupsFit(lib, acls, user)))
            && (user.IsLDAP() ==> (engine.Evaluate(RuleLDAPGroup, ctx) <==> GroupsFit(lib, acls, user)))
  {
    if acls.Some? && user.IsOAuth() {
      AnyGroupIsMatch(lib, acls.value.oauthGroups, user.oauth.value.groups);
    }
    if acls.Some? && user.IsLDAP() {
      AnyGroupIsMatch(lib, acls.value.ldapGroups, user.ldap.value.groups);
    }
  }

  lemma UserCheck(lib: Library, global: IpLists, policy: Policy, acls: Option<App>, ip: string, path: string,
                  user: UserContext)
    ensures var (engine, ctx) := (Standard(lib, global, policy), AclContext(acls, Some(user), ip, path));
            var verdict := UserVerdict(lib, acls, user);
            engine.Evaluate(RuleUserAllowed, ctx) <==> if verdict.Some? then verdict.value else policy == PolicyAllow
  {
    if acls.Some? {
      UsableFilter(lib, acls.value.usersAllow, user.GetUsername());
    }
  }

  /**
   A request is granted exactly when its address is bypassed, or its path is open, or its address is
   welcome and an authenticated user fits; it is told who the user is only in the last case.
   */
  lemma GrantedExactly(lib: Library, global: IpLists, policy: Policy, r: Request)
    ensures var verdict := Decide(Standard(lib, global, policy), r);
            && (verdict.Passed? <==> BypassedIP(lib, global, r) || OpenPath(lib, r))
            && (verdict.Granted() <==>
                 || BypassedIP(lib, global, r) || OpenPath(lib, r)
                 || (WelcomeIP(lib, global, r) && UserFits(lib, policy, r)))
            && (verdict.Identified? ==> r.user == Some(verdict.user))
  {
    AddressChecks(lib, global, policy, r);
    var user := if r.user.Some? then r.user.value else NOBODY;
    GroupChecks(lib, global, policy, r.acls, r.ip, r.path, user);
    UserCheck(lib, global, policy, r.acls, r.ip, r.path, user);
  }

  /**
   A request that is not granted is turned away for its address, for want of a user, for the user or for the groups,
   in this order.
   */
  lemma RefusedExactly(lib: Library, global: IpLists, policy: Policy, r: Request)
    ensures var verdict := Decide(Standard(lib, global, policy), r);
            !verdict.Granted() ==>
              && (verdict == ForbiddenIP <==> !WelcomeIP(lib, global, r))
              && (verdict == LoginNeeded <==>
                   WelcomeIP(lib, global, r) && (r.user.None? || !r.user.value.authenticated))
              && (verdict == ForbiddenUser <==>
                   && WelcomeIP(lib, global, r) && r.user.Some? && r.user.value.authenticated
                   && !UserFits(lib, policy, r.(acls := Ungrouped(r.acls))))
  {
    AddressChecks(lib, global, policy, r);
    var user := if r.user.Some? then r.user.value else NOBODY;
    GroupChecks(lib, global, policy, r.acls, r.ip, r.path, user);
    UserCheck(lib, global, policy, r.acls, r.ip, r.path, user);
  }

  // The app without its demands on groups.
  function Ungrouped(acls: Option<App>): Option<App> {
    if acls.None? then None else Some(acls.value.(oauthGroups := "", ldapGroups := ""))
  }

  // ----- Which changes can only take access away -----

  /** Whatever the rules, the deny policy grants no request that the allow policy refuses. */
  lemma DenyIsStricter(rules: map<RuleName, Rule>, r: Request)
    ensures Decide(Engine(rules, PolicyDeny), r).Granted() ==> Decide(Engine(rules, PolicyAllow), r).Granted()
  {
    forall name: RuleName, ctx: AclContext
      ensures Engine(rules, PolicyDeny).Evaluate(name, ctx) ==> Engine(rules, PolicyAllow).Evaluate(name, ctx)
    {
    }
  }

  /** With the standard rules the policies differ exactly on users the app says nothing about. */
  lemma PoliciesDifferExactly(lib: Library, global: IpLists, r: Request)
    ensures Decide(Standard(lib, global, PolicyAllow), r) != Decide(Standard(lib, global, PolicyDeny), r) <==>
            && !BypassedIP(lib, global, r) && !OpenPath(lib, r) && WelcomeIP(lib, global, r)
            && r.user.Some? && r.user.value.authenticated && UserVerdict(lib, r.acls, r.user.value).None?
  {
    AddressChecks(lib, global, PolicyAllow, r);
    AddressChecks(lib, global, PolicyDeny, r);
    var user := if r.user.Some? then r.user.value else NOBODY;
    UserCheck(lib, global, PolicyAllow, r.acls, r.ip, r.path, user);
    UserCheck(lib, global, PolicyDeny, r.acls, r.ip, r.path, user);
    GroupChecks(lib, global, PolicyAllow, r.acls, r.ip, r.path, user);
    GroupChecks(lib, global, PolicyDeny, r.acls, r.ip, r.path, user);
  }

  ghost predicate SameButAddresses(a: Request, b: Request) {
    && a.user == b.user && a.ip == b.ip && a.path == b.path && (a.acls.Some? <==> b.acls.Some?)
    && (a.acls.Some? ==> a.acls.value == b.acls.value.(ip := a.acls.value.ip))
  }

  // More is blocked and less is bypassed, wherever it is listed; what is allowed is the same.
  ghost predicate Tighter(global: IpLists, acls: Option<App>, global': IpLists, acls': Option<App>) {
    && Blocked(global, acls) <= Blocked(global', acls')
    && Bypassed(global', acls') <= Bypassed(global, acls)
    && Allowed(global, acls) == Allowed(global', acls')
  }

  lemma CoversMore(lib: Library, few: set<string>, many: set<string>, ip: string)
    requires few <= many
    ensures Covers(lib, few, ip) ==> Covers(lib, many, ip)
  {
  }

  /** Growing a block list or shrinking a bypass list, global or of the app, never turns a refusal into a grant. */
  lemma TighterRefusesMore(lib: Library, policy: Policy, global: IpLists, r: Request, global': IpLists, r': Request)
    requires SameButAddresses(r, r') && Tighter(global, r.acls, global', r'.acls)
    ensures Decide(Standard(lib, global', policy), r').Granted() ==> Decide(Standard(lib, global, policy), r).Granted()
  {
    GrantedExactly(lib, global, policy, r);
    GrantedExactly(lib, global', policy, r');
    CoversMore(lib, Blocked(global, r.acls), Blocked(global', r'.acls), r.ip);
    CoversMore(lib, Bypassed(global', r'.acls), Bypassed(global, r.acls), r.ip);
  }

  ghost predicate SameSets(global: IpLists, acls: Option<App>, global': IpLists, acls': Option<App>) {
    && Allowed(global, acls) == Allowed(global', acls') && Blocked(global, acls) == Blocked(global', acls')
    && Bypassed(global, acls) == Bypassed(global', acls')
  }

  lemma AddressesAgree(lib: Library, policy: Policy, global: IpLists, r: Request, global': IpLists, r': Request)
    requires SameButAddresses(r, r') && SameSets(global, r.acls, global', r'.acls)
    ensures forall name :: name in {RuleIPBypassed, RuleIPAllowed, RuleAuthEnabled} ==>
              (Standard(lib, global', policy).Evaluate(name, AclContext(r'.acls, None, r'.ip, r'.path)) <==>
               Standard(lib, global, policy).Evaluate(name, AclContext(r.acls, None, r.ip, r.path)))
  {
    AddressChecks(lib, global, policy, r);
    AddressChecks(lib, global', policy, r');
  }

  lemma UsersAgree(lib: Library, policy: Policy, global: IpLists, r: Request, global': IpLists, r': Request,
                   user: UserContext)
    requires SameButAddresses(r, r')
    ensures forall name :: name in {RuleUserAllowed, RuleOAuthGroup, RuleLDAPGroup} ==>
              (Standard(lib, global', policy).Evaluate(name, AclContext(r'.acls, Some(user), r'.ip, r'.path)) <==>
               Standard(lib, global, policy).Evaluate(name, AclContext(r.acls, Some(user), r.ip, r.path)))
  {
  }

  lemma SameAnswers(engine: Engine, engine': Engine, r: Request, r': Request)
    requires r.user == r'.user
    requires var (ctx, ctx') := (AclContext(r.acls, None, r.ip, r.path), AclContext(r'.acls, None, r'.ip, r'.path));
             forall name :: name in {RuleIPBypassed, RuleIPAllowed, RuleAuthEnabled} ==>
               (engine'.Evaluate(name, ctx') <==> engine.Evaluate(name, ctx))
    requires var user := Some(if r.user.Some? then r.user.value else NOBODY);
             var (ctx, ctx') := (AclContext(r.acls, user, r.ip, r.path), AclContext(r'.acls, user, r'.ip, r'.path));
             forall name :: name in {RuleUserAllowed, RuleOAuthGroup, RuleLDAPGroup} ==>
               (engine'.Evaluate(name, ctx') <==> engine.Evaluate(name, ctx))
    ensures Decide(engine', r') == Decide(engine, r)
  {
    var user := Some(if r.user.Some? then r.user.value else NOBODY);
    var (ctx, ctx') := (AclContext(r.acls, user, r.ip, r.path), AclContext(r'.acls, user, r'.ip, r'.path));
    assert engine'.Evaluate(RuleUserAllowed, ctx') <==> engine.Evaluate(RuleUserAllowed, ctx);
    assert engine'.Evaluate(RuleOAuthGroup, ctx') <==> engine.Evaluate(RuleOAuthGroup, ctx);
    assert engine'.Evaluate(RuleLDAPGroup, ctx') <==> engine.Evaluate(RuleLDAPGroup, ctx);
    var (ip, ip') := (AclContext(r.acls, None, r.ip, r.path), AclContext(r'.acls, None, r'.ip, r'.path));
    assert engine'.Evaluate(RuleIPBypassed, ip') <==> engine.Evaluate(RuleIPBypassed, ip);
    assert engine'.Evaluate(RuleIPAllowed, ip') <==> engine.Evaluate(RuleIPAllowed, ip);
    assert engine'.Evaluate(RuleAuthEnabled, ip') <==> engine.Evaluate(RuleAuthEnabled, ip);
  }

  /** The verdict depends on the merged address lists as sets: order, repetition and origin do not matter. */
  lemma ListsAreSets(lib: Library, policy: Policy, global: IpLists, r: Request, global': IpLists, r': Request)
    requires SameButAddresses(r, r') && SameSets(global, r.acls, global', r'.acls)
    ensures Decide(Standard(lib, global', policy), r') == Decide(Standard(lib, global, policy), r)
  {
    AddressesAgree(lib, policy, global, r, global', r');
    UsersAgree(lib, policy, global, r, global', r', if r.user.Some? then r.user.value else NOBODY);
    SameAnswers(Standard(lib, global, policy), Standard(lib, global', policy), r, r');
  }

  // An allow list works the other way round once it is not empty: the first entry shuts others out.
  lemma AllowListGrows(lib: Library, global: IpLists, r: Request, entry: string)
    ensures var wider := global.(allow := global.allow + [entry]);
            (Allowed(global, r.acls) != {} ==> (WelcomeIP(lib, global, r) ==> WelcomeIP(lib, wider, r))) &&
            (Allowed(global, r.acls) == {} ==> (WelcomeIP(lib, wider, r) ==> WelcomeIP(lib, global, r)))
  {
    var wider := global.(allow := global.allow + [entry]);
    assert Allowed(wider, r.acls) == Allowed(global, r.acls) + {entry};
    CoversMore(lib, Allowed(global, r.acls), Allowed(wider, r.acls), r.ip);
  }
}
