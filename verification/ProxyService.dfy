/** The policy engine with its table of rules, and the proxy handler that asks it rule by rule. */
module ProxyServices {
  import opened Base
  import opened Acls
  import opened Access

  class PolicyEngine {
    var rules: map<RuleName, Rule>
    const policy: Policy

    ghost function State(): Engine
      reads this
    {
      Engine(rules, policy)
    }

    // Only the two known policy names are accepted.
    static method NewPolicyEngine(name: string) returns (engine: PolicyEngine?)
      ensures engine != null <==> name == "allow" || name == "deny"
      ensures engine != null ==>
                && fresh(engine) && engine.State().rules == map[]
                && engine.policy == if name == "deny" then PolicyDeny else PolicyAllow
    {
      if name == "allow" {
        engine := new PolicyEngine(PolicyAllow);
      } else if name == "deny" {
        engine := new PolicyEngine(PolicyDeny);
      } else {
        engine := null;
      }
    }

    constructor (policy: Policy)
      ensures this.policy == policy && State() == Engine(map[], policy)
    {
      this.policy := policy;
      rules := map[];
    }

    method RegisterRule(name: RuleName, rule: Rule)
      modifies this
      ensures State() == Engine(old(rules)[name := rule], policy)
    {
      rules := rules[name := rule];
    }

    // The registrations at start-up.
    method RegisterStandardRules(lib: Library, global: IpLists)
      requires rules == map[]
      modifies this
      ensures State() == Standard(lib, global, policy)
    {
      RegisterRule(RuleUserAllowed, (ctx: AclContext) => UserAllowed(lib, ctx));
      RegisterRule(RuleOAuthGroup, (ctx: AclContext) => OAuthGroup(lib, ctx));
      RegisterRule(RuleLDAPGroup, (ctx: AclContext) => LDAPGroup(lib, ctx));
      RegisterRule(RuleAuthEnabled, (ctx: AclContext) => AuthEnabled(lib, ctx));
      RegisterRule(RuleIPAllowed, (ctx: AclContext) => IPAllowed(lib, global, ctx));
      RegisterRule(RuleIPBypassed, (ctx: AclContext) => IPBypassed(lib, global, ctx));
    }

    method Evaluate(name: RuleName, ctx: AclContext) returns (access: bool)
      ensures access <==> State().Evaluate(name, ctx)
    {
      var effect := EffectDeny;
      if name in rules {
        effect := rules[name](ctx);
      }
      match effect {
        case EffectAllow => return true;
        case EffectDeny => return false;
        case EffectAbstain => return policy == PolicyAllow;
      }
    }

    method ProxyHandler(r: Request) returns (verdict: Verdict)
      ensures verdict == Decide(State(), r)
    {
      var aclsCtx := AclContext(r.acls, None, r.ip, r.path);
      var bypassed := Evaluate(RuleIPBypassed, aclsCtx);
      if bypassed {
        return Passed;
      }
      var disabled := Evaluate(RuleAuthEnabled, aclsCtx);
      if disabled {
        return Passed;
      }
      var welcome := Evaluate(RuleIPAllowed, aclsCtx);
      if !welcome {
        return ForbiddenIP;
      }
      var userContext := NOBODY;
      if r.user.Some? {
        userContext := r.user.value;
      }
      aclsCtx := aclsCtx.(user := Some(userContext));
      if userContext.authenticated {
        var allowed := Evaluate(RuleUserAllowed, aclsCtx);
        if !allowed {
          return ForbiddenUser;
        }
        if userContext.IsOAuth() || userContext.IsLDAP() {
          var groupOK;
          if userContext.IsOAuth() {
            groupOK := Evaluate(RuleOAuthGroup, aclsCtx);
          } else {
            groupOK := Evaluate(RuleLDAPGroup, aclsCtx);
          }
          if !groupOK {
            return ForbiddenGroup;
          }
        }
        return Identified(userContext);
      }
      return LoginNeeded;
    }
  }
}
