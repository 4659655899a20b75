/** internal/model/context.go: who a request comes from. Pointers that may be nil are options. */
module Contexts {
  import opened Base

  datatype ProviderType = ProviderLocal | ProviderBasicAuth | ProviderOAuth | ProviderLDAP | ProviderTailscale

  datatype BaseContext = BaseContext(username: string, name: string, email: string)

  // The OpenID Connect profile claims a local user may carry.
  datatype Profile = Profile(
    givenName: string, familyName: string, middleName: string, nickname: string, profile: string, picture: string,
    website: string, gender: string, birthdate: string, zoneinfo: string, locale: string)

  const NO_PROFILE := Profile("", "", "", "", "", "", "", "", "", "", "")

  datatype Attributes = Attributes(name: string, email: string, profile: Profile, phoneNumber: string, address: string)

  const NO_ATTRIBUTES := Attributes("", "", NO_PROFILE, "", "")

  datatype LocalContext = LocalContext(base: BaseContext, totpPending: bool, attributes: Attributes)

  datatype OAuthContext =
    OAuthContext(base: BaseContext, groups: seq<string>, sub: string, displayName: string, id: string)

  datatype LDAPContext = LDAPContext(base: BaseContext, groups: seq<string>)

  datatype TailscaleContext = TailscaleContext(base: BaseContext, userId: string)

  datatype UserContext = UserContext(
    authenticated: bool,
    provider: ProviderType,
    authTime: int,
    local: Option<LocalContext>,
    oauth: Option<OAuthContext>,
    ldap: Option<LDAPContext>,
    tailscale: Option<TailscaleContext>)
  {
    predicate IsLocal() { provider == ProviderLocal && local.Some? }

    predicate IsOAuth() { provider == ProviderOAuth && oauth.Some? }

    predicate IsLDAP() { provider == ProviderLDAP && ldap.Some? }

    function GetBase(): Option<BaseContext> {
      match provider
      case ProviderLocal => if local.Some? then Some(local.value.base) else None
      case ProviderBasicAuth => if local.Some? then Some(local.value.base) else None
      case ProviderLDAP => if ldap.Some? then Some(ldap.value.base) else None
      case ProviderOAuth => if oauth.Some? then Some(oauth.value.base) else None
      case ProviderTailscale => if tailscale.Some? then Some(tailscale.value.base) else None
    }

    function GetUsername(): string { if GetBase().Some? then GetBase().value.username else "" }

    function GetEmail(): string { if GetBase().Some? then GetBase().value.email else "" }

    function GetName(): string { if GetBase().Some? then GetBase().value.name else "" }

    predicate TOTPPending() { IsLocal() && local.value.totpPending }
  }
}
