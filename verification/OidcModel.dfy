/** Data of the OpenID Connect provider and the checks that only compute (internal/service/oidc_service.go). */
module OidcModel {
  import opened Base
  import opened Contexts
  import opened Strings

  const SUPPORTED_SCOPES := ["openid", "profile", "email", "phone", "address", "groups"]
  const SUPPORTED_RESPONSE_TYPES := ["code"]
  const SUPPORTED_GRANT_TYPES := ["authorization_code", "refresh_token"]
  const SUPPORTED_PROMPTS := ["login", "none"]

  datatype Client = Client(clientId: string, clientSecret: string, name: string, trustedRedirectUris: seq<string>)

  // hash is SHA-256 in hex, pkce is SHA-256 in base64url, uuid derives a name-based UUID.
  datatype Config = Config(
    clients: map<string, Client>,
    sessionExpiry: int,  // seconds
    hash: string -> string,
    pkce: string -> string,
    uuid: string -> string,
    atoi: string -> Option<int>)

  ghost predicate Injective(f: string -> string) {
    forall x, y :: f(x) == f(y) ==> x == y
  }

  // Clients are filed under their own id; digests do not collide and are never empty.
  ghost predicate ValidConfig(cfg: Config) {
    && (forall id :: id in cfg.clients ==> cfg.clients[id].clientId == id)
    && Injective(cfg.hash) && (forall x :: cfg.hash(x) != "")
    && Injective(cfg.pkce) && (forall x :: cfg.pkce(x) != "")
  }

  datatype AuthorizeRequest = AuthorizeRequest(
    scope: string, responseType: string, clientId: string, redirectUri: string, state: string, nonce: string,
    codeChallenge: string, codeChallengeMethod: string, prompt: string, maxAge: string)

  datatype Userinfo = Userinfo(
    sub: string, name: string, preferredUsername: string, profile: Profile, email: string, emailVerified: bool,
    groups: seq<string>, phoneNumber: string, phoneVerified: Option<bool>, address: Option<string>, updatedAt: int)

  datatype CodeEntry = CodeEntry(
    codeHash: string, scope: string, redirectUri: string, clientId: string, nonce: string, codeChallenge: string,
    userinfo: Userinfo, authTime: int)

  // ----- Authorization requests -----

  predicate AllNonBlank(scopes: seq<string>) {
    forall s :: s in scopes ==> TrimSpace(s) != ""
  }

  // None when the request is acceptable.
  function ValidateAuthorizeParams(cfg: Config, req: AuthorizeRequest): Option<string> {
    if req.clientId !in cfg.clients then Some("access_denied")
    else if req.redirectUri !in cfg.clients[req.clientId].trustedRedirectUris then Some("invalid_request_uri")
    else if TrimSpace(req.scope) == "" || !AllNonBlank(Split(req.scope, ' ')) then Some("invalid_scope")
    else if req.responseType !in SUPPORTED_RESPONSE_TYPES then Some("unsupported_response_type")
    else if req.codeChallenge != "" && req.codeChallengeMethod !in ["", "S256", "plain"] then Some("invalid_request")
    else None
  }

  function Known(words: seq<string>, supported: seq<string>): (r: seq<string>)
    ensures forall w :: w in r <==> w in words && w in supported
  {
    if words == [] then []
    else (if words[0] in supported then [words[0]] else []) + Known(words[1..], supported)
  }

  function GetPrompt(prompt: string): seq<string> {
    if prompt == "" then [] else Known(Split(prompt, ' '), SUPPORTED_PROMPTS)
  }

  // ----- Codes -----

  function GrantedScope(requested: string): string {
    Join(Known(Split(requested, ' '), SUPPORTED_SCOPES), ' ')
  }

  function CreateSub(cfg: Config, user: UserContext, clientId: string): string {
    cfg.uuid(user.GetUsername() + ":" + clientId)
  }

  // The challenge a code is bound to: a plain one is stored hashed, so both kinds compare alike.
  function StoredChallenge(cfg: Config, req: AuthorizeRequest): string {
    if req.codeChallenge == "" then ""
    else if req.codeChallengeMethod == "S256" then req.codeChallenge
    else cfg.pkce(req.codeChallenge)
  }

  function ValidatePKCE(cfg: Config, challenge: string, verifier: string): bool {
    challenge == "" || challenge == cfg.pkce(verifier)
  }

  function UserinfoFromContext(user: UserContext, sub: string, now: nat): Userinfo {
    var attributes := if user.IsLocal() then user.local.value.attributes else NO_ATTRIBUTES;
    Userinfo(
      sub, user.GetName(), user.GetUsername(), attributes.profile, user.GetEmail(), false,
      if user.IsLDAP() then user.ldap.value.groups else if user.IsOAuth() then user.oauth.value.groups else [],
      attributes.phoneNumber, None, if user.IsLocal() then Some(attributes.address) else None, Unix(now))
  }

  function NewCodeEntry(cfg: Config, req: AuthorizeRequest, user: UserContext, code: string, now: nat): CodeEntry {
    CodeEntry(
      cfg.hash(code), GrantedScope(req.scope), req.redirectUri, req.clientId, req.nonce, StoredChallenge(cfg, req),
      UserinfoFromContext(user, CreateSub(cfg, user, req.clientId), now), user.authTime)
  }

  function CompileUserinfo(user: Userinfo, scope: string): Userinfo {
    var scopes := Split(scope, ' ');
    var profile := "profile" in scopes;
    var email := "email" in scopes;
    var phone := "phone" in scopes;
    Userinfo(
      user.sub,
      if profile then user.name else "",
      if profile then user.preferredUsername else "",
      if profile then user.profile else NO_PROFILE,
      if email then user.email else "",
      email && user.email != "",
      if "groups" in scopes then user.groups else [],
      if phone then user.phoneNumber else "",
      if phone then Some(user.phoneNumber != "") else None,
      if "address" in scopes then user.address else None,
      user.updatedAt)
  }

  // ----- What the checks mean -----

  // The scope stored with a code, split again, names exactly the supported scopes that were requested.
  lemma GrantedScopeExact(requested: string, scope: string)
    requires scope in SUPPORTED_SCOPES
    ensures scope in Split(GrantedScope(requested), ' ') <==> scope in Split(requested, ' ')
  {
    var granted := Known(Split(requested, ' '), SUPPORTED_SCOPES);
    SplitHasNoSeparator(requested, ' ');
    if granted == [] {
      assert Split("", ' ') == [""];
    } else {
      SplitJoin(granted, ' ');
    }
  }

  // The granted scope has the requested words that the provider knows, and no others.
  ghost predicate GrantedOf(granted: string, requested: string) {
    && (forall w | w in {"openid", "profile", "email", "phone", "address", "groups"} ::
         w in Split(granted, ' ') <==> w in Split(requested, ' '))
    && (forall w | w in Split(granted, ' ') && w != "" ::
         w in Split(requested, ' ') && w in {"openid", "profile", "email", "phone", "address", "groups"})
  }

  lemma ScopeGranted(requested: string)
    ensures GrantedOf(GrantedScope(requested), requested)
  {
    var granted := Known(Split(requested, ' '), SUPPORTED_SCOPES);
    assert SUPPORTED_SCOPES[0] == "openid" && SUPPORTED_SCOPES[1] == "profile" && SUPPORTED_SCOPES[2] == "email";
    assert SUPPORTED_SCOPES[3] == "phone" && SUPPORTED_SCOPES[4] == "address" && SUPPORTED_SCOPES[5] == "groups";
    forall w | w in {"openid", "profile", "email", "phone", "address", "groups"}
      ensures w in Split(GrantedScope(requested), ' ') <==> w in Split(requested, ' ')
    {
      GrantedScopeExact(requested, w);
    }
    SplitHasNoSeparator(requested, ' ');
    if granted == [] {
      assert Split("", ' ') == [""];
    } else {
      SplitJoin(granted, ' ');
    }
  }

  // The userinfo is that of the user at that time; claims that only local users have are empty for others.
  ghost predicate Describes(u: Userinfo, user: UserContext, sub: string, time: nat) {
    && u.sub == sub && u.updatedAt == Unix(time)
    && u.name == user.GetName() && u.preferredUsername == user.GetUsername() && u.email == user.GetEmail()
    && (if user.provider == ProviderLocal && user.local.Some? then
          && u.profile == user.local.value.attributes.profile
          && u.phoneNumber == user.local.value.attributes.phoneNumber
          && u.address == Some(user.local.value.attributes.address)
        else u.profile == NO_PROFILE && u.phoneNumber == "" && u.address == None)
    && u.groups ==
         (if user.provider == ProviderLDAP && user.ldap.Some? then user.ldap.value.groups
          else if user.provider == ProviderOAuth && user.oauth.Some? then user.oauth.value.groups
          else [])
  }

  // The claims of the user that the scope words stand for, and nothing else.
  ghost predicate Releases(claims: Userinfo, user: Userinfo, words: seq<string>) {
    && claims.sub == user.sub && claims.updatedAt == user.updatedAt
    && (if "profile" in words then
          claims.name == user.name && claims.preferredUsername == user.preferredUsername
          && claims.profile == user.profile
        else claims.name == "" && claims.preferredUsername == "" && claims.profile == NO_PROFILE)
    && (if "email" in words then claims.email == user.email && (claims.emailVerified <==> user.email != "")
        else claims.email == "" && !claims.emailVerified)
    && (if "groups" in words then claims.groups == user.groups else claims.groups == [])
    && (if "phone" in words then
          claims.phoneNumber == user.phoneNumber && claims.phoneVerified == Some(user.phoneNumber != "")
        else claims.phoneNumber == "" && claims.phoneVerified == None)
    && (if "address" in words then claims.address == user.address else claims.address == None)
  }

  // Claims are released for the scopes the authorization request asked for, and for no others.
  lemma ClaimsFollowRequestedScopes(user: Userinfo, requested: string)
    ensures CompileUserinfo(user, GrantedScope(requested)) == CompileUserinfo(user, requested)
    ensures Releases(CompileUserinfo(user, GrantedScope(requested)), user, Split(requested, ' '))
  {
    GrantedScopeExact(requested, "profile");
    GrantedScopeExact(requested, "email");
    GrantedScopeExact(requested, "groups");
    GrantedScopeExact(requested, "phone");
    GrantedScopeExact(requested, "address");
  }

  // The client exists and trusts the redirect URI, every scope word has something to it, the response type
  // is the code, and a challenge comes with a known method.
  ghost predicate Acceptable(cfg: Config, req: AuthorizeRequest) {
    && req.clientId in cfg.clients
    && req.redirectUri in cfg.clients[req.clientId].trustedRedirectUris
    && (forall w :: w in Split(req.scope, ' ') ==> !Blank(w))
    && req.responseType == "code"
    && (req.codeChallenge == "" || req.codeChallengeMethod in {"", "S256", "plain"})
  }

  lemma {:induction false} BlankScope(scope: string)
    requires Blank(scope)
    ensures forall w :: w in Split(scope, ' ') ==> Blank(w)
  {
    if scope != "" {
      BlankScope(scope[1..]);
      var rest := Split(scope[1..], ' ');
      assert rest[0] in rest;
      forall w | w in Split(scope, ' ')
        ensures Blank(w)
      {
        assert w == "" || w in rest || w == [scope[0]] + rest[0];
      }
    }
  }

  lemma ScopeExactly(scope: string)
    ensures TrimSpace(scope) != "" && AllNonBlank(Split(scope, ' ')) <==>
              forall w :: w in Split(scope, ' ') ==> !Blank(w)
  {
    BlankExactly(scope);
    if Blank(scope) {
      BlankScope(scope);
      assert Split(scope, ' ')[0] in Split(scope, ' ');
    }
    forall w | w in Split(scope, ' ')
      ensures TrimSpace(w) == "" <==> Blank(w)
    {
      BlankExactly(w);
    }
  }

  /** Validation lets through exactly the acceptable requests. */
  lemma ValidatedExactly(cfg: Config, req: AuthorizeRequest)
    ensures ValidateAuthorizeParams(cfg, req).None? <==> Acceptable(cfg, req)
  {
    ScopeExactly(req.scope);
    assert SUPPORTED_RESPONSE_TYPES[0] == "code";
  }

  // A verifier is accepted exactly when it answers the challenge of the authorization request:
  // none was given, it hashes to the S256 challenge, or it is the plain challenge.
  lemma PkceExact(cfg: Config, req: AuthorizeRequest, verifier: string)
    requires ValidConfig(cfg)
    ensures ValidatePKCE(cfg, StoredChallenge(cfg, req), verifier) <==>
              || req.codeChallenge == ""
              || (req.codeChallengeMethod == "S256" && req.codeChallenge == cfg.pkce(verifier))
              || (req.codeChallengeMethod != "S256" && req.codeChallenge == verifier)
  {
    assert cfg.pkce(req.codeChallenge) == cfg.pkce(verifier) ==> req.codeChallenge == verifier;
  }
}
