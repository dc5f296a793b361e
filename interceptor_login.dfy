/** The `/login` interceptor (corporal/httpgateway/interceptor/interceptor_login.go): managed users
    are authenticated by the gateway, and their login request is rewritten to carry the
    shared-secret password the homeserver's password provider accepts. */
module LoginInterception {
  import opened Wrappers
  import opened Json
  import opened Hex
  import opened Http
  import opened Policies
  import opened Interceptors
  import JsonBody
  import MatrixUtil
  import SharedSecretAuth
  import SharedSecretAuthenticator

  /** `ApiLoginRequestIdentifier`. */
  datatype LoginIdentifier = LoginIdentifier(identifierType: string, user: string)

  /** `ApiLoginRequestPayload`: the login type, the deprecated `user` field, the identifier, the
      password and the device id. */
  datatype LoginPayload = LoginPayload(loginType: string, user: string, identifier: LoginIdentifier,
                                       password: string, deviceId: string)

  const PayloadKeys := {"type", "user", "password", "device_id"}
  const IdentifierKeys := {"type", "user"}

  /** Unmarshalling a decoded body into the payload struct: every field is a string except the
      identifier, itself a struct of two strings. */
  function DecodeLoginPayload(j: Json): (r: Result<LoginPayload, string>)
    ensures r.Err? <==> JsonBody.StringFieldsOf(j, PayloadKeys).Err?
                        || JsonBody.StringFieldsOf(JsonBody.Member(j, "identifier"), IdentifierKeys).Err?
    ensures r.Ok? && j.JObj? ==>
              && r.value.loginType == JsonBody.FieldValue(j.fields, "type")
              && r.value.user == JsonBody.FieldValue(j.fields, "user")
              && r.value.password == JsonBody.FieldValue(j.fields, "password")
              && r.value.deviceId == JsonBody.FieldValue(j.fields, "device_id")
    ensures j == JNull ==> r == Ok(LoginPayload("", "", LoginIdentifier("", ""), "", ""))
  {
    match JsonBody.StringFieldsOf(j, PayloadKeys)
    case Err(e) => Err(e)
    case Ok(top) =>
      match JsonBody.StringFieldsOf(JsonBody.Member(j, "identifier"), IdentifierKeys)
      case Err(e) => Err(e)
      case Ok(ident) =>
        Ok(LoginPayload(top["type"], top["user"], LoginIdentifier(ident["type"], ident["user"]),
                        top["password"], top["device_id"]))
  }

  /** `json.Marshal` of the payload struct. */
  function EncodeLoginPayload(p: LoginPayload): Json
  {
    JObj(map[
      "type" := JStr(p.loginType),
      "user" := JStr(p.user),
      "identifier" := JObj(map["type" := JStr(p.identifier.identifierType), "user" := JStr(p.identifier.user)]),
      "password" := JStr(p.password),
      "device_id" := JStr(p.deviceId)])
  }

  /** Decoding what the struct encodes gives the struct back. */
  lemma DecodeEncodedLoginPayload(p: LoginPayload)
    ensures DecodeLoginPayload(EncodeLoginPayload(p)) == Ok(p)
  {
    var j := EncodeLoginPayload(p);
    var ident := JsonBody.Member(j, "identifier");
    assert forall k :: k in PayloadKeys ==> JsonBody.FitsStringField(j.fields, k);
    assert forall k :: k in IdentifierKeys ==> JsonBody.FitsStringField(ident.fields, k);
  }

  /** `GetJsonFromRequestBody` into the payload struct. */
  function DecodeBody(codec: Codec, body: seq<byte>): (r: Result<LoginPayload, string>)
    ensures codec.decode(body).None? ==> r.Err?
    ensures codec.decode(body).Some? ==> r == DecodeLoginPayload(codec.decode(body).value)
  {
    match codec.decode(body)
    case None => Err(JsonBody.NotJsonError)
    case Some(j) => DecodeLoginPayload(j)
  }

  /** The interceptor's configuration: the homeserver domain and the password generator. */
  datatype LoginInterceptor = LoginInterceptor(homeserverDomainName: string,
                                               generator: SharedSecretAuth.SharedSecretAuthPasswordGenerator)

  /** The user id the request names: `identifier.user`, or the deprecated `user` when that is empty. */
  function RequestedUserId(p: LoginPayload): (r: string)
    ensures p.identifier.user != "" ==> r == p.identifier.user
    ensures p.identifier.user == "" ==> r == p.user
  {
    if p.identifier.user != "" then p.identifier.user else p.user
  }

  predicate IsThirdPartyIdentifier(p: LoginPayload)
  {
    p.identifier.identifierType in [MatrixUtil.LoginIdentifierTypeThirdParty, MatrixUtil.LoginIdentifierTypePhone]
  }

  /** The payload forwarded after a successful authentication: the full user id in `user` and the
      shared-secret password; `identifier.user` is left as it came. */
  function Authenticated(me: LoginInterceptor, hmac: Hmac, p: LoginPayload, userIdFull: string): (q: LoginPayload)
    ensures q.loginType == p.loginType && q.identifier == p.identifier && q.deviceId == p.deviceId
    ensures q.user == userIdFull
    ensures q.password == SharedSecretAuth.GenerateForUserId(me.generator, userIdFull, hmac)
  {
    p.(user := userIdFull, password := SharedSecretAuth.GenerateForUserId(me.generator, userIdFull, hmac))
  }

  /** The decision for a managed, well-formed password login of the user `userIdFull` on a
      policy: deny, proxy unchanged, or proxy rewritten. */
  function InterceptManaged(codec: Codec, hmac: Hmac, me: LoginInterceptor, u: UserPolicy, check: AuthCheck,
                            request: Request, p: LoginPayload, userIdFull: string): (r: Interception)
    ensures !u.active ==> r == Interception(ErrorResponse(MatrixUtil.ErrorUserDeactivated, "Deactivated in policy"), request)
    ensures u.active && u.authType == UserAuthTypePassthrough ==> r == Interception(ProxyResponse, request)
    ensures u.active && u.authType != UserAuthTypePassthrough ==>
              match check(userIdFull, p.password, u.authType, u.authCredential)
              case Err(_) => r == Interception(ErrorResponse(MatrixUtil.ErrorUnknown, "Internal authenticator error"), request)
              case Ok(false) => r == Interception(ErrorResponse(MatrixUtil.ErrorForbidden, "Failed authentication"), request)
              case Ok(true) => r == Interception(ProxyResponse, WithJsonBody(codec, request, EncodeLoginPayload(Authenticated(me, hmac, p, userIdFull))))
  {
    if !u.active then Interception(ErrorResponse(MatrixUtil.ErrorUserDeactivated, "Deactivated in policy"), request)
    else if u.authType == UserAuthTypePassthrough then Interception(ProxyResponse, request)
    else
      match check(userIdFull, p.password, u.authType, u.authCredential)
      case Err(_) => Interception(ErrorResponse(MatrixUtil.ErrorUnknown, "Internal authenticator error"), request)
      case Ok(false) => Interception(ErrorResponse(MatrixUtil.ErrorForbidden, "Failed authentication"), request)
      case Ok(true) => Interception(ProxyResponse, WithJsonBody(codec, request, EncodeLoginPayload(Authenticated(me, hmac, p, userIdFull))))
  }

  /** The decision for a password login once a policy is loaded. */
  function InterceptPassword(codec: Codec, hmac: Hmac, me: LoginInterceptor, policy: Policy, check: AuthCheck,
                             request: Request, p: LoginPayload): (r: Interception)
  {
    if IsThirdPartyIdentifier(p) then
      if policy.flags.allow3pidLogin then Interception(ProxyResponse, request)
      else Interception(ErrorResponse(MatrixUtil.ErrorUnknown, "3pid login requests are not allowed on this server"), request)
    else
      match MatrixUtil.DetermineFullUserId(RequestedUserId(p), me.homeserverDomainName)
      case Err(_) => Interception(ErrorResponse(MatrixUtil.ErrorForbidden, "Cannot interpret user id"), request)
      case Ok(userIdFull) =>
        if !MatrixUtil.IsFullUserIdOfDomain(userIdFull, me.homeserverDomainName) then
          Interception(ErrorResponse(MatrixUtil.ErrorForbidden, "Rejecting non-own domains"), request)
        else
          match GetUserPolicyByUserId(policy, userIdFull)
          case None => Interception(ProxyResponse, request)
          case Some(u) => InterceptManaged(codec, hmac, me, u, check, request, p, userIdFull)
  }

  /** The decision once the body is decoded. */
  function InterceptPayload(codec: Codec, hmac: Hmac, me: LoginInterceptor, policy: Option<Policy>, check: AuthCheck,
                            request: Request, p: LoginPayload): (r: Interception)
    ensures p.loginType == MatrixUtil.LoginTypeToken ==> r == Interception(ProxyResponse, request)
    ensures p.loginType != MatrixUtil.LoginTypeToken && p.loginType != MatrixUtil.LoginTypePassword ==>
              r == Interception(ErrorResponse(MatrixUtil.ErrorForbidden, "Denying login type: " + p.loginType), request)
    ensures p.loginType == MatrixUtil.LoginTypePassword && policy.None? ==>
              r == Interception(ErrorResponse(MatrixUtil.ErrorUnknown, "Missing policy"), request)
    ensures p.loginType == MatrixUtil.LoginTypePassword && policy.Some? ==>
              r == InterceptPassword(codec, hmac, me, policy.value, check, request, p)
  {
    if p.loginType == MatrixUtil.LoginTypeToken then Interception(ProxyResponse, request)
    else if p.loginType != MatrixUtil.LoginTypePassword then
      Interception(ErrorResponse(MatrixUtil.ErrorForbidden, "Denying login type: " + p.loginType), request)
    else if policy.None? then Interception(ErrorResponse(MatrixUtil.ErrorUnknown, "Missing policy"), request)
    else InterceptPassword(codec, hmac, me, policy.value, check, request, p)
  }

  /** `LoginInterceptor.Intercept`. `policy` is what the policy store holds. */
  function Intercept(codec: Codec, hmac: Hmac, me: LoginInterceptor, policy: Option<Policy>, check: AuthCheck,
                     request: Request): (r: Interception)
    ensures DecodeBody(codec, request.body).Err? ==>
              r == Interception(ErrorResponse(MatrixUtil.ErrorBadJson, "Bad input"), request)
    ensures DecodeBody(codec, request.body).Ok? ==>
              r == InterceptPayload(codec, hmac, me, policy, check, request, DecodeBody(codec, request.body).value)
  {
    match DecodeBody(codec, request.body)
    case Err(_) => Interception(ErrorResponse(MatrixUtil.ErrorBadJson, "Bad input"), request)
    case Ok(p) => InterceptPayload(codec, hmac, me, policy, check, request, p)
  }

  /** The password-login outcomes, in the order the interceptor decides them. A third-party or
      phone identifier is proxied exactly when the policy allows 3pid login; an id that cannot be
      made full, or one of another domain, is refused; an unmanaged user is proxied untouched. */
  lemma PasswordLoginOutcomes(codec: Codec, hmac: Hmac, me: LoginInterceptor, policy: Policy, check: AuthCheck,
                              request: Request, p: LoginPayload)
    ensures var r := InterceptPassword(codec, hmac, me, policy, check, request, p);
            IsThirdPartyIdentifier(p) ==>
              (r.response.result == Proxy <==> policy.flags.allow3pidLogin) && r.request == request
    ensures var r := InterceptPassword(codec, hmac, me, policy, check, request, p);
            !IsThirdPartyIdentifier(p) && RequestedUserId(p) == "" ==>
              r == Interception(ErrorResponse(MatrixUtil.ErrorForbidden, "Cannot interpret user id"), request)
    ensures var r := InterceptPassword(codec, hmac, me, policy, check, request, p);
            var full := MatrixUtil.DetermineFullUserId(RequestedUserId(p), me.homeserverDomainName);
            !IsThirdPartyIdentifier(p) && full.Ok? && !MatrixUtil.IsFullUserIdOfDomain(full.value, me.homeserverDomainName) ==>
              r == Interception(ErrorResponse(MatrixUtil.ErrorForbidden, "Rejecting non-own domains"), request)
    ensures var r := InterceptPassword(codec, hmac, me, policy, check, request, p);
            var full := MatrixUtil.DetermineFullUserId(RequestedUserId(p), me.homeserverDomainName);
            !IsThirdPartyIdentifier(p) && full.Ok? && MatrixUtil.IsFullUserIdOfDomain(full.value, me.homeserverDomainName) ==>
              (GetUserPolicyByUserId(policy, full.value).None? ==> r == Interception(ProxyResponse, request))
              && (GetUserPolicyByUserId(policy, full.value).Some? ==>
                    r == InterceptManaged(codec, hmac, me, GetUserPolicyByUserId(policy, full.value).value, check, request, p, full.value))
  {
  }

  /** A managed login changes the request only when the user is active, not passthrough, and the
      checker accepted the credentials. */
  lemma ManagedRewrite(codec: Codec, hmac: Hmac, me: LoginInterceptor, u: UserPolicy, check: AuthCheck,
                       request: Request, p: LoginPayload, userIdFull: string)
    requires InterceptManaged(codec, hmac, me, u, check, request, p, userIdFull).request != request
    ensures u.active && u.authType != UserAuthTypePassthrough
    ensures check(userIdFull, p.password, u.authType, u.authCredential) == Ok(true)
    ensures InterceptManaged(codec, hmac, me, u, check, request, p, userIdFull)
            == Interception(ProxyResponse, WithJsonBody(codec, request, EncodeLoginPayload(Authenticated(me, hmac, p, userIdFull))))
  {
    var c := check(userIdFull, p.password, u.authType, u.authCredential);
    assert c.Ok? && c.value;
  }

  /** A password login changes the request only for a managed user of the domain, and then as
      the managed decision does. */
  lemma PasswordRewrite(codec: Codec, hmac: Hmac, me: LoginInterceptor, policy: Policy, check: AuthCheck,
                        request: Request, p: LoginPayload) returns (userIdFull: string, u: UserPolicy)
    requires InterceptPassword(codec, hmac, me, policy, check, request, p).request != request
    ensures !IsThirdPartyIdentifier(p)
    ensures MatrixUtil.DetermineFullUserId(RequestedUserId(p), me.homeserverDomainName) == Ok(userIdFull)
    ensures MatrixUtil.IsFullUserIdOfDomain(userIdFull, me.homeserverDomainName)
    ensures GetUserPolicyByUserId(policy, userIdFull) == Some(u)
    ensures InterceptPassword(codec, hmac, me, policy, check, request, p)
            == InterceptManaged(codec, hmac, me, u, check, request, p, userIdFull)
  {
    var full := MatrixUtil.DetermineFullUserId(RequestedUserId(p), me.homeserverDomainName);
    assert !IsThirdPartyIdentifier(p) && full.Ok?;
    userIdFull := full.value;
    assert MatrixUtil.IsFullUserIdOfDomain(userIdFull, me.homeserverDomainName);
    var found := GetUserPolicyByUserId(policy, userIdFull);
    assert found.Some?;
    u := found.value;
  }

  /** The payload, user id and user policy a changed request comes from. */
  lemma RewrittenBy(codec: Codec, hmac: Hmac, me: LoginInterceptor, policy: Option<Policy>,
                    check: AuthCheck, request: Request) returns (p: LoginPayload, userIdFull: string, u: UserPolicy)
    requires Intercept(codec, hmac, me, policy, check, request).request != request
    ensures DecodeBody(codec, request.body) == Ok(p)
    ensures p.loginType == MatrixUtil.LoginTypePassword && policy.Some? && !IsThirdPartyIdentifier(p)
    ensures MatrixUtil.DetermineFullUserId(RequestedUserId(p), me.homeserverDomainName) == Ok(userIdFull)
    ensures MatrixUtil.IsFullUserIdOfDomain(userIdFull, me.homeserverDomainName)
    ensures GetUserPolicyByUserId(policy.value, userIdFull) == Some(u)
    ensures u.active && u.authType != UserAuthTypePassthrough
    ensures check(userIdFull, p.password, u.authType, u.authCredential) == Ok(true)
    ensures Intercept(codec, hmac, me, policy, check, request)
            == Interception(ProxyResponse, WithJsonBody(codec, request, EncodeLoginPayload(Authenticated(me, hmac, p, userIdFull))))
  {
    var d := DecodeBody(codec, request.body);
    assert d.Ok?;
    p := d.value;
    assert p.loginType == MatrixUtil.LoginTypePassword && policy.Some?;
    userIdFull, u := PasswordRewrite(codec, hmac, me, policy.value, check, request, p);
    ManagedRewrite(codec, hmac, me, u, check, request, p, userIdFull);
  }

  /** The request is rewritten only on a successful authentication: a password login of a
      managed, active, non-passthrough user of the domain whose credentials the checker accepted.
      Then the body is the payload with the full user id and the generated password. */
  lemma {:induction false} OnlyAuthenticatedLoginIsRewritten(codec: Codec, hmac: Hmac, me: LoginInterceptor, policy: Option<Policy>,
                                                            check: AuthCheck, request: Request)
    ensures var r := Intercept(codec, hmac, me, policy, check, request);
            r.request != request ==>
              exists p: LoginPayload, userIdFull: string, u: UserPolicy ::
                && DecodeBody(codec, request.body) == Ok(p)
                && p.loginType == MatrixUtil.LoginTypePassword
                && !IsThirdPartyIdentifier(p)
                && MatrixUtil.DetermineFullUserId(RequestedUserId(p), me.homeserverDomainName) == Ok(userIdFull)
                && MatrixUtil.IsFullUserIdOfDomain(userIdFull, me.homeserverDomainName)
                && policy.Some? && GetUserPolicyByUserId(policy.value, userIdFull) == Some(u)
                && u.active && u.authType != UserAuthTypePassthrough
                && check(userIdFull, p.password, u.authType, u.authCredential) == Ok(true)
                && r == Interception(ProxyResponse, WithJsonBody(codec, request, EncodeLoginPayload(Authenticated(me, hmac, p, userIdFull))))
  {
    var r := Intercept(codec, hmac, me, policy, check, request);
    if r.request != request {
      var p, userIdFull, u := RewrittenBy(codec, hmac, me, policy, check, request);
    }
  }

  /** `identifier.user` wins: when it is set, the deprecated `user` field has no say in the verdict,
      and the rewritten body (which overwrites `user`) is the same either way. */
  lemma IdentifierUserWins(codec: Codec, hmac: Hmac, me: LoginInterceptor, policy: Policy, check: AuthCheck,
                           request: Request, p: LoginPayload, deprecatedUser: string)
    requires p.identifier.user != ""
    ensures var r := InterceptPassword(codec, hmac, me, policy, check, request, p);
            var r' := InterceptPassword(codec, hmac, me, policy, check, request, p.(user := deprecatedUser));
            r.response == r'.response && r.request == r'.request
  {
  }

  /** The payload and user id a rewritten request was built from. */
  lemma RewriteSource(codec: Codec, hmac: Hmac, me: LoginInterceptor, policy: Option<Policy>,
                      check: AuthCheck, request: Request) returns (p: LoginPayload, userIdFull: string)
    requires Intercept(codec, hmac, me, policy, check, request).request != request
    ensures MatrixUtil.IsFullUserIdOfDomain(userIdFull, me.homeserverDomainName)
    ensures Intercept(codec, hmac, me, policy, check, request).request
            == WithJsonBody(codec, request, EncodeLoginPayload(Authenticated(me, hmac, p, userIdFull)))
  {
    var u;
    p, userIdFull, u := RewrittenBy(codec, hmac, me, policy, check, request);
  }

  /** The generated password of a user passes the homeserver's check for that user exactly when
      the account exists. */
  lemma GeneratedPasswordAccepted(me: LoginInterceptor, hmac: Hmac, userIdFull: string,
                                  accounts: set<string>, hasCompareDigest: bool)
    ensures SharedSecretAuthenticator.CheckPassword(
              SharedSecretAuthenticator.SharedSecretAuthenticator(JStr(me.generator.sharedSecret)),
              userIdFull, SharedSecretAuth.GenerateForUserId(me.generator, userIdFull, hmac),
              hmac, accounts, hasCompareDigest)
            == Ok(SharedSecretAuthenticator.Answer(userIdFull in accounts, true))
  {
    SharedSecretAuthenticator.GeneratedPasswordAcceptedIffAccountExists(me.generator.sharedSecret, userIdFull, hmac, accounts, hasCompareDigest);
  }

  /** The round trip with the homeserver's shared-secret password provider: when the interceptor
      rewrites a login, the body the homeserver receives decodes to a payload naming a user id of
      the domain, and its password is accepted for that id exactly when the account exists. */
  lemma {:induction false} RewrittenLoginIsAcceptedByHomeserver(codec: Codec, hmac: Hmac, me: LoginInterceptor, policy: Option<Policy>,
                                                               check: AuthCheck, request: Request,
                                                               accounts: set<string>, hasCompareDigest: bool)
    requires forall q: LoginPayload :: Lossless(codec, EncodeLoginPayload(q))
    requires Intercept(codec, hmac, me, policy, check, request).request != request
    ensures var body := Intercept(codec, hmac, me, policy, check, request).request.body;
            && DecodeBody(codec, body).Ok?
            && MatrixUtil.IsFullUserIdOfDomain(DecodeBody(codec, body).value.user, me.homeserverDomainName)
            && SharedSecretAuthenticator.CheckPassword(
                 SharedSecretAuthenticator.SharedSecretAuthenticator(JStr(me.generator.sharedSecret)),
                 DecodeBody(codec, body).value.user, DecodeBody(codec, body).value.password,
                 hmac, accounts, hasCompareDigest)
               == Ok(SharedSecretAuthenticator.Answer(DecodeBody(codec, body).value.user in accounts, true))
  {
    var p, userIdFull := RewriteSource(codec, hmac, me, policy, check, request);
    var body := Intercept(codec, hmac, me, policy, check, request).request.body;
    var q := Authenticated(me, hmac, p, userIdFull);
    assert body == codec.encode(EncodeLoginPayload(q));
    assert Lossless(codec, EncodeLoginPayload(q));
    DecodeEncodedLoginPayload(q);
    assert DecodeBody(codec, body) == Ok(q);
    GeneratedPasswordAccepted(me, hmac, userIdFull, accounts, hasCompareDigest);
  }
}
