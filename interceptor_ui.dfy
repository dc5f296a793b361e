/** The user-interactive authentication interceptor (corporal/httpgateway/interceptor_ui.go). The
    body is decoded into an untyped map so that every key the client sent is forwarded; only the
    password and the identifier's user are replaced after a successful authentication. The Go code
    asserts the types of `auth`, `auth.type` and `auth.identifier` without checking them; a failed
    assertion panics, which is the `Err` of the result. */
module UiAuthInterception {
  import opened Wrappers
  import opened Json
  import opened Hex
  import opened Http
  import opened Policies
  import opened Interceptors
  import JsonBody
  import MatrixUtil
  import SharedSecretAuth
  import SharedSecretAuthenticator

  datatype UiAuthInterceptor = UiAuthInterceptor(homeserverDomainName: string,
                                                 generator: SharedSecretAuth.SharedSecretAuthPasswordGenerator)

  const MapTypeName := "map[string]interface {}"
  const StringTypeName := "string"

  /** The dynamic Go type `json.Unmarshal` gives a value decoded into `interface{}`: every number
      is a `float64`, and `null` is the nil interface. */
  function GoTypeName(v: Json): (t: string)
    ensures v.JObj? <==> t == MapTypeName
    ensures v.JStr? <==> t == StringTypeName
  {
    match v
    case JNull => "nil"
    case JBool(_) => "bool"
    case JInt(_) => "float64"
    case JFloat(_) => "float64"
    case JStr(_) => StringTypeName
    case JArr(_) => "[]interface {}"
    case JObj(_) => MapTypeName
  }

  /** The runtime panic of the unchecked assertion `v.(target)` on a value of another type. */
  function AssertionPanic(v: Json, target: string): string
  {
    "interface conversion: interface {} is " + GoTypeName(v) + ", not " + target
  }
  const ThirdPartyMessage := "Third party user IDs not yet supported"

  /** Unmarshalling the body into `map[string]interface{}`: an object gives its members, `null`
      gives the nil map, and anything else is an error. */
  function DecodeBody(codec: Codec, body: seq<byte>): (r: Result<map<string, Json>, string>)
    ensures r.Ok? <==> codec.decode(body).Some? && (codec.decode(body).value.JObj? || codec.decode(body).value.JNull?)
    ensures r.Ok? && codec.decode(body).value.JObj? ==> r.value == codec.decode(body).value.fields
    ensures r.Ok? && codec.decode(body).value.JNull? ==> r.value == map[]
  {
    match codec.decode(body)
    case Some(JObj(m)) => Ok(m)
    case Some(JNull) => Ok(map[])
    case _ => Err(JsonBody.NotJsonError)
  }

  /** A map lookup in Go: the missing key gives nil. */
  function Get(m: map<string, Json>, key: string): (v: Json)
    ensures key !in m ==> v == JNull
    ensures key in m ==> v == m[key]
  {
    if key in m then m[key] else JNull
  }

  /** The body forwarded after a successful authentication: `auth.identifier.user` is the full id
      and `auth.password` the generated password; every other member, at every level, is kept. */
  function Rewritten(payload: map<string, Json>, auth: map<string, Json>, ident: map<string, Json>,
                     userIdFull: string, password: string): (r: Json)
    ensures r.JObj? && r.fields.Keys == payload.Keys + {"auth"}
    ensures forall k :: k in payload && k != "auth" ==> r.fields[k] == payload[k]
    ensures r.fields["auth"].JObj? && r.fields["auth"].fields.Keys == auth.Keys + {"identifier", "password"}
    ensures forall k :: k in auth && k != "identifier" && k != "password" ==> r.fields["auth"].fields[k] == auth[k]
    ensures r.fields["auth"].fields["password"] == JStr(password)
    ensures r.fields["auth"].fields["identifier"].JObj?
    ensures r.fields["auth"].fields["identifier"].fields.Keys == ident.Keys + {"user"}
    ensures forall k :: k in ident && k != "user" ==> r.fields["auth"].fields["identifier"].fields[k] == ident[k]
    ensures r.fields["auth"].fields["identifier"].fields["user"] == JStr(userIdFull)
  {
    var ident' := ident["user" := JStr(userIdFull)];
    var auth' := auth["identifier" := JObj(ident')]["password" := JStr(password)];
    JObj(payload["auth" := JObj(auth')])
  }

  /** The part of the decision after the user id was read: the domain, the policy, the user's
      state and the checker, which is asked with the user's own auth type (there is no passthrough
      case here). */
  function InterceptUser(codec: Codec, hmac: Hmac, me: UiAuthInterceptor, policy: Option<Policy>, check: AuthCheck,
                         request: Request, payload: map<string, Json>, auth: map<string, Json>,
                         ident: map<string, Json>, user: string, password: string): (r: Interception)
    ensures MatrixUtil.DetermineFullUserId(user, me.homeserverDomainName).Err? ==>
              r == Interception(ErrorResponse(MatrixUtil.ErrorForbidden, "Cannot interpret user id"), request)
    ensures var full := MatrixUtil.DetermineFullUserId(user, me.homeserverDomainName);
            full.Ok? && !MatrixUtil.IsFullUserIdOfDomain(full.value, me.homeserverDomainName) ==>
              r == Interception(ErrorResponse(MatrixUtil.ErrorForbidden, "Rejecting non-own domains"), request)
    ensures var full := MatrixUtil.DetermineFullUserId(user, me.homeserverDomainName);
            full.Ok? && MatrixUtil.IsFullUserIdOfDomain(full.value, me.homeserverDomainName) ==>
              && (policy.None? ==> r == Interception(ErrorResponse(MatrixUtil.ErrorUnknown, "Missing policy"), request))
              && (policy.Some? && GetUserPolicyByUserId(policy.value, full.value).None? ==> r == Interception(ProxyResponse, request))
              && (policy.Some? && GetUserPolicyByUserId(policy.value, full.value).Some? ==>
                    var u := GetUserPolicyByUserId(policy.value, full.value).value;
                    && (!u.active ==> r == Interception(ErrorResponse(MatrixUtil.ErrorUserDeactivated, "Deactivated in policy"), request))
                    && (u.active ==>
                          match check(full.value, password, u.authType, u.authCredential)
                          case Err(_) => r == Interception(ErrorResponse(MatrixUtil.ErrorUnknown, "Internal authenticator error"), request)
                          case Ok(false) => r == Interception(ErrorResponse(MatrixUtil.ErrorForbidden, "Failed authentication"), request)
                          case Ok(true) =>
                            r == Interception(ProxyResponse, WithJsonBody(codec, request,
                                   Rewritten(payload, auth, ident, full.value, SharedSecretAuth.GenerateForUserId(me.generator, full.value, hmac))))))
  {
    match MatrixUtil.DetermineFullUserId(user, me.homeserverDomainName)
    case Err(_) => Interception(ErrorResponse(MatrixUtil.ErrorForbidden, "Cannot interpret user id"), request)
    case Ok(userIdFull) =>
      if !MatrixUtil.IsFullUserIdOfDomain(userIdFull, me.homeserverDomainName) then
        Interception(ErrorResponse(MatrixUtil.ErrorForbidden, "Rejecting non-own domains"), request)
      else if policy.None? then Interception(ErrorResponse(MatrixUtil.ErrorUnknown, "Missing policy"), request)
      else
        match GetUserPolicyByUserId(policy.value, userIdFull)
        case None => Interception(ProxyResponse, request)
        case Some(u) =>
          if !u.active then Interception(ErrorResponse(MatrixUtil.ErrorUserDeactivated, "Deactivated in policy"), request)
          else
            match check(userIdFull, password, u.authType, u.authCredential)
            case Err(_) => Interception(ErrorResponse(MatrixUtil.ErrorUnknown, "Internal authenticator error"), request)
            case Ok(false) => Interception(ErrorResponse(MatrixUtil.ErrorForbidden, "Failed authentication"), request)
            case Ok(true) =>
              Interception(ProxyResponse, WithJsonBody(codec, request,
                Rewritten(payload, auth, ident, userIdFull, SharedSecretAuth.GenerateForUserId(me.generator, userIdFull, hmac))))
  }

  /** Password authentication: the password and the identifier must be there, and the identifier
      must name a user by its id. */
  function InterceptPassword(codec: Codec, hmac: Hmac, me: UiAuthInterceptor, policy: Option<Policy>, check: AuthCheck,
                             request: Request, payload: map<string, Json>, auth: map<string, Json>): (r: Result<Interception, string>)
    ensures (Get(auth, "identifier") == JNull || !Get(auth, "password").JStr?) ==>
              r == Ok(Interception(ErrorResponse(MatrixUtil.ErrorBadJson, "Bad input"), request))
    ensures r.Err? <==> Get(auth, "identifier") != JNull && Get(auth, "password").JStr? && !Get(auth, "identifier").JObj?
    ensures r.Err? ==> r.error == AssertionPanic(Get(auth, "identifier"), MapTypeName)
    ensures var ident := Get(auth, "identifier");
            ident.JObj? && Get(auth, "password").JStr? && !Get(ident.fields, "type").JStr? ==>
              r == Ok(Interception(ErrorResponse(MatrixUtil.ErrorBadJson, "Bad input"), request))
    ensures var ident := Get(auth, "identifier");
            ident.JObj? && Get(auth, "password").JStr? && Get(ident.fields, "type").JStr?
            && (Get(ident.fields, "type").s != MatrixUtil.LoginIdentifierTypeUser || !Get(ident.fields, "user").JStr?) ==>
              r == Ok(Interception(ErrorResponse(MatrixUtil.ErrorUnknown, ThirdPartyMessage), request))
    ensures var ident := Get(auth, "identifier");
            ident.JObj? && Get(auth, "password").JStr? && Get(ident.fields, "type") == JStr(MatrixUtil.LoginIdentifierTypeUser)
            && Get(ident.fields, "user").JStr? ==>
              r == Ok(InterceptUser(codec, hmac, me, policy, check, request, payload, auth, ident.fields,
                                    Get(ident.fields, "user").s, Get(auth, "password").s))
  {
    var pass := Get(auth, "password");
    var identifier := Get(auth, "identifier");
    if identifier == JNull || !pass.JStr? then Ok(Interception(ErrorResponse(MatrixUtil.ErrorBadJson, "Bad input"), request))
    else if !identifier.JObj? then Err(AssertionPanic(identifier, MapTypeName))
    else
      var idType := Get(identifier.fields, "type");
      var user := Get(identifier.fields, "user");
      if !idType.JStr? then Ok(Interception(ErrorResponse(MatrixUtil.ErrorBadJson, "Bad input"), request))
      else if idType.s != MatrixUtil.LoginIdentifierTypeUser || !user.JStr? then
        Ok(Interception(ErrorResponse(MatrixUtil.ErrorUnknown, ThirdPartyMessage), request))
      else Ok(InterceptUser(codec, hmac, me, policy, check, request, payload, auth, identifier.fields, user.s, pass.s))
  }

  /** `UiAuthInterceptor.Intercept`. `policy` is what the policy store holds. */
  function Intercept(codec: Codec, hmac: Hmac, me: UiAuthInterceptor, policy: Option<Policy>, check: AuthCheck,
                     request: Request): (r: Result<Interception, string>)
    ensures DecodeBody(codec, request.body).Err? ==>
              r == Ok(Interception(ErrorResponse(MatrixUtil.ErrorBadJson, "Bad input"), request))
    ensures var d := DecodeBody(codec, request.body);
            d.Ok? && Get(d.value, "auth") == JNull ==> r == Ok(Interception(ProxyResponse, request))
    ensures var d := DecodeBody(codec, request.body);
            d.Ok? && Get(d.value, "auth") != JNull && !Get(d.value, "auth").JObj? ==>
              r == Err(AssertionPanic(Get(d.value, "auth"), MapTypeName))
    ensures var d := DecodeBody(codec, request.body);
            d.Ok? && Get(d.value, "auth").JObj? ==>
              var auth := Get(d.value, "auth").fields;
              && (!Get(auth, "type").JStr? ==> r == Err(AssertionPanic(Get(auth, "type"), StringTypeName)))
              && (Get(auth, "type").JStr? && Get(auth, "type").s != MatrixUtil.LoginTypePassword ==>
                    r == Ok(Interception(ProxyResponse, request)))
              && (Get(auth, "type") == JStr(MatrixUtil.LoginTypePassword) ==>
                    r == InterceptPassword(codec, hmac, me, policy, check, request, d.value, auth))
  {
    match DecodeBody(codec, request.body)
    case Err(_) => Ok(Interception(ErrorResponse(MatrixUtil.ErrorBadJson, "Bad input"), request))
    case Ok(payload) =>
      var auth := Get(payload, "auth");
      if auth == JNull then Ok(Interception(ProxyResponse, request))
      else if !auth.JObj? then Err(AssertionPanic(auth, MapTypeName))
      else
        var authType := Get(auth.fields, "type");
        if !authType.JStr? then Err(AssertionPanic(authType, StringTypeName))
        else if authType.s != MatrixUtil.LoginTypePassword then Ok(Interception(ProxyResponse, request))
        else InterceptPassword(codec, hmac, me, policy, check, request, payload, auth.fields)
  }

  /** `doc` is `payload` with the password and the identifier's user replaced and nothing else
      changed: the same members at the top, in `auth` and in `auth.identifier`. */
  predicate OnlyCredentialsReplaced(payload: map<string, Json>, doc: Json, userIdFull: string, password: string)
  {
    && "auth" in payload && payload["auth"].JObj? && "identifier" in payload["auth"].fields
    && payload["auth"].fields["identifier"].JObj?
    && doc.JObj? && doc.fields.Keys == payload.Keys
    && (forall k :: k in payload && k != "auth" ==> doc.fields[k] == payload[k])
    && doc.fields["auth"].JObj?
    && doc.fields["auth"].fields.Keys == payload["auth"].fields.Keys + {"password"}
    && (forall k :: k in payload["auth"].fields && k != "identifier" && k != "password" ==>
          doc.fields["auth"].fields[k] == payload["auth"].fields[k])
    && doc.fields["auth"].fields["password"] == JStr(password)
    && doc.fields["auth"].fields["identifier"].JObj?
    && doc.fields["auth"].fields["identifier"].fields.Keys == payload["auth"].fields["identifier"].fields.Keys + {"user"}
    && (forall k :: k in payload["auth"].fields["identifier"].fields && k != "user" ==>
          doc.fields["auth"].fields["identifier"].fields[k] == payload["auth"].fields["identifier"].fields[k])
    && doc.fields["auth"].fields["identifier"].fields["user"] == JStr(userIdFull)
  }

  /** The rewrite replaces the two credentials and keeps every other member of the body. */
  lemma RewrittenReplacesOnlyCredentials(payload: map<string, Json>, auth: map<string, Json>, ident: map<string, Json>,
                                         userIdFull: string, password: string)
    requires Get(payload, "auth") == JObj(auth) && Get(auth, "identifier") == JObj(ident)
    ensures OnlyCredentialsReplaced(payload, Rewritten(payload, auth, ident, userIdFull, password), userIdFull, password)
  {
    assert "auth" in payload && "identifier" in auth;
  }

  /** What a rewritten request was built from. */
  lemma RewriteSource(codec: Codec, hmac: Hmac, me: UiAuthInterceptor, policy: Option<Policy>, check: AuthCheck,
                      request: Request)
    returns (payload: map<string, Json>, auth: map<string, Json>, ident: map<string, Json>, userIdFull: string, u: UserPolicy)
    requires Intercept(codec, hmac, me, policy, check, request).Ok?
    requires Intercept(codec, hmac, me, policy, check, request).value.request != request
    ensures DecodeBody(codec, request.body) == Ok(payload)
    ensures Get(payload, "auth") == JObj(auth) && Get(auth, "type") == JStr(MatrixUtil.LoginTypePassword)
    ensures Get(auth, "identifier") == JObj(ident) && Get(auth, "password").JStr?
    ensures Get(ident, "type") == JStr(MatrixUtil.LoginIdentifierTypeUser) && Get(ident, "user").JStr?
    ensures MatrixUtil.DetermineFullUserId(Get(ident, "user").s, me.homeserverDomainName) == Ok(userIdFull)
    ensures MatrixUtil.IsFullUserIdOfDomain(userIdFull, me.homeserverDomainName)
    ensures policy.Some? && GetUserPolicyByUserId(policy.value, userIdFull) == Some(u) && u.active
    ensures check(userIdFull, Get(auth, "password").s, u.authType, u.authCredential) == Ok(true)
    ensures Intercept(codec, hmac, me, policy, check, request).value
            == Interception(ProxyResponse, WithJsonBody(codec, request,
                 Rewritten(payload, auth, ident, userIdFull, SharedSecretAuth.GenerateForUserId(me.generator, userIdFull, hmac))))
  {
    var d := DecodeBody(codec, request.body);
    assert d.Ok?;
    payload := d.value;
    assert Get(payload, "auth").JObj?;
    auth := Get(payload, "auth").fields;
    assert Get(auth, "type") == JStr(MatrixUtil.LoginTypePassword);
    assert Get(auth, "identifier").JObj? && Get(auth, "password").JStr?;
    ident := Get(auth, "identifier").fields;
    assert Get(ident, "type") == JStr(MatrixUtil.LoginIdentifierTypeUser) && Get(ident, "user").JStr?;
    var full := MatrixUtil.DetermineFullUserId(Get(ident, "user").s, me.homeserverDomainName);
    assert full.Ok?;
    userIdFull := full.value;
    assert MatrixUtil.IsFullUserIdOfDomain(userIdFull, me.homeserverDomainName) && policy.Some?;
    assert GetUserPolicyByUserId(policy.value, userIdFull).Some?;
    u := GetUserPolicyByUserId(policy.value, userIdFull).value;
    assert u.active;
    assert check(userIdFull, Get(auth, "password").s, u.authType, u.authCredential) == Ok(true);
  }

  /** A request is rewritten only when a managed, active user of the domain authenticated with a
      password and an `m.id.user` identifier; the forwarded body then differs from the one sent
      only in `auth.password`, which is the generated password, and `auth.identifier.user`, which
      is the full id; and the homeserver's shared-secret provider accepts that password for that id
      exactly when the account exists. */
  lemma {:induction false} OnlyCredentialsAreRewritten(codec: Codec, hmac: Hmac, me: UiAuthInterceptor, policy: Option<Policy>,
                                                      check: AuthCheck, request: Request, accounts: set<string>, hasCompareDigest: bool)
    requires Intercept(codec, hmac, me, policy, check, request).Ok?
    requires Intercept(codec, hmac, me, policy, check, request).value.request != request
    ensures Intercept(codec, hmac, me, policy, check, request).value.response == ProxyResponse
    ensures DecodeBody(codec, request.body).Ok?
    ensures exists userIdFull: string, doc: Json ::
              && MatrixUtil.IsFullUserIdOfDomain(userIdFull, me.homeserverDomainName)
              && policy.Some? && IsManaged(policy.value, userIdFull)
              && Intercept(codec, hmac, me, policy, check, request).value.request == WithJsonBody(codec, request, doc)
              && OnlyCredentialsReplaced(DecodeBody(codec, request.body).value, doc, userIdFull,
                                         SharedSecretAuth.GenerateForUserId(me.generator, userIdFull, hmac))
              && SharedSecretAuthenticator.CheckPassword(
                   SharedSecretAuthenticator.SharedSecretAuthenticator(JStr(me.generator.sharedSecret)),
                   userIdFull, SharedSecretAuth.GenerateForUserId(me.generator, userIdFull, hmac), hmac, accounts, hasCompareDigest)
                 == Ok(SharedSecretAuthenticator.Answer(userIdFull in accounts, true))
  {
    var payload, auth, ident, userIdFull, u := RewriteSource(codec, hmac, me, policy, check, request);
    var password := SharedSecretAuth.GenerateForUserId(me.generator, userIdFull, hmac);
    var doc := Rewritten(payload, auth, ident, userIdFull, password);
    RewrittenReplacesOnlyCredentials(payload, auth, ident, userIdFull, password);
    SharedSecretAuthenticator.GeneratedPasswordAcceptedIffAccountExists(me.generator.sharedSecret, userIdFull, hmac, accounts, hasCompareDigest);
  }
}
