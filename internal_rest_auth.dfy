/** The gateway's internal REST authentication endpoint
    (corporal/httpgateway/handler/internal_rest_auth.go): the homeserver's REST password provider
    asks it whether a managed user's credentials are right. The endpoint answers only when it is
    enabled and only to allowed source addresses. */
module InternalRestAuth {
  import opened Wrappers
  import opened Json
  import opened Hex
  import opened Http
  import opened Policies
  import opened Interceptors
  import JsonBody
  import MatrixUtil
  import RestAuthProvider

  const CheckCredentialsPath := "/_matrix/corporal/_matrix-internal/identity/v1/check_credentials"

  /** `HttpGatewayInternalRESTAuth`: both settings may be absent from the configuration. */
  datatype InternalRestAuthConfig = InternalRestAuthConfig(enabled: Option<bool>, ipNetworkWhitelist: Option<seq<string>>)

  predicate Enabled(c: InternalRestAuthConfig)
  {
    c.enabled == Some(true)
  }

  // Addresses and networks

  /** An address as `net.ParseIP` gives it. */
  type Ip = seq<byte>

  /** `net.IPNet`. */
  datatype IpNet = IpNet(ip: seq<byte>, mask: seq<byte>)

  /** What the handler uses of package `net`: CIDR and address parsing, host/port splitting,
      network containment and the address classes. */
  datatype Net = Net(
    parseCidr: string -> Option<IpNet>,
    splitHostPort: string -> Result<string, string>,
    parseIp: string -> Option<Ip>,
    contains: (IpNet, Ip) -> bool,
    isLoopback: Ip -> bool,
    isLinkLocalUnicast: Ip -> bool,
    isLinkLocalMulticast: Ip -> bool)

  /** The list used when none is configured: IPv4 loopback, the three private ranges of RFC 1918,
      IPv4 link-local (RFC 3927), IPv6 loopback, IPv6 link-local and IPv6 unique local addresses
      (RFC 4193). */
  const DefaultWhitelist: seq<string> :=
    ["127.0.0.0/8", "10.0.0.0/8", "172.16.0.0/12", "192.168.0.0/16", "169.254.0.0/16",
     "::1/128", "fe80::/10", "fc00::/7"]

  /** `blocks` are the parsed entries of `cidrs`, in order. */
  predicate ParsedFrom(net: Net, cidrs: seq<string>, blocks: seq<IpNet>)
  {
    |blocks| == |cidrs| && forall i :: 0 <= i < |cidrs| ==> net.parseCidr(cidrs[i]) == Some(blocks[i])
  }

  predicate AllParse(net: Net, cidrs: seq<string>)
  {
    forall i :: 0 <= i < |cidrs| ==> net.parseCidr(cidrs[i]).Some?
  }

  /** `cidrListToBlockList`: every entry parsed, or the first one that does not parse. */
  method CidrListToBlockList(net: Net, cidrs: seq<string>) returns (r: Result<seq<IpNet>, string>)
    ensures r.Ok? <==> AllParse(net, cidrs)
    ensures r.Ok? ==> ParsedFrom(net, cidrs, r.value)
    ensures r.Err? ==> exists i :: 0 <= i < |cidrs| && r.error == cidrs[i] && net.parseCidr(cidrs[i]).None?
                                   && forall j :: 0 <= j < i ==> net.parseCidr(cidrs[j]).Some?
  {
    var blocks: seq<IpNet> := [];
    var i := 0;
    while i < |cidrs|
      invariant 0 <= i <= |cidrs|
      invariant ParsedFrom(net, cidrs[..i], blocks)
    {
      var parsed := net.parseCidr(cidrs[i]);
      if parsed.None? {
        assert forall j :: 0 <= j < i ==> net.parseCidr(cidrs[j]).Some? by {
          forall j | 0 <= j < i ensures net.parseCidr(cidrs[j]).Some? {
            assert cidrs[..i][j] == cidrs[j];
          }
        }
        return Err(cidrs[i]);
      }
      blocks := blocks + [parsed.value];
      assert cidrs[..i + 1] == cidrs[..i] + [cidrs[i]];
      i := i + 1;
    }
    assert cidrs[..i] == cidrs;
    return Ok(blocks);
  }

  /** `determineWhitelistedIPBlocks`: None means that every source is allowed. */
  method DetermineWhitelistedIpBlocks(net: Net, c: InternalRestAuthConfig) returns (r: Result<Option<seq<IpNet>>, string>)
    ensures !Enabled(c) ==> r == Ok(None)
    ensures Enabled(c) && c.ipNetworkWhitelist.None? ==>
              (r.Ok? <==> AllParse(net, DefaultWhitelist))
              && (r.Ok? ==> r.value.Some? && ParsedFrom(net, DefaultWhitelist, r.value.value))
    ensures Enabled(c) && c.ipNetworkWhitelist == Some([]) ==> r == Ok(None)
    ensures Enabled(c) && c.ipNetworkWhitelist.Some? && c.ipNetworkWhitelist.value != [] ==>
              (r.Ok? <==> AllParse(net, c.ipNetworkWhitelist.value))
              && (r.Ok? ==> r.value.Some? && ParsedFrom(net, c.ipNetworkWhitelist.value, r.value.value))
  {
    if !Enabled(c) {
      return Ok(None);
    }
    var cidrs: seq<string>;
    if c.ipNetworkWhitelist.None? {
      cidrs := DefaultWhitelist;
    } else if c.ipNetworkWhitelist.value == [] {
      return Ok(None);
    } else {
      cidrs := c.ipNetworkWhitelist.value;
    }
    var blocks := CidrListToBlockList(net, cidrs);
    match blocks
    case Err(e) => return Err(e);
    case Ok(b) => return Ok(Some(b));
  }

  /** Loopback and link-local addresses are let through whatever the list says. */
  predicate AlwaysAllowed(net: Net, ip: Ip)
  {
    net.isLoopback(ip) || net.isLinkLocalUnicast(ip) || net.isLinkLocalMulticast(ip)
  }

  /** `isWhitelistedIPAddress`. */
  method IsWhitelistedIpAddress(net: Net, ip: Ip, allowed: seq<IpNet>) returns (r: bool)
    ensures r <==> AlwaysAllowed(net, ip) || exists i :: 0 <= i < |allowed| && net.contains(allowed[i], ip)
  {
    if AlwaysAllowed(net, ip) {
      return true;
    }
    var i := 0;
    while i < |allowed|
      invariant 0 <= i <= |allowed|
      invariant forall j :: 0 <= j < i ==> !net.contains(allowed[j], ip)
    {
      if net.contains(allowed[i], ip) {
        return true;
      }
      i := i + 1;
    }
    return false;
  }

  /** The source address is accepted: it parses, and the list is absent or lets it through. */
  predicate SourceAllowed(net: Net, blocks: Option<seq<IpNet>>, remoteAddr: string)
  {
    && net.splitHostPort(remoteAddr).Ok?
    && net.parseIp(net.splitHostPort(remoteAddr).value).Some?
    && var ip := net.parseIp(net.splitHostPort(remoteAddr).value).value;
       (blocks.None? || AlwaysAllowed(net, ip) || exists i :: 0 <= i < |blocks.value| && net.contains(blocks.value[i], ip))
  }

  /** `checkIfRequestIsAllowed`. */
  method CheckIfRequestIsAllowed(net: Net, blocks: Option<seq<IpNet>>, remoteAddr: string) returns (r: Outcome<string>)
    ensures r.Pass? <==> SourceAllowed(net, blocks, remoteAddr)
    ensures net.splitHostPort(remoteAddr).Err? ==> r == Fail(net.splitHostPort(remoteAddr).error)
    ensures net.splitHostPort(remoteAddr).Ok? && net.parseIp(net.splitHostPort(remoteAddr).value).None? ==>
              r == Fail("Failed to parse IP: `" + net.splitHostPort(remoteAddr).value + "`")
  {
    var host := net.splitHostPort(remoteAddr);
    if host.Err? {
      return Fail(host.error);
    }
    var ip := net.parseIp(host.value);
    if ip.None? {
      return Fail("Failed to parse IP: `" + host.value + "`");
    }
    if blocks.None? {
      return Pass;
    }
    var whitelisted := IsWhitelistedIpAddress(net, ip.value, blocks.value);
    if !whitelisted {
      return Fail("Not allowed from this IP address");
    }
    return Pass;
  }

  // The credentials check

  /** `restAuthRequest`: `{"user": {"id": …, "password": …}}`. */
  datatype CredentialsRequest = CredentialsRequest(id: string, password: string)

  /** Unmarshalling the body into the request struct: the body and its `user` member are objects
      (or `null`) and the two fields strings (or absent). */
  function DecodeCredentialsRequest(codec: Codec, body: seq<byte>): (r: Result<CredentialsRequest, string>)
    ensures r.Ok? <==> (codec.decode(body).Some? && JsonBody.StringFieldsOf(codec.decode(body).value, {}).Ok?
                        && JsonBody.StringFieldsOf(JsonBody.Member(codec.decode(body).value, "user"), {"id", "password"}).Ok?)
    ensures r.Ok? && JsonBody.Member(codec.decode(body).value, "user").JObj? ==>
              var user := JsonBody.Member(codec.decode(body).value, "user").fields;
              r.value == CredentialsRequest(JsonBody.FieldValue(user, "id"), JsonBody.FieldValue(user, "password"))
  {
    match codec.decode(body)
    case None => Err(JsonBody.NotJsonError)
    case Some(j) =>
      match JsonBody.StringFieldsOf(j, {})
      case Err(e) => Err(e)
      case Ok(_) =>
        match JsonBody.StringFieldsOf(JsonBody.Member(j, "user"), {"id", "password"})
        case Err(e) => Err(e)
        case Ok(user) => Ok(CredentialsRequest(user["id"], user["password"]))
  }

  /** The answers the endpoint gives once the request came through the address check. */
  datatype CredentialsAnswer =
    | BadPayload
    | MissingPolicy
    | AuthenticatorError
    | Unsuccessful
    | Authenticated(mxid: string, displayName: string)

  /** The credentials are right for a managed, active, non-passthrough user of the domain. */
  predicate Authenticates(domain: string, policy: Policy, check: AuthCheck, req: CredentialsRequest)
  {
    && MatrixUtil.DetermineFullUserId(req.id, domain).Ok?
    && var full := MatrixUtil.DetermineFullUserId(req.id, domain).value;
       && MatrixUtil.IsFullUserIdOfDomain(full, domain)
       && GetUserPolicyByUserId(policy, full).Some?
       && var u := GetUserPolicyByUserId(policy, full).value;
          && u.active && u.authType != UserAuthTypePassthrough
          && check(full, req.password, u.authType, u.authCredential) == Ok(true)
  }

  /** The decision once the payload was decoded. */
  function Decide(domain: string, policy: Option<Policy>, check: AuthCheck, req: CredentialsRequest): (a: CredentialsAnswer)
    ensures a != BadPayload
    ensures policy.None? <==> a == MissingPolicy
    ensures policy.Some? ==> (a.Authenticated? <==> Authenticates(domain, policy.value, check, req))
    ensures a.Authenticated? ==>
              && MatrixUtil.DetermineFullUserId(req.id, domain) == Ok(a.mxid)
              && a.displayName == GetUserPolicyByUserId(policy.value, a.mxid).value.displayName
    ensures a == AuthenticatorError ==>
              && policy.Some? && MatrixUtil.DetermineFullUserId(req.id, domain).Ok?
              && var full := MatrixUtil.DetermineFullUserId(req.id, domain).value;
                 && GetUserPolicyByUserId(policy.value, full).Some?
                 && var u := GetUserPolicyByUserId(policy.value, full).value;
                    check(full, req.password, u.authType, u.authCredential).Err?
  {
    if policy.None? then MissingPolicy
    else
      match MatrixUtil.DetermineFullUserId(req.id, domain)
      case Err(_) => Unsuccessful
      case Ok(full) =>
        if !MatrixUtil.IsFullUserIdOfDomain(full, domain) then Unsuccessful
        else
          match GetUserPolicyByUserId(policy.value, full)
          case None => Unsuccessful
          case Some(u) =>
            if !u.active then Unsuccessful
            else if u.authType == UserAuthTypePassthrough then Unsuccessful
            else
              match check(full, req.password, u.authType, u.authCredential)
              case Err(_) => AuthenticatorError
              case Ok(false) => Unsuccessful
              case Ok(true) => Authenticated(full, u.displayName)
  }

  /** Every refusal of a user is the same unsuccessful answer, never an error: an id that cannot
      be made full, another domain, an unmanaged, inactive or passthrough user, wrong credentials. */
  lemma {:induction false} RefusalsAreUnsuccessful(domain: string, policy: Policy, check: AuthCheck, req: CredentialsRequest)
    ensures var full := MatrixUtil.DetermineFullUserId(req.id, domain);
            var u := if full.Ok? then GetUserPolicyByUserId(policy, full.value) else None;
            (|| full.Err?
             || !MatrixUtil.IsFullUserIdOfDomain(full.value, domain)
             || u.None?
             || !u.value.active
             || u.value.authType == UserAuthTypePassthrough
             || check(full.value, req.password, u.value.authType, u.value.authCredential) == Ok(false))
            ==> Decide(domain, Some(policy), check, req) == Unsuccessful
  {
  }

  /** The documents of a refusal and of an acceptance. */
  const UnsuccessfulDocument := JObj(map["auth" := JObj(map["success" := JBool(false)])])

  function AuthenticatedDocument(mxid: string, displayName: string): Json
  {
    JObj(map["auth" := JObj(map[
      "success" := JBool(true),
      "mxid" := JStr(mxid),
      "profile" := JObj(map["display_name" := JStr(displayName)])])])
  }

  /** The reply each answer is written as. */
  function AnswerReply(codec: Codec, a: CredentialsAnswer): (r: Reply)
    ensures a == BadPayload ==> r == MatrixErrorReply(codec, 400, MatrixUtil.ErrorBadJson, "Bad request payload")
    ensures a == MissingPolicy ==> r == MatrixErrorReply(codec, 500, MatrixUtil.ErrorUnknown, "Missing policy")
    ensures a == AuthenticatorError ==> r == MatrixErrorReply(codec, 500, MatrixUtil.ErrorUnknown, "Internal authenticator error")
    ensures a == Unsuccessful ==> r == JsonReply(codec, 200, UnsuccessfulDocument)
    ensures a.Authenticated? ==> r == JsonReply(codec, 200, AuthenticatedDocument(a.mxid, a.displayName))
  {
    match a
    case BadPayload => MatrixErrorReply(codec, 400, MatrixUtil.ErrorBadJson, "Bad request payload")
    case MissingPolicy => MatrixErrorReply(codec, 500, MatrixUtil.ErrorUnknown, "Missing policy")
    case AuthenticatorError => MatrixErrorReply(codec, 500, MatrixUtil.ErrorUnknown, "Internal authenticator error")
    case Unsuccessful => JsonReply(codec, 200, UnsuccessfulDocument)
    case Authenticated(mxid, displayName) => JsonReply(codec, 200, AuthenticatedDocument(mxid, displayName))
  }

  /** The answer to a request that came from an allowed address. */
  function Answer(codec: Codec, domain: string, policy: Option<Policy>, check: AuthCheck, body: seq<byte>): (a: CredentialsAnswer)
    ensures DecodeCredentialsRequest(codec, body).Err? <==> a == BadPayload
    ensures DecodeCredentialsRequest(codec, body).Ok? ==> a == Decide(domain, policy, check, DecodeCredentialsRequest(codec, body).value)
  {
    match DecodeCredentialsRequest(codec, body)
    case Err(_) => BadPayload
    case Ok(req) => Decide(domain, policy, check, req)
  }

  /** The handler with its address list, built once. */
  datatype InternalRestAuthHandler = InternalRestAuthHandler(
    homeserverDomainName: string,
    configuration: InternalRestAuthConfig,
    whitelistedIpBlocks: Option<seq<IpNet>>)

  /** `NewInternalRESTAuthHandler`: a list entry that does not parse stops the program. */
  method NewInternalRestAuthHandler(net: Net, homeserverDomainName: string, c: InternalRestAuthConfig)
    returns (r: Result<InternalRestAuthHandler, string>)
    ensures r.Ok? ==> r.value.homeserverDomainName == homeserverDomainName && r.value.configuration == c
    ensures r.Ok? && !Enabled(c) ==> r.value.whitelistedIpBlocks.None?
    ensures Enabled(c) && c.ipNetworkWhitelist == Some([]) ==> r.Ok? && r.value.whitelistedIpBlocks.None?
    ensures Enabled(c) && c.ipNetworkWhitelist.None? ==>
              (r.Ok? <==> AllParse(net, DefaultWhitelist))
              && (r.Ok? ==> r.value.whitelistedIpBlocks.Some? && ParsedFrom(net, DefaultWhitelist, r.value.whitelistedIpBlocks.value))
    ensures Enabled(c) && c.ipNetworkWhitelist.Some? && c.ipNetworkWhitelist.value != [] ==>
              (r.Ok? <==> AllParse(net, c.ipNetworkWhitelist.value))
              && (r.Ok? ==> r.value.whitelistedIpBlocks.Some? && ParsedFrom(net, c.ipNetworkWhitelist.value, r.value.whitelistedIpBlocks.value))
  {
    var blocks := DetermineWhitelistedIpBlocks(net, c);
    match blocks
    case Err(e) => return Err("Failed parsing IPNetworkWhitelist: " + e);
    case Ok(b) => return Ok(InternalRestAuthHandler(homeserverDomainName, c, b));
  }

  /** `actionCheckCredentials`: disabled gives 403 before anything else, a refused address 403,
      and otherwise the reply of the answer. */
  method ActionCheckCredentials(codec: Codec, net: Net, me: InternalRestAuthHandler, policy: Option<Policy>, check: AuthCheck,
                                remoteAddr: string, request: Request) returns (reply: Reply)
    ensures !Enabled(me.configuration) ==>
              reply == MatrixErrorReply(codec, 403, MatrixUtil.ErrorForbidden, "Internal REST auth is not enabled")
    ensures Enabled(me.configuration) && !SourceAllowed(net, me.whitelistedIpBlocks, remoteAddr) ==>
              reply == MatrixErrorReply(codec, 403, MatrixUtil.ErrorForbidden, "Refusing to authenticate this HTTP request (bad source IP)")
    ensures Enabled(me.configuration) && SourceAllowed(net, me.whitelistedIpBlocks, remoteAddr) ==>
              reply == AnswerReply(codec, Answer(codec, me.homeserverDomainName, policy, check, request.body))
  {
    if !Enabled(me.configuration) {
      return MatrixErrorReply(codec, 403, MatrixUtil.ErrorForbidden, "Internal REST auth is not enabled");
    }
    var allowed := CheckIfRequestIsAllowed(net, me.whitelistedIpBlocks, remoteAddr);
    if allowed.Fail? {
      return MatrixErrorReply(codec, 403, MatrixUtil.ErrorForbidden, "Refusing to authenticate this HTTP request (bad source IP)");
    }
    return AnswerReply(codec, Answer(codec, me.homeserverDomainName, policy, check, request.body));
  }

  /** The homeserver's REST password provider reads a refusal as a rejected login. */
  lemma ProviderReadsRefusal(codec: Codec)
    requires Lossless(codec, UnsuccessfulDocument)
    ensures var reply := AnswerReply(codec, Unsuccessful);
            RestAuthProvider.ReadVerdict(RestAuthProvider.HttpResponse(reply.statusCode, codec.decode(reply.payload)))
            == Ok(RestAuthProvider.Rejected)
  {
    var auth := JObj(map["success" := JBool(false)]);
    assert Truthy(auth);
  }

  /** It reads an acceptance as an accepted login whose profile carries the policy's display
      name. */
  lemma ProviderReadsAcceptance(codec: Codec, mxid: string, displayName: string)
    requires Lossless(codec, AuthenticatedDocument(mxid, displayName))
    ensures var reply := AnswerReply(codec, Authenticated(mxid, displayName));
            var read := RestAuthProvider.ReadVerdict(RestAuthProvider.HttpResponse(reply.statusCode, codec.decode(reply.payload)));
            && read.Ok? && read.value.Accepted?
            && Lookup(read.value.auth, ["profile", "display_name"]) == Some(JStr(displayName))
  {
    var profile := JObj(map["display_name" := JStr(displayName)]);
    var auth := JObj(map["success" := JBool(true), "mxid" := JStr(mxid), "profile" := profile]);
    var reply := AnswerReply(codec, Authenticated(mxid, displayName));
    assert codec.decode(reply.payload) == Some(JObj(map["auth" := auth]));
    assert PyIndex(JObj(map["auth" := auth]), "auth") == Ok(auth);
    assert Truthy(auth);
    assert PyIndex(auth, "success") == Ok(JBool(true));
    assert RestAuthProvider.ReadVerdict(RestAuthProvider.HttpResponse(200, Some(JObj(map["auth" := auth])))) == Ok(RestAuthProvider.Accepted(auth));
    assert Lookup(auth, ["profile", "display_name"]) == Lookup(profile, ["display_name"]);
  }

  /** Every error reply reads as a failed HTTP status, never as a verdict. */
  lemma ProviderReadsErrors(codec: Codec, a: CredentialsAnswer)
    requires !a.Unsuccessful? && !a.Authenticated?
    ensures var reply := AnswerReply(codec, a);
            RestAuthProvider.ReadVerdict(RestAuthProvider.HttpResponse(reply.statusCode, codec.decode(reply.payload)))
            == Err(RestAuthProvider.HttpStatusError(reply.statusCode))
  {
  }
}
