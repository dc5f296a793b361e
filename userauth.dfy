/** The user authenticators (corporal/userauth, src/devture/matrix/corporal/userauth): the
    known auth types, the stateless plain, bcrypt, none and REST authenticators, the hash
    authenticator with its reusable hash object, the cache-fallback wrapper and the registry
    that dispatches on a user's auth type. Hash functions, bcrypt, UTF-8 encoding and the
    HTTP POST are parameters. */
module UserAuth {
  import opened Wrappers
  import opened Json
  import opened Hex
  import opened Http
  import opened Strings
  import Util
  import JsonBody
  import InternalRestAuth
  import Interceptors

  // Auth types (corporal/userauth/types.go)

  const UserAuthTypePlain := "plain"
  const UserAuthTypePassthrough := "passthrough"
  const UserAuthTypeMd5 := "md5"
  const UserAuthTypeSha1 := "sha1"
  const UserAuthTypeSha256 := "sha256"
  const UserAuthTypeSha512 := "sha512"
  const UserAuthTypeBcrypt := "bcrypt"
  const UserAuthTypeRest := "rest"

  /** The types of the stateless authenticators that `types.go` does not list. */
  const UserAuthTypeNone := "none"
  const UserAuthTypeRestWithCacheFallback := "rest-with-cache-fallback"

  const KnownUserAuthTypes: seq<string> := [
    UserAuthTypePlain, UserAuthTypePassthrough, UserAuthTypeMd5, UserAuthTypeSha1,
    UserAuthTypeSha256, UserAuthTypeSha512, UserAuthTypeBcrypt, UserAuthTypeRest]

  /** Exact, case-sensitive membership in the list of known types. */
  method IsKnownUserAuthType(value: string) returns (r: bool)
    ensures r <==> value in KnownUserAuthTypes
  {
    r := Util.IsStringInArray(value, KnownUserAuthTypes);
  }

  /** The eight known types are distinct, and neither "none" nor the cache-fallback type is one. */
  lemma KnownUserAuthTypesShape()
    ensures |KnownUserAuthTypes| == 8
    ensures forall i, j :: 0 <= i < j < |KnownUserAuthTypes| ==> KnownUserAuthTypes[i] != KnownUserAuthTypes[j]
    ensures UserAuthTypeNone !in KnownUserAuthTypes
    ensures UserAuthTypeRestWithCacheFallback !in KnownUserAuthTypes
    ensures "Plain" !in KnownUserAuthTypes && "SHA512" !in KnownUserAuthTypes
  {
  }

  // Stateless authenticators

  /** The reply of the HTTP POST a REST authenticator makes. */
  datatype PostReply = PostReply(statusCode: int, body: seq<byte>)

  /** `post(url, payload)`: the reply, or the transport's (or body read's) error. */
  type Post = (string, seq<byte>) -> Result<PostReply, string>

  datatype Authenticator =
    | PlainAuthenticator
      /** `compare(hashed, password)`: bcrypt's `CompareHashAndPassword`, which reports a mismatch
          as an error like any other failure. */
    | BcryptAuthenticator(utf8: string -> seq<byte>, compare: (seq<byte>, seq<byte>) -> Outcome<string>)
    | NoneAuthenticator
    | RestAuthenticator(codec: Codec, post: Post)

  /** `Type()`: every stateless authenticator but `none` has one of the known types. */
  function AuthType(a: Authenticator): (t: string)
    ensures a.NoneAuthenticator? <==> t !in KnownUserAuthTypes
    ensures t != UserAuthTypeRestWithCacheFallback
  {
    match a
    case PlainAuthenticator => UserAuthTypePlain
    case BcryptAuthenticator(_, _) => UserAuthTypeBcrypt
    case NoneAuthenticator => UserAuthTypeNone
    case RestAuthenticator(_, _) => UserAuthTypeRest
  }

  const MaxBcryptPasswordLength := 4096
  const LongPasswordError := "Rejecting long password"

  /** `restAuthRequest`: `{"user": {"id": …, "password": …}}`. */
  function RestAuthRequestDocument(userId: string, password: string): Json
  {
    JObj(map["user" := JObj(map["id" := JStr(userId), "password" := JStr(password)])])
  }

  /** A field the `bool` member of the response struct can take. */
  predicate FitsBoolField(fields: map<string, Json>, key: string)
  {
    key !in fields || fields[key].JNull? || fields[key].JBool?
  }

  /** `auth.success` of a decoded response, false when absent or `null`. */
  predicate Success(j: Json)
  {
    var auth := JsonBody.Member(j, "auth");
    auth.JObj? && "success" in auth.fields && auth.fields["success"] == JBool(true)
  }

  /** Unmarshalling a response body into `RestAuthResponse`: the body, `auth` and `auth.profile`
      are objects (or `null`), `success` is a boolean and `mxid`, `display_name` are strings
      (each or absent or `null`); other members are ignored. The answer is `auth.success`. */
  function DecodeRestAuthResponse(codec: Codec, url: string, body: seq<byte>): (r: Result<bool, string>)
    ensures r.Ok? <==> (
      && codec.decode(body).Some?
      && var j := codec.decode(body).value;
         var auth := JsonBody.Member(j, "auth");
         && JsonBody.StringFieldsOf(j, {}).Ok?
         && JsonBody.StringFieldsOf(auth, {"mxid"}).Ok?
         && (auth.JObj? ==> FitsBoolField(auth.fields, "success"))
         && JsonBody.StringFieldsOf(JsonBody.Member(auth, "profile"), {"display_name"}).Ok?)
    ensures r.Ok? ==> r.value == Success(codec.decode(body).value)
  {
    match codec.decode(body)
    case None => Err("Failed to decode JSON for " + url)
    case Some(j) =>
      var auth := JsonBody.Member(j, "auth");
      if JsonBody.StringFieldsOf(j, {}).Err? || JsonBody.StringFieldsOf(auth, {"mxid"}).Err? then
        Err("Failed to decode JSON for " + url)
      else if auth.JObj? && !FitsBoolField(auth.fields, "success") then
        Err("Failed to decode JSON for " + url)
      else if JsonBody.StringFieldsOf(JsonBody.Member(auth, "profile"), {"display_name"}).Err? then
        Err("Failed to decode JSON for " + url)
      else Ok(Success(j))
  }

  /** `Authenticate(userId, givenPassword, authCredential)` of a stateless authenticator. */
  function AuthenticateWith(a: Authenticator, userId: string, givenPassword: string, authCredential: string): (r: Result<bool, string>)
    ensures a.PlainAuthenticator? ==> r == Ok(givenPassword == authCredential)
    ensures a.NoneAuthenticator? ==> r == Ok(false)
    ensures a.BcryptAuthenticator? ==>
              && (|a.utf8(givenPassword)| > MaxBcryptPasswordLength ==> r == Err(LongPasswordError))
              && (|a.utf8(givenPassword)| <= MaxBcryptPasswordLength ==>
                    (r == Ok(true) <==> a.compare(a.utf8(authCredential), a.utf8(givenPassword)) == Pass))
              && r != Ok(false)
    ensures a.RestAuthenticator? ==>
              var reply := a.post(authCredential, a.codec.encode(RestAuthRequestDocument(userId, givenPassword)));
              && (reply.Err? ==> r == Err(reply.error))
              && (reply.Ok? && reply.value.statusCode != 200 ==> r.Err?)
              && (reply.Ok? && reply.value.statusCode == 200 ==>
                    r == DecodeRestAuthResponse(a.codec, authCredential, reply.value.body))
  {
    match a
    case PlainAuthenticator => Ok(ConstantTimeEquals(givenPassword, authCredential))
    case BcryptAuthenticator(utf8, compare) =>
      if |utf8(givenPassword)| > MaxBcryptPasswordLength then Err(LongPasswordError)
      else (
        match compare(utf8(authCredential), utf8(givenPassword))
        case Fail(e) => Err(e)
        case Pass => Ok(true))
    case NoneAuthenticator => Ok(false)
    case RestAuthenticator(codec, post) =>
      match post(authCredential, codec.encode(RestAuthRequestDocument(userId, givenPassword)))
      case Err(e) => Err(e)
      case Ok(reply) =>
        if reply.statusCode != 200 then Err("Non-OK HTTP response for " + authCredential)
        else DecodeRestAuthResponse(codec, authCredential, reply.body)
  }

  /** Only the REST authenticator looks at the user id; none of the others errs on it either. */
  lemma UserIdIgnored(a: Authenticator, u1: string, u2: string, givenPassword: string, authCredential: string)
    requires !a.RestAuthenticator?
    ensures AuthenticateWith(a, u1, givenPassword, authCredential) == AuthenticateWith(a, u2, givenPassword, authCredential)
  {
  }

  /** The none authenticator answers the same for every input. */
  lemma NoneIsConstant(u1: string, p1: string, c1: string, u2: string, p2: string, c2: string)
    ensures AuthenticateWith(NoneAuthenticator, u1, p1, c1) == AuthenticateWith(NoneAuthenticator, u2, p2, c2) == Ok(false)
  {
  }

  /** The request the REST authenticator sends is what the gateway's own credentials endpoint
      decodes. */
  lemma GatewayDecodesRestRequest(codec: Codec, userId: string, password: string)
    requires Interceptors.Lossless(codec, RestAuthRequestDocument(userId, password))
    ensures InternalRestAuth.DecodeCredentialsRequest(codec, codec.encode(RestAuthRequestDocument(userId, password)))
            == Ok(InternalRestAuth.CredentialsRequest(userId, password))
  {
    var user := map["id" := JStr(userId), "password" := JStr(password)];
    assert JsonBody.Member(RestAuthRequestDocument(userId, password), "user") == JObj(user);
    assert JsonBody.FitsStringField(user, "id") && JsonBody.FitsStringField(user, "password");
  }

  /** Pointed at the gateway's credentials endpoint, the REST authenticator reads a refusal as
      wrong credentials, */
  lemma RestAuthenticatorReadsRefusal(codec: Codec, post: Post, url: string, userId: string, password: string)
    requires var reply := InternalRestAuth.AnswerReply(codec, InternalRestAuth.Unsuccessful);
             post(url, codec.encode(RestAuthRequestDocument(userId, password))) == Ok(PostReply(reply.statusCode, reply.payload))
    requires Interceptors.Lossless(codec, InternalRestAuth.UnsuccessfulDocument)
    ensures AuthenticateWith(RestAuthenticator(codec, post), userId, password, url) == Ok(false)
  {
    var j := InternalRestAuth.UnsuccessfulDocument;
    var auth := JsonBody.Member(j, "auth");
    assert auth == JObj(map["success" := JBool(false)]);
    assert JsonBody.Member(auth, "profile") == JNull;
    assert !Success(j);
  }

  /** an acceptance as right credentials, */
  lemma RestAuthenticatorReadsAcceptance(codec: Codec, post: Post, url: string, userId: string, password: string,
                                         mxid: string, displayName: string)
    requires var reply := InternalRestAuth.AnswerReply(codec, InternalRestAuth.Authenticated(mxid, displayName));
             post(url, codec.encode(RestAuthRequestDocument(userId, password))) == Ok(PostReply(reply.statusCode, reply.payload))
    requires Interceptors.Lossless(codec, InternalRestAuth.AuthenticatedDocument(mxid, displayName))
    ensures AuthenticateWith(RestAuthenticator(codec, post), userId, password, url) == Ok(true)
  {
    var j := InternalRestAuth.AuthenticatedDocument(mxid, displayName);
    var profile := map["display_name" := JStr(displayName)];
    var auth := JsonBody.Member(j, "auth");
    assert auth.fields == map["success" := JBool(true), "mxid" := JStr(mxid), "profile" := JObj(profile)];
    assert JsonBody.FitsStringField(auth.fields, "mxid");
    assert JsonBody.Member(auth, "profile") == JObj(profile);
    assert JsonBody.FitsStringField(profile, "display_name");
    assert Success(j);
    var reply := InternalRestAuth.AnswerReply(codec, InternalRestAuth.Authenticated(mxid, displayName));
    assert reply.statusCode == 200 && codec.decode(reply.payload) == Some(j);
    assert DecodeRestAuthResponse(codec, url, reply.payload) == Ok(true);
  }

  /** and every error answer (bad payload, missing policy, authenticator error) as an error. */
  lemma RestAuthenticatorReadsErrors(codec: Codec, post: Post, url: string, userId: string, password: string,
                                     answer: InternalRestAuth.CredentialsAnswer)
    requires !answer.Unsuccessful? && !answer.Authenticated?
    requires var reply := InternalRestAuth.AnswerReply(codec, answer);
             post(url, codec.encode(RestAuthRequestDocument(userId, password))) == Ok(PostReply(reply.statusCode, reply.payload))
    ensures AuthenticateWith(RestAuthenticator(codec, post), userId, password, url).Err?
  {
  }

  // Hash authenticators (corporal/userauth/hash.go)

  const InvalidHexError := "encoding/hex: invalid byte or odd length"

  /** The verdict of a hash authenticator whose hash, freshly reset, was given `written`: the
      credential must be hex, and it then matches when it decodes to the digest. */
  function HashVerdict(digest: seq<byte> -> seq<byte>, written: seq<byte>, authCredential: string): (r: Result<bool, string>)
    ensures r.Err? <==> HexDecode(authCredential).None?
    ensures r.Ok? ==> (r.value <==> HexDecode(authCredential) == Some(digest(written)))
  {
    match HexDecode(authCredential)
    case None => Err(InvalidHexError)
    case Some(credentialBytes) => Ok(ConstantTimeEquals(credentialBytes, digest(written)))
  }

  /** A lowercase credential is accepted exactly when it is the hex rendering of the digest; an
      uppercase rendering is accepted too, since decoding ignores case. */
  lemma LowercaseCredentialIsRendering(digest: seq<byte> -> seq<byte>, written: seq<byte>, authCredential: string)
    requires authCredential == Lower(authCredential)
    ensures HashVerdict(digest, written, authCredential) == Ok(true) <==> authCredential == HexLower(digest(written))
  {
    LowercaseHexIsRendering(authCredential, digest(written));
  }

  class HashAuthenticator {
    const authType: string
    const digest: seq<byte> -> seq<byte>
    const utf8: string -> seq<byte>
    /** The bytes written to the shared hash object since its last reset. */
    var written: seq<byte>

    constructor(digest: seq<byte> -> seq<byte>, utf8: string -> seq<byte>, authType: string)
      ensures this.authType == authType && this.digest == digest && this.utf8 == utf8 && written == []
    {
      this.authType := authType;
      this.digest := digest;
      this.utf8 := utf8;
      written := [];
    }

    /** The hash object is reset before the password is written, so the verdict does not depend
        on what earlier calls wrote; a non-hex credential returns before the hash is touched. */
    method Authenticate(userId: string, givenPassword: string, authCredential: string) returns (r: Result<bool, string>)
      modifies this
      ensures r == HashVerdict(digest, utf8(givenPassword), authCredential)
      ensures HexDecode(authCredential).None? ==> written == old(written)
      ensures HexDecode(authCredential).Some? ==> written == utf8(givenPassword)
    {
      var credentialBytes := HexDecode(authCredential);
      if credentialBytes.None? {
        return Err(InvalidHexError);
      }
      written := [];
      written := written + utf8(givenPassword);
      assert written == utf8(givenPassword);
      var hashBytes := digest(written);
      return Ok(ConstantTimeEquals(credentialBytes.value, hashBytes));
    }
  }

  method NewMd5Authenticator(md5: seq<byte> -> seq<byte>, utf8: string -> seq<byte>) returns (h: HashAuthenticator)
    ensures fresh(h) && h.authType == UserAuthTypeMd5 && h.digest == md5 && h.utf8 == utf8 && h.written == []
  {
    h := new HashAuthenticator(md5, utf8, UserAuthTypeMd5);
  }

  method NewSha1Authenticator(sha1: seq<byte> -> seq<byte>, utf8: string -> seq<byte>) returns (h: HashAuthenticator)
    ensures fresh(h) && h.authType == UserAuthTypeSha1 && h.digest == sha1 && h.utf8 == utf8 && h.written == []
  {
    h := new HashAuthenticator(sha1, utf8, UserAuthTypeSha1);
  }

  method NewSha256Authenticator(sha256: seq<byte> -> seq<byte>, utf8: string -> seq<byte>) returns (h: HashAuthenticator)
    ensures fresh(h) && h.authType == UserAuthTypeSha256 && h.digest == sha256 && h.utf8 == utf8 && h.written == []
  {
    h := new HashAuthenticator(sha256, utf8, UserAuthTypeSha256);
  }

  method NewSha512Authenticator(sha512: seq<byte> -> seq<byte>, utf8: string -> seq<byte>) returns (h: HashAuthenticator)
    ensures fresh(h) && h.authType == UserAuthTypeSha512 && h.digest == sha512 && h.utf8 == utf8 && h.written == []
  {
    h := new HashAuthenticator(sha512, utf8, UserAuthTypeSha512);
  }

  // Cache fallback (src/devture/matrix/corporal/userauth/caching.go)

  const CacheFallbackFailedPrefix := "Cache fallback failed, after upstream's failure: "

  /** The text the cache key is hashed from. */
  function RawCacheKey(userId: string, givenPassword: string, authCredential: string): string
  {
    userId + "-" + givenPassword + "-" + authCredential
  }

  /** Moving a dash from the end of one part to the start of the next gives the same raw key, so
      such triples share one cache entry. */
  lemma DashShiftedTriplesShareKey(userId: string, shifted: string, givenPassword: string, authCredential: string)
    ensures RawCacheKey(userId + "-" + shifted, givenPassword, authCredential)
            == RawCacheKey(userId, shifted + "-" + givenPassword, authCredential)
  {
  }

  /** The verdict of the wrapper given the upstream verdict and the cached one under the key. */
  function FallbackResult(upstream: Result<bool, string>, cache: map<seq<byte>, bool>, key: seq<byte>): (r: Result<bool, string>)
    ensures upstream.Ok? ==> r == upstream
    ensures upstream.Err? && key in cache ==> r == Ok(cache[key])
    ensures upstream.Err? && key !in cache ==> r == Err(CacheFallbackFailedPrefix + upstream.error)
  {
    match upstream
    case Ok(_) => upstream
    case Err(e) => if key in cache then Ok(cache[key]) else Err(CacheFallbackFailedPrefix + e)
  }

  /** The cache after the call: only an upstream success is stored, replacing what was there. */
  function FallbackCache(upstream: Result<bool, string>, cache: map<seq<byte>, bool>, key: seq<byte>): (c: map<seq<byte>, bool>)
    ensures upstream.Ok? ==> c == cache[key := upstream.value]
    ensures upstream.Err? ==> c == cache
  {
    if upstream.Ok? then cache[key := upstream.value] else cache
  }

  /** After an upstream success for a key, a later upstream failure for the same key gets the
      same verdict back, whatever was cached before. */
  lemma FailureAfterSuccessServesStoredVerdict(first: Result<bool, string>, second: Result<bool, string>,
                                               cache: map<seq<byte>, bool>, key: seq<byte>)
    requires first.Ok? && second.Err?
    ensures FallbackResult(second, FallbackCache(first, cache, key), key) == first
  {
  }

  /** A verdict the wrapper gives is one upstream gave, now or in the call that filled the entry. */
  lemma FallbackNeverInvents(upstream: Result<bool, string>, cache: map<seq<byte>, bool>, key: seq<byte>)
    ensures FallbackResult(upstream, cache, key).Ok? ==>
              FallbackResult(upstream, cache, key) == upstream
              || (key in cache && FallbackResult(upstream, cache, key) == Ok(cache[key]))
  {
  }

  class CacheFallbackAuthenticator {
    const authType: string
    const other: Authenticator
    const utf8: string -> seq<byte>
    const sha256: seq<byte> -> seq<byte>
    /** The cached verdicts by key; eviction of the bounded cache is not modelled. */
    var cache: map<seq<byte>, bool>

    constructor(authType: string, other: Authenticator, utf8: string -> seq<byte>, sha256: seq<byte> -> seq<byte>)
      ensures this.authType == authType && this.other == other && this.utf8 == utf8 && this.sha256 == sha256
      ensures cache == map[]
    {
      this.authType := authType;
      this.other := other;
      this.utf8 := utf8;
      this.sha256 := sha256;
      cache := map[];
    }

    /** The SHA-256 of the UTF-8 raw key. */
    function CacheKey(userId: string, givenPassword: string, authCredential: string): seq<byte>
    {
      sha256(utf8(RawCacheKey(userId, givenPassword, authCredential)))
    }

    /** Upstream is always asked first; its success is stored and returned; its failure falls
        back to the stored verdict, or fails when there is none. */
    method Authenticate(userId: string, givenPassword: string, authCredential: string) returns (r: Result<bool, string>)
      modifies this
      ensures var upstream := AuthenticateWith(other, userId, givenPassword, authCredential);
              var key := CacheKey(userId, givenPassword, authCredential);
              && r == FallbackResult(upstream, old(cache), key)
              && cache == FallbackCache(upstream, old(cache), key)
    {
      var cacheKey := CacheKey(userId, givenPassword, authCredential);
      var upstream := AuthenticateWith(other, userId, givenPassword, authCredential);
      if upstream.Ok? {
        cache := cache[cacheKey := upstream.value];
        return upstream;
      }
      if cacheKey !in cache {
        return Err(CacheFallbackFailedPrefix + upstream.error);
      }
      return Ok(cache[cacheKey]);
    }
  }

  // The registry (src/devture/matrix/corporal/userauth/checker.go)

  /** What can be registered: a stateless authenticator, or one of the two that hold state. */
  datatype Registered =
    | Stateless(authenticator: Authenticator)
    | Hashing(hash: HashAuthenticator)
    | Caching(caching: CacheFallbackAuthenticator)

  function RegisteredType(entity: Registered): string
  {
    match entity
    case Stateless(a) => AuthType(a)
    case Hashing(h) => h.authType
    case Caching(c) => c.authType
  }

  const UnsupportedAuthenticatorPrefix := "Unsupported authenticator: "

  class Checker {
    var authenticators: map<string, Registered>

    constructor()
      ensures authenticators == map[]
    {
      authenticators := map[];
    }

    /** The objects whose state the registered authenticators keep. */
    function Objects(): set<object>
      reads this
    {
      (set k | k in authenticators && authenticators[k].Hashing? :: authenticators[k].hash as object)
      + (set k | k in authenticators && authenticators[k].Caching? :: authenticators[k].caching as object)
    }

    /** The object whose state the authenticator registered for `authType` keeps, if any. */
    function ObjectOf(authType: string): (r: set<object>)
      reads this
      ensures r <= Objects()
    {
      if authType !in authenticators then {}
      else match authenticators[authType]
        case Stateless(_) => {}
        case Hashing(h) => {h}
        case Caching(c) => {c}
    }

    /** Registration is keyed by the authenticator's type; a second one of a type replaces the
        first. */
    method RegisterAuthenticator(entity: Registered)
      modifies this
      ensures authenticators == old(authenticators)[RegisteredType(entity) := entity]
    {
      authenticators := authenticators[RegisteredType(entity) := entity];
    }

    /** An unregistered type is an error and runs nothing; otherwise the registered
        authenticator's answer is returned as it is. Only the chosen authenticator's state may
        change; every other registered authenticator is left as it was. */
    method Check(userId: string, givenPassword: string, authType: string, authCredential: string) returns (r: Result<bool, string>)
      modifies ObjectOf(authType)
      ensures authenticators == old(authenticators)
      ensures authType !in authenticators ==> r == Err(UnsupportedAuthenticatorPrefix + authType)
      ensures authType in authenticators && authenticators[authType].Stateless? ==>
                r == AuthenticateWith(authenticators[authType].authenticator, userId, givenPassword, authCredential)
      ensures authType in authenticators && authenticators[authType].Hashing? ==>
                var h := authenticators[authType].hash;
                r == HashVerdict(h.digest, h.utf8(givenPassword), authCredential)
      ensures authType in authenticators && authenticators[authType].Caching? ==>
                var c := authenticators[authType].caching;
                var upstream := AuthenticateWith(c.other, userId, givenPassword, authCredential);
                var key := c.CacheKey(userId, givenPassword, authCredential);
                && r == FallbackResult(upstream, old(c.cache), key)
                && c.cache == FallbackCache(upstream, old(c.cache), key)
    {
      if authType !in authenticators {
        return Err(UnsupportedAuthenticatorPrefix + authType);
      }
      match authenticators[authType]
      case Stateless(a) =>
        r := AuthenticateWith(a, userId, givenPassword, authCredential);
      case Hashing(h) =>
        r := h.Authenticate(userId, givenPassword, authCredential);
      case Caching(c) =>
        r := c.Authenticate(userId, givenPassword, authCredential);
    }
  }
}
