/** The Synapse password provider that accepts the gateway's shared-secret passwords
    (etc/services/shared_secret_authenticator.py). */
module SharedSecretAuthenticator {
  import opened Wrappers
  import opened Hex
  import opened Json
  import opened Strings
  import SharedSecretAuth

  /** `sharedSecret` is whatever value the configuration holds under that key. */
  datatype SharedSecretAuthenticator = SharedSecretAuthenticator(sharedSecret: Json)

  /** `parse_config`: the configuration is returned unchanged when it names a secret. */
  function ParseConfig(config: map<string, Json>): (r: Result<map<string, Json>, string>)
    ensures r.Ok? <==> "sharedSecret" in config
    ensures r.Ok? ==> r.value == config
  {
    if "sharedSecret" !in config then Err("Missing sharedSecret parameter for SharedSecretAuthenticator")
    else Ok(config)
  }

  /** The constructor reads `config['sharedSecret']`, raising KeyError when it is absent. */
  function New(config: map<string, Json>): (r: Result<SharedSecretAuthenticator, PyError>)
    ensures r.Ok? <==> "sharedSecret" in config
    ensures r.Ok? ==> r.value.sharedSecret == config["sharedSecret"]
    ensures r.Err? ==> r.error == KeyError("sharedSecret")
  {
    if "sharedSecret" in config then Ok(SharedSecretAuthenticator(config["sharedSecret"]))
    else Err(KeyError("sharedSecret"))
  }

  /** What `check_password` answers, and whether it asked the account store if the user exists. */
  datatype Answer = Answer(authenticated: bool, queriedExistence: bool)

  /** `compare_digest` when the interpreter has it, plain `==` otherwise. */
  function IsIdentical(computed: string, given: string, hasCompareDigest: bool): (r: bool)
    ensures r <==> computed == given
  {
    if hasCompareDigest then ConstantTimeEquals(computed, given) else computed == given
  }

  /** The `==` fallback gives the same verdict as `compare_digest`. */
  lemma FallbackComparisonAgrees(computed: string, given: string)
    ensures IsIdentical(computed, given, true) == IsIdentical(computed, given, false)
  {
  }

  /** `check_password(user_id, password)`; `accounts` are the user ids `check_user_exists` knows.
      A secret that is not a string fails on `.encode` with AttributeError. */
  function CheckPassword(a: SharedSecretAuthenticator, userId: string, password: string, hmac: Hmac,
                         accounts: set<string>, hasCompareDigest: bool): (r: Result<Answer, PyError>)
    ensures r.Err? <==> !a.sharedSecret.JStr?
    ensures r.Err? ==> r.error == AttributeError
    ensures r.Ok? ==> (r.value.queriedExistence <==> HexDecode(password) == Some(hmac(a.sharedSecret.s, userId)) && password == Lower(password))
    ensures r.Ok? ==> (r.value.authenticated <==> r.value.queriedExistence && userId in accounts)
  {
    if !a.sharedSecret.JStr? then Err(AttributeError)
    else
      var computedHmac := HexLower(hmac(a.sharedSecret.s, userId));
      LowercaseHexIsRendering(password, hmac(a.sharedSecret.s, userId));
      if !IsIdentical(computedHmac, password, hasCompareDigest) then Ok(Answer(false, false))
      else if userId !in accounts then Ok(Answer(false, true))
      else Ok(Answer(true, true))
  }

  /** The round trip with the gateway: with the same secret, the password the gateway generates for
      a user is accepted exactly when that account exists, and only then is existence queried
      after a match. */
  lemma GeneratedPasswordAcceptedIffAccountExists(secret: string, userId: string, hmac: Hmac,
                                                  accounts: set<string>, hasCompareDigest: bool)
    ensures CheckPassword(SharedSecretAuthenticator(JStr(secret)),
                          userId,
                          SharedSecretAuth.GenerateForUserId(SharedSecretAuth.NewSharedSecretAuthPasswordGenerator(secret), userId, hmac),
                          hmac, accounts, hasCompareDigest)
            == Ok(Answer(userId in accounts, true))
  {
  }
}
