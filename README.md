# matrix-corporal, modelled in Dafny

matrix-corporal manages the accounts of a Matrix homeserver from a declarative policy. This project
models the decision and bookkeeping code of its core, and proves properties of that model.

- **Reconciler.** It reads the homeserver's current state of the managed users and computes a plan
  of actions from the policy (create, activate, deactivate, display name, avatar, room joins,
  leaves and power levels). It then carries the plan out in order through a homeserver connector.
- **HTTP gateway.** It sits in front of the homeserver and:
  - refuses client API versions it does not handle;
  - checks the routes that the policy governs;
  - rewrites `/login` requests of managed users to carry a shared-secret password;
  - runs the policy's hooks before and after each request, including the action handlers of the
    hook executor (reject, respond, pass a modified request, consult a REST service, and so on);
  - answers the homeserver's internal REST authentication calls.
- **Password providers.** Two Python modules for Synapse:
  - one accepts the gateway's shared-secret passwords;
  - one delegates the password check to a REST endpoint and brings the local account, its display
    name and its third-party ids (3PIDs) in line with the profile the endpoint returns.
- **Helpers.** The user authenticators, the access-token cache, the configuration defaults and
  validation, the shutdown handler of the service container, and avatar `data:` URIs.

The model has one Dafny module per source component.

- Pure code (the planner, the policy checks, the decision chains of the interceptors) becomes
  functions with lemmas about them.
- Code with loops or in-place updates becomes methods proved equal to a function that states what they compute.
  This covers the reconciler loop, the hook runner, the 3PID loops of the REST provider, the
  response-bound writer and the shutdown handler.
- Objects whose fields the source updates are classes: the account store, the token cache, the
  authenticator registry, the hash and cache-fallback authenticators, and the body reader.
- HTTP, JSON parsing and encoding, regular expressions, HMAC-SHA512, SHA-512, MD5 and other hashes,
  bcrypt, base64, clocks and random bytes are parameters of the operations that use them. Each one
  is a function value or a record of function values.

A few readings of the code that a reader might not expect:

- `etc/services/rest_auth_provider.py:80` indexes `auth["profile"]` unconditionally, while the
  example REST endpoint in `etc/services/rest-password-auth-service/index.php:41-46` answers a
  successful login without any `profile`. The truthiness test shows the profile was meant to be
  optional; this is the first finding below, and the model uses the corrected reading.
- The REST provider's display-name rule at `etc/services/rest_auth_provider.py:90` sets the name
  whenever `setNameOnLogin` is on, newly registered users included, whatever `setNameOnRegister`
  says. The model follows the code.
- The hook executor merges injected keys into the nil map that a JSON `null` body decodes to, and
  panics when there is a key to write (`corporal/hook/executor.go:385-393`). This is the second
  finding; the model reports an error there and otherwise does what the code does.
- Several source files read fields that the sibling files declare otherwise. The datatypes hold the
  fields each component's own code reads:
  - `JoinedRooms` with power levels next to `JoinedRoomIds`;
  - the encrypted and unencrypted room-creation flags;
  - `Allow3pidLogin`;
  - the executor's fields of `ExecutionResult`;
  - the response modifier. `corporal/hook/http.go:5` declares it as `func(*http.Response) error`,
    while the executor's modifiers at `corporal/hook/executor.go:132` and `:427` return
    `(skipNextModifiers bool, error)`. HookHttp follows the first signature and
    Executor.RunInjections the second.

## Model

| member | source | states |
|---|---|---|
| Util.IsStringInArray | src/devture/matrix/corporal/util/util.go:9-16 | true exactly when some element of the list equals the needle |
| Util.Sha512 | src/devture/matrix/corporal/util/util.go:33-37 | the digest renders as 128 lowercase hex characters |
| Util.Sha512SameIffHashesCollide | src/devture/matrix/corporal/util/util.go:33-37 | two values get the same hex digest exactly when their SHA-512 digests are equal |
| Hex.HexLower | src/devture/matrix/corporal/util/util.go:36 | `%x` gives two lowercase hex characters per byte |
| Hex.HexDecode | corporal/userauth/hash.go:31-34 | a decoded string is twice as long as its bytes (odd lengths and non-hex characters fail) |
| Hex.HexDecodeHexLower | corporal/userauth/hash.go:31 | decoding a `%x` rendering gives the bytes back |
| Hex.HexLowerInjective | src/devture/matrix/corporal/matrix/shared_secret_auth.go:24 | two byte strings render equally exactly when they are equal |
| Hex.ConstantTimeEquals | corporal/userauth/hash.go:40 | the comparison is true exactly when the two sequences are equal |
| Hex.LowercaseHexIsRendering | etc/services/shared_secret_authenticator.py:43-51 | a string equals the lowercase rendering of a digest exactly when it is lowercase and decodes to that digest |
| Hex.DigestHexShape | etc/services/shared_secret_authenticator.py:44 | every 64-byte digest renders as 128 lowercase hex characters |
| AccessTokens.ExpiryIsMonotone | corporal/connector/access_token.go:22-28 | once a token is expired it stays expired at every later second |
| AccessTokens.ValidUntilItsSecond | corporal/connector/access_token.go:22-28 | a token with a bound is valid during the bound's second and expired from the next one |
| AccessTokens.Token | corporal/connector/access_token.go:18-20 | the token string; GetAccessTokenForUserId states that a cached unexpired token is answered as this string |
| AccessTokens.Expired | corporal/connector/access_token.go:22-28 | never without a bound, otherwise strictly after the bound's second; ExpiryIsMonotone and ValidUntilItsSecond state its properties |
| AccessTokens.ValidUntil | corporal/connector/access_token_context.go:45-49 | no bound exactly when the validity is 0 seconds, otherwise `now` plus the validity |
| AccessTokens.MatrixConnector.ObtainNewAccessTokenForUserId | corporal/connector/access_token_context.go:51 | answers what the homeserver answers and logs one obtain call |
| AccessTokens.MatrixConnector.VerifyAccessToken | corporal/connector/access_token_context.go:57 | answers what the homeserver answers and logs one verify call |
| AccessTokens.MatrixConnector.DestroyAccessToken | corporal/connector/access_token_context.go:77 | logs one destroy call |
| AccessTokens.AccessTokenContext.constructor | corporal/connector/access_token_context.go:16-24 | a context with the given connector, device id and validity and no cached tokens |
| AccessTokens.AccessTokenContext.GetAccessTokenForUserId | corporal/connector/access_token_context.go:26-67 | a cached unexpired token is returned without any call. Otherwise the entry is dropped and a token obtained, then verified. An obtain error or a verify error is returned and nothing is cached. Only a verified token is cached, with its bound |
| AccessTokens.AccessTokenContext.ClearAccessTokenForUserId | corporal/connector/access_token_context.go:69-71 | forgets that user's token and no other |
| AccessTokens.AccessTokenContext.Release | corporal/connector/access_token_context.go:73-83 | destroys each cached token exactly once, makes no other call and leaves the cache empty |
| Avatars.UriHash | corporal/avatar/avatar.go:90-92 | the hash of a URI is its 128-character lowercase SHA-512 hex digest |
| Avatars.UriHashesDistinguishUris | corporal/avatar/avatar.go:90-92 | two URIs hash equally exactly when their SHA-512 digests are equal |
| Avatars.ReadData | corporal/avatar/avatar.go:39-64 | no `;` gives the semicolon error and no `,` the comma error. The content type is the text before the first `;`. The body is the base64 decoding of the text after the first `,`, and the length is the body's |
| Avatars.Read | corporal/avatar/avatar.go:28-88 | every avatar carries the URI's hash and its body's length. The empty URI gives an empty avatar. A `data:` URI is read inline; anything else fails exactly when the fetch fails and otherwise carries the fetched content type and body |
| Avatars.DataContentRead | corporal/avatar/avatar.go:39-64 | a well-formed `type;params,payload` gives the media type and the decoded payload |
| Avatars.DataUriRoundTrip | corporal/avatar/avatar.go:28-64 | a well-formed `data:` URI reads back as its media type and decoded bytes |
| Avatars.CommaBeforeSemicolon | corporal/avatar/avatar.go:42-53 | when a `,` comes before the first `;`, the payload still starts after that comma and the content type runs past it |
| Strings.ContainsIsLonger | corporal/matrix/util.go:67-73 | only a string at least as long as the marker can contain it |
| Strings.LowerChar | etc/services/rest_auth_provider.py:103-104 | an ASCII capital becomes its small letter, and every other character is kept; the result is never an ASCII capital |
| Strings.Lower | etc/services/rest_auth_provider.py:70 | the lowercase form has the same length, and each character is lowered by LowerChar |
| Strings.LowerIdempotent | etc/services/rest_auth_provider.py:70 | lowering a lowered string changes nothing, so a lowercase localpart passes the comparison with its own `.lower()` |
| MatrixUtil.IsErrorWithCodeMeaning | corporal/matrix/util.go:12-19 | an error has a code exactly when it is an HTTP error wrapping a Matrix error with that code |
| MatrixUtil.IsErrorWithCode | corporal/matrix/util.go:12-19 | the two casts and the code comparison; IsErrorWithCodeMeaning states exactly which errors carry a code |
| MatrixUtil.ExecuteWithRateLimitRetries | corporal/matrix/util.go:28-62 | makes 1 to 5 attempts and returns the last attempt's error. It retries only after a rate-limit error, stops when an attempt succeeds or fails otherwise, and waits 5, 10, … seconds before each retry |
| MatrixUtil.MarkerAnywhereDeactivates | corporal/matrix/util.go:67-69 | a name holding the marker `[x] ` anywhere counts as deactivated |
| MatrixUtil.IsUserDeactivatedAccordingToDisplayName | corporal/matrix/util.go:67-69 | `strings.Contains` with the marker; MarkerAnywhereDeactivates and Strings.ContainsIsLonger state that the marker may stand anywhere and that shorter names never count |
| MatrixUtil.CleanDeactivationMarkerFromDisplayName | corporal/matrix/util.go:71-73 | drops the first four characters (the source drops four bytes, the same once the name starts with the ASCII marker), which are the marker when the name starts with it |
| MatrixUtil.CleanAfterMark | corporal/matrix/util.go:71-73 | cleaning the marker followed by a name gives the name back |
| MatrixUtil.DetermineFullUserId | corporal/matrix/util.go:76-88 | the empty id is an error. An id starting with `@` is kept as it is; any other becomes `@id:domain` |
| MatrixUtil.DetermineFullUserIdIdempotent | corporal/matrix/util.go:76-88 | completing an already completed id leaves it unchanged, whatever the domain |
| MatrixUtil.DeterminedLocalIdIsOfDomain | corporal/matrix/util.go:76-93 | a completed localpart is a full id of that domain |
| MatrixUtil.IsFullUserIdOfDomain | corporal/matrix/util.go:91-93 | the suffix test `:<domain>`; FullUserIdOfDomainShape and DeterminedLocalIdIsOfDomain state its meaning |
| MatrixUtil.FullUserIdOfDomainShape | corporal/matrix/util.go:91-93 | an id is of a domain exactly when it is some text followed by `:` and the domain |
| SharedSecretAuth.NewSharedSecretAuthPasswordGenerator | src/devture/matrix/corporal/matrix/shared_secret_auth.go:13-17 | the generator keeps the shared secret |
| SharedSecretAuth.GenerateForUserId | src/devture/matrix/corporal/matrix/shared_secret_auth.go:19-25 | the password is 128 lowercase hex characters decoding to the HMAC-SHA512 of the user id under the secret |
| SharedSecretAuth.GeneratedPasswordsDistinguishUsers | src/devture/matrix/corporal/matrix/shared_secret_auth.go:19-25 | two users get the same password exactly when their HMACs collide |
| SharedSecretAuthenticator.ParseConfig | etc/services/shared_secret_authenticator.py:66-70 | accepts the configuration, unchanged, exactly when it has `sharedSecret` |
| SharedSecretAuthenticator.New | etc/services/shared_secret_authenticator.py:31-33 | construction fails with a KeyError exactly when `sharedSecret` is missing, and otherwise keeps it |
| SharedSecretAuthenticator.IsIdentical | etc/services/shared_secret_authenticator.py:46-51 | both comparisons are true exactly when the texts are equal |
| SharedSecretAuthenticator.FallbackComparisonAgrees | etc/services/shared_secret_authenticator.py:46-51 | the fallback comparison on old Python versions decides like `compare_digest` |
| SharedSecretAuthenticator.CheckPassword | etc/services/shared_secret_authenticator.py:35-64 | a non-string secret raises an AttributeError. The account store is queried exactly when the password is the lowercase hex HMAC of the user id, and the answer is true exactly when that holds and the account exists |
| SharedSecretAuthenticator.GeneratedPasswordAcceptedIffAccountExists | etc/services/shared_secret_authenticator.py:35-64 | the gateway's generated password is accepted exactly when the account exists |
| RestAuthProvider.MissingKeys | etc/services/rest_auth_provider.py:204-205 | the missing keys are exactly the required keys absent from the configuration |
| RestAuthProvider.RequireKeys | etc/services/rest_auth_provider.py:204-211 | passes exactly when every required key is present; otherwise the error names the missing keys, comma-separated, in the order they are required |
| RestAuthProvider.Setting | etc/services/rest_auth_provider.py:156-199 | a nested setting is its value when the whole path exists, otherwise the default (a TypeError or KeyError on the way is swallowed) |
| RestAuthProvider.ParseConfig | etc/services/rest_auth_provider.py:140-201 | fails exactly when `endpoint` is missing; otherwise the endpoint and the five policy switches with their defaults true, true, false, true, false |
| RestAuthProvider.ParseConfigDefaults | etc/services/rest_auth_provider.py:145-199 | for every configuration without a `policy` dict, all five settings keep their defaults |
| RestAuthProvider.OwnerOf | etc/services/rest_auth_provider.py:109 | no owner exactly when no record has the medium and address, otherwise the user id of such a record |
| RestAuthProvider.RecordsOf | etc/services/rest_auth_provider.py:122 | the 3PID records of one user, exactly |
| RestAuthProvider.Without | etc/services/rest_auth_provider.py:127-131 | every record except those of that user, medium and address |
| RestAuthProvider.AccountStore.constructor | etc/services/rest_auth_provider.py:33-34 | a store with the given accounts, names and 3PIDs and an empty call journal |
| RestAuthProvider.AccountStore.CheckUserExistsCall | etc/services/rest_auth_provider.py:67 | true exactly when the account exists; journals the call |
| RestAuthProvider.AccountStore.RegisterCall | etc/services/rest_auth_provider.py:74 | registers the localpart's canonical id on this server and returns it |
| RestAuthProvider.AccountStore.SetProfileDisplaynameCall | etc/services/rest_auth_provider.py:93 | stores the localpart's display name and nothing else |
| RestAuthProvider.AccountStore.GetUserIdByThreepidCall | etc/services/rest_auth_provider.py:109 | answers the owner of the medium and address, if any |
| RestAuthProvider.AccountStore.UserAddThreepidCall | etc/services/rest_auth_provider.py:111-117 | appends one 3PID record with both timestamps |
| RestAuthProvider.AccountStore.UserGetThreepidsCall | etc/services/rest_auth_provider.py:122 | answers that user's records |
| RestAuthProvider.AccountStore.UserDeleteThreepidCall | etc/services/rest_auth_provider.py:127-131 | removes exactly the matching records of that user |
| RestAuthProvider.ReadVerdict | etc/services/rest_auth_provider.py:50-61 | a transport failure, an error status and invalid JSON are errors; no `auth` is a KeyError. A falsy `auth.success` is a rejection; an acceptance carries the truthy `auth` whose `success` is truthy |
| RestAuthProvider.LocalpartOfFullId | etc/services/rest_auth_provider.py:63 | the localpart of `@l:domain` is `l` when `l` has no colon |
| RestAuthProvider.ProfileAsWritten | etc/services/rest_auth_provider.py:80 | a success reply without `profile` raises KeyError |
| RestAuthProvider.ProfileIntended | etc/services/rest_auth_provider.py:80 | a missing `profile` reads as no profile data, and reading never fails for a dictionary |
| RestAuthProvider.Elements | etc/services/rest_auth_provider.py:102 | iterating a list gives its items |
| RestAuthProvider.LoweredField | etc/services/rest_auth_provider.py:103-104 | succeeds exactly on a dictionary whose key holds a string, and gives it lowercased |
| RestAuthProvider.ParseThreepid | etc/services/rest_auth_provider.py:103-105 | a parsed medium and address are both lowercase |
| RestAuthProvider.AddFailureSticks | etc/services/rest_auth_provider.py:102-117 | once the addition loop raises, later items change nothing |
| RestAuthProvider.RestAuthProvider.constructor | etc/services/rest_auth_provider.py:33-44 | a provider keeps its configuration and account handler; a falsy endpoint is refused |
| RestAuthProvider.RestAuthProvider.New | etc/services/rest_auth_provider.py:33-40 | fails exactly when the endpoint is falsy, with the RuntimeError `Missing endpoint config`, and otherwise gives a fresh provider with this configuration and account handler |
| RestAuthProvider.RestAuthProvider.EnsureAccount | etc/services/rest_auth_provider.py:66-78 | checks that the account exists. A missing account whose localpart is not lowercase is refused under the lowercase rule, and any other missing account is registered |
| RestAuthProvider.RestAuthProvider.ApplyDisplayName | etc/services/rest_auth_provider.py:90-95 | the display-name phase as DisplayNameStep gives it: the name is set when given and registration or login allows it |
| RestAuthProvider.RestAuthProvider.AddThreepids | etc/services/rest_auth_provider.py:101-119 | the addition loop as AddUpTo gives it: each lowercased pair is collected, and added for the user when nobody owns it |
| RestAuthProvider.RestAuthProvider.RemoveStaleThreepids | etc/services/rest_auth_provider.py:121-131 | the replacement loop as RemoveUpTo gives it, over the user's records read once |
| RestAuthProvider.RestAuthProvider.ApplyThreepids | etc/services/rest_auth_provider.py:97-134 | the 3PID phase as ThreepidStep gives it: nothing unless updating is on and `three_pids` is given, and removal only under `replace` |
| RestAuthProvider.RestAuthProvider.CheckPassword | etc/services/rest_auth_provider.py:46-138 | the store afterwards, its call journal, and the answer or exception are those of CheckPasswordIntended, which reads a missing `profile` as no profile data where line 80 raises KeyError |
| RestAuthProviderProperties.DisplayNameStepCalls | etc/services/rest_auth_provider.py:90-95 | the display-name phase makes at most one store call, a set-name call, and changes neither accounts nor 3PIDs |
| RestAuthProviderProperties.AddUpToCalls | etc/services/rest_auth_provider.py:101-119 | the addition loop makes only lookup and add calls and changes neither accounts nor names |
| RestAuthProviderProperties.RemoveUpToCalls | etc/services/rest_auth_provider.py:121-131 | the removal loop makes only delete calls and changes neither accounts nor names |
| RestAuthProviderProperties.ThreepidStepCalls | etc/services/rest_auth_provider.py:97-134 | the 3PID phase makes lookups and additions before any read or deletion, and changes neither accounts nor names |
| RestAuthProviderProperties.ProfileStepCalls | etc/services/rest_auth_provider.py:80-136 | the profile phase sets the name before any 3PID call and never touches the accounts |
| RestAuthProviderProperties.CheckPasswordCallOrder | etc/services/rest_auth_provider.py:46-138 | after an acceptance the first store call is the existence check, and the calls then come in phase order. A registration happens exactly when the account is missing and the lowercase rule does not refuse it |
| RestAuthProviderProperties.ProfileStepNeverFalse | etc/services/rest_auth_provider.py:80-138 | once past registration the answer is never false |
| RestAuthProviderProperties.AnswerFalseIff | etc/services/rest_auth_provider.py:59-72 | the answer is false exactly when the endpoint rejects, or the account is missing and its localpart is refused by the lowercase rule |
| RestAuthProviderProperties.NoStoreCallBeforeVerdict | etc/services/rest_auth_provider.py:50-61 | an error or a rejection from the endpoint leaves the store untouched |
| RestAuthProviderProperties.LowercaseRefusalChangesNothing | etc/services/rest_auth_provider.py:67-72 | a refused registration only checks existence and answers false |
| RestAuthProviderProperties.DisplayNameRule | etc/services/rest_auth_provider.py:90-95 | the display name is set exactly when given and either newly registered with set-on-register or set-on-login is on |
| RestAuthProviderProperties.MissingProfileFailsAfterRegistration | etc/services/rest_auth_provider.py:74-80 | a success reply without `profile` for a new user registers the account and then raises KeyError |
| RestAuthProviderProperties.MissingProfileIntended | etc/services/rest_auth_provider.py:80 | with a missing profile read as no data, the login succeeds (true) after the registration step with the same store changes, where the code as written raises KeyError |
| RestAuthProviderProperties.IntendedAgreesWithProfile | etc/services/rest_auth_provider.py:80 | the corrected reading gives the same store and answer as the code as written on every reply that has profile data |
| RestAuthProviderThreepids.AddOneShape | etc/services/rest_auth_provider.py:102-117 | one loop iteration collects the lowercased pair and adds a record exactly when nobody owns it, after which someone owns it |
| RestAuthProviderThreepids.AddUpToEffect | etc/services/rest_auth_provider.py:101-119 | a loop that ran to the end collected the items' pairs in order; every pair is owned and the added rows are the user's |
| RestAuthProviderThreepids.AddedPairsDistinct | etc/services/rest_auth_provider.py:101-119 | no pair is added twice, even when the profile lists it twice |
| RestAuthProviderThreepids.RemoveUpToEffect | etc/services/rest_auth_provider.py:121-131 | removal keeps exactly the records that are not the user's deleted pairs |
| RestAuthProviderThreepids.RemovalSparesIncomingAndOthers | etc/services/rest_auth_provider.py:121-131 | records of other users and records whose pair came in the profile survive |
| RestAuthProviderThreepids.RemovalDropsStale | etc/services/rest_auth_provider.py:121-131 | a lowercase record of the user whose pair is not in the profile is deleted |
| RestAuthProviderThreepids.IncomingPairsSurviveReplacement | etc/services/rest_auth_provider.py:97-131 | after adding and replacing, every pair from the profile is still owned by someone |
| RestAuthProviderThreepids.NoThreepidChangesWithoutUpdate | etc/services/rest_auth_provider.py:97-98 | without updating, or without `three_pids`, the 3PID phase changes nothing |
| RestAuthProviderThreepids.NoDeletionWithoutReplace | etc/services/rest_auth_provider.py:121 | without `replace`, existing records are kept in place and only appended to |
| RestAuthProvider.RegistrationStep | etc/services/rest_auth_provider.py:66-78 | the existence check and the registration with its lowercase refusal; RegistrationStepCalls states the calls |
| RestAuthProvider.DisplayNameStep | etc/services/rest_auth_provider.py:90-95 | the display-name rule of line 90 |
| RestAuthProvider.ThreepidStep | etc/services/rest_auth_provider.py:97-131 | the two 3PID loops; the lemmas of RestAuthProviderThreepids state their effect on the 3PID table |
| RestAuthProvider.ProfileStep | etc/services/rest_auth_provider.py:80-138 | nothing for a falsy profile, otherwise the display name and then the 3PIDs |
| RestAuthProvider.CheckPasswordWith | etc/services/rest_auth_provider.py:46-138 | the whole of `check_password`, given how the profile is read |
| RestAuthProvider.CheckPasswordAsWritten | etc/services/rest_auth_provider.py:46-138 | `check_password` as written, indexing `auth["profile"]` at line 80; MissingProfileFailsAfterRegistration shows the first finding on it |
| RestAuthProvider.CheckPasswordIntended | etc/services/rest_auth_provider.py:46-138 | `check_password` with the profile read as optional; the method CheckPassword is proved equal to it, and the RestAuthProviderProperties lemmas state its outcomes |
| RestAuthProvider.ParseConfigOverride | etc/services/rest_auth_provider.py:145-199 | for every configuration, a `policy` holding a value at the end of a setting's key path gives the setting that value |
| Json.LookupNest | etc/services/rest_auth_provider.py:157 | looking a key path up in the document nested along it finds the value |
| Json.PyIndex | etc/services/rest_auth_provider.py:53-59 | indexing succeeds exactly on a dictionary holding the key and gives its value; a missing key raises KeyError |
| Json.PyContains | etc/services/rest_auth_provider.py:90 | `in` on a dictionary tests its keys, on a list its items, and raises TypeError on a scalar |
| Json.Lookup | etc/services/rest_auth_provider.py:157 | the empty path gives the document; a step into a non-dictionary or a missing key gives nothing |
| Http.ReplyHeaders | corporal/httphelp/response_utils.go:63-66 | a reply sets exactly `Access-Control-Allow-Origin: *` and its content type |
| Http.MatrixErrorReply | corporal/httphelp/response_utils.go:41-52 | a Matrix error reply carries the status, the JSON content type and the encoded `errcode`/`error` document |
| Http.JsonReply | corporal/httphelp/response_utils.go:54-61 | a JSON reply carries the status, the JSON content type and the encoded document |
| Regex.Compile | corporal/hook/hook_match.go:62-75 | compiles exactly when the engine accepts the pattern, and keeps the pattern |
| Hooks.BeforeIsNotAfter | corporal/hook/executor.go:46-54 | no hook is both a before-hook and an after-hook |
| Hooks.KnownEventTypePrefixes | corporal/hook/event_types.go:78-88 | the first four known event types start with `before`, the last four with `after` |
| Hooks.KnownEventTypesAreBeforeOrAfter | corporal/hook/event_types.go:78-88 | a hook of a known event type is exactly one of before or after |
| Hooks.EnsureInitialized | corporal/hook/hook.go:153-171 | succeeds exactly when every given pattern compiles; it then fills in the compiled patterns and changes nothing else |
| Hooks.Validate | corporal/hook/hook.go:105-128 | passes exactly when the id is set, the event type and the action are known and the patterns compile, with each earlier failure's message first |
| Hooks.MatchesRequest | corporal/hook/hook.go:130-151 | panics exactly when a pattern does not compile; otherwise matches exactly when the method pattern matches the method and the route pattern the raw request URI, an absent pattern allowing anything |
| Hooks.ValidHookMatchesWithoutPanic | corporal/hook/hook.go:130-136 | a validated hook never panics while matching |
| Hooks.UnconstrainedHookMatchesEverything | corporal/hook/hook.go:138-150 | a hook without patterns matches every request |
| Hooks.MatchReadsMethodAndUri | corporal/hook/hook.go:130-151 | matching reads only the method and the raw URI |
| Hooks.ToString | corporal/hook/hook.go:173-175 | the rendering is `<Hook #id (action @ eventType)>` |
| HookHttp.RunChain | corporal/hook/http.go:11-21 | runs at most all modifiers; a success ran all of them, and an error is that of the last one run, on the response the earlier ones left |
| HookHttp.ChainStopsAtFirstError | corporal/hook/http.go:13-18 | the chain fails exactly when some modifier fails, stops at the first such one, and leaves the response as that modifier left it |
| HookHttp.EmptyChain | corporal/hook/http.go:11-21 | an empty chain succeeds and leaves the response alone |
| HookHttp.SingleChain | corporal/hook/http.go:11-21 | a chain of one modifier behaves as that modifier |
| HookHttp.ChainAppend | corporal/hook/http.go:11-21 | chaining two lists runs the second on what the first left, unless the first failed |
| HookMatch.HookMatchRule.constructor | corporal/hook/hook_match.go:32-45 | a rule with the given type, pattern and inversion and no compiled pattern |
| HookMatch.HookMatchRule.EnsureInitialized | corporal/hook/hook_match.go:106-116 | succeeds exactly when the pattern was compiled before or compiles now; compiles at most once and keeps the compiled pattern; a failure caches nothing and returns the compile error |
| HookMatch.HookMatchRule.MatchRequestAgainstRules | corporal/hook/hook_match.go:62-91 | without an initialization error, matches the method, the parsed path or the context user id according to the type; an absent user id or an unknown type matches |
| HookMatch.HookMatchRule.MatchesRequest | corporal/hook/hook_match.go:47-60 | panics exactly when the pattern does not compile; otherwise the raw match, negated under `invert` |
| HookMatch.HookMatchRule.Validate | corporal/hook/hook_match.go:93-104 | an unknown type fails with `<type> is an invalid hook match rule type` before compiling; a known type passes exactly when the pattern compiles, and otherwise fails with the rule rendered as `%s` and the compile error |
| HookMatch.InvertNegates | corporal/hook/hook_match.go:55-57 | inverting a rule negates its decision |
| HookMatch.InvertedUserRuleFailsUnauthenticated | corporal/hook/hook_match.go:80-88 | a user-id rule passes an unauthenticated request, and its inverted form refuses it |
| HookMatch.RouteRuleIgnoresRawUri | corporal/hook/hook_match.go:74-78 | a route rule decides on the parsed path alone |
| HookMatch.UnknownRuleTypeMatchesAll | corporal/hook/hook_match.go:62-91 | a rule of an unknown type matches everything |
| Executor.ProcessingErrorResult | corporal/hook/execution_result.go:17-23 | a processing-error result carries the error, writes nothing, schedules nothing, keeps the request and stops the chain |
| Executor.HandlerTable | corporal/hook/executor.go:24-39 | an action has a handler exactly when it is one of the six known actions, each mapped to its own handler |
| Executor.InjectInto | corporal/hook/executor.go:391-393 | the loop leaves the target with every injected key set to the injected value |
| Executor.InjectedKeysOverwrite | corporal/hook/executor.go:391-393 | injected keys overwrite any existing value, and the other keys keep theirs |
| Executor.DecodeMap | corporal/hook/executor.go:385-389 | a body decodes to a map exactly when it is a JSON object, and to a nil map exactly when it is `null` |
| Executor.MergeAsWritten | corporal/hook/executor.go:385-393 | an object body gets the injected keys; a `null` body panics exactly when there is something to inject |
| Executor.MergeIntended | corporal/hook/executor.go:385-393 | an object body gets the injected keys, a `null` body with nothing to inject stays `null`, and a `null` body with keys to inject or a non-object body is an error |
| Executor.NullBodyPanics | corporal/hook/executor.go:385-393 | a `null` body with keys to inject panics as written, and is refused by the corrected merge |
| Executor.MergesAgreeUnlessPanic | corporal/hook/executor.go:385-393 | the corrected merge gives a document exactly when the written merge does not panic, and then the same document |
| Executor.ConsultedHook | corporal/hook/executor.go:244-267 | the hook a REST service answers loses its event type, and gets `<id>-unnamed-response` when it has no id |
| Executor.HandleResultShape | corporal/hook/executor.go:230-474 | every handler's result keeps the request or rewrites only what the action allows, and lists the hook that ran |
| Executor.ExecuteShape | corporal/hook/executor.go:41-56 | executing a typeless hook gives a well-shaped result |
| Executor.RunInjections | corporal/hook/executor.go:191-211 | no modifier leaves the response alone; an error always skips the rest |
| ExecutorProperties.UnknownActionIsProcessingError | corporal/hook/executor.go:41-45 | an unknown action gives `Missing handler for hook action = …`, writes nothing and stops the chain |
| ExecutorProperties.AfterHooksAreDeferred | corporal/hook/executor.go:97-228 | an after-hook runs nothing now: it schedules exactly one modifier and leaves the request untouched. The modifier holds the request the handler will see: the request itself for `consult.RESTServiceURL`, and the request with an empty body for every other action |
| ExecutorProperties.ImmediateHooksRunTheirHandler | corporal/hook/executor.go:47-55 | before-hooks and typeless hooks run their handler at once, without a response |
| ExecutorProperties.KnownEventTypesRunNowIffBefore | corporal/hook/executor.go:47-55 | among the known event types, exactly the before-types run immediately |
| ExecutorProperties.RejectionStatus | corporal/hook/executor.go:300-303 | a rejection answers 403 unless the hook gives a status |
| ExecutorProperties.RejectAnswersWithMatrixError | corporal/hook/executor.go:292-318 | a missing code or message is a processing error. Otherwise exactly one Matrix error reply is sent, and the hook's skip flag is kept |
| ExecutorProperties.RespondAnswersWithPayload | corporal/hook/executor.go:320-364 | a missing status is an error. A raw payload that is not a string is an error. Otherwise one reply is sent, with the JSON-encoded or raw payload and the default content type `application/json` |
| ExecutorProperties.PassUnmodifiedChangesNothing | corporal/hook/executor.go:366-372 | passing unmodified changes nothing and continues the chain exactly when the hook does not ask to skip |
| ExecutorProperties.RequestInjectionRewritesBody | corporal/hook/executor.go:374-414 | an object body is re-encoded with the injected keys; the length follows and the request headers are set. Nothing else of the request changes |
| ExecutorProperties.RequestInjectionNeedsObject | corporal/hook/executor.go:385-389 | a body that is not a JSON object, or a `null` body with keys to inject, is a processing error and the request is kept |
| ExecutorProperties.RequestInjectionKeepsNull | corporal/hook/executor.go:385-408 | a `null` body with no keys to inject is re-encoded as `null`, its length follows and the request headers are set |
| ExecutorProperties.RequestInjectionIdempotent | corporal/hook/executor.go:374-414 | injecting the same keys twice gives the same body, length and headers as once |
| ExecutorProperties.ModifiedRequest | corporal/hook/executor.go:385-408 | the new body is the encoding of the old fields with the injected ones, and the length is the new body's |
| ExecutorProperties.NothingToInjectIsUnmodified | corporal/hook/executor.go:379-383 | with nothing to inject, either injection action behaves as passing unmodified |
| ExecutorProperties.InjectionInformationRequired | corporal/hook/executor.go:375-377 | a missing injection map is a processing error for both injection actions |
| ExecutorProperties.ResponseInjectionIsScheduled | corporal/hook/executor.go:416-474 | response injection schedules exactly one modifier and leaves the request alone |
| ExecutorProperties.ConsultFailures | corporal/hook/executor.go:230-242 | a missing URL and a failed consultation are processing errors |
| ExecutorProperties.AfterHookCannotModifyRequest | corporal/hook/executor.go:269-275 | an after-hook whose service answers a request modification fails with `An after hook (<hook>) yielded a request-modification hook: <answer>. …`, both rendered by Hooks.ToString, without touching the request |
| ExecutorProperties.ConsultedRejectionIsSent | corporal/hook/executor.go:286-289 | a consulted rejection is executed at once and reported as the consulting hook |
| ExecutorProperties.ResponseInjectionMerges | corporal/hook/executor.go:427-467 | an object response gets the injected keys, its length and the headers; a `null` response with no keys to inject stays `null` and gets the headers; any other response, a `null` one with keys to inject included, fails and skips the rest |
| ExecutorProperties.AfterHookRejectionRewritesResponse | corporal/hook/executor.go:164-170 | an after-hook rejection writes its Matrix error into the upstream response and keeps the hook's skip flag |
| ExecutorProperties.AfterHookFailureAnswers503 | corporal/hook/executor.go:174-189 | a failing after-hook turns the response into a 503 Matrix error and skips the rest |
| ExecutorProperties.AfterHookModifiedRequestFails | corporal/hook/executor.go:104-189 | an after-hook `pass.modifiedRequest` with keys to inject reads the drained, empty body, which is no JSON; the upstream response becomes the 503 `Afer-hook execution failed, cannot proceed` and the rest is skipped, whatever the original body |
| Executor.RequestAfterProxying | corporal/hook/executor.go:104-142 | the body is kept only for `consult.RESTServiceURL` and is empty for every other action; AfterHooksAreDeferred and AfterHookModifiedRequestFails state its effect |
| Executor.AfterHookModifiesRequestError | corporal/hook/executor.go:269-274 | the error text, with both hooks rendered by Hooks.ToString; AfterHookCannotModifyRequest states when it is returned |
| ExecutorProperties.AfterHookPassLeavesResponse | corporal/hook/executor.go:213-222 | a passing after-hook leaves the response and reports only the skip flag |
| ExecutorProperties.AfterHookInjectsIntoResponse | corporal/hook/executor.go:191-211 | an after-hook injection runs the scheduled modifier on the response and skips the rest when it fails or asks to skip |
| Executor.Execute | corporal/hook/executor.go:41-56 | the dispatch of `Execute`: unknown action, before-hook, after-hook, typeless hook, in that order. An after-hook is scheduled with the request its handler will see (RequestAfterProxying); its properties are stated by UnknownActionIsProcessingError, AfterHooksAreDeferred, ImmediateHooksRunTheirHandler and ExecuteShape |
| Executor.Handle | corporal/hook/executor.go:62-86 | the handler of the hook's action, run at once without a response; HandleResultShape states the shape of every result |
| Executor.Reject | corporal/hook/executor.go:292-318 | the `reject` handler; RejectAnswersWithMatrixError and RejectionStatus state its outcomes |
| Executor.Respond | corporal/hook/executor.go:320-364 | the `respond` handler; RespondAnswersWithPayload states its outcomes |
| Executor.PassUnmodified | corporal/hook/executor.go:366-372 | the `pass.unmodified` handler; PassUnmodifiedChangesNothing states it |
| Executor.PassModifiedRequest | corporal/hook/executor.go:374-414 | the `pass.modifiedRequest` handler, with the corrected merge of the second finding; RequestInjectionRewritesBody, RequestInjectionNeedsObject, RequestInjectionKeepsNull, NothingToInjectIsUnmodified and InjectionInformationRequired state its outcomes |
| Executor.PassModifiedResponse | corporal/hook/executor.go:416-425 | the `pass.modifiedResponse` handler, which only schedules the injection; ResponseInjectionIsScheduled states it |
| Executor.InjectIntoResponse | corporal/hook/executor.go:427-472 | the scheduled response injection, with the corrected merge; ResponseInjectionMerges states its outcomes |
| Executor.ConsultRESTServiceURL | corporal/hook/executor.go:230-290 | the `consult.RESTServiceURL` handler; ConsultFailures, AfterHookCannotModifyRequest, ConsultedRejectionIsSent and ConsultResultShape state its outcomes |
| Executor.RunAfterHook | corporal/hook/executor.go:132-223 | the response modifier of an after-hook, run on the scheduled request; AfterHookModifiedRequestFails, AfterHookRejectionRewritesResponse, AfterHookFailureAnswers503, AfterHookPassLeavesResponse and AfterHookInjectsIntoResponse state its outcomes |
| Executor.ApplyModifier | corporal/hook/executor.go:132-223 | runs one scheduled modifier on the upstream response; the AfterHook lemmas and ResponseInjectionMerges state what each kind does |
| RequestUtils.GetAccessTokenFromRequestHeader | corporal/httphelp/request_utils.go:19-30 | the token is what follows `Bearer ` in the Authorization header, and empty when the header does not start with it |
| RequestUtils.GetAccessTokenFromRequestQuery | corporal/httphelp/request_utils.go:32-39 | the token is the `access_token` query value, empty when the query cannot be parsed or lacks it |
| RequestUtils.GetAccessTokenFromRequest | corporal/httphelp/request_utils.go:10-17 | a header token wins; without one the query token is used |
| RequestUtils.BearerHeaderRoundTrip | corporal/httphelp/request_utils.go:19-30 | a `Bearer <token>` header yields exactly that token |
| RequestUtils.HeaderTokenWins | corporal/httphelp/request_utils.go:10-17 | a non-empty bearer token is chosen over anything in the query |
| RequestUtils.LowercaseSchemeIgnored | corporal/httphelp/request_utils.go:23-25 | the scheme is matched case-sensitively, so a `bearer ` header yields nothing |
| RequestUtils.BodyReader.constructor | corporal/httphelp/common.go:24 | a new reader holds the given bytes and does not fail |
| RequestUtils.BodyReader.ReadAll | corporal/httphelp/common.go:16-25 | reading yields all remaining bytes, or an error when the transport fails; either way the reader is spent |
| RequestUtils.HttpRequest.constructor | corporal/httphelp/common.go:24 | a new request's body is a fresh reader over the given bytes |
| RequestUtils.GetRequestBody | corporal/httphelp/request_utils.go:41-55 | the whole body is returned and replaced by a fresh reader over the same bytes; a read error leaves the body in place |
| RequestUtils.ReadBodyTwice | corporal/httphelp/request_utils.go:41-55 | reading the body a second time yields the same bytes as the first |
| ResponseBoundWriter.BoundSetHeader | corporal/httphelp/response_bound_http_writer.go:34-36 | a header is set on the bound response at once, and nothing else changes |
| ResponseBoundWriter.BoundWriteHeader | corporal/httphelp/response_bound_http_writer.go:44-46 | the status is set on the bound response at once, and nothing else changes |
| ResponseBoundWriter.BoundWrite | corporal/httphelp/response_bound_http_writer.go:39-41 | written bytes are appended to the buffer, and the response is untouched |
| ResponseBoundWriter.BoundCommit | corporal/httphelp/response_bound_http_writer.go:52-61 | a commit replaces the body with the buffer when something was written, and keeps it otherwise |
| ResponseBoundWriter.RespondThenCommit | corporal/httphelp/response_bound_http_writer.go:26-61 | writing a reply through the writer and committing gives the reply's status, its headers over the old ones, and its payload unless that is empty |
| ResponseBoundWriter.CommitDrains | corporal/httphelp/response_bound_http_writer.go:52-61 | a second commit changes nothing |
| ResponseBoundWriter.WritesConcatenate | corporal/httphelp/response_bound_http_writer.go:39-61 | two writes before a commit end up as one body, in order |
| ResponseBoundWriter.HttpResponse.constructor | corporal/httphelp/response_bound_http_writer.go:26-31 | the response object holds the given response |
| ResponseBoundWriter.ResponseBoundHttpWriter.constructor | corporal/httphelp/response_bound_http_writer.go:26-31 | a new writer is bound to the response with an empty buffer |
| ResponseBoundWriter.ResponseBoundHttpWriter.SetHeader | corporal/httphelp/response_bound_http_writer.go:34-36 | the writer's state changes exactly as the header step says |
| ResponseBoundWriter.ResponseBoundHttpWriter.WriteHeader | corporal/httphelp/response_bound_http_writer.go:44-46 | the writer's state changes exactly as the status step says |
| ResponseBoundWriter.ResponseBoundHttpWriter.Write | corporal/httphelp/response_bound_http_writer.go:39-41 | the writer's state changes exactly as the write step says, and the whole slice counts as written |
| ResponseBoundWriter.ResponseBoundHttpWriter.Commit | corporal/httphelp/response_bound_http_writer.go:52-61 | the writer's state changes exactly as the commit step says |
| JsonBody.StringFieldsOf | corporal/httphelp/request_utils.go:57-66 | a JSON object decodes when each wanted key is absent, null or a string, and the key maps to that string, or to "" when absent or null. `null` gives all "", and any other value is the not-JSON error |
| JsonBody.StringFields | corporal/httphelp/request_utils.go:57-66 | bytes that are not JSON are the not-JSON error; otherwise the decoded value decides as above |
| HookRunner.RunHook | corporal/httpgateway/hookrunner/hook_runner.go:88-111 | a hook that fails gets a 503 `Hook execution failed, cannot proceed` reply and counts as having answered; otherwise its result is the executor's |
| HookRunner.RunAllMatchingType | corporal/httpgateway/hookrunner/hook_runner.go:25-86 | the loop over the policy's hooks computes exactly the run of RunAll |
| HookRunner.OfType | corporal/httpgateway/hookrunner/hook_runner.go:47-50 | the hooks considered are those of the stage's event type |
| HookRunner.RunsHooksOfTypeInOrder | corporal/httpgateway/hookrunner/hook_runner.go:47-76 | the hooks that ran are a subsequence, in policy order, of the hooks of that event type, and the modifiers and replies only grow |
| HookRunner.ChainEndsAtTerminalHook | corporal/httpgateway/hookrunner/hook_runner.go:63-73 | a completed run never asks to skip. A failure ends with the 503 reply, and an answer or a failure comes from a hook that ran |
| HookRunner.MissingPolicyAnswers503 | corporal/httpgateway/hookrunner/hook_runner.go:26-40 | without a policy the runner answers 503 `Policy does not exist (yet), cannot proceed`, running no hook |
| HookRunner.AfterHooksAllRun | corporal/httpgateway/hookrunner/hook_runner.go:47-85 | when every hook of the type is a matching after-hook, all of them run, each schedules one modifier, and nothing is answered |
| HookStages.RunStage | corporal/httpgateway/handler/catchall.go:98-117 | a stage is recorded as run; the handler goes on exactly when the stage completed without answering, keeping the modifiers collected before |
| HookStages.RunStages | corporal/httpgateway/handler/catchall.go:98-117 | the stages run only extend the record, and a stopped handler runs no more stages |
| HookStages.StagesRunInOrder | corporal/httpgateway/handler/catchall.go:98-117 | the stages run are a prefix of the given order; all of them run when the handler goes on, and the modifiers only grow |
| HookStages.RunStagesSnoc | corporal/httpgateway/handler/catchall.go:98-117 | one more stage runs only when the handler is still going after the others |
| HookStages.StoppedStaysStopped | corporal/httpgateway/handler/catchall.go:104-111 | once a stage answered, no later stage changes anything |
| HookStages.ModifyResponse | corporal/httpgateway/handler/catchall.go:90-92 | the reverse proxy gets a chained modifier exactly when some hook scheduled one |
| HookRunner.RunFrom | corporal/httpgateway/hookrunner/hook_runner.go:38-85 | the loop over the remaining hooks as a function; RunAllMatchingType is proved equal to it, and the lemmas beside it state which hooks run |
| HookRunner.RunAll | corporal/httpgateway/hookrunner/hook_runner.go:25-86 | `RunAllMatchingType` as a function of the stored policy; a missing policy answers 503 before any hook runs |
| Policies.GetManagedUserIds | corporal/policy/policy.go:19-25 | the managed ids are the user policies' ids, one per policy and in order |
| Policies.UserIds | corporal/policy/policy.go:19-25 | the ids of a list of user policies, one per policy and in order |
| Policies.FirstUserIndex | corporal/policy/policy.go:27-34 | the index found is the first user policy with the id, and there is none exactly when no policy has it |
| Policies.GetUserPolicyByUserId | corporal/policy/policy.go:27-34 | the lookup finds a policy exactly when one has the id, and returns the first such policy |
| Policies.ManagedIdsResolve | corporal/policy/policy.go:19-34 | every managed id resolves to a user policy |
| Policies.FirstEntryWins | corporal/policy/policy.go:27-34 | when two user policies share an id, the lookup returns the earlier one |
| PolicyChecker.UserSettingOverrides | corporal/policy/checker.go:14-51 | a user policy's own room-creation setting decides for that user, for any room, encrypted or unencrypted |
| PolicyChecker.GlobalFlagDecides | corporal/policy/checker.go:14-51 | without a user setting, the global flag decides |
| PolicyChecker.FirstIndexIsUnique | corporal/policy/policy.go:27-34 | the policy the checker consults is the first one with the user's id |
| PolicyChecker.CanUserSendEventToRoom | corporal/policy/checker.go:53-59 | every user may send every event to every room |
| PolicyChecker.OwnRoomMembership | corporal/policy/checker.go:65-76 | a user may not change their membership of a room exactly when they are managed and the room is among their joined rooms; an unmanaged user always may |
| PolicyChecker.OwnCommunityMembership | corporal/policy/checker.go:82-93 | the same rule for communities, over the communities the user has joined |
| PolicyChecker.LeavingIsChangingOwnMembership | corporal/policy/checker.go:61-63 | leaving a room or a community is allowed exactly when changing one's own membership there is |
| PolicyChecker.CanUserUseCustomDisplayName | corporal/policy/checker.go:95-97 | custom display names follow the global flag alone |
| PolicyChecker.CanUserUseCustomAvatar | corporal/policy/checker.go:99-101 | custom avatars follow the global flag alone |
| PolicyChecker.CustomProfileIsGlobal | corporal/policy/checker.go:95-101 | two users always get the same answer on custom profiles |
| PolicyValidator.FirstForeignUser | corporal/policy/validator.go:23-31 | the first managed id not of the homeserver's domain is found, and none exactly when all are of the domain |
| PolicyValidator.FirstInvalidUser | corporal/policy/validator.go:33-43 | the first user policy that fails validation is found, and none exactly when all pass |
| PolicyValidator.FirstInvalidHook | corporal/policy/validator.go:45-54 | the first invalid hook is found, and none exactly when all are valid |
| PolicyValidator.ValidatePolicy | corporal/policy/validator.go:18-57 | a policy passes exactly when its schema version is 1, all its users are of the domain and valid, and all its hooks are valid. Each failure names the first offender of the first check that fails: a foreign user comes after only users of the domain, and an invalid user or hook after only valid ones |
| PolicyValidator.HookWithoutIdIsRefused | corporal/policy/validator.go:45-54 | a policy with a hook that has no id is refused |
| ConnectorState.GetUserStateByUserId | corporal/connector/state.go:7-14 | the lookup finds a user state exactly when one has the id, and returns the first one |
| ConnectorState.LookupStopsAtFirst | corporal/connector/state.go:7-14 | a state after an entry with the same id is never returned |
| PolicyCheck.FirstRefusedInvitee | corporal/httpgateway/policycheck/room.go:28-36 | the first invitee the policy refuses is found, with every earlier one allowed, and none exactly when all are allowed |
| PolicyCheck.CheckRoomCreate | corporal/httpgateway/policycheck/room.go:15-41 | a room may be created exactly when the user may create rooms and may invite every invitee; a refusal is `M_FORBIDDEN` `Denied by policy`. A missing user id panics with `… is nil, not string`, and a missing invite list after it with `… is nil, not []string` |
| PolicyCheck.CheckRoomLeave | corporal/httpgateway/policycheck/room.go:44-59 | leaving is allowed exactly when the policy lets the user leave the room of the route |
| PolicyCheck.CheckRoomMembershipStateChange | corporal/httpgateway/policycheck/room.go:62-92 | a change to someone else's membership is allowed; a change to one's own needs the policy's permission |
| PolicyCheck.CheckRoomKick | corporal/httpgateway/policycheck/room.go:95-135 | a kick is allowed when the user may change their own membership of the room. Otherwise a body that is not JSON is `M_BAD_JSON`, kicking oneself is refused, and kicking another user is allowed |
| PolicyCheck.KickRefusals | corporal/httpgateway/policycheck/room.go:95-135 | a kick is refused only for a managed user in one of their joined rooms |
| PolicyCheck.CheckProfileSetDisplayName | corporal/httpgateway/policycheck/profile.go:14-64 | changing someone else's or an unmanaged user's name is allowed. For a managed user's own name: refused when custom names are off, `M_BAD_JSON` on a bad body, refused as an unallowed display name when the name carries the deactivation marker, allowed otherwise |
| PolicyCheck.MarkedDisplayNameRefused | corporal/httpgateway/policycheck/profile.go:14-64 | a managed user can never give themself a name with the deactivation marker anywhere in it |
| PolicyCheck.CheckProfileSetAvatarUrl | corporal/httpgateway/policycheck/profile.go:67-99 | an avatar change is allowed exactly when it is for someone else, the user is unmanaged, or custom avatars are on |
| PolicyCheck.CheckUserDeactivate | corporal/httpgateway/policycheck/user.go:12-29 | only unmanaged users may deactivate themselves; managed users get `Denied` |
| PolicyCheck.CheckUserSetPassword | corporal/httpgateway/policycheck/user.go:32-63 | only unmanaged users, and passthrough users when the flag allows it, may change their password. Each refusal has its own message |
| PolicyCheck.CheckCommunitySelfLeave | corporal/httpgateway/policycheck/community.go:13-28 | leaving a community is allowed exactly when the policy lets the user leave it |
| PolicyCheck.CommunityCheckReadsUserAndRoute | corporal/httpgateway/policycheck/community.go:13-28 | the community check depends only on the user id and the route's community id |
| PolicyChecker.UserForbids | corporal/policy/checker.go:14-51 | the user's own setting for each kind of room creation, when the user policy has one |
| PolicyChecker.GlobalForbids | corporal/policy/checker.go:14-51 | the global flag for each kind of room creation |
| PolicyChecker.CanUserCreate | corporal/policy/checker.go:14-51 | the shared shape of the three room-creation checks; UserSettingOverrides and GlobalFlagDecides state it |
| PolicyChecker.CanUserCreateRoom | corporal/policy/checker.go:14-25 | `CanUserCreateRoom`, the check for any room |
| PolicyChecker.CanUserCreateEncryptedRoom | corporal/policy/checker.go:27-38 | `CanUserCreateEncryptedRoom` |
| PolicyChecker.CanUserCreateUnencryptedRoom | corporal/policy/checker.go:40-51 | `CanUserCreateUnencryptedRoom` |
| PolicyChecker.CanUserChangeOwnMembershipStateInRoom | corporal/policy/checker.go:65-76 | an unmanaged user may change any membership, a managed one none of the rooms in that user's policy; OwnRoomMembership states it |
| PolicyChecker.CanUserLeaveRoom | corporal/policy/checker.go:61-63 | leaving a room is a change of one's own membership |
| PolicyChecker.CanUserChangeOwnMembershipStateInCommunity | corporal/policy/checker.go:82-93 | the same rule for communities |
| PolicyChecker.CanUserLeaveCommunity | corporal/policy/checker.go:78-80 | leaving a community is a change of one's own membership |
| PolicyValidator.Message | corporal/policy/validator.go:18-58 | the text each validation error is returned with |
| ReconciliationState.ActionTypesDistinct | corporal/reconciliation/actions.go:5-16 | the action type names are pairwise different |
| ReconciliationState.GetPayloadDataByKey | corporal/reconciliation/state.go:40-46 | a payload key gives its value, and a missing key gives `missing <key> payload data` |
| ReconciliationState.GetStringPayloadDataByKey | corporal/reconciliation/state.go:14-25 | a string payload value is returned; a value that is not a string gives `failed casting payload data for: <key>` |
| ReconciliationState.GetIntPayloadDataByKey | corporal/reconciliation/state.go:27-38 | an integer payload value is returned; any other value gives the casting error |
| ReconciliationState.FloatIsNotInt | corporal/reconciliation/state.go:27-38 | a number decoded as a float is present but not an integer |
| Computator.InitialPassword | corporal/reconciliation/computator/computator.go:409-435 | passthrough users start with the password of the policy; all others with 128 lowercase hex digits of 64 random bytes |
| Computator.FirstRoomIndex | corporal/reconciliation/computator/computator.go:335-340 | the first current room with the id is found, and none exactly when there is no such room |
| Computator.DisplayNameChanges | corporal/reconciliation/computator/computator.go:209-252 | at most one name action, to the policy's name. After it the user has the policy's name, unless custom names are on and the user already has one; no action is planned for a name that is already right |
| Computator.AvatarChanges | corporal/reconciliation/computator/computator.go:254-297 | at most one avatar action, to the policy's URI. A new user gets one when the policy names an avatar; with custom avatars off, an existing user gets one when the stored source hash differs; with them on, only a user without an avatar gets one |
| Computator.EmitRooms | corporal/reconciliation/computator/computator.go:93-95 | one grouped power-level action per room, carrying that room's powers |
| Computator.GroupAllValid | corporal/reconciliation/computator/computator.go:52-91 | a grouping that succeeds holds every room once, with a power map for it |
| Computator.FindCurrentRoomPower | corporal/reconciliation/computator/computator.go:333-341 | the loop finds the user's current power in the room, as CurrentPower says |
| Computator.IsInPolicyJoinedRooms | corporal/reconciliation/computator/computator.go:384-390 | the loop finds exactly whether the policy lists the room |
| Computator.ComputePolicyRoomActions | corporal/reconciliation/computator/computator.go:323-375 | the loop over the policy's rooms plans exactly the join and power actions of PolicyRoomActions |
| Computator.ComputeLeaveActions | corporal/reconciliation/computator/computator.go:377-404 | the loop over the current rooms plans exactly the leave actions of LeaveActions |
| Computator.ComputeUserRoomChanges | corporal/reconciliation/computator/computator.go:315-407 | the room changes are the policy-room actions followed by the leave actions |
| Computator.ComputeUserActivationChanges | corporal/reconciliation/computator/computator.go:133-186 | the activation changes are those of ActivationChanges |
| Computator.ComputeUserChanges | corporal/reconciliation/computator/computator.go:101-131 | a user's changes are the activation changes, then for active users the profile and room changes |
| Computator.GroupSetPowerActions | corporal/reconciliation/computator/computator.go:49-91 | the grouping loop computes the grouping of GroupAll, including its first error |
| Computator.GroupAllStops | corporal/reconciliation/computator/computator.go:60-73 | once the grouping fails on a prefix, the rest of the actions do not change the error |
| Computator.ComputeAllUserChanges | corporal/reconciliation/computator/computator.go:33-47 | the loop over the policy's users concatenates each user's changes in policy order |
| Computator.EmitGroupedActions | corporal/reconciliation/computator/computator.go:93-96 | the plan is the other actions in order, followed by one grouped power action per room |
| Computator.Compute | corporal/reconciliation/computator/computator.go:25-99 | the method computes the plan of Planned, or its error |
| ComputatorProperties.ConcatInStageOrder | corporal/reconciliation/computator/computator.go:101-131 | joining two ordered runs of actions whose stages do not overlap keeps the order |
| ComputatorProperties.PolicyRoomActionsTouchManagedRooms | corporal/reconciliation/computator/computator.go:323-331 | the policy-room actions only touch managed rooms, for the user at hand, and never leave |
| ComputatorProperties.LeaveActionsTouchManagedRooms | corporal/reconciliation/computator/computator.go:377-404 | the leave actions only leave managed rooms for the user at hand |
| ComputatorProperties.RoomChangesTouchManagedRoomsOnly | corporal/reconciliation/computator/computator.go:315-407 | no room change touches a room the policy does not manage |
| ComputatorProperties.PolicyRoomActionsAppend | corporal/reconciliation/computator/computator.go:323-375 | the policy-room actions of two lists of rooms are those of each, concatenated |
| ComputatorProperties.PolicyRoomOutcome | corporal/reconciliation/computator/computator.go:323-360 | an unmanaged room plans nothing; a managed room the user is not in plans a join followed by a power change |
| ComputatorProperties.MemberRoomOutcome | corporal/reconciliation/computator/computator.go:333-374 | a managed room the user is in plans a power change exactly when the first current entry for it has another power |
| ComputatorProperties.LeaveIffDropped | corporal/reconciliation/computator/computator.go:377-404 | a leave for a room is planned exactly when the user is in it, it is managed, and the policy does not list it |
| ComputatorProperties.RoomLeaveIffDropped | corporal/reconciliation/computator/computator.go:315-407 | the same for all room changes of a user, and a new user never leaves a room |
| ComputatorProperties.UniformStageInOrder | corporal/reconciliation/computator/computator.go:101-131 | actions of one stage are in stage order |
| ComputatorProperties.MembershipStage | corporal/reconciliation/computator/computator.go:125-128 | joins, power changes and leaves are all membership actions |
| ComputatorProperties.RoomChangesStage | corporal/reconciliation/computator/computator.go:315-407 | room changes are all membership actions |
| ComputatorProperties.ActiveUserActivationStage | corporal/reconciliation/computator/computator.go:133-186 | for an active user, the activation changes are all account actions (create, activate, deactivate), with no room changes among them |
| ComputatorProperties.ProfileStages | corporal/reconciliation/computator/computator.go:188-297 | the name changes come before the avatar changes |
| ComputatorProperties.ActiveUserActionsInStageOrder | corporal/reconciliation/computator/computator.go:101-131 | an active user's actions come as creation or activation, then name, then avatar, then rooms |
| ComputatorProperties.FourPhases | corporal/reconciliation/computator/computator.go:109-128 | the four phases, concatenated in that order, are in stage order |
| ComputatorProperties.NewUserActions | corporal/reconciliation/computator/computator.go:141-153 | a user missing from the homeserver is created when active, with the initial password, and planned nothing when inactive |
| ComputatorProperties.InactiveUserActions | corporal/reconciliation/computator/computator.go:155-173 | an existing inactive user only leaves rooms and is then deactivated when still active; no profile, creation or activation action |
| ComputatorProperties.ExistingUserActivation | corporal/reconciliation/computator/computator.go:165-183 | an existing user is activated exactly when inactive but active in the policy, deactivated exactly in the opposite case, never created, and activation comes first |
| ComputatorProperties.LockedAvatarFollowsPolicy | corporal/reconciliation/computator/computator.go:254-297 | with custom avatars off, an avatar action is planned exactly when the stored source differs from the policy's URI by hash |
| ComputatorProperties.NonPowerActions | corporal/reconciliation/computator/computator.go:54-58 | the actions kept as they are are actions of the input that are not single power changes |
| ComputatorProperties.LastPowerNamesPowerRoom | corporal/reconciliation/computator/computator.go:75-90 | a user with a power in a room means the room has a grouped action |
| ComputatorProperties.SetPowerNamesPowerRoom | corporal/reconciliation/computator/computator.go:60-90 | the room of a readable power change is among the grouped rooms |
| ComputatorProperties.GroupAllOkIff | corporal/reconciliation/computator/computator.go:54-91 | grouping succeeds exactly when every power change carries a string room, an integer power and a string user |
| ComputatorProperties.GroupAllFailsAtFirst | corporal/reconciliation/computator/computator.go:60-73 | a failed grouping reports the error of the first unreadable power change |
| ComputatorProperties.GroupAllGathers | corporal/reconciliation/computator/computator.go:54-91 | the grouping keeps the other actions in order, has a map for exactly the rooms with power changes, and gives each user the last power planned for them there |
| ComputatorProperties.GroupedPlanShape | corporal/reconciliation/computator/computator.go:49-96 | the grouped plan is the other actions followed by one grouped action per room, each room once, with the last power per user, and no single power change left |
| ComputatorProperties.UserChangesReadable | corporal/reconciliation/computator/computator.go:352-373 | every power change the planner makes can be read back |
| ComputatorProperties.ComputedActionsReadable | corporal/reconciliation/computator/computator.go:33-47 | the same for the actions of all users |
| ComputatorProperties.PlanAlwaysComputed | corporal/reconciliation/computator/computator.go:25-99 | computing a plan never fails on the planner's own actions |
| Computator.UserChanges | corporal/reconciliation/computator/computator.go:101-131 | `computeUserChanges`: activation first, and for an active user the name, the avatar and the rooms; the lemmas of ComputatorProperties state the order and contents of the plan |
| Computator.GroupAll | corporal/reconciliation/computator/computator.go:49-91 | the grouping loop as a function, stopping at the first unreadable payload; GroupSetPowerActions is proved equal to it and GroupAllValid states what it keeps |
| Reconciler.Homeserver.constructor | corporal/connector/interface.go:9-30 | a connector starts with no calls made |
| Reconciler.Homeserver.DetermineCurrentState | corporal/connector/interface.go:15 | the current state is the connector's answer, and the call is logged |
| Reconciler.Homeserver.GetUserProfileByUserId | corporal/connector/interface.go:19 | the profile is the connector's answer, and the call is logged |
| Reconciler.Homeserver.Command | corporal/connector/interface.go:13-29 | every other call is logged and answers the connector's error, if any |
| Reconciler.DeactivationMarksOnce | corporal/reconciliation/reconciler/reconciler.go:212-222 | deactivation leaves a marked name, and deactivating again changes nothing |
| Reconciler.ActivationUndoesDeactivation | corporal/reconciliation/reconciler/reconciler.go:170-225 | activation gives back the unmarked name deactivation marked, and leaves unmarked names alone |
| Reconciler.Reconciler.constructor | corporal/reconciliation/reconciler/reconciler.go:31-61 | the reconciler keeps its connector and identity, and its handler table is the seven handlers |
| Reconciler.Reconciler.ReconcileForActionUserCreate | corporal/reconciliation/reconciler/reconciler.go:108-125 | the calls made and the error are those of UserCreateOutcome: unreadable user id or password fail before any call, then the account is ensured |
| Reconciler.Reconciler.ReconcileForActionUserSetDisplayName | corporal/reconciliation/reconciler/reconciler.go:127-144 | the same for setting the display name |
| Reconciler.Reconciler.ReconcileForActionUserSetAvatar | corporal/reconciliation/reconciler/reconciler.go:146-168 | the same for the avatar: an avatar URI that cannot be read fails before any call, otherwise the avatar read from it is set |
| Reconciler.Reconciler.ReconcileForActionUserActivate | corporal/reconciliation/reconciler/reconciler.go:170-194 | the same for activation: the profile is read, and a marked name is set without its marker |
| Reconciler.Reconciler.ReconcileForActionUserDeactivate | corporal/reconciliation/reconciler/reconciler.go:196-225 | the same for deactivation: the profile is read, all tokens logged out, and an unmarked name marked |
| Reconciler.Reconciler.ReconcileForActionRoomJoin | corporal/reconciliation/reconciler/reconciler.go:260-277 | the same for joining: the reconciler's user invites, then the user joins |
| Reconciler.Reconciler.ReconcileForActionRoomLeave | corporal/reconciliation/reconciler/reconciler.go:279-291 | the same for leaving |
| Reconciler.Reconciler.RunHandler | corporal/reconciliation/reconciler/reconciler.go:95 | running a handler makes the calls and returns the error of HandlerOutcome |
| Reconciler.Reconciler.ExecuteFirst | corporal/reconciliation/reconciler/reconciler.go:84-103 | one step of the run: a missing handler stops it, a failing handler stops it with its error, a succeeding one goes on with the rest |
| Reconciler.Reconciler.ExecuteActions | corporal/reconciliation/reconciler/reconciler.go:84-105 | the loop over the plan makes exactly the calls of Execute and returns its error |
| Reconciler.Reconciler.Reconcile | corporal/reconciliation/reconciler/reconciler.go:63-106 | a token context with the reconciler's device id and 12 minutes' validity is made and released. The current state is determined, the plan computed and carried out; a failure to determine the state ends it with `Failure determining current state: …` |
| Reconciler.Reconciler.HandlerTableEntries | corporal/reconciliation/reconciler/reconciler.go:46-58 | the table handles the five user actions and room join and leave, and no power-level action |
| Reconciler.Reconciler.ExecuteSucceedsIffAllHandled | corporal/reconciliation/reconciler/reconciler.go:84-105 | a run succeeds exactly when every action has a handler and every handler succeeds |
| Reconciler.Reconciler.ExecuteStopsAtFirstFailure | corporal/reconciliation/reconciler/reconciler.go:88-100 | the first action without a handler, or whose handler fails, ends the run with `Missing reconciliation handler` or `Failed reconciliation handler: …`; no later action makes a call |
| Reconciler.Reconciler.PowerLevelPlanFails | corporal/reconciliation/reconciler/reconciler.go:46-58 | a plan holding a grouped power-level action can never complete |
| Reconciler.Reconciler.PowerLevelChangeFailsReconciliation | corporal/reconciliation/reconciler/reconciler.go:63-106 | a reconciliation whose computed actions change any power level fails |
| Reconciler.Reconciler.ActivateOutcome | corporal/reconciliation/reconciler/reconciler.go:170-194 | activation only reads the profile for an unmarked name, and for a marked one sets the name without its first four characters (four bytes in the source) |
| Reconciler.Reconciler.DeactivateOutcome | corporal/reconciliation/reconciler/reconciler.go:196-225 | deactivation reads the profile and then logs out all tokens. It sets the marked name exactly when logging out succeeded and the name was unmarked, and never sets any other name |
| Reconciler.Reconciler.RoomJoinInvitesFirst | corporal/reconciliation/reconciler/reconciler.go:260-277 | joining starts with the invitation, and does not try to join exactly when the invitation fails, ending with its error |
| Reconciler.Reconciler.UserCreateOutcome | corporal/reconciliation/reconciler/reconciler.go:108-125 | the calls and the error of the user-create handler; ReconcileForActionUserCreate is proved equal to it |
| Reconciler.Reconciler.UserSetDisplayNameOutcome | corporal/reconciliation/reconciler/reconciler.go:127-144 | the same for the display-name handler |
| Reconciler.Reconciler.UserSetAvatarOutcome | corporal/reconciliation/reconciler/reconciler.go:146-168 | the same for the avatar handler, which reads the avatar before any call |
| Reconciler.Reconciler.UserActivateOutcome | corporal/reconciliation/reconciler/reconciler.go:170-194 | the same for the activation handler; ActivateOutcome states its outcomes |
| Reconciler.Reconciler.UserDeactivateOutcome | corporal/reconciliation/reconciler/reconciler.go:196-225 | the same for the deactivation handler; DeactivateOutcome states its outcomes |
| Reconciler.Reconciler.RoomJoinOutcome | corporal/reconciliation/reconciler/reconciler.go:260-277 | the same for the room-join handler; RoomJoinInvitesFirst states its outcomes |
| Reconciler.Reconciler.RoomLeaveOutcome | corporal/reconciliation/reconciler/reconciler.go:279-291 | the same for the room-leave handler |
| Reconciler.Reconciler.HandlerOutcome | corporal/reconciliation/reconciler/reconciler.go:46-58 | each entry of the handler table mapped to its outcome |
| Reconciler.Reconciler.Execute | corporal/reconciliation/reconciler/reconciler.go:84-105 | the loop over the plan as a function; ExecuteActions is proved equal to it, and ExecuteSucceedsIffAllHandled and ExecuteStopsAtFirstFailure state its outcomes |
| Reconciler.Reconciler.ReconcileOutcome | corporal/reconciliation/reconciler/reconciler.go:63-106 | `Reconcile` after the token context is made: the state, the plan, then the run; Reconcile is proved equal to it |
| Interceptors.ErrorResponse | corporal/httpgateway/interceptor/util.go:7-14 | an error response denies, with the given code and message |
| Interceptors.WithJsonBody | corporal/httpgateway/interceptor/interceptor_login.go:180-186 | the rewritten request carries the encoded document and its length, and nothing else changes |
| LoginInterception.DecodeLoginPayload | corporal/httpgateway/interceptor/interceptor_login.go:60-66 | a login body decodes when it and its identifier fit the payload's string fields, each field taking the body's value; `null` decodes to the empty payload |
| LoginInterception.DecodeEncodedLoginPayload | corporal/httpgateway/interceptor/interceptor_login.go:176-186 | an encoded payload decodes back to itself |
| LoginInterception.DecodeBody | corporal/httpgateway/interceptor/interceptor_login.go:60-66 | bytes that are not JSON fail; otherwise the decoded value decides |
| LoginInterception.RequestedUserId | corporal/httpgateway/interceptor/interceptor_login.go:109-116 | the identifier's user wins over the deprecated `user` field |
| LoginInterception.Authenticated | corporal/httpgateway/interceptor/interceptor_login.go:176-178 | the payload keeps its type, identifier and device, and gets the full user id and the shared-secret password of that id |
| LoginInterception.InterceptManaged | corporal/httpgateway/interceptor/interceptor_login.go:142-191 | a deactivated user is refused, and a passthrough user proxied untouched. Otherwise an authenticator error, a failed check, or success with the rewritten body, each with its own code and message |
| LoginInterception.InterceptPayload | corporal/httpgateway/interceptor/interceptor_login.go:68-92 | token logins pass untouched. Other non-password types are refused with `Denying login type: …`, and a missing policy is an error; password logins go on |
| LoginInterception.Intercept | corporal/httpgateway/interceptor/interceptor_login.go:57-66 | a body that cannot be decoded is `M_BAD_JSON` `Bad input`; any other body is judged by its payload |
| LoginInterception.PasswordLoginOutcomes | corporal/httpgateway/interceptor/interceptor_login.go:94-140 | 3pid logins pass exactly when the policy allows them. An uninterpretable id and a foreign domain are refused, an unmanaged user passes untouched, and a managed one is judged by their policy |
| LoginInterception.OnlyAuthenticatedLoginIsRewritten | corporal/httpgateway/interceptor/interceptor_login.go:57-192 | the request is changed only for a password login of an active, managed, non-passthrough user of the domain whose check succeeded, and then exactly to the authenticated payload |
| LoginInterception.IdentifierUserWins | corporal/httpgateway/interceptor/interceptor_login.go:109-116 | with an identifier user, the deprecated field has no effect |
| LoginInterception.RewriteSource | corporal/httpgateway/interceptor/interceptor_login.go:176-186 | a rewritten login names a user of the homeserver's domain |
| LoginInterception.GeneratedPasswordAccepted | corporal/httpgateway/interceptor/interceptor_login.go:178 | the password put into the login is one the homeserver's shared-secret provider accepts for that user |
| LoginInterception.RewrittenLoginIsAcceptedByHomeserver | corporal/httpgateway/interceptor/interceptor_login.go:57-192 | the rewritten body decodes to a user of the domain whose password the shared-secret provider accepts |
| UiAuthInterception.DecodeBody | corporal/httpgateway/interceptor_ui.go:40-46 | a body decodes to a map exactly when it is a JSON object or `null` |
| UiAuthInterception.GoTypeName | corporal/httpgateway/interceptor_ui.go:50-51 | the Go type of a decoded value: a map exactly for a JSON object, a string exactly for a JSON string, and `float64` for every number |
| UiAuthInterception.Get | corporal/httpgateway/interceptor_ui.go:49-58 | a missing key reads as `null` |
| UiAuthInterception.Rewritten | corporal/httpgateway/interceptor_ui.go:117-121 | the new body keeps every key of the old one. Only `auth.password` is set to the password and `auth.identifier.user` to the full user id |
| UiAuthInterception.InterceptUser | corporal/httpgateway/interceptor_ui.go:67-129 | an uninterpretable id, a foreign domain, a missing policy, a deactivated user, an authenticator error and a failed check are each refused as the handler does; an unmanaged user passes untouched, and success rewrites the body |
| UiAuthInterception.InterceptPassword | corporal/httpgateway/interceptor_ui.go:52-66 | a missing identifier or password, or an identifier type that is not a string, is `Bad input`. An identifier that is not an object panics with Go's conversion message for its type, and a non-user identifier is `Third party user IDs not yet supported` |
| UiAuthInterception.Intercept | corporal/httpgateway/interceptor_ui.go:37-136 | a bad body is `Bad input`, and a body without `auth` passes. An `auth` that is not an object, or whose type is not a string, panics with `interface conversion: interface {} is <type>, not <target>`; a non-password type passes, and password auth is judged as above |
| UiAuthInterception.RewrittenReplacesOnlyCredentials | corporal/httpgateway/interceptor_ui.go:117-121 | the rewritten body differs from the old one only in the two credentials |
| UiAuthInterception.RewriteSource | corporal/httpgateway/interceptor_ui.go:49-129 | a rewritten request comes from a password auth for an active managed user of the domain whose check succeeded |
| UiAuthInterception.OnlyCredentialsAreRewritten | corporal/httpgateway/interceptor_ui.go:37-136 | a changed request is proxied; only the credentials of a managed user of the domain were replaced, and the homeserver accepts the new password |
| InternalRestAuth.CidrListToBlockList | corporal/httpgateway/handler/internal_rest_auth.go:221-234 | every network parses in order, or the first one that does not is reported |
| InternalRestAuth.DetermineWhitelistedIpBlocks | corporal/httpgateway/handler/internal_rest_auth.go:187-218 | disabled or an empty list means no whitelist. A missing list means the eight local networks, and a given list is parsed as it is |
| InternalRestAuth.IsWhitelistedIpAddress | corporal/httpgateway/handler/internal_rest_auth.go:237-249 | an address is allowed when it is loopback or link-local, or lies in one of the networks |
| InternalRestAuth.CheckIfRequestIsAllowed | corporal/httpgateway/handler/internal_rest_auth.go:161-185 | a request passes exactly when its address parses, and there is no whitelist or the address is whitelisted; a split failure is returned as it is, an unparsable host as ``Failed to parse IP: `<host>` `` |
| InternalRestAuth.DecodeCredentialsRequest | corporal/httpgateway/handler/internal_rest_auth.go:71-77 | the body decodes when it and its `user` fit the request's string fields, to that user's id and password |
| InternalRestAuth.Decide | corporal/httpgateway/handler/internal_rest_auth.go:79-158 | a missing policy is an error. A user is authenticated exactly when the checks pass, with their full id and the policy's display name; an authenticator error comes only from the check |
| InternalRestAuth.RefusalsAreUnsuccessful | corporal/httpgateway/handler/internal_rest_auth.go:87-148 | an uninterpretable or foreign id, an unmanaged, deactivated or passthrough user and a failed check are all answered as unsuccessful |
| InternalRestAuth.AnswerReply | corporal/httpgateway/handler/internal_rest_auth.go:73-158 | each answer has its status, and its Matrix error or JSON document |
| InternalRestAuth.Answer | corporal/httpgateway/handler/internal_rest_auth.go:71-158 | a bad payload is answered as such; any other answer is the decision on the decoded request |
| InternalRestAuth.NewInternalRestAuthHandler | corporal/httpgateway/handler/internal_rest_auth.go:27-48 | the handler keeps its domain and configuration, and its whitelist is the one determined; a list that does not parse fails |
| InternalRestAuth.ActionCheckCredentials | corporal/httpgateway/handler/internal_rest_auth.go:54-159 | a disabled endpoint and a bad source address are refused with 403; otherwise the reply is the answer to the body |
| InternalRestAuth.ProviderReadsRefusal | corporal/httpgateway/handler/internal_rest_auth.go:144-148 | the homeserver's REST provider reads an unsuccessful answer as a refusal |
| InternalRestAuth.ProviderReadsAcceptance | corporal/httpgateway/handler/internal_rest_auth.go:150-158 | the REST provider reads a success as an acceptance with the display name |
| InternalRestAuth.ProviderReadsErrors | corporal/httpgateway/handler/internal_rest_auth.go:73-83 | the REST provider reads every error answer as an HTTP status error |
| UserAuth.IsKnownUserAuthType | corporal/userauth/types.go:21-34 | a type is known exactly when it is in the list |
| UserAuth.KnownUserAuthTypesShape | corporal/userauth/types.go:10-30 | the list holds the eight types once each |
| UserAuth.AuthType | corporal/userauth/none.go:16-18 | the type each stateless authenticator reports: `none` is the only one outside the known types, and none reports the cache-fallback type |
| UserAuth.RegisteredType | corporal/userauth/hash.go:26-28 | the type of a registered entity: the stateless type, or the type a hashing or caching authenticator was built with; Checker.RegisterAuthenticator registers under it |
| UserAuth.DecodeRestAuthResponse | corporal/userauth/rest.go:60-66 | a reply decodes when its fields fit their Go types, and then gives its success flag |
| UserAuth.AuthenticateWith | corporal/userauth/rest.go:34-67 | plain compares the strings, none refuses, bcrypt refuses long passwords and otherwise checks the hash; REST posts the request and reads the reply or its error |
| UserAuth.UserIdIgnored | src/devture/matrix/corporal/userauth/plain.go:19-21 | only the REST authenticator looks at the user id |
| UserAuth.NoneIsConstant | corporal/userauth/none.go:20-22 | the none authenticator always refuses |
| UserAuth.GatewayDecodesRestRequest | corporal/userauth/rest.go:73-80 | the request the REST authenticator posts is read back by the gateway's endpoint as the same credentials |
| UserAuth.RestAuthenticatorReadsRefusal | corporal/userauth/rest.go:51-66 | the gateway's unsuccessful answer is read as a refusal |
| UserAuth.RestAuthenticatorReadsAcceptance | corporal/userauth/rest.go:51-66 | the gateway's success is read as an acceptance |
| UserAuth.RestAuthenticatorReadsErrors | corporal/userauth/rest.go:51-53 | the gateway's error answers are read as errors |
| UserAuth.HashVerdict | corporal/userauth/hash.go:30-41 | a credential that is not hex is an error; otherwise it matches exactly when its bytes are the digest |
| UserAuth.LowercaseCredentialIsRendering | corporal/userauth/hash.go:30-41 | a lowercase credential matches exactly when it is the digest's hex rendering |
| UserAuth.HashAuthenticator.constructor | corporal/userauth/hash.go:19-24 | a new hash authenticator has its type and digest, and nothing written |
| UserAuth.HashAuthenticator.Authenticate | corporal/userauth/hash.go:30-41 | the answer is the hash verdict; the reusable hash holds the password's bytes only when the credential was hex |
| UserAuth.NewMd5Authenticator | corporal/userauth/hash.go:43-45 | a fresh hash authenticator of type `md5` over the md5 digest, with nothing written |
| UserAuth.NewSha1Authenticator | corporal/userauth/hash.go:47-49 | a fresh hash authenticator of type `sha1` over the sha1 digest, with nothing written |
| UserAuth.NewSha256Authenticator | corporal/userauth/hash.go:51-53 | a fresh hash authenticator of type `sha256` over the sha256 digest, with nothing written |
| UserAuth.NewSha512Authenticator | corporal/userauth/hash.go:55-57 | a fresh hash authenticator of type `sha512` over the sha512 digest, with nothing written |
| UserAuth.DashShiftedTriplesShareKey | src/devture/matrix/corporal/userauth/caching.go:46 | two triples whose dashes shift between user id and password have the same cache key |
| UserAuth.FallbackResult | src/devture/matrix/corporal/userauth/caching.go:51-72 | an upstream answer is returned; an upstream error is served from the cache, or reported as `Cache fallback failed, after upstream's failure: …` |
| UserAuth.FallbackCache | src/devture/matrix/corporal/userauth/caching.go:53-58 | only an upstream answer is stored |
| UserAuth.FailureAfterSuccessServesStoredVerdict | src/devture/matrix/corporal/userauth/caching.go:45-73 | after a success, a failing upstream gets the stored answer for the same triple |
| UserAuth.FallbackNeverInvents | src/devture/matrix/corporal/userauth/caching.go:45-73 | every answer is the upstream's or a stored one |
| UserAuth.CacheFallbackAuthenticator.constructor | src/devture/matrix/corporal/userauth/caching.go:27-39 | a new wrapper has its type and upstream, and an empty cache |
| UserAuth.CacheFallbackAuthenticator.Authenticate | src/devture/matrix/corporal/userauth/caching.go:45-73 | the answer and the new cache are the fallback's |
| UserAuth.Checker.constructor | src/devture/matrix/corporal/userauth/checker.go:9-13 | a new checker has no authenticators |
| UserAuth.Checker.RegisterAuthenticator | src/devture/matrix/corporal/userauth/checker.go:15-17 | an authenticator is registered under its type, replacing any earlier one |
| UserAuth.Checker.Check | src/devture/matrix/corporal/userauth/checker.go:19-26 | an unknown type is `Unsupported authenticator: …`; otherwise the registered authenticator's answer. Only that authenticator's state may change |
| UserAuth.RestAuthRequestDocument | corporal/userauth/rest.go:73-86 | the JSON document `{"user": {"id": …, "password": …}}` sent to the REST service |
| CatchAll.OrderedEventTypesByAuthStatus | corporal/httpgateway/handler/catchall.go:123-143 | four event types, before-any first and after-any third |
| CatchAll.EventTypeOrder | corporal/httpgateway/handler/catchall.go:119-143 | the two before-stages come ahead of the two after-stages, all are known event types, the authenticated stages appear exactly when the request is authenticated and the unauthenticated ones exactly when it is not, and no policy-checked stage is ever run by the catch-all handler |
| CatchAll.Identify | corporal/httpgateway/handler/catchall.go:59-70 | a request counts as authenticated exactly when it carries a token that the resolver maps to a user; then the request carries that user, otherwise it is left unchanged |
| CatchAll.IdentifyRequest | corporal/httpgateway/handler/catchall.go:61-70 | the imperative identification step returns the request and the status that `Identify` specifies |
| CatchAll.ActionCatchAll | corporal/httpgateway/handler/catchall.go:41-96 | the handler with its stage loop computes exactly the outcome of CatchAll |
| CatchAll.CatchAllOutcomes | corporal/httpgateway/handler/catchall.go:41-96 | an OPTIONS request, and only such a request, gets the fixed 200 CORS preflight reply; any other request runs a non-empty prefix of its ordered stages, starting with before-any, and reaches the homeserver only after running all four |
| CatchAll.UnresolvedTokenCountsAsAnonymous | corporal/httpgateway/handler/catchall.go:61-81 | a missing token or one the resolver cannot map is not an error: the request runs the unauthenticated stages unchanged |
| CatchAll.HooksSeeResolvedUser | corporal/httpgateway/handler/catchall.go:63-81 | with a resolvable token the hooks run the authenticated stages on a request that carries the resolved user |
| LoginHandler.AfterHooks | corporal/httpgateway/handler/login.go:75-112 | when the interceptor denies, a 403 Matrix error with the interceptor's code and message is written and nothing is proxied; when it approves, the rewritten request is proxied with the collected response modifiers chained |
| LoginHandler.ServeLogin | corporal/httpgateway/handler/login.go:51-116 | the login handler computes exactly the outcome of Login |
| LoginHandler.LoginOutcomes | corporal/httpgateway/handler/login.go:52-116 | the login stages run as a non-empty prefix of before-any, before-unauthenticated, after-any, after-unauthenticated; a hook answering stops the request there, otherwise the interceptor decides after all four |
| LoginHandler.LoginRunsNoAuthenticatedHooks | corporal/httpgateway/handler/login.go:52-57 | a login request never runs an authenticated or policy-checked hook stage and is never answered as a preflight |
| LoginHandler.ProxiedOnlyWhenApproved | corporal/httpgateway/handler/login.go:69-112 | a proxied login request has passed all four stages and been approved by the interceptor, and what reaches the homeserver is the interceptor's rewritten request |
| PolicyCheckedRoutes.OnlyPasswordRouteAllowsUnauthenticatedAccess | corporal/httpgateway/handler/policy_checked_routes.go:69-130 | of the registered policy-checked routes only `user.password` admits requests without a token, and no two routes share a name |
| PolicyCheckedRoutes.CheckOfRoute | corporal/httpgateway/handler/policy_checked_routes.go:69-130 | a route name has a policy check exactly when it is one of the modelled policy-checked routes |
| PolicyCheckedRoutes.AfterStages | corporal/httpgateway/handler/policy_checked_routes.go:233-245 | the after-stages start with after-any and include after-authenticated exactly for an authenticated request |
| PolicyCheckedRoutes.BeforeAny | corporal/httpgateway/handler/policy_checked_routes.go:143-147 | the first thing a policy-checked route does is run the before-any stage and nothing else |
| PolicyCheckedRoutes.Admit | corporal/httpgateway/handler/policy_checked_routes.go:143-200 | every admission starts by running before-any |
| PolicyCheckedRoutes.TokenGate | corporal/httpgateway/handler/policy_checked_routes.go:149-182 | after before-any, a missing token is refused with 401 M_MISSING_TOKEN unless the route allows unauthenticated access, in which case the request goes on unchanged; a token the resolver cannot map is refused with 403 M_UNKNOWN_TOKEN |
| PolicyCheckedRoutes.AuthenticatedStagesRunIffResolved | corporal/httpgateway/handler/policy_checked_routes.go:167-200 | the authenticated before-stages run exactly when the token resolved to a user, in order after before-any; otherwise only before-any has run |
| PolicyCheckedRoutes.MissingPolicyAnsweredByFirstHooks | corporal/httpgateway/hookrunner/hook_runner.go:25-40 | without a policy, the first hook stage already answers with 503 M_UNKNOWN, so the handler's own missing-policy denial is never reached |
| PolicyCheckedRoutes.AdmitRequest | corporal/httpgateway/handler/policy_checked_routes.go:143-200 | the imperative admission returns the pipeline and authentication status of Admit and IsAuthenticated |
| PolicyCheckedRoutes.FinishAllowed | corporal/httpgateway/handler/policy_checked_routes.go:233-259 | an allowed request runs the after-stages for its authentication status and is then proxied with the chained modifiers, unless a hook answers |
| PolicyCheckedRoutes.ServePolicyChecked | corporal/httpgateway/handler/policy_checked_routes.go:133-261 | a request stopped during admission stays stopped; a denying policy check writes a 403 with the check's code and message; an allowing one runs the after-stages; a request reaches the homeserver only when the policy exists and its check allowed it |
| ApiVersionGate.DigitRun | corporal/httpgateway/middleware.go:20 | the run of digits at a position is the longest one: every character in it is a digit and the next one is not |
| ApiVersionGate.VersionAt | corporal/httpgateway/middleware.go:20 | a version is captured at a position exactly when the client prefix is there, followed by `r` or `v` and at least one digit |
| ApiVersionGate.FindFrom | corporal/httpgateway/middleware.go:30 | the search returns the leftmost position at or after its start where a version is captured, or nothing when there is none |
| ApiVersionGate.ApiVersionFromUri | corporal/httpgateway/middleware.go:30-37 | the captured release version is the one at the leftmost match, or nothing when the URI has no match |
| ApiVersionGate.DenyUnsupportedApiVersions | corporal/httpgateway/middleware.go:28-52 | a request passes when its URI has no version match or the captured version is supported; otherwise it is refused with 403 M_FORBIDDEN |
| ApiVersionGate.VersionRightAfterPrefix | corporal/httpgateway/middleware.go:20 | a captured version starts with `r` or `v`, the rest is digits, and it sits right after the prefix |
| ApiVersionGate.DigitsThenStop | corporal/httpgateway/middleware.go:20 | the capture takes every digit and stops at the first non-digit |
| ApiVersionGate.CapturedVersionDecides | corporal/httpgateway/middleware.go:37-50 | with a match, the decision depends only on whether the captured version is in the supported list |
| ApiVersionGate.SupportedVersionsPass | corporal/httpgateway/middleware.go:22-25 | a request for `r0` or `v3` passes the gate |
| ApiVersionGate.OtherVersionsRefused | corporal/httpgateway/middleware.go:39-50 | a request for any other `r`/`v` version, such as `v1` or `r1`, is refused with 403 M_FORBIDDEN "API version not supported by gateway" |
| ApiVersionGate.LongerNumberIsAnotherVersion | corporal/httpgateway/middleware.go:20 | `v30` is captured whole and is not taken for `v3` |
| ApiVersionGate.LeftmostMatchDecides | corporal/httpgateway/middleware.go:30 | when a URI has several matches, the leftmost one decides |
| ApiVersionGate.MatchStartsWithPrefix | corporal/httpgateway/middleware.go:20 | a version is only captured where the client prefix is followed by `r` or `v` and a digit |
| ApiVersionGate.NonVersionSegmentPasses | corporal/httpgateway/middleware.go:16-19 | a URI whose segment after the client prefix does not start with `r` or `v` and a digit, and that holds no second match, passes |
| ApiVersionGate.VersionsEndpointPasses | corporal/httpgateway/middleware.go:16-19 | `/_matrix/client/versions` does not match and passes the gate |
| Config.ResolverWithDefaults | corporal/configuration/configuration.go:96-104 | a cache size or expiration time of zero becomes the default; any other value is kept |
| Config.ResolverDefaultsProperties | corporal/configuration/configuration.go:96-104 | after the defaults neither setting is zero, filling in the defaults twice is the same as once, a fully set resolver is unchanged, and the expiration time is either five minutes or the configured one |
| Config.Decimal | corporal/configuration/configuration.go:127-131 | a number is written with at least one digit |
| Config.Configuration.constructor | corporal/configuration/configuration.go:12-20 | a configuration holds exactly the settings it is built from |
| Config.Configuration.SetDefaults | corporal/configuration/configuration.go:96-104 | only the user-mapping resolver's settings change, to their defaults; every other setting is unchanged |
| Config.Configuration.FirstFailedCheck | corporal/configuration/configuration.go:106-150 | no check is reported exactly when all pass; a reported check fails and every check ordered before it passes |
| Config.Configuration.Validate | corporal/configuration/configuration.go:106-150 | validation succeeds exactly when every check passes, and otherwise reports the message of the first failing check |
| Config.GatewayTimeoutMayEqualMatrixTimeout | corporal/configuration/configuration.go:126-133 | a gateway timeout equal to the Matrix timeout is accepted; a smaller positive one is refused with the message quoting both numbers |
| Config.InternalRestAuthOnlyLogs | corporal/configuration/configuration.go:133-143 | the internal REST auth settings never change the outcome of validation, they only produce log lines |
| Config.LoadConfiguration | corporal/configuration/configuration.go:73-94 | an unreadable file and undecodable JSON fail with their messages; a decoded configuration gets its defaults and is returned when it validates, otherwise the validation message is returned as the error |
| Container.Reversed | corporal/container/container.go:40-44 | the reversed list has the same length, the last destructor first |
| Container.ReversedIsPermutation | corporal/container/container.go:40-44 | shutting down calls every destructor exactly as many times as it was added |
| Container.AddedLastRunsFirst | corporal/container/container.go:36-44 | the destructor added last is the first one called at shutdown |
| Container.ContainerShutdownHandler.constructor | corporal/container/container.go:32-34 | a new handler has no destructors and has called none |
| Container.ContainerShutdownHandler.Add | corporal/container/container.go:36-38 | a destructor is appended to the list and none is called |
| Container.ContainerShutdownHandler.Shutdown | corporal/container/container.go:40-44 | every destructor is called once, in reverse order of addition, and the list itself is kept |
| Container.ShutdownOrderExample | corporal/container/container.go:36-44 | three destructors added in order a, b, c are called as c, b, a, and shutting down a handler with nothing added calls nothing |
| CatchAll.CatchAll | corporal/httpgateway/handler/catchall.go:41-96 | the catch-all handler as a function; ActionCatchAll is proved equal to it, and CatchAllOutcomes, UnresolvedTokenCountsAsAnonymous and HooksSeeResolvedUser state its outcomes |
| LoginHandler.Login | corporal/httpgateway/handler/login.go:51-116 | the login handler as a function; ServeLogin is proved equal to it, and LoginRunsNoAuthenticatedHooks states which stages run |

## Left out

- Network I/O, process logging, goroutines and the HTTP server itself: each handler is a function
  from a request, and the state it reads, to what it writes and whether it proxies.
- The reverse proxy is not modelled beyond the proxied request and the chained response modifiers
  attached to it.
- JSON parsing, `json.Marshal`, regular expressions, CIDR parsing and containment, HMAC-SHA512,
  SHA-512, MD5, SHA-1, SHA-256, bcrypt, base64 and UTF-8 are parameters. Their own correctness is
  outside the model.
- The `json.Marshal` failure branches ("Internal error" answers) are left out. The codec's encoder
  is total, as marshalling the gateway's own maps and structs cannot fail.
- Header names are taken as already in canonical form. Go's case-insensitive header lookup is not
  modelled.
- The exact text of numbers in error messages is not modelled. `Config.Decimal` renders a number
  in decimal without proving the rendering reads back.
- Executor.ConsultRESTServiceURL: the nesting of consulted hooks is bounded by a `fuel` parameter.
  When it runs out, the model reports a processing error; in the source, the recursion has no bound.
- The clock is a parameter: token expiry, 3PID timestamps and the rate-limit waits are computed
  from given readings. Sleeping is recorded as the duration asked for.
- Randomness: the 64 random bytes of an initial password are a parameter. The panic when
  `rand.Read` fails is left out.
- The access-token context value that the handlers store next to the user id is left out, because
  no modelled reader uses it. The connector's internal use of its per-user tokens is outside the
  model, except for the cache and the release.
- The request is a value: a handler that rewrites it hands the new value on. The model does not
  capture sharing of the underlying `*http.Request`.
- The `invite` context value read by `CheckRoomCreate` is an input, because no code in this model
  sets it. `Checker.CanSendInvite` and `UserPolicy.Validate` are parameters; their definitions are
  not part of this model.
- The checks `CheckRoomEncryptionStateChange` and `CheckRoomSendEvent` are named by the route table
  but their code is not part of this model. `PolicyCheckedRoutes.CheckOfRoute` has no check for
  those two routes.
- The missing-policy denial of the policy-checked handler is not modelled as a branch of its own.
  `PolicyCheckedRoutes.MissingPolicyAnsweredByFirstHooks` shows that the hook runner already
  answers 503 before-any for a missing policy, so the branch is never reached.
- The `log.Fatalf` after the interceptor's verdict in the login handler is left out. The verdict is
  either deny or proxy, so that line cannot be reached.
- The panic of `NewInternalRESTAuthHandler` on an unparsable whitelist entry is an `Err` result of
  `InternalRestAuth.NewInternalRestAuthHandler`.
- UserAuth: the cache of the cache-fallback authenticator is an unbounded map. LRU eviction is not
  modelled, so a cached verdict, once stored, stays.
- The "none" authenticator is modelled, but the service container does not register it. The
  container's wiring (`BuildContainer`) is not part of this model.
- The policy provider settings (`PolicyProvider`) are kept as an opaque JSON map. Decoding the
  configuration file is an input of `Config.LoadConfiguration`.
- Container.ContainerShutdownHandler.Shutdown: a destructor that adds destructors while shutdown
  runs is not modelled. Destructors only record that they were called.
- Computator.Compute: Go's iteration order over the map of grouped power-level changes is
  unspecified. The model emits the grouped actions in order of each room's first appearance, and
  the contracts promise only one grouped action per room.
- Computator.Compute: the grouping writes each further user's level into the `roomPowerForUserId`
  map of a grouped action already built. The model rebuilds that action with the extended map; the
  result is the same, but the in-place update is not modelled.
- The reconciler's community join and leave handlers are left out. They are referenced by its
  handler table but their action constants are absent from the actions file.
- The reconciler's handler table has no entry for `room.users_set_power_levels`. The model keeps
  the table as written and proves that a plan containing that action fails at it.
- The REST provider's two ways of reaching the profile store (for Synapse before and after 1.9.0)
  are one store in the model.
- Executor.PassModifiedRequest: a JSON `null` request body with keys to inject ends in the
  "Failed to interpret …" processing error, where the source panics (the second finding). Every
  other body is handled as the code handles it, a `null` body with nothing to inject included.
- Executor.InjectIntoResponse: a JSON `null` response body with keys to inject ends in the
  "cannot understand response body payload" error with a skip, where the source panics (the
  second finding). Every other body is handled as the code handles it.
- ExecutorProperties.RequestInjectionNeedsObject: states the corrected outcome (a processing
  error) for a `null` body with keys to inject, not the source's panic.
- ExecutorProperties.ResponseInjectionMerges: states the corrected outcome (an error with a skip)
  for a `null` body with keys to inject, not the source's panic.
- Strings.Lower and Strings.LowerChar lower ASCII letters only. Python's `str.lower()` follows
  Unicode case mapping (`"É".lower()` is `"é"`, and `"İ".lower()` is two characters long), so the
  REST provider's lowercasing is right only for ASCII user ids, media and addresses. The members
  on the next lines inherit this.
- RestAuthProvider.LoweredField: lowers the field with ASCII-only lowering, not Unicode case
  mapping.
- RestAuthProvider.ParseThreepid: the medium and address are lowered ASCII-only.
- RestAuthProvider.RestAuthProvider.EnsureAccount: the lowercase-username policy compares the
  localpart with its ASCII-only lowering, so a localpart such as `Élodie` is not refused as the
  source would refuse it.
- RestAuthProvider.RegistrationStep: the same ASCII-only lowering as EnsureAccount.
- RestAuthProvider.RestAuthProvider.AddThreepids: the 3PIDs are lowered ASCII-only before they
  are looked up and added.
- RestAuthProvider.RestAuthProvider.RemoveStaleThreepids: the stored 3PIDs are lowered
  ASCII-only before they are compared with the external ones.
- RestAuthProviderProperties.AnswerFalseIff: the lowercase refusal it states uses the ASCII-only
  lowering.
- MatrixUtil.CleanDeactivationMarkerFromDisplayName: drops four characters where the source slices
  off four bytes. The two agree when the first four characters are ASCII, as they are for every
  name that starts with the marker. A name that only contains the marker, such as `é[x] `, is cut
  differently, and the source can even cut inside a character. A `string` here is a sequence of
  characters, so a byte slice is not modelled.
- Reconciler.Reconciler.ActivateOutcome: inherits the character-for-byte cut of
  CleanDeactivationMarkerFromDisplayName, and so do Reconciler.Reconciler.UserActivateOutcome and
  Reconciler.Reconciler.ReconcileForActionUserActivate.
- RestAuthProvider.RestAuthProvider.CheckPassword: follows the corrected reading of line 80 (the
  first finding). A success reply without `profile` answers true with nothing applied, where the
  source raises KeyError after the account was registered. CheckPasswordAsWritten models the
  code as written.
- JsonBody.StringFieldsOf: reads each key by exact name. Go's `json.Unmarshal` into a struct also
  accepts a key that matches the field name case-insensitively, and the last matching key of the
  document wins. The JSON object is a map here, without its key order, so that rule cannot be
  stated.
- JsonBody.StringFields: the same exact-name reading as StringFieldsOf.
- LoginInterception.DecodeLoginPayload: the same exact-name reading of the login payload's keys.
- InternalRestAuth.DecodeCredentialsRequest: the same exact-name reading of the credentials
  request's keys.
- UserAuth.DecodeRestAuthResponse: the same exact-name reading of the REST response's keys.
- Regex.Compile: the compile error is `error parsing regexp: ` followed by the pattern. Go's own
  error text (the error code and the offending part) is not modelled.
- UserAuth.DecodeRestAuthResponse: the decode error is `Failed to decode JSON for <url>`. The
  source also puts the decoder's error text and the raw response body into the message, and the
  decoder's text is not part of this model.
- UserAuth.HashVerdict: a credential that is not hex fails with the one text
  `encoding/hex: invalid byte or odd length`. Go reports either `encoding/hex: invalid byte: %#U`
  with the offending byte of the credential's UTF-8 encoding, or
  `encoding/hex: odd length hex string`; which one it reports for an odd-length string with a bad
  byte depends on the Go release, so the two texts are not told apart.
- InternalRestAuth.CidrListToBlockList: the error is the entry that does not parse. The source
  wraps it as `Failed parsing "<entry>": <net error>`, and that wrapping is not modelled.

## Findings

| source | as written | input that shows it | evidently intended | confidence | as-written member | corrected member |
|---|---|---|---|---|---|---|
| etc/services/rest_auth_provider.py:80 | `if auth["profile"]:` indexes `profile` after the account was registered at lines 66-76, so a success reply without `profile` raises KeyError | the reply `{"auth": {"success": true, "mxid": "@bob:x"}}` for the new user `@bob:x`: the account is created and the login then fails | the truthiness test treats the profile as optional, so a reply without it is accepted with nothing to apply, and the login answers true | not executed | RestAuthProviderProperties.MissingProfileFailsAfterRegistration | RestAuthProviderProperties.MissingProfileIntended |
| corporal/hook/executor.go:385-393 | a JSON `null` request body unmarshals without error into a nil `map[string]interface{}`, and writing the first injected key into it panics | a hook with action `pass.modifiedRequest`, a non-empty `injectJSONIntoRequest` and the request body `null` | a `null` body with keys to inject ends the hook with the same processing error as a body that is not a JSON object, while a `null` body with nothing to inject is still re-encoded as `null` | not executed | Executor.NullBodyPanics | Executor.MergeIntended |
