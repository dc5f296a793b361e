/** Matrix protocol constants and the user-id, deactivation-marker and rate-limit helpers of
    corporal/matrix. */
module MatrixUtil {
  import opened Wrappers
  import opened Strings

  const ErrorBadJson := "M_BAD_JSON"
  const ErrorForbidden := "M_FORBIDDEN"
  const ErrorMissingToken := "M_MISSING_TOKEN"
  const ErrorUnknown := "M_UNKNOWN"
  const ErrorUnknownToken := "M_UNKNOWN_TOKEN"
  const ErrorUserInUse := "M_USER_IN_USE"
  const ErrorInvalidUsername := "M_INVALID_USERNAME"
  const ErrorUserDeactivated := "M_USER_DEACTIVATED"
  const ErrorLimitExceeded := "M_LIMIT_EXCEEDED"
  const ErrorMissingParameter := "M_MISSING_PARAM"
  const ErrorNotFound := "M_NOT_FOUND"

  /** Prefix put in front of the display name of an account the gateway keeps disabled. */
  const DeactivatedAccountPrefixMarker := "[x] "

  const LoginTypePassword := "m.login.password"
  const LoginTypeToken := "m.login.token"
  const LoginIdentifierTypeUser := "m.id.user"
  const LoginIdentifierTypeThirdParty := "m.id.thirdparty"
  const LoginIdentifierTypePhone := "m.id.phone"

  /** The error a homeserver client call returns: an HTTP error whose wrapped value may be a
      decoded Matrix error body, or any other failure. */
  datatype WrappedError = RespError(errCode: string, message: string) | OpaqueError(message: string)
  datatype MatrixError = HttpError(code: int, wrapped: WrappedError) | OtherError(message: string)

  /** The error is an HTTP error wrapping a Matrix error body with exactly this errcode. */
  predicate IsErrorWithCode(err: MatrixError, errorCode: string)
  {
    err.HttpError? && err.wrapped.RespError? && err.wrapped.errCode == errorCode
  }

  lemma IsErrorWithCodeMeaning(err: MatrixError, errorCode: string)
    ensures IsErrorWithCode(err, errorCode) <==>
      exists status, message :: err == HttpError(status, RespError(errorCode, message))
  {
    if IsErrorWithCode(err, errorCode) {
      assert err == HttpError(err.code, RespError(errorCode, err.wrapped.message));
    }
  }

  const MaxRetries: nat := 5

  /** An attempt outcome that ends the retry loop: success, or an error other than a rate limit. */
  predicate EndsRetries(outcome: Option<MatrixError>)
  {
    outcome.None? || !IsErrorWithCode(outcome.value, ErrorLimitExceeded)
  }

  /** `callback(k)` is what the (k+1)-th invocation of the callback returns (None for nil).
      `attempts` counts invocations and `waits` lists the sleeps in seconds, in order. */
  method ExecuteWithRateLimitRetries(callback: nat -> Option<MatrixError>)
    returns (err: Option<MatrixError>, attempts: nat, waits: seq<nat>)
    ensures 1 <= attempts <= MaxRetries
    ensures err == callback(attempts - 1)
    ensures forall k :: 0 <= k < attempts - 1 ==> !EndsRetries(callback(k))
    ensures attempts < MaxRetries ==> EndsRetries(callback(attempts - 1))
    ensures |waits| == if EndsRetries(callback(attempts - 1)) then attempts - 1 else attempts
    ensures forall k :: 0 <= k < |waits| ==> waits[k] == 5 * (k + 1)
  {
    var lastCallbackErr: Option<MatrixError> := None;
    waits := [];
    var retry := 0;
    while retry < MaxRetries
      invariant 0 <= retry <= MaxRetries
      invariant forall k :: 0 <= k < retry ==> !EndsRetries(callback(k))
      invariant |waits| == retry
      invariant forall k :: 0 <= k < |waits| ==> waits[k] == 5 * (k + 1)
      invariant retry > 0 ==> lastCallbackErr == callback(retry - 1)
    {
      lastCallbackErr := callback(retry);
      if lastCallbackErr.None? {
        return None, retry + 1, waits;
      }
      if !IsErrorWithCode(lastCallbackErr.value, ErrorLimitExceeded) {
        return lastCallbackErr, retry + 1, waits;
      }
      var retryAfterSeconds := (retry + 1) * 5;
      waits := waits + [retryAfterSeconds];
      retry := retry + 1;
    }
    return lastCallbackErr, MaxRetries, waits;
  }

  /** The display name marks a disabled account: the marker occurs anywhere in it. */
  predicate IsUserDeactivatedAccordingToDisplayName(displayName: string)
  {
    Contains(displayName, DeactivatedAccountPrefixMarker)
  }

  /** A marked name stays marked under any prefix and suffix, so the marker need not lead. */
  lemma MarkerAnywhereDeactivates(before: string, after: string)
    ensures IsUserDeactivatedAccordingToDisplayName(before + DeactivatedAccountPrefixMarker + after)
  {
    ContainsInfix(before, DeactivatedAccountPrefixMarker, after);
  }

  /** Drops the first four characters whatever they are; Go panics on a shorter name. */
  function CleanDeactivationMarkerFromDisplayName(displayName: string): (r: string)
    requires |displayName| >= |DeactivatedAccountPrefixMarker|
    ensures displayName == displayName[..|DeactivatedAccountPrefixMarker|] + r
    ensures HasPrefix(displayName, DeactivatedAccountPrefixMarker) ==> displayName == DeactivatedAccountPrefixMarker + r
  {
    displayName[|DeactivatedAccountPrefixMarker|..]
  }

  /** Marking then cleaning gives the name back. */
  lemma CleanAfterMark(name: string)
    ensures CleanDeactivationMarkerFromDisplayName(DeactivatedAccountPrefixMarker + name) == name
  {
  }

  /** A local or full user id made into a full one on the given homeserver. */
  function DetermineFullUserId(userIdLocalOrFull: string, homeserverDomainName: string): (r: Result<string, string>)
    ensures userIdLocalOrFull == "" <==> r.Err?
    ensures r.Ok? && HasPrefix(userIdLocalOrFull, "@") ==> r.value == userIdLocalOrFull
    ensures r.Ok? && !HasPrefix(userIdLocalOrFull, "@") ==> r.value == "@" + userIdLocalOrFull + ":" + homeserverDomainName
    ensures r.Ok? ==> HasPrefix(r.value, "@")
  {
    if userIdLocalOrFull == "" then Err("Empty user id")
    else if HasPrefix(userIdLocalOrFull, "@") then Ok(userIdLocalOrFull)
    else Ok("@" + userIdLocalOrFull + ":" + homeserverDomainName)
  }

  /** Applying the conversion to its own result changes nothing, whatever the second domain. */
  lemma DetermineFullUserIdIdempotent(id: string, domain: string, otherDomain: string)
    requires DetermineFullUserId(id, domain).Ok?
    ensures DetermineFullUserId(DetermineFullUserId(id, domain).value, otherDomain) == DetermineFullUserId(id, domain)
  {
  }

  predicate IsFullUserIdOfDomain(userIdFull: string, homeserverDomainName: string)
  {
    HasSuffix(userIdFull, ":" + homeserverDomainName)
  }

  /** An id is of a domain exactly when it is some text followed by `:` and the domain. */
  lemma FullUserIdOfDomainShape(userIdFull: string, homeserverDomainName: string)
    ensures IsFullUserIdOfDomain(userIdFull, homeserverDomainName) <==>
      exists head :: userIdFull == head + ":" + homeserverDomainName
  {
    var suffix := ":" + homeserverDomainName;
    if IsFullUserIdOfDomain(userIdFull, homeserverDomainName) {
      var head := userIdFull[..|userIdFull| - |suffix|];
      assert userIdFull == head + suffix;
      assert userIdFull == head + ":" + homeserverDomainName;
    }
    if exists head :: userIdFull == head + ":" + homeserverDomainName {
      var head :| userIdFull == head + ":" + homeserverDomainName;
      assert userIdFull == head + suffix;
      assert userIdFull[|userIdFull| - |suffix|..] == suffix;
    }
  }

  /** A local part without a leading '@' becomes an id of the given domain. */
  lemma DeterminedLocalIdIsOfDomain(localpart: string, domain: string)
    requires localpart != "" && !HasPrefix(localpart, "@")
    ensures DetermineFullUserId(localpart, domain).Ok?
    ensures IsFullUserIdOfDomain(DetermineFullUserId(localpart, domain).value, domain)
  {
    assert "@" + localpart + ":" + domain == ("@" + localpart) + (":" + domain);
    ConcatHasSuffix("@" + localpart, ":" + domain);
  }
}
