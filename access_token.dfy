/** Access tokens obtained on behalf of managed users and their per-user cache
    (corporal/connector/access_token.go, corporal/connector/access_token_context.go). Times are Unix
    seconds; the clock is a parameter. */
module AccessTokens {
  import opened Wrappers

  /** A token and the second after which it is no longer valid, if it expires at all. */
  datatype AccessToken = AccessToken(token: string, validUntil: Option<int>)

  function Token(t: AccessToken): string
  {
    t.token
  }

  /** `Expired`: never without a validity bound, else strictly after the bound's second. */
  predicate Expired(t: AccessToken, now: int)
  {
    t.validUntil.Some? && now > t.validUntil.value
  }

  /** Once expired, a token stays expired. */
  lemma ExpiryIsMonotone(t: AccessToken, now: int, later: int)
    requires Expired(t, now) && now <= later
    ensures Expired(t, later)
  {
  }

  /** A token is still valid during its last second. */
  lemma ValidUntilItsSecond(t: AccessToken)
    requires t.validUntil.Some?
    ensures !Expired(t, t.validUntil.value) && Expired(t, t.validUntil.value + 1)
  {
  }

  /** A call the context makes on the homeserver connector. */
  datatype ConnectorCall =
    | ObtainCall(userId: string, deviceId: string, validUntil: Option<int>)
    | VerifyCall(userId: string, token: string)
    | DestroyCall(userId: string, token: string)

  /** The homeserver connector as far as tokens go: what obtaining and verifying answer (the
      network exchange itself is not part of this model), and the calls made. */
  class MatrixConnector {
    const obtain: (string, string, Option<int>) -> Result<string, string>
    const verify: (string, string) -> Option<string>
    var calls: seq<ConnectorCall>

    constructor(obtain: (string, string, Option<int>) -> Result<string, string>, verify: (string, string) -> Option<string>)
      ensures this.obtain == obtain && this.verify == verify && calls == []
    {
      this.obtain := obtain;
      this.verify := verify;
      calls := [];
    }

    method ObtainNewAccessTokenForUserId(userId: string, deviceId: string, validUntil: Option<int>) returns (r: Result<string, string>)
      modifies this
      ensures r == obtain(userId, deviceId, validUntil)
      ensures calls == old(calls) + [ObtainCall(userId, deviceId, validUntil)]
    {
      calls := calls + [ObtainCall(userId, deviceId, validUntil)];
      r := obtain(userId, deviceId, validUntil);
    }

    method VerifyAccessToken(userId: string, token: string) returns (err: Option<string>)
      modifies this
      ensures err == verify(userId, token)
      ensures calls == old(calls) + [VerifyCall(userId, token)]
    {
      calls := calls + [VerifyCall(userId, token)];
      err := verify(userId, token);
    }

    /** Destroying answers an error the context ignores, so it is not modelled. */
    method DestroyAccessToken(userId: string, token: string)
      modifies this
      ensures calls == old(calls) + [DestroyCall(userId, token)]
    {
      calls := calls + [DestroyCall(userId, token)];
    }
  }

  /** The validity bound of a token obtained at `now`: none when tokens do not expire. */
  function ValidUntil(validitySeconds: int, now: int): (r: Option<int>)
    ensures validitySeconds == 0 <==> r.None?
    ensures r.Some? ==> r.value == now + validitySeconds
  {
    if validitySeconds != 0 then Some(now + validitySeconds) else None
  }

  class AccessTokenContext {
    const connector: MatrixConnector
    const deviceId: string
    const validitySeconds: int
    var tokens: map<string, AccessToken>

    constructor(connector: MatrixConnector, deviceId: string, validitySeconds: int)
      ensures this.connector == connector && this.deviceId == deviceId && this.validitySeconds == validitySeconds
      ensures tokens == map[]
    {
      this.connector := connector;
      this.deviceId := deviceId;
      this.validitySeconds := validitySeconds;
      tokens := map[];
    }

    /** `GetAccessTokenForUserId`: a cached unexpired token without a connector call; otherwise the
        stale entry is dropped and a new token obtained and verified, and cached only when both
        succeed. */
    method GetAccessTokenForUserId(userId: string, now: int) returns (r: Result<string, string>)
      modifies this, connector
      ensures userId in old(tokens) && !Expired(old(tokens)[userId], now) ==>
                r == Ok(Token(old(tokens)[userId])) && tokens == old(tokens) && connector.calls == old(connector.calls)
      ensures !(userId in old(tokens) && !Expired(old(tokens)[userId], now)) ==>
                var validUntil := ValidUntil(validitySeconds, now);
                var obtained := connector.obtain(userId, deviceId, validUntil);
                && (obtained.Err? ==> r == obtained && tokens == old(tokens) - {userId}
                                      && connector.calls == old(connector.calls) + [ObtainCall(userId, deviceId, validUntil)])
                && (obtained.Ok? && connector.verify(userId, obtained.value).Some? ==>
                      r == Err(connector.verify(userId, obtained.value).value) && tokens == old(tokens) - {userId}
                      && connector.calls == old(connector.calls) + [ObtainCall(userId, deviceId, validUntil), VerifyCall(userId, obtained.value)])
                && (obtained.Ok? && connector.verify(userId, obtained.value).None? ==>
                      r == Ok(obtained.value) && tokens == old(tokens)[userId := AccessToken(obtained.value, validUntil)]
                      && connector.calls == old(connector.calls) + [ObtainCall(userId, deviceId, validUntil), VerifyCall(userId, obtained.value)])
    {
      if userId in tokens {
        var accessToken := tokens[userId];
        if !Expired(accessToken, now) {
          return Ok(Token(accessToken));
        }
        ClearAccessTokenForUserId(userId);
      }
      var validUntil := ValidUntil(validitySeconds, now);
      var obtained := connector.ObtainNewAccessTokenForUserId(userId, deviceId, validUntil);
      if obtained.Err? {
        return obtained;
      }
      var err := connector.VerifyAccessToken(userId, obtained.value);
      if err.Some? {
        return Err(err.value);
      }
      tokens := tokens[userId := AccessToken(obtained.value, validUntil)];
      return Ok(obtained.value);
    }

    /** `ClearAccessTokenForUserId`: forgets that user's token only. */
    method ClearAccessTokenForUserId(userId: string)
      modifies this
      ensures tokens == old(tokens) - {userId}
    {
      tokens := tokens - {userId};
    }

    /** `Release`: destroys every cached token once, in some order, and empties the cache. */
    method Release()
      modifies this, connector
      ensures tokens == map[]
      ensures |connector.calls| == |old(connector.calls)| + |old(tokens)|
      ensures connector.calls[..|old(connector.calls)|] == old(connector.calls)
      ensures forall u :: u in old(tokens) ==> DestroyCall(u, old(tokens)[u].token) in connector.calls[|old(connector.calls)|..]
      ensures forall c :: c in connector.calls[|old(connector.calls)|..] ==>
                c.DestroyCall? && c.userId in old(tokens) && c.token == old(tokens)[c.userId].token
    {
      ghost var before := connector.calls;
      ghost var cached := tokens;
      while tokens != map[]
        invariant tokens.Keys <= cached.Keys
        invariant forall u :: u in tokens ==> tokens[u] == cached[u]
        invariant |connector.calls| == |before| + |cached| - |tokens|
        invariant connector.calls[..|before|] == before
        invariant forall u :: u in cached && u !in tokens ==> DestroyCall(u, cached[u].token) in connector.calls[|before|..]
        invariant forall c :: c in connector.calls[|before|..] ==>
                    c.DestroyCall? && c.userId in cached && c.userId !in tokens && c.token == cached[c.userId].token
        decreases |tokens|
      {
        var userId :| userId in tokens;
        ghost var done := connector.calls[|before|..];
        connector.DestroyAccessToken(userId, Token(tokens[userId]));
        assert connector.calls[|before|..] == done + [DestroyCall(userId, cached[userId].token)];
        tokens := tokens - {userId};
      }
    }
  }
}
