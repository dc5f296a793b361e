/** The catch-all handler of the gateway (corporal/httpgateway/handler/catchall.go): answers CORS
    preflight requests itself; every other request runs the hooks for its authentication status
    and is then proxied to the homeserver. */
module CatchAll {
  import opened Wrappers
  import opened Strings
  import opened Http
  import opened Policies
  import opened Hooks
  import opened HookStages
  import PolicyCheckedRoutes
  import RequestUtils

  /** The headers of the answer to an `OPTIONS` request. */
  const CorsHeaders: Header := map[
    "Access-Control-Allow-Origin" := "*",
    "Access-Control-Allow-Methods" := "GET, HEAD, POST, PUT, DELETE, OPTIONS",
    "Access-Control-Allow-Headers" := "X-Requested-With, Content-Type, Authorization, Date"]

  /** `orderedEventTypesByAuthStatus`. */
  function OrderedEventTypesByAuthStatus(isAuthenticated: bool): (ts: seq<string>)
    ensures |ts| == 4 && ts[0] == EventTypeBeforeAnyRequest && ts[2] == EventTypeAfterAnyRequest
  {
    if isAuthenticated then
      [EventTypeBeforeAnyRequest, EventTypeBeforeAuthenticatedRequest, EventTypeAfterAnyRequest, EventTypeAfterAuthenticatedRequest]
    else
      [EventTypeBeforeAnyRequest, EventTypeBeforeUnauthenticatedRequest, EventTypeAfterAnyRequest, EventTypeAfterUnauthenticatedRequest]
  }

  /** Before-types come first, then after-types; every type is a known one, and the
      authentication-specific types agree with the status: an authenticated request gets the
      authenticated types and never the unauthenticated ones, and the other way round. No
      policy-checked type is run by this handler. */
  lemma EventTypeOrder(isAuthenticated: bool)
    ensures var ts := OrderedEventTypesByAuthStatus(isAuthenticated);
            && (forall i :: 0 <= i < 2 ==> HasPrefix(ts[i], "before"))
            && (forall i :: 2 <= i < 4 ==> HasPrefix(ts[i], "after"))
            && (forall i :: 0 <= i < 4 ==> ts[i] in KnownEventTypes)
            && (EventTypeBeforeAuthenticatedRequest in ts <==> isAuthenticated)
            && (EventTypeAfterAuthenticatedRequest in ts <==> isAuthenticated)
            && (EventTypeBeforeUnauthenticatedRequest in ts <==> !isAuthenticated)
            && (EventTypeAfterUnauthenticatedRequest in ts <==> !isAuthenticated)
            && EventTypeBeforeAuthenticatedPolicyCheckedRequest !in ts
            && EventTypeAfterAuthenticatedPolicyCheckedRequest !in ts
  {
    KnownEventTypePrefixes();
    var ts := OrderedEventTypesByAuthStatus(isAuthenticated);
    assert forall i :: 0 <= i < 4 ==> ts[i] in KnownEventTypes by {
      assert KnownEventTypes[0] == EventTypeBeforeAnyRequest && KnownEventTypes[4] == EventTypeAfterAnyRequest;
      if isAuthenticated {
        assert KnownEventTypes[1] == EventTypeBeforeAuthenticatedRequest && KnownEventTypes[5] == EventTypeAfterAuthenticatedRequest;
      } else {
        assert KnownEventTypes[3] == EventTypeBeforeUnauthenticatedRequest && KnownEventTypes[7] == EventTypeAfterUnauthenticatedRequest;
      }
    }
    // The eight types have eight different lengths, which tells them apart.
    assert |EventTypeBeforeAnyRequest| == 16 && |EventTypeBeforeAuthenticatedRequest| == 26;
    assert |EventTypeBeforeAuthenticatedPolicyCheckedRequest| == 39 && |EventTypeBeforeUnauthenticatedRequest| == 28;
    assert |EventTypeAfterAnyRequest| == 15 && |EventTypeAfterAuthenticatedRequest| == 25;
    assert |EventTypeAfterAuthenticatedPolicyCheckedRequest| == 38 && |EventTypeAfterUnauthenticatedRequest| == 27;
  }

  /** Who the request is from, as far as it can be told: a token that resolves makes the request
      authenticated and names its user; no token, or one that does not resolve, leaves it as it is. */
  function Identify(resolve: PolicyCheckedRoutes.Resolver, request: Request): (r: (Request, bool))
    ensures var token := RequestUtils.GetAccessTokenFromRequest(request);
            r.1 <==> (token != "" && resolve(token).Ok?)
    ensures r.1 ==> r.0 == request.(userId := Some(resolve(RequestUtils.GetAccessTokenFromRequest(request)).value))
    ensures !r.1 ==> r.0 == request
  {
    var token := RequestUtils.GetAccessTokenFromRequest(request);
    if token != "" && resolve(token).Ok? then (request.(userId := Some(resolve(token).value)), true)
    else (request, false)
  }

  /** The handler as a function of the policy the hooks read. */
  function CatchAll(env: Executor.Env, policy: Option<Policy>, resolve: PolicyCheckedRoutes.Resolver, request: Request, fuel: nat): Served
  {
    if request.httpMethod == "OPTIONS" then Preflight(200, CorsHeaders)
    else
      var identified := Identify(resolve, request);
      Finish(RunStages(env, policy, Begin(identified.0), OrderedEventTypesByAuthStatus(identified.1), fuel))
  }

  /** The best-effort identification at the start of `actionCatchAll`. */
  method IdentifyRequest(resolve: PolicyCheckedRoutes.Resolver, request: Request) returns (r: Request, isAuthenticated: bool)
    ensures (r, isAuthenticated) == Identify(resolve, request)
  {
    r := request;
    isAuthenticated := false;
    var accessToken := RequestUtils.GetAccessTokenFromRequest(request);
    if accessToken != "" {
      var userId := resolve(accessToken);
      if userId.Ok? {
        isAuthenticated := true;
        r := r.(userId := Some(userId.value));
      }
    }
  }

  /** `actionCatchAll`: the preflight answer, the best-effort identification, the loop over the
      stages with its early return, and the proxy. */
  method ActionCatchAll(env: Executor.Env, policy: Option<Policy>, resolve: PolicyCheckedRoutes.Resolver, request: Request, fuel: nat)
    returns (s: Served)
    ensures s == CatchAll(env, policy, resolve, request, fuel)
  {
    if request.httpMethod == "OPTIONS" {
      return Preflight(200, CorsHeaders);
    }
    var r, isAuthenticated := IdentifyRequest(resolve, request);
    var eventTypes := OrderedEventTypesByAuthStatus(isAuthenticated);
    ghost var whole := RunStages(env, policy, Begin(r), eventTypes, fuel);
    var p := Begin(r);
    var i := 0;
    while i < |eventTypes|
      invariant 0 <= i <= |eventTypes|
      invariant p.Running?
      invariant RunStages(env, policy, p, eventTypes[i..], fuel) == whole
    {
      RunStagesFrom(env, policy, p, eventTypes, i, fuel);
      p := RunStage(env, policy, p, eventTypes[i], fuel);
      if !p.Running? {
        return Stop(p);
      }
      i := i + 1;
    }
    assert eventTypes[i..] == [];
    s := ProxyFrom(p);
  }

  /** A preflight request is answered with status 200 and the CORS headers alone: no hook runs
      and nothing is proxied. Any other request runs the before-any hooks first and, when it is
      proxied, has run all four stages of its status. */
  lemma CatchAllOutcomes(env: Executor.Env, policy: Option<Policy>, resolve: PolicyCheckedRoutes.Resolver, request: Request, fuel: nat)
    returns (k: nat)
    ensures var s := CatchAll(env, policy, resolve, request, fuel);
            var identified := Identify(resolve, request);
            var ts := OrderedEventTypesByAuthStatus(identified.1);
            && (request.httpMethod == "OPTIONS" <==> s.Preflight?)
            && (s.Preflight? ==> s == Preflight(200, CorsHeaders))
            && (!s.Preflight? ==> 1 <= k <= 4 && s.ran == ts[..k] && s.ran[0] == EventTypeBeforeAnyRequest)
            && (s.Proxied? ==> s.ran == ts)
  {
    if request.httpMethod == "OPTIONS" {
      k := 0;
    } else {
      var identified := Identify(resolve, request);
      var ts := OrderedEventTypesByAuthStatus(identified.1);
      k := StagesRunInOrder(env, policy, Begin(identified.0), ts, fuel);
    }
  }

  /** Failing to resolve the token never refuses the request: it goes through the stages of an
      unauthenticated request, unchanged, exactly as a request without a token does. */
  lemma UnresolvedTokenCountsAsAnonymous(env: Executor.Env, policy: Option<Policy>, resolve: PolicyCheckedRoutes.Resolver, request: Request, fuel: nat)
    requires request.httpMethod != "OPTIONS"
    requires RequestUtils.GetAccessTokenFromRequest(request) == "" || resolve(RequestUtils.GetAccessTokenFromRequest(request)).Err?
    ensures CatchAll(env, policy, resolve, request, fuel)
            == Finish(RunStages(env, policy, Begin(request), OrderedEventTypesByAuthStatus(false), fuel))
  {
  }

  /** The hooks see the resolved user id exactly when the token resolved. */
  lemma HooksSeeResolvedUser(env: Executor.Env, policy: Option<Policy>, resolve: PolicyCheckedRoutes.Resolver, request: Request, fuel: nat)
    requires request.httpMethod != "OPTIONS"
    requires RequestUtils.GetAccessTokenFromRequest(request) != ""
    requires resolve(RequestUtils.GetAccessTokenFromRequest(request)).Ok?
    ensures var userId := resolve(RequestUtils.GetAccessTokenFromRequest(request)).value;
            CatchAll(env, policy, resolve, request, fuel)
            == Finish(RunStages(env, policy, Begin(request.(userId := Some(userId))), OrderedEventTypesByAuthStatus(true), fuel))
  {
  }
}
