/** The policy-checked routes of the gateway (corporal/httpgateway/handler/policy_checked_routes.go):
    the route table, and the handler every such route gets — hooks before any request, the access
    token gate, the authenticated before-hooks, the policy check, then the after-hooks and the
    proxy. */
module PolicyCheckedRoutes {
  import opened Wrappers
  import opened Http
  import opened Executor
  import opened Policies
  import opened Hooks
  import opened HookStages
  import opened PolicyCheck
  import MatrixUtil
  import RequestUtils
  import HookRunner

  /** `PolicyCheckFunc`: a route's check of the request against the policy. */
  type PolicyCheckFunc = (Policy, Request) -> CheckResult

  /** `ResolveByAccessToken`: the user id an access token belongs to, or why it is not known. */
  type Resolver = string -> Result<string, string>

  datatype PolicyCheckedRoute = PolicyCheckedRoute(name: string, httpMethod: string, path: string, allowUnauthenticatedAccess: bool)

  /** The routes, each also matched with a trailing slash; `v\d+` stands for any `v` version. */
  const Routes: seq<PolicyCheckedRoute> := [
    PolicyCheckedRoute("community.self.leave", "PUT", "/_matrix/client/{apiVersion}/groups/{communityId}/self/leave", false),
    PolicyCheckedRoute("room.leave", "POST", "/_matrix/client/{apiVersion}/rooms/{roomId}/leave", false),
    PolicyCheckedRoute("room.kick", "POST", "/_matrix/client/{apiVersion}/rooms/{roomId}/kick", false),
    PolicyCheckedRoute("room.member.state.set", "PUT", "/_matrix/client/{apiVersion}/rooms/{roomId}/state/m.room.member/{memberId}", false),
    PolicyCheckedRoute("room.subsequenly_enabling_encryption", "PUT", "/_matrix/client/{apiVersion}/rooms/{roomId}/state/m.room.encryption", false),
    PolicyCheckedRoute("room.create", "POST", "/_matrix/client/{apiVersion}/createRoom", false),
    PolicyCheckedRoute("room.send_event", "PUT", "/_matrix/client/{apiVersion}/rooms/{roomId}/send/{eventType}/{txnId}", false),
    PolicyCheckedRoute("user.set_display_name", "PUT", "/_matrix/client/{apiVersion}/profile/{targetUserId}/displayname", false),
    PolicyCheckedRoute("user.set_avatar", "PUT", "/_matrix/client/{apiVersion}/profile/{targetUserId}/avatar_url", false),
    PolicyCheckedRoute("user.deactivate", "POST", "/_matrix/client/{apiVersion}/account/deactivate", false),
    PolicyCheckedRoute("user.password", "POST", "/_matrix/client/{apiVersion}/account/password", true)]

  /** Only the password route lets a request without an access token through. */
  lemma OnlyPasswordRouteAllowsUnauthenticatedAccess()
    ensures forall i :: 0 <= i < |Routes| ==> (Routes[i].allowUnauthenticatedAccess <==> Routes[i].name == "user.password")
    ensures forall i, j :: 0 <= i < j < |Routes| ==> Routes[i].name != Routes[j].name
  {
  }

  /** The check each route runs; the encryption and send-event checks are not part of this model. */
  function CheckOfRoute(codec: Codec, invite: Option<seq<string>>, canSendInvite: InviteCheck, name: string): (c: Option<PolicyCheckFunc>)
    ensures c.None? <==> name !in {"community.self.leave", "room.leave", "room.kick", "room.member.state.set", "room.create",
                                   "user.set_display_name", "user.set_avatar", "user.deactivate", "user.password"}
  {
    if name == "community.self.leave" then Some((p, r) => CheckCommunitySelfLeave(p, r))
    else if name == "room.leave" then Some((p, r) => CheckRoomLeave(p, r))
    else if name == "room.kick" then Some((p, r) => CheckRoomKick(codec, p, r))
    else if name == "room.member.state.set" then Some((p, r) => CheckRoomMembershipStateChange(p, r))
    else if name == "room.create" then Some((p, r) => CheckRoomCreate(p, r, invite, canSendInvite))
    else if name == "user.set_display_name" then Some((p, r) => CheckProfileSetDisplayName(codec, p, r))
    else if name == "user.set_avatar" then Some((p, r) => CheckProfileSetAvatarUrl(p, r))
    else if name == "user.deactivate" then Some((p, r) => CheckUserDeactivate(p, r))
    else if name == "user.password" then Some((p, r) => CheckUserSetPassword(p, r))
    else None
  }

  const MissingTokenMessage := "Missing access token"
  const UnknownTokenMessage := "Failed mapping access token to user id"

  const AuthenticatedBeforeStages := [EventTypeBeforeAuthenticatedRequest, EventTypeBeforeAuthenticatedPolicyCheckedRequest]

  /** The after-hook stages: the authenticated ones only for a resolved token. */
  function AfterStages(isAuthenticated: bool): (s: seq<string>)
    ensures |s| >= 1 && s[0] == EventTypeAfterAnyRequest
    ensures EventTypeAfterAuthenticatedRequest in s <==> isAuthenticated
  {
    if isAuthenticated then [EventTypeAfterAnyRequest, EventTypeAfterAuthenticatedRequest, EventTypeAfterAuthenticatedPolicyCheckedRequest]
    else [EventTypeAfterAnyRequest]
  }

  /** The handler after the hooks before any request. */
  function BeforeAny(env: Env, policy: Option<Policy>, request: Request, fuel: nat): (p: Pipeline)
    ensures p.ran == [EventTypeBeforeAnyRequest]
  {
    RunStage(env, policy, Begin(request), EventTypeBeforeAnyRequest, fuel)
  }

  /** The token the gateway takes from the request the first hooks left. */
  function TokenAfterBeforeAny(env: Env, policy: Option<Policy>, request: Request, fuel: nat): string
  {
    var b := BeforeAny(env, policy, request, fuel);
    if b.Running? then RequestUtils.GetAccessTokenFromRequest(b.request) else ""
  }

  /** The request carries a token that resolves to a user. */
  predicate IsAuthenticated(env: Env, policy: Option<Policy>, resolve: Resolver, request: Request, fuel: nat)
  {
    var token := TokenAfterBeforeAny(env, policy, request, fuel);
    BeforeAny(env, policy, request, fuel).Running? && token != "" && resolve(token).Ok?
  }

  /** Everything before the policy check: the first hooks, the token gate, and the authenticated
      before-hooks with the resolved user id in the request. A gateway refusal is a halt. */
  function Admit(env: Env, policy: Option<Policy>, resolve: Resolver, allowUnauthenticatedAccess: bool, request: Request, fuel: nat): (a: Pipeline)
    ensures |a.ran| >= 1 && a.ran[0] == EventTypeBeforeAnyRequest
  {
    var b := BeforeAny(env, policy, request, fuel);
    if !b.Running? then b
    else
      var token := RequestUtils.GetAccessTokenFromRequest(b.request);
      if token == "" then
        if allowUnauthenticatedAccess then b
        else Halted(b.written + [MatrixErrorReply(env.codec, 401, MatrixUtil.ErrorMissingToken, MissingTokenMessage)], b.ran)
      else
        match resolve(token)
        case Err(_) => Halted(b.written + [MatrixErrorReply(env.codec, 403, MatrixUtil.ErrorUnknownToken, UnknownTokenMessage)], b.ran)
        case Ok(userId) => RunStages(env, policy, b.(request := b.request.(userId := Some(userId))), AuthenticatedBeforeStages, fuel)
  }

  /** A request without a token is refused with 401 unless the route allows it; a token that does
      not resolve is refused with 403 even there. Either refusal comes right after the first
      hooks. */
  lemma TokenGate(env: Env, policy: Option<Policy>, resolve: Resolver, allowUnauthenticatedAccess: bool, request: Request, fuel: nat)
    requires BeforeAny(env, policy, request, fuel).Running?
    ensures var b := BeforeAny(env, policy, request, fuel);
            var token := TokenAfterBeforeAny(env, policy, request, fuel);
            var a := Admit(env, policy, resolve, allowUnauthenticatedAccess, request, fuel);
            && (token == "" && !allowUnauthenticatedAccess ==>
                  a == Halted(b.written + [MatrixErrorReply(env.codec, 401, MatrixUtil.ErrorMissingToken, MissingTokenMessage)], [EventTypeBeforeAnyRequest]))
            && (token == "" && allowUnauthenticatedAccess ==> a == b)
            && (token != "" && resolve(token).Err? ==>
                  a == Halted(b.written + [MatrixErrorReply(env.codec, 403, MatrixUtil.ErrorUnknownToken, UnknownTokenMessage)], [EventTypeBeforeAnyRequest]))
  {
  }

  /** The authenticated before-hooks run exactly when the token resolved, and only those hooks
      can run before the policy check. */
  lemma {:induction false} AuthenticatedStagesRunIffResolved(env: Env, policy: Option<Policy>, resolve: Resolver,
                                                             allowUnauthenticatedAccess: bool, request: Request, fuel: nat)
    ensures var a := Admit(env, policy, resolve, allowUnauthenticatedAccess, request, fuel);
            && (EventTypeBeforeAuthenticatedRequest in a.ran <==> IsAuthenticated(env, policy, resolve, request, fuel))
            && (IsAuthenticated(env, policy, resolve, request, fuel) ==>
                  2 <= |a.ran| <= 3 && a.ran == [EventTypeBeforeAnyRequest] + AuthenticatedBeforeStages[..|a.ran| - 1])
            && (!IsAuthenticated(env, policy, resolve, request, fuel) ==> a.ran == [EventTypeBeforeAnyRequest])
  {
    var b := BeforeAny(env, policy, request, fuel);
    if IsAuthenticated(env, policy, resolve, request, fuel) {
      var token := RequestUtils.GetAccessTokenFromRequest(b.request);
      var start := b.(request := b.request.(userId := Some(resolve(token).value)));
      var k := StagesRunInOrder(env, policy, start, AuthenticatedBeforeStages, fuel);
      var a := RunStages(env, policy, start, AuthenticatedBeforeStages, fuel);
      assert a.ran == [EventTypeBeforeAnyRequest] + AuthenticatedBeforeStages[..k];
      assert k >= 1;
      assert a.ran[1] == EventTypeBeforeAuthenticatedRequest;
    } else {
      assert EventTypeBeforeAnyRequest != EventTypeBeforeAuthenticatedRequest;
    }
  }

  /** Without a policy the hook runner answers 503 at the very first stage, so the handler's own
      missing-policy answer is never reached. */
  lemma MissingPolicyAnsweredByFirstHooks(env: Env, resolve: Resolver, allowUnauthenticatedAccess: bool, request: Request, fuel: nat)
    ensures Admit(env, None, resolve, allowUnauthenticatedAccess, request, fuel)
            == Halted([MatrixErrorReply(env.codec, 503, MatrixUtil.ErrorUnknown, HookRunner.PolicyMissingMessage)], [EventTypeBeforeAnyRequest])
  {
  }

  /** The part of the handler before the policy check, with its early returns. */
  method AdmitRequest(env: Env, policy: Option<Policy>, resolve: Resolver, allowUnauthenticatedAccess: bool, request: Request, fuel: nat)
    returns (p: Pipeline, isAuthenticated: bool)
    ensures p == Admit(env, policy, resolve, allowUnauthenticatedAccess, request, fuel)
    ensures isAuthenticated == IsAuthenticated(env, policy, resolve, request, fuel)
  {
    isAuthenticated := false;
    p := RunStage(env, policy, Begin(request), EventTypeBeforeAnyRequest, fuel);
    if !p.Running? {
      return;
    }
    var accessToken := RequestUtils.GetAccessTokenFromRequest(p.request);
    if accessToken == "" && !allowUnauthenticatedAccess {
      p := Halted(p.written + [MatrixErrorReply(env.codec, 401, MatrixUtil.ErrorMissingToken, MissingTokenMessage)], p.ran);
      return;
    }
    if accessToken != "" {
      var userId := resolve(accessToken);
      if userId.Err? {
        p := Halted(p.written + [MatrixErrorReply(env.codec, 403, MatrixUtil.ErrorUnknownToken, UnknownTokenMessage)], p.ran);
        return;
      }
      p := p.(request := p.request.(userId := Some(userId.value)));
      isAuthenticated := true;
    }
    if isAuthenticated {
      TwoStages(env, policy, p, EventTypeBeforeAuthenticatedRequest, EventTypeBeforeAuthenticatedPolicyCheckedRequest, fuel);
      p := RunStage(env, policy, p, EventTypeBeforeAuthenticatedRequest, fuel);
      if !p.Running? {
        return;
      }
      p := RunStage(env, policy, p, EventTypeBeforeAuthenticatedPolicyCheckedRequest, fuel);
    }
  }

  /** The after-hook stages, with their early returns, and the proxy. */
  method FinishAllowed(env: Env, policy: Option<Policy>, p: Pipeline, isAuthenticated: bool, fuel: nat) returns (s: Served)
    requires p.Running?
    ensures s == Finish(RunStages(env, policy, p, AfterStages(isAuthenticated), fuel))
  {
    var q := RunStage(env, policy, p, EventTypeAfterAnyRequest, fuel);
    if !q.Running? {
      return Stop(q);
    }
    if !isAuthenticated {
      assert RunStages(env, policy, p, AfterStages(isAuthenticated), fuel) == RunStages(env, policy, q, [], fuel);
    }
    if isAuthenticated {
      assert RunStages(env, policy, p, AfterStages(isAuthenticated), fuel)
          == RunStages(env, policy, q, [EventTypeAfterAuthenticatedRequest, EventTypeAfterAuthenticatedPolicyCheckedRequest], fuel);
      ghost var q1 := q;
      q := RunStage(env, policy, q, EventTypeAfterAuthenticatedRequest, fuel);
      if !q.Running? {
        return Stop(q);
      }
      assert RunStages(env, policy, q1, [EventTypeAfterAuthenticatedRequest, EventTypeAfterAuthenticatedPolicyCheckedRequest], fuel)
          == RunStages(env, policy, q, [EventTypeAfterAuthenticatedPolicyCheckedRequest], fuel);
      ghost var q2 := q;
      q := RunStage(env, policy, q, EventTypeAfterAuthenticatedPolicyCheckedRequest, fuel);
      assert RunStages(env, policy, q2, [EventTypeAfterAuthenticatedPolicyCheckedRequest], fuel) == RunStages(env, policy, q, [], fuel);
      if !q.Running? {
        return Stop(q);
      }
    }
    return ProxyFrom(q);
  }

  /** The handler of a policy-checked route. A panic of the route's check (a context value of
      the wrong type) aborts the handler. */
  method ServePolicyChecked(env: Env, policy: Option<Policy>, resolve: Resolver, check: PolicyCheckFunc,
                            allowUnauthenticatedAccess: bool, request: Request, fuel: nat) returns (s: Served)
    ensures var a := Admit(env, policy, resolve, allowUnauthenticatedAccess, request, fuel);
            && (!a.Running? ==> s == Stop(a))
            && (a.Running? && policy.Some? && check(policy.value, a.request).Err? ==>
                  s == Aborted(check(policy.value, a.request).error, a.ran))
            && (a.Running? && policy.Some? && check(policy.value, a.request).Ok? && !check(policy.value, a.request).value.allow ==>
                  var denial := check(policy.value, a.request).value;
                  s == Answered(a.written + [MatrixErrorReply(env.codec, 403, denial.errorCode, denial.errorMessage)], a.ran))
            && (a.Running? && policy.Some? && check(policy.value, a.request).Ok? && check(policy.value, a.request).value.allow ==>
                  s == Finish(RunStages(env, policy, a, AfterStages(IsAuthenticated(env, policy, resolve, request, fuel)), fuel)))
    ensures s.Proxied? ==>
              var a := Admit(env, policy, resolve, allowUnauthenticatedAccess, request, fuel);
              a.Running? && policy.Some? && check(policy.value, a.request).Ok? && check(policy.value, a.request).value.allow
  {
    var p, isAuthenticated := AdmitRequest(env, policy, resolve, allowUnauthenticatedAccess, request, fuel);
    if !p.Running? {
      return Stop(p);
    }
    if policy.None? {
      // Without a policy the hooks before any request have already answered 503.
      assert false;
    }
    var policyResponse := check(policy.value, p.request);
    if policyResponse.Err? {
      return Aborted(policyResponse.error, p.ran);
    }
    if !policyResponse.value.allow {
      return Answered(p.written + [MatrixErrorReply(env.codec, 403, policyResponse.value.errorCode, policyResponse.value.errorMessage)], p.ran);
    }
    s := FinishAllowed(env, policy, p, isAuthenticated, fuel);
  }
}
