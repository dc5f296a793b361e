/** The per-route policy checks of the gateway (the files under corporal/httpgateway/policycheck). Each reads the
    user id the gateway stored in the request context, route variables, and sometimes the body.
    A missing context user id makes the Go type assertion panic; that is the `Err` of a check. */
module PolicyCheck {
  import opened Wrappers
  import opened Http
  import opened Policies
  import opened PolicyChecker
  import JsonBody
  import MatrixUtil

  datatype PolicyCheckResponse = PolicyCheckResponse(allow: bool, errorCode: string, errorMessage: string)

  const Allowed := PolicyCheckResponse(true, "", "")

  function Denied(errorCode: string, errorMessage: string): PolicyCheckResponse
  {
    PolicyCheckResponse(false, errorCode, errorMessage)
  }

  const DeniedByPolicy := "Denied by policy"
  const ContextPanic := "interface conversion: interface {} is nil, not string"
  /** The panic of asserting a missing invitee list to `[]string`. */
  const InviteContextPanic := "interface conversion: interface {} is nil, not []string"

  /** A check's answer, or the panic it raised. */
  type CheckResult = Result<PolicyCheckResponse, string>

  /** The abstract `Checker.CanSendInvite`, absent from the checker in this code base. */
  type InviteCheck = (Policy, string, string) -> bool

  /** `mux.Vars(r)[name]`: the empty string when the route has no such variable. */
  function RouteVar(request: Request, name: string): string
  {
    if name in request.vars then request.vars[name] else ""
  }

  /** The position of the first invitee the user may not invite. */
  function FirstRefusedInvitee(p: Policy, userId: string, members: seq<string>, canSendInvite: InviteCheck): (k: Option<nat>)
    ensures k.None? <==> forall i :: 0 <= i < |members| ==> canSendInvite(p, userId, members[i])
    ensures k.Some? ==> k.value < |members| && !canSendInvite(p, userId, members[k.value])
                        && forall i :: 0 <= i < k.value ==> canSendInvite(p, userId, members[i])
    decreases |members|
  {
    if members == [] then None
    else if !canSendInvite(p, userId, members[0]) then Some(0)
    else
      var rest := FirstRefusedInvitee(p, userId, members[1..], canSendInvite);
      assert forall i :: 1 <= i < |members| ==> members[i] == members[1..][i - 1];
      if rest.None? then None else Some(rest.value + 1)
  }

  /** `CheckRoomCreate`: allowed iff the user may create rooms and may invite every invitee. The
      invitee list is read from the context as well, after the user id; without one the check panics. */
  function CheckRoomCreate(p: Policy, request: Request, invite: Option<seq<string>>, canSendInvite: InviteCheck): (r: CheckResult)
    ensures (request.userId.None? || invite.None?) <==> r.Err?
    ensures request.userId.None? ==> r == Err(ContextPanic)
    ensures request.userId.Some? && invite.None? ==> r == Err(InviteContextPanic)
    ensures r.Ok? ==> (r.value.allow <==> CanUserCreateRoom(p, request.userId.value)
                                          && forall i :: 0 <= i < |invite.value| ==> canSendInvite(p, request.userId.value, invite.value[i]))
    ensures r.Ok? && !r.value.allow ==> r.value == Denied(MatrixUtil.ErrorForbidden, DeniedByPolicy)
    ensures r.Ok? && r.value.allow ==> r.value == Allowed
  {
    if request.userId.None? then Err(ContextPanic)
    else if invite.None? then Err(InviteContextPanic)
    else
      var userId := request.userId.value;
      if !CanUserCreateRoom(p, userId) then Ok(Denied(MatrixUtil.ErrorForbidden, DeniedByPolicy))
      else if FirstRefusedInvitee(p, userId, invite.value, canSendInvite).Some? then Ok(Denied(MatrixUtil.ErrorForbidden, DeniedByPolicy))
      else Ok(Allowed)
  }

  /** `CheckRoomLeave`: allowed iff `CanUserLeaveRoom` for the `roomId` route variable. */
  function CheckRoomLeave(p: Policy, request: Request): (r: CheckResult)
    ensures request.userId.None? <==> r.Err?
    ensures r.Ok? ==> (r.value.allow <==> CanUserLeaveRoom(p, request.userId.value, RouteVar(request, "roomId")))
    ensures r.Ok? ==> r.value == (if r.value.allow then Allowed else Denied(MatrixUtil.ErrorForbidden, DeniedByPolicy))
  {
    if request.userId.None? then Err(ContextPanic)
    else if !CanUserLeaveRoom(p, request.userId.value, RouteVar(request, "roomId")) then
      Ok(Denied(MatrixUtil.ErrorForbidden, DeniedByPolicy))
    else Ok(Allowed)
  }

  /** `CheckRoomMembershipStateChange`: changing another member's state is left to the homeserver;
      one's own is allowed iff `CanUserChangeOwnMembershipStateInRoom`. */
  function CheckRoomMembershipStateChange(p: Policy, request: Request): (r: CheckResult)
    ensures request.userId.None? <==> r.Err?
    ensures r.Ok? && request.userId.value != RouteVar(request, "memberId") ==> r.value == Allowed
    ensures r.Ok? && request.userId.value == RouteVar(request, "memberId") ==>
              (r.value.allow <==> CanUserChangeOwnMembershipStateInRoom(p, request.userId.value, RouteVar(request, "roomId")))
    ensures r.Ok? ==> r.value == (if r.value.allow then Allowed else Denied(MatrixUtil.ErrorForbidden, DeniedByPolicy))
  {
    if request.userId.None? then Err(ContextPanic)
    else
      var userId := request.userId.value;
      if userId != RouteVar(request, "memberId") then Ok(Allowed)
      else if !CanUserChangeOwnMembershipStateInRoom(p, userId, RouteVar(request, "roomId")) then
        Ok(Denied(MatrixUtil.ErrorForbidden, DeniedByPolicy))
      else Ok(Allowed)
  }

  /** The body of a kick: `gomatrix.ReqKickUser`. */
  const KickFields := {"user_id", "reason"}

  /** `CheckRoomKick`: a user who may change their own membership may kick anyone without the body
      being read; otherwise an unreadable body is refused, kicking oneself is refused, and kicking
      someone else is left to the homeserver. */
  function CheckRoomKick(codec: Codec, p: Policy, request: Request): (r: CheckResult)
    ensures request.userId.None? <==> r.Err?
    ensures r.Ok? && CanUserChangeOwnMembershipStateInRoom(p, request.userId.value, RouteVar(request, "roomId")) ==>
              r.value == Allowed
    ensures r.Ok? && !CanUserChangeOwnMembershipStateInRoom(p, request.userId.value, RouteVar(request, "roomId")) ==>
              var payload := JsonBody.StringFields(codec, request.body, KickFields);
              && (payload.Err? ==> r.value == Denied(MatrixUtil.ErrorBadJson, JsonBody.NotJsonError))
              && (payload.Ok? && payload.value["user_id"] == request.userId.value ==>
                    r.value == Denied(MatrixUtil.ErrorForbidden, DeniedByPolicy))
              && (payload.Ok? && payload.value["user_id"] != request.userId.value ==> r.value == Allowed)
  {
    if request.userId.None? then Err(ContextPanic)
    else
      var userId := request.userId.value;
      if CanUserChangeOwnMembershipStateInRoom(p, userId, RouteVar(request, "roomId")) then Ok(Allowed)
      else
        match JsonBody.StringFields(codec, request.body, KickFields)
        case Err(e) => Ok(Denied(MatrixUtil.ErrorBadJson, e))
        case Ok(payload) =>
          if userId == payload["user_id"] then Ok(Denied(MatrixUtil.ErrorForbidden, DeniedByPolicy))
          else Ok(Allowed)
  }

  /** A kick is refused only for a managed user kicking themself out of a room their policy lists,
      or with an unreadable body. */
  lemma KickRefusals(codec: Codec, p: Policy, request: Request)
    requires request.userId.Some?
    ensures CheckRoomKick(codec, p, request).Ok?
    ensures !CheckRoomKick(codec, p, request).value.allow ==>
              IsManaged(p, request.userId.value)
              && RouteVar(request, "roomId") in GetUserPolicyByUserId(p, request.userId.value).value.joinedRoomIds
  {
  }

  const DisplayNameFields := {"displayname"}

  /** `CheckProfileSetDisplayName`. */
  function CheckProfileSetDisplayName(codec: Codec, p: Policy, request: Request): (r: CheckResult)
    ensures request.userId.None? <==> r.Err?
    ensures r.Ok? && (request.userId.value != RouteVar(request, "targetUserId") || !IsManaged(p, request.userId.value)) ==>
              r.value == Allowed
    ensures r.Ok? && request.userId.value == RouteVar(request, "targetUserId") && IsManaged(p, request.userId.value) ==>
              var payload := JsonBody.StringFields(codec, request.body, DisplayNameFields);
              && (!CanUserUseCustomDisplayName(p, request.userId.value) ==> r.value == Denied(MatrixUtil.ErrorForbidden, DeniedByPolicy))
              && (CanUserUseCustomDisplayName(p, request.userId.value) && payload.Err? ==>
                    r.value == Denied(MatrixUtil.ErrorBadJson, JsonBody.NotJsonError))
              && (CanUserUseCustomDisplayName(p, request.userId.value) && payload.Ok? ==>
                    r.value == (if MatrixUtil.IsUserDeactivatedAccordingToDisplayName(payload.value["displayname"])
                                then Denied(MatrixUtil.ErrorForbidden, "Denied - unallowed display name") else Allowed))
  {
    if request.userId.None? then Err(ContextPanic)
    else
      var userId := request.userId.value;
      if userId != RouteVar(request, "targetUserId") then Ok(Allowed)
      else if GetUserPolicyByUserId(p, userId).None? then Ok(Allowed)
      else if !CanUserUseCustomDisplayName(p, userId) then Ok(Denied(MatrixUtil.ErrorForbidden, DeniedByPolicy))
      else
        match JsonBody.StringFields(codec, request.body, DisplayNameFields)
        case Err(e) => Ok(Denied(MatrixUtil.ErrorBadJson, e))
        case Ok(payload) =>
          if MatrixUtil.IsUserDeactivatedAccordingToDisplayName(payload["displayname"]) then
            Ok(Denied(MatrixUtil.ErrorForbidden, "Denied - unallowed display name"))
          else Ok(Allowed)
  }

  /** A name carrying the deactivation marker is refused for a managed user's own profile even when
      custom names are allowed. */
  lemma MarkedDisplayNameRefused(codec: Codec, p: Policy, request: Request, before: string, after: string)
    requires request.userId.Some? && request.userId.value == RouteVar(request, "targetUserId")
    requires IsManaged(p, request.userId.value)
    requires codec.decode(request.body) == Some(Json.JObj(map["displayname" := Json.JStr(before + MatrixUtil.DeactivatedAccountPrefixMarker + after)]))
    ensures CheckProfileSetDisplayName(codec, p, request) == Ok(Denied(MatrixUtil.ErrorForbidden,
              if CanUserUseCustomDisplayName(p, request.userId.value) then "Denied - unallowed display name" else DeniedByPolicy))
  {
    MatrixUtil.MarkerAnywhereDeactivates(before, after);
  }

  /** `CheckProfileSetAvatarUrl`: a managed user's own avatar change is allowed iff custom avatars
      are; the body is never read. */
  function CheckProfileSetAvatarUrl(p: Policy, request: Request): (r: CheckResult)
    ensures request.userId.None? <==> r.Err?
    ensures r.Ok? ==> (r.value.allow <==> request.userId.value != RouteVar(request, "targetUserId")
                                          || !IsManaged(p, request.userId.value)
                                          || CanUserUseCustomAvatar(p, request.userId.value))
    ensures r.Ok? ==> r.value == (if r.value.allow then Allowed else Denied(MatrixUtil.ErrorForbidden, DeniedByPolicy))
  {
    if request.userId.None? then Err(ContextPanic)
    else
      var userId := request.userId.value;
      if userId != RouteVar(request, "targetUserId") then Ok(Allowed)
      else if GetUserPolicyByUserId(p, userId).None? then Ok(Allowed)
      else if !CanUserUseCustomAvatar(p, userId) then Ok(Denied(MatrixUtil.ErrorForbidden, DeniedByPolicy))
      else Ok(Allowed)
  }

  /** `CheckUserDeactivate`: only unmanaged users may deactivate their account. */
  function CheckUserDeactivate(p: Policy, request: Request): (r: CheckResult)
    ensures request.userId.None? <==> r.Err?
    ensures r.Ok? ==> (r.value.allow <==> !IsManaged(p, request.userId.value))
    ensures r.Ok? ==> r.value == (if r.value.allow then Allowed else Denied(MatrixUtil.ErrorForbidden, "Denied"))
  {
    if request.userId.None? then Err(ContextPanic)
    else if GetUserPolicyByUserId(p, request.userId.value).None? then Ok(Allowed)
    else Ok(Denied(MatrixUtil.ErrorForbidden, "Denied"))
  }

  const PassthroughPasswordDenied := "Denied: passthrough user, but policy does not allow changes"
  const NonPassthroughPasswordDenied := "Denied: non-passthrough users are always authenticated against matrix-corporal"

  /** `CheckUserSetPassword`: unmanaged users may; passthrough users may iff the policy allows custom
      passthrough passwords; other managed users never may. */
  function CheckUserSetPassword(p: Policy, request: Request): (r: CheckResult)
    ensures request.userId.None? <==> r.Err?
    ensures r.Ok? ==> (r.value.allow <==>
              !IsManaged(p, request.userId.value)
              || (GetUserPolicyByUserId(p, request.userId.value).value.authType == UserAuthTypePassthrough
                  && p.flags.allowCustomPassthroughUserPasswords))
    ensures r.Ok? && IsManaged(p, request.userId.value) && GetUserPolicyByUserId(p, request.userId.value).value.authType != UserAuthTypePassthrough ==>
              r.value == Denied(MatrixUtil.ErrorForbidden, NonPassthroughPasswordDenied)
    ensures r.Ok? && IsManaged(p, request.userId.value) && GetUserPolicyByUserId(p, request.userId.value).value.authType == UserAuthTypePassthrough
            && !p.flags.allowCustomPassthroughUserPasswords ==>
              r.value == Denied(MatrixUtil.ErrorForbidden, PassthroughPasswordDenied)
  {
    if request.userId.None? then Err(ContextPanic)
    else
      var u := GetUserPolicyByUserId(p, request.userId.value);
      if u.None? then Ok(Allowed)
      else if u.value.authType == UserAuthTypePassthrough then
        if p.flags.allowCustomPassthroughUserPasswords then Ok(Allowed)
        else Ok(Denied(MatrixUtil.ErrorForbidden, PassthroughPasswordDenied))
      else Ok(Denied(MatrixUtil.ErrorForbidden, NonPassthroughPasswordDenied))
  }

  /** `CheckCommunitySelfLeave`: the decision of `CanUserLeaveCommunity` for the route's community. */
  function CheckCommunitySelfLeave(p: Policy, request: Request): (r: CheckResult)
    ensures request.userId.None? <==> r.Err?
    ensures r.Ok? ==> (r.value.allow <==> CanUserLeaveCommunity(p, request.userId.value, RouteVar(request, "communityId")))
    ensures r.Ok? ==> r.value == (if r.value.allow then Allowed else Denied(MatrixUtil.ErrorForbidden, DeniedByPolicy))
  {
    if request.userId.None? then Err(ContextPanic)
    else if !CanUserLeaveCommunity(p, request.userId.value, RouteVar(request, "communityId")) then
      Ok(Denied(MatrixUtil.ErrorForbidden, DeniedByPolicy))
    else Ok(Allowed)
  }

  /** The community check reads nothing of the request but the context user and the route's
      community id. */
  lemma CommunityCheckReadsUserAndRoute(p: Policy, a: Request, b: Request)
    requires a.userId == b.userId && RouteVar(a, "communityId") == RouteVar(b, "communityId")
    ensures CheckCommunitySelfLeave(p, a) == CheckCommunitySelfLeave(p, b)
  {
  }
}
