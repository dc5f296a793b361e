/** The reconciler (corporal/reconciliation/reconciler/reconciler.go): determines the homeserver's
    current state, has the planner compute the actions, then carries them out in order through the
    homeserver connector, stopping at the first action it cannot carry out. */
module Reconciler {
  import opened Wrappers
  import opened Hex
  import opened Strings
  import opened ConnectorState
  import opened ReconciliationState
  import opened Policies
  import MatrixUtil
  import Avatars
  import AccessTokens
  import Computator
  import ComputatorProperties

  const DeviceIdReconciler := "Matrix-Corporal-Reconciler"
  const TokenValiditySeconds := 12 * 60
  const MissingHandlerMessage := "Missing reconciliation handler"
  const FailedHandlerPrefix := "Failed reconciliation handler: "
  const DetermineStateFailurePrefix := "Failure determining current state: "
  const ProfileFailurePrefix := "Failed retrieving user profile: "
  const LogoutFailurePrefix := "Failed logging out all access tokens: "

  /** A call the reconciler makes on the homeserver connector. */
  datatype Call =
    | DetermineCurrentStateCall(managedUserIds: seq<string>, adminUserId: string)
    | EnsureUserAccountExistsCall(userId: string, password: string)
    | GetUserProfileCall(userId: string)
    | SetUserDisplayNameCall(userId: string, displayName: string)
    | SetUserAvatarCall(userId: string, avatar: Avatars.Avatar)
    | LogoutAllAccessTokensCall(userId: string)
    | InviteUserToRoomCall(inviterId: string, inviteeId: string, roomId: string)
    | JoinRoomCall(userId: string, roomId: string)
    | LeaveRoomCall(userId: string, roomId: string)

  /** The homeserver connector as the reconciler uses it: what each call answers (the network
      exchange itself is not part of this model) and the calls made so far. */
  class Homeserver {
    const determine: (seq<string>, string) -> Result<CurrentState, string>
    /** The display name, or why the profile could not be read. */
    const profileOf: string -> Result<string, string>
    /** The error a command answers, if any. */
    const fails: Call -> Option<string>
    var calls: seq<Call>

    constructor(determine: (seq<string>, string) -> Result<CurrentState, string>, profileOf: string -> Result<string, string>,
                fails: Call -> Option<string>)
      ensures this.determine == determine && this.profileOf == profileOf && this.fails == fails && calls == []
    {
      this.determine := determine;
      this.profileOf := profileOf;
      this.fails := fails;
      calls := [];
    }

    method DetermineCurrentState(managedUserIds: seq<string>, adminUserId: string) returns (r: Result<CurrentState, string>)
      modifies this
      ensures r == determine(managedUserIds, adminUserId)
      ensures calls == old(calls) + [DetermineCurrentStateCall(managedUserIds, adminUserId)]
    {
      calls := calls + [DetermineCurrentStateCall(managedUserIds, adminUserId)];
      r := determine(managedUserIds, adminUserId);
    }

    method GetUserProfileByUserId(userId: string) returns (r: Result<string, string>)
      modifies this
      ensures r == profileOf(userId)
      ensures calls == old(calls) + [GetUserProfileCall(userId)]
    {
      calls := calls + [GetUserProfileCall(userId)];
      r := profileOf(userId);
    }

    /** Every other call: a command that either succeeds or answers an error. */
    method Command(c: Call) returns (err: Option<string>)
      requires !c.DetermineCurrentStateCall? && !c.GetUserProfileCall?
      modifies this
      ensures err == fails(c)
      ensures calls == old(calls) + [c]
    {
      calls := calls + [c];
      err := fails(c);
    }
  }

  /** The reconciliation handlers. */
  datatype Handler = UserCreate | UserSetDisplayName | UserSetAvatar | UserActivate | UserDeactivate | RoomJoin | RoomLeave

  /** The handler table built by `New`. */
  const HandlerTable: map<string, Handler> := map[
    ActionUserCreate := UserCreate,
    ActionUserSetDisplayName := UserSetDisplayName,
    ActionUserSetAvatar := UserSetAvatar,
    ActionUserActivate := UserActivate,
    ActionUserDeactivate := UserDeactivate,
    ActionRoomJoin := RoomJoin,
    ActionRoomLeave := RoomLeave]

  /** The calls one handler, or a run of handlers, makes, and the error it ends with. */
  datatype Outcome = Outcome(calls: seq<Call>, err: Option<string>)

  /** The name deactivation leaves: the marker in front, unless the name is already marked. */
  function DeactivatedName(name: string): string
  {
    if MatrixUtil.IsUserDeactivatedAccordingToDisplayName(name) then name
    else MatrixUtil.DeactivatedAccountPrefixMarker + name
  }

  /** The name activation leaves: the first four characters dropped when the name is marked. */
  function ActivatedName(name: string): string
  {
    if MatrixUtil.IsUserDeactivatedAccordingToDisplayName(name) then
      ContainsIsLonger(name, MatrixUtil.DeactivatedAccountPrefixMarker);
      MatrixUtil.CleanDeactivationMarkerFromDisplayName(name)
    else name
  }

  /** Deactivating marks the name, once: deactivating again changes nothing. */
  lemma DeactivationMarksOnce(name: string)
    ensures MatrixUtil.IsUserDeactivatedAccordingToDisplayName(DeactivatedName(name))
    ensures DeactivatedName(DeactivatedName(name)) == DeactivatedName(name)
  {
    MatrixUtil.MarkerAnywhereDeactivates("", name);
    assert "" + MatrixUtil.DeactivatedAccountPrefixMarker + name == MatrixUtil.DeactivatedAccountPrefixMarker + name;
  }

  /** Activating a user whose unmarked name deactivation marked gives the name back, and
      activation leaves an unmarked name alone. */
  lemma ActivationUndoesDeactivation(name: string)
    requires !MatrixUtil.IsUserDeactivatedAccordingToDisplayName(name)
    ensures ActivatedName(DeactivatedName(name)) == name
    ensures ActivatedName(name) == name
  {
    DeactivationMarksOnce(name);
    MatrixUtil.CleanAfterMark(name);
  }

  class Reconciler {
    const connector: Homeserver
    /** The same connector, in its role of issuing and destroying access tokens. */
    const tokenConnector: AccessTokens.MatrixConnector
    const reconciliatorUserId: string
    /** The planner's and the avatar reader's inputs: the hash, the randomness, base64 and HTTP. */
    const sha512: Hash
    const random: Computator.Randomness
    const decode: Avatars.Base64Decoder
    const fetch: Avatars.Fetch
    const handlers: map<string, Handler>

    /** `New`: fills the handler table. */
    constructor(connector: Homeserver, tokenConnector: AccessTokens.MatrixConnector, reconciliatorUserId: string,
                sha512: Hash, random: Computator.Randomness, decode: Avatars.Base64Decoder, fetch: Avatars.Fetch)
      ensures this.connector == connector && this.tokenConnector == tokenConnector
      ensures this.reconciliatorUserId == reconciliatorUserId && this.sha512 == sha512 && this.random == random
      ensures this.decode == decode && this.fetch == fetch
      ensures handlers == HandlerTable
    {
      this.connector := connector;
      this.tokenConnector := tokenConnector;
      this.reconciliatorUserId := reconciliatorUserId;
      this.sha512 := sha512;
      this.random := random;
      this.decode := decode;
      this.fetch := fetch;
      handlers := HandlerTable;
    }

    // What each handler does.

    /** A command's outcome as the last call of a handler: the call, and its error decorated. */
    function Last(c: Call, prefix: string): Outcome
    {
      Outcome([c], if connector.fails(c).Some? then Some(prefix + connector.fails(c).value) else None)
    }

    function UserCreateOutcome(a: StateAction): Outcome
    {
      var userId := GetStringPayloadDataByKey(a, "userId");
      var password := GetStringPayloadDataByKey(a, "password");
      if userId.Err? then Outcome([], Some(userId.error))
      else if password.Err? then Outcome([], Some(password.error))
      else Last(EnsureUserAccountExistsCall(userId.value, password.value), "Failed ensuring " + userId.value + " is created: ")
    }

    function UserSetDisplayNameOutcome(a: StateAction): Outcome
    {
      var userId := GetStringPayloadDataByKey(a, "userId");
      var displayName := GetStringPayloadDataByKey(a, "displayName");
      if userId.Err? then Outcome([], Some(userId.error))
      else if displayName.Err? then Outcome([], Some(displayName.error))
      else Last(SetUserDisplayNameCall(userId.value, displayName.value),
                "Failed setting user display name (" + displayName.value + ") for " + userId.value + ": ")
    }

    /** The avatar is read before any call; a failure to read it makes no call. */
    function UserSetAvatarOutcome(a: StateAction): Outcome
    {
      var userId := GetStringPayloadDataByKey(a, "userId");
      var avatarUri := GetStringPayloadDataByKey(a, "avatarUri");
      if userId.Err? then Outcome([], Some(userId.error))
      else if avatarUri.Err? then Outcome([], Some(avatarUri.error))
      else
        var avatar := Avatars.Read(avatarUri.value, sha512, decode, fetch);
        if avatar.Err? then Outcome([], Some("Failed reading user avatar from " + avatarUri.value + ": " + avatar.error))
        else Last(SetUserAvatarCall(userId.value, avatar.value), "Failed setting user avatar for " + userId.value + ": ")
    }

    /** Reads the profile, then sets the name only when it carries the marker. */
    function UserActivateOutcome(a: StateAction): Outcome
    {
      var userId := GetStringPayloadDataByKey(a, "userId");
      if userId.Err? then Outcome([], Some(userId.error))
      else
        var profile := connector.profileOf(userId.value);
        if profile.Err? then Outcome([GetUserProfileCall(userId.value)], Some(ProfileFailurePrefix + profile.error))
        else if !MatrixUtil.IsUserDeactivatedAccordingToDisplayName(profile.value) then Outcome([GetUserProfileCall(userId.value)], None)
        else
          var newDisplayName := ActivatedName(profile.value);
          var setName := Last(SetUserDisplayNameCall(userId.value, newDisplayName),
                          "Failed setting display name (" + newDisplayName + ") for " + userId.value + ": ");
          Outcome([GetUserProfileCall(userId.value)] + setName.calls, setName.err)
    }

    /** Reads the profile, logs out every token, then marks the name unless it is marked. */
    function UserDeactivateOutcome(a: StateAction): Outcome
    {
      var userId := GetStringPayloadDataByKey(a, "userId");
      if userId.Err? then Outcome([], Some(userId.error))
      else
        var profile := connector.profileOf(userId.value);
        var logout := LogoutAllAccessTokensCall(userId.value);
        if profile.Err? then Outcome([GetUserProfileCall(userId.value)], Some(ProfileFailurePrefix + profile.error))
        else if connector.fails(logout).Some? then
          Outcome([GetUserProfileCall(userId.value), logout], Some(LogoutFailurePrefix + connector.fails(logout).value))
        else if MatrixUtil.IsUserDeactivatedAccordingToDisplayName(profile.value) then
          Outcome([GetUserProfileCall(userId.value), logout], None)
        else
          var newDisplayName := DeactivatedName(profile.value);
          var setName := Last(SetUserDisplayNameCall(userId.value, newDisplayName),
                          "Failed setting display name (" + newDisplayName + ") for " + userId.value + ": ");
          Outcome([GetUserProfileCall(userId.value), logout] + setName.calls, setName.err)
    }

    /** Invites as the reconciler's user, and joins only once the invitation succeeded. */
    function RoomJoinOutcome(a: StateAction): Outcome
    {
      var userId := GetStringPayloadDataByKey(a, "userId");
      var roomId := GetStringPayloadDataByKey(a, "roomId");
      if userId.Err? then Outcome([], Some(userId.error))
      else if roomId.Err? then Outcome([], Some(roomId.error))
      else
        var invite := InviteUserToRoomCall(reconciliatorUserId, userId.value, roomId.value);
        var join := JoinRoomCall(userId.value, roomId.value);
        if connector.fails(invite).Some? then Outcome([invite], connector.fails(invite))
        else Outcome([invite, join], connector.fails(join))
    }

    function RoomLeaveOutcome(a: StateAction): Outcome
    {
      var userId := GetStringPayloadDataByKey(a, "userId");
      var roomId := GetStringPayloadDataByKey(a, "roomId");
      if userId.Err? then Outcome([], Some(userId.error))
      else if roomId.Err? then Outcome([], Some(roomId.error))
      else
        var leave := LeaveRoomCall(userId.value, roomId.value);
        Outcome([leave], connector.fails(leave))
    }

    function HandlerOutcome(h: Handler, a: StateAction): Outcome
    {
      match h
      case UserCreate => UserCreateOutcome(a)
      case UserSetDisplayName => UserSetDisplayNameOutcome(a)
      case UserSetAvatar => UserSetAvatarOutcome(a)
      case UserActivate => UserActivateOutcome(a)
      case UserDeactivate => UserDeactivateOutcome(a)
      case RoomJoin => RoomJoinOutcome(a)
      case RoomLeave => RoomLeaveOutcome(a)
    }

    /** The loop of `Reconcile` over the planned actions: in order, stopping at the first action
        without a handler or whose handler fails. */
    function Execute(actions: seq<StateAction>): Outcome
      decreases |actions|
    {
      if actions == [] then Outcome([], None)
      else if actions[0].actionType !in handlers then Outcome([], Some(MissingHandlerMessage))
      else
        var o := HandlerOutcome(handlers[actions[0].actionType], actions[0]);
        if o.err.Some? then Outcome(o.calls, Some(FailedHandlerPrefix + o.err.value))
        else
          var rest := Execute(actions[1..]);
          Outcome(o.calls + rest.calls, rest.err)
    }

    /** `Reconcile`, after the state has been asked for: the calls that follow and the result. */
    function ReconcileOutcome(policy: Policy): Outcome
    {
      var currentState := connector.determine(GetManagedUserIds(policy), reconciliatorUserId);
      if currentState.Err? then Outcome([], Some(DetermineStateFailurePrefix + currentState.error))
      else
        match Computator.Planned(currentState.value, policy, sha512, random)
        case Err(e) => Outcome([], Some(e))
        case Ok(plan) => Execute(plan.actions)
    }

    // The handlers.

    method ReconcileForActionUserCreate(a: StateAction) returns (err: Option<string>)
      modifies connector
      ensures connector.calls == old(connector.calls) + UserCreateOutcome(a).calls && err == UserCreateOutcome(a).err
    {
      var userId := GetStringPayloadDataByKey(a, "userId");
      if userId.Err? {
        return Some(userId.error);
      }
      var password := GetStringPayloadDataByKey(a, "password");
      if password.Err? {
        return Some(password.error);
      }
      err := connector.Command(EnsureUserAccountExistsCall(userId.value, password.value));
      if err.Some? {
        return Some("Failed ensuring " + userId.value + " is created: " + err.value);
      }
    }

    method ReconcileForActionUserSetDisplayName(a: StateAction) returns (err: Option<string>)
      modifies connector
      ensures connector.calls == old(connector.calls) + UserSetDisplayNameOutcome(a).calls && err == UserSetDisplayNameOutcome(a).err
    {
      var userId := GetStringPayloadDataByKey(a, "userId");
      if userId.Err? {
        return Some(userId.error);
      }
      var displayName := GetStringPayloadDataByKey(a, "displayName");
      if displayName.Err? {
        return Some(displayName.error);
      }
      err := connector.Command(SetUserDisplayNameCall(userId.value, displayName.value));
      if err.Some? {
        return Some("Failed setting user display name (" + displayName.value + ") for " + userId.value + ": " + err.value);
      }
    }

    method ReconcileForActionUserSetAvatar(a: StateAction) returns (err: Option<string>)
      modifies connector
      ensures connector.calls == old(connector.calls) + UserSetAvatarOutcome(a).calls && err == UserSetAvatarOutcome(a).err
    {
      var userId := GetStringPayloadDataByKey(a, "userId");
      if userId.Err? {
        return Some(userId.error);
      }
      var avatarUri := GetStringPayloadDataByKey(a, "avatarUri");
      if avatarUri.Err? {
        return Some(avatarUri.error);
      }
      var avatar := Avatars.Read(avatarUri.value, sha512, decode, fetch);
      if avatar.Err? {
        return Some("Failed reading user avatar from " + avatarUri.value + ": " + avatar.error);
      }
      err := connector.Command(SetUserAvatarCall(userId.value, avatar.value));
      if err.Some? {
        return Some("Failed setting user avatar for " + userId.value + ": " + err.value);
      }
    }

    method ReconcileForActionUserActivate(a: StateAction) returns (err: Option<string>)
      modifies connector
      ensures connector.calls == old(connector.calls) + UserActivateOutcome(a).calls && err == UserActivateOutcome(a).err
    {
      var userId := GetStringPayloadDataByKey(a, "userId");
      if userId.Err? {
        return Some(userId.error);
      }
      var userProfile := connector.GetUserProfileByUserId(userId.value);
      if userProfile.Err? {
        return Some(ProfileFailurePrefix + userProfile.error);
      }
      if !MatrixUtil.IsUserDeactivatedAccordingToDisplayName(userProfile.value) {
        return None;
      }
      var newDisplayName := ActivatedName(userProfile.value);
      err := connector.Command(SetUserDisplayNameCall(userId.value, newDisplayName));
      if err.Some? {
        return Some("Failed setting display name (" + newDisplayName + ") for " + userId.value + ": " + err.value);
      }
    }

    method ReconcileForActionUserDeactivate(a: StateAction) returns (err: Option<string>)
      modifies connector
      ensures connector.calls == old(connector.calls) + UserDeactivateOutcome(a).calls && err == UserDeactivateOutcome(a).err
    {
      var userId := GetStringPayloadDataByKey(a, "userId");
      if userId.Err? {
        return Some(userId.error);
      }
      var userProfile := connector.GetUserProfileByUserId(userId.value);
      if userProfile.Err? {
        return Some(ProfileFailurePrefix + userProfile.error);
      }
      err := connector.Command(LogoutAllAccessTokensCall(userId.value));
      if err.Some? {
        return Some(LogoutFailurePrefix + err.value);
      }
      if !MatrixUtil.IsUserDeactivatedAccordingToDisplayName(userProfile.value) {
        var newDisplayName := DeactivatedName(userProfile.value);
        err := connector.Command(SetUserDisplayNameCall(userId.value, newDisplayName));
        if err.Some? {
          return Some("Failed setting display name (" + newDisplayName + ") for " + userId.value + ": " + err.value);
        }
      }
    }

    method ReconcileForActionRoomJoin(a: StateAction) returns (err: Option<string>)
      modifies connector
      ensures connector.calls == old(connector.calls) + RoomJoinOutcome(a).calls && err == RoomJoinOutcome(a).err
    {
      var userId := GetStringPayloadDataByKey(a, "userId");
      if userId.Err? {
        return Some(userId.error);
      }
      var roomId := GetStringPayloadDataByKey(a, "roomId");
      if roomId.Err? {
        return Some(roomId.error);
      }
      err := connector.Command(InviteUserToRoomCall(reconciliatorUserId, userId.value, roomId.value));
      if err.Some? {
        return err;
      }
      err := connector.Command(JoinRoomCall(userId.value, roomId.value));
    }

    method ReconcileForActionRoomLeave(a: StateAction) returns (err: Option<string>)
      modifies connector
      ensures connector.calls == old(connector.calls) + RoomLeaveOutcome(a).calls && err == RoomLeaveOutcome(a).err
    {
      var userId := GetStringPayloadDataByKey(a, "userId");
      if userId.Err? {
        return Some(userId.error);
      }
      var roomId := GetStringPayloadDataByKey(a, "roomId");
      if roomId.Err? {
        return Some(roomId.error);
      }
      err := connector.Command(LeaveRoomCall(userId.value, roomId.value));
    }

    /** The call through the handler table. */
    method RunHandler(h: Handler, a: StateAction) returns (err: Option<string>)
      modifies connector
      ensures connector.calls == old(connector.calls) + HandlerOutcome(h, a).calls && err == HandlerOutcome(h, a).err
    {
      match h {
        case UserCreate => err := ReconcileForActionUserCreate(a);
        case UserSetDisplayName => err := ReconcileForActionUserSetDisplayName(a);
        case UserSetAvatar => err := ReconcileForActionUserSetAvatar(a);
        case UserActivate => err := ReconcileForActionUserActivate(a);
        case UserDeactivate => err := ReconcileForActionUserDeactivate(a);
        case RoomJoin => err := ReconcileForActionRoomJoin(a);
        case RoomLeave => err := ReconcileForActionRoomLeave(a);
      }
    }

    /** One step of the run. */
    lemma ExecuteFirst(actions: seq<StateAction>)
      requires actions != []
      ensures actions[0].actionType !in handlers ==> Execute(actions) == Outcome([], Some(MissingHandlerMessage))
      ensures actions[0].actionType in handlers ==>
                var o := HandlerOutcome(handlers[actions[0].actionType], actions[0]);
                && (o.err.Some? ==> Execute(actions) == Outcome(o.calls, Some(FailedHandlerPrefix + o.err.value)))
                && (o.err.None? ==> Execute(actions) == Outcome(o.calls + Execute(actions[1..]).calls, Execute(actions[1..]).err))
    {
    }

    /** The loop over the planned actions. */
    method ExecuteActions(actions: seq<StateAction>) returns (err: Option<string>)
      modifies connector
      ensures connector.calls == old(connector.calls) + Execute(actions).calls && err == Execute(actions).err
    {
      var i := 0;
      while i < |actions|
        invariant 0 <= i <= |actions|
        invariant Execute(actions[i..]).err == Execute(actions).err
        invariant connector.calls + Execute(actions[i..]).calls == old(connector.calls) + Execute(actions).calls
      {
        var action := actions[i];
        ExecuteFirst(actions[i..]);
        assert actions[i..][1..] == actions[i + 1..];
        if action.actionType !in handlers {
          return Some(MissingHandlerMessage);
        }
        err := RunHandler(handlers[action.actionType], action);
        if err.Some? {
          return Some(FailedHandlerPrefix + err.value);
        }
        i := i + 1;
      }
      assert actions[i..] == [];
      return None;
    }

    /** `Reconcile`: a token context for the run, released on every way out; the current state,
        then the plan, then the actions. A failure before the plan runs no action. */
    method Reconcile(policy: Policy) returns (err: Option<string>, ctx: AccessTokens.AccessTokenContext)
      modifies connector, tokenConnector
      ensures fresh(ctx) && ctx.connector == tokenConnector
      ensures ctx.deviceId == DeviceIdReconciler && ctx.validitySeconds == TokenValiditySeconds
      ensures ctx.tokens == map[]
      ensures tokenConnector.calls == old(tokenConnector.calls)
      ensures connector.calls == old(connector.calls) + [DetermineCurrentStateCall(GetManagedUserIds(policy), reconciliatorUserId)]
                                 + ReconcileOutcome(policy).calls
      ensures err == ReconcileOutcome(policy).err
    {
      ctx := new AccessTokens.AccessTokenContext(tokenConnector, DeviceIdReconciler, TokenValiditySeconds);
      var currentState := connector.DetermineCurrentState(GetManagedUserIds(policy), reconciliatorUserId);
      if currentState.Err? {
        err := Some(DetermineStateFailurePrefix + currentState.error);
      } else {
        var reconciliationState := Computator.Compute(currentState.value, policy, sha512, random);
        if reconciliationState.Err? {
          err := Some(reconciliationState.error);
        } else {
          err := ExecuteActions(reconciliationState.value.actions);
        }
      }
      ghost var tokenCalls := tokenConnector.calls;
      ctx.Release();
      assert tokenConnector.calls == tokenConnector.calls[..|tokenCalls|] == tokenCalls;
    }

    // What the reconciler promises.

    /** The handler table has the seven handlers, and none for the power-level actions. */
    lemma HandlerTableEntries()
      requires handlers == HandlerTable
      ensures handlers.Keys == {ActionUserCreate, ActionUserSetDisplayName, ActionUserSetAvatar, ActionUserActivate,
                                ActionUserDeactivate, ActionRoomJoin, ActionRoomLeave}
      ensures ActionRoomUsersSetPowerLevels !in handlers && ActionRoomUserSetPowerLevel !in handlers
    {
    }

    /** The run succeeds exactly when every action has a handler and every handler succeeds. */
    lemma {:induction false} ExecuteSucceedsIffAllHandled(actions: seq<StateAction>)
      ensures Execute(actions).err.None? <==>
              (forall i :: 0 <= i < |actions| ==>
                 actions[i].actionType in handlers && HandlerOutcome(handlers[actions[i].actionType], actions[i]).err.None?)
      decreases |actions|
    {
      if actions != [] {
        ExecuteSucceedsIffAllHandled(actions[1..]);
        assert forall i :: 1 <= i < |actions| ==> actions[i] == actions[1..][i - 1];
      }
    }

    /** The first action without a handler, or whose handler fails, ends the run with its error;
        no later action makes any call. */
    lemma {:induction false} ExecuteStopsAtFirstFailure(actions: seq<StateAction>, k: nat)
      requires k < |actions|
      requires forall i :: 0 <= i < k ==>
                 actions[i].actionType in handlers && HandlerOutcome(handlers[actions[i].actionType], actions[i]).err.None?
      requires actions[k].actionType !in handlers || HandlerOutcome(handlers[actions[k].actionType], actions[k]).err.Some?
      ensures Execute(actions) == Execute(actions[..k + 1])
      ensures actions[k].actionType !in handlers ==> Execute(actions).err == Some(MissingHandlerMessage)
      ensures actions[k].actionType in handlers ==>
                Execute(actions).err == Some(FailedHandlerPrefix + HandlerOutcome(handlers[actions[k].actionType], actions[k]).err.value)
      decreases k
    {
      if k > 0 {
        assert actions[..k + 1][1..] == actions[1..][..k];
        assert forall i :: 0 <= i < k - 1 ==> actions[1..][i] == actions[i + 1];
        ExecuteStopsAtFirstFailure(actions[1..], k - 1);
      } else {
        assert actions[..1][0] == actions[0];
      }
    }

    /** A plan with a grouped power-level action can never complete: the table has no handler for
        it. */
    lemma PowerLevelPlanFails(actions: seq<StateAction>, k: nat)
      requires handlers == HandlerTable
      requires k < |actions| && actions[k].actionType == ActionRoomUsersSetPowerLevels
      ensures Execute(actions).err.Some?
    {
      ExecuteSucceedsIffAllHandled(actions);
      HandlerTableEntries();
    }

    /** A reconciliation whose plan changes any room power level fails, after carrying out the
        actions before the first grouped power-level action at most. */
    lemma PowerLevelChangeFailsReconciliation(policy: Policy, k: nat)
      requires handlers == HandlerTable
      requires connector.determine(GetManagedUserIds(policy), reconciliatorUserId).Ok?
      requires var computed := Computator.ComputedActions(connector.determine(GetManagedUserIds(policy), reconciliatorUserId).value,
                                                         policy, policy.users, sha512, random);
               k < |computed| && Computator.IsSetPower(computed[k])
      ensures ReconcileOutcome(policy).err.Some?
    {
      var state := connector.determine(GetManagedUserIds(policy), reconciliatorUserId).value;
      var computed := Computator.ComputedActions(state, policy, policy.users, sha512, random);
      ComputatorProperties.PlanAlwaysComputed(state, policy, sha512, random);
      ComputatorProperties.ComputedActionsReadable(state, policy, policy.users, sha512, random);
      assert computed[k] in computed;
      ComputatorProperties.GroupAllOkIff(computed);
      var rooms, powers := ComputatorProperties.GroupedPlanShape(computed);
      var roomId := ComputatorProperties.SetPowerNamesPowerRoom(computed, k);
      var j :| 0 <= j < |rooms| && rooms[j] == roomId;
      var plan := Computator.Planned(state, policy, sha512, random).value.actions;
      var others := ComputatorProperties.NonPowerActions(computed);
      assert plan == others + Computator.EmitRooms(rooms, powers);
      assert plan[|others| + j].actionType == ActionRoomUsersSetPowerLevels;
      PowerLevelPlanFails(plan, |others| + j);
    }

    /** Activation reads the profile and changes nothing else for an unmarked name; for a marked
        name it sets the name without its first four characters. */
    lemma ActivateOutcome(a: StateAction, userId: string, name: string)
      requires GetStringPayloadDataByKey(a, "userId") == Ok(userId) && connector.profileOf(userId) == Ok(name)
      ensures !MatrixUtil.IsUserDeactivatedAccordingToDisplayName(name) ==>
                UserActivateOutcome(a) == Outcome([GetUserProfileCall(userId)], None)
      ensures MatrixUtil.IsUserDeactivatedAccordingToDisplayName(name) ==>
                |name| >= 4 && UserActivateOutcome(a).calls == [GetUserProfileCall(userId), SetUserDisplayNameCall(userId, name[4..])]
    {
      if MatrixUtil.IsUserDeactivatedAccordingToDisplayName(name) {
        ContainsIsLonger(name, MatrixUtil.DeactivatedAccountPrefixMarker);
      }
    }

    /** Deactivation always logs out every token once the profile is read, and sets a name only
        when it is not marked yet, to the marked name. */
    lemma DeactivateOutcome(a: StateAction, userId: string, name: string)
      requires GetStringPayloadDataByKey(a, "userId") == Ok(userId) && connector.profileOf(userId) == Ok(name)
      ensures var o := UserDeactivateOutcome(a);
              && |o.calls| >= 2 && o.calls[..2] == [GetUserProfileCall(userId), LogoutAllAccessTokensCall(userId)]
              && (SetUserDisplayNameCall(userId, MatrixUtil.DeactivatedAccountPrefixMarker + name) in o.calls
                  <==> connector.fails(LogoutAllAccessTokensCall(userId)).None? && !MatrixUtil.IsUserDeactivatedAccordingToDisplayName(name))
              && (forall c :: c in o.calls && c.SetUserDisplayNameCall? ==> c == SetUserDisplayNameCall(userId, DeactivatedName(name)))
    {
    }

    /** Joining invites first and does not try to join when the invitation fails. */
    lemma RoomJoinInvitesFirst(a: StateAction, userId: string, roomId: string)
      requires GetStringPayloadDataByKey(a, "userId") == Ok(userId) && GetStringPayloadDataByKey(a, "roomId") == Ok(roomId)
      ensures var invite := InviteUserToRoomCall(reconciliatorUserId, userId, roomId);
              && RoomJoinOutcome(a).calls[0] == invite
              && (connector.fails(invite).Some? <==> JoinRoomCall(userId, roomId) !in RoomJoinOutcome(a).calls)
              && (connector.fails(invite).Some? ==> RoomJoinOutcome(a).err == connector.fails(invite))
    {
    }
  }
}
