/** The reconciliation planner (corporal/reconciliation/computator/computator.go): from the
    homeserver's current state of the managed users and the policy, the list of actions that brings
    the former in line with the latter. Each `compute*` helper is specified by a function; the
    helpers with loops, and `Compute` itself, are methods proved equal to those functions. */
module Computator {
  import opened Wrappers
  import opened Json
  import opened Hex
  import opened Policies
  import opened ConnectorState
  import opened ReconciliationState
  import Avatars
  import Util

  /** The 64 random bytes drawn when the initial password of the user with that id is generated. */
  type Randomness = string -> Digest

  // The actions the planner emits, with their payloads.

  function CreateAction(userId: string, password: string): StateAction
  {
    StateAction(ActionUserCreate, map["userId" := JStr(userId), "password" := JStr(password)])
  }

  function ActivateAction(userId: string): StateAction
  {
    StateAction(ActionUserActivate, map["userId" := JStr(userId)])
  }

  function DeactivateAction(userId: string): StateAction
  {
    StateAction(ActionUserDeactivate, map["userId" := JStr(userId)])
  }

  function SetDisplayNameAction(userId: string, displayName: string): StateAction
  {
    StateAction(ActionUserSetDisplayName, map["userId" := JStr(userId), "displayName" := JStr(displayName)])
  }

  function SetAvatarAction(userId: string, avatarUri: string): StateAction
  {
    StateAction(ActionUserSetAvatar, map["userId" := JStr(userId), "avatarUri" := JStr(avatarUri)])
  }

  function JoinAction(userId: string, roomId: string): StateAction
  {
    StateAction(ActionRoomJoin, map["userId" := JStr(userId), "roomId" := JStr(roomId)])
  }

  function LeaveAction(userId: string, roomId: string): StateAction
  {
    StateAction(ActionRoomLeave, map["userId" := JStr(userId), "roomId" := JStr(roomId)])
  }

  function SetPowerAction(userId: string, roomId: string, powerLevel: int): StateAction
  {
    StateAction(ActionRoomUserSetPowerLevel, map["userId" := JStr(userId), "roomId" := JStr(roomId), "powerLevel" := JInt(powerLevel)])
  }

  /** The one action that sets the power levels of several users in a room. */
  function GroupedPowerAction(roomId: string, powers: map<string, int>): StateAction
  {
    StateAction(ActionRoomUsersSetPowerLevels,
                map["roomPowerForUserId" := JObj(map u | u in powers :: JInt(powers[u])), "roomId" := JStr(roomId)])
  }

  /** `generateInitialPasswordForUser`: the policy's credential for passthrough users, whose
      password lives on the homeserver; otherwise the lowercase hex rendering of 64 random bytes. */
  function InitialPassword(u: UserPolicy, random: Randomness): (password: string)
    ensures u.authType == UserAuthTypePassthrough ==> password == u.authCredential
    ensures u.authType != UserAuthTypePassthrough ==> |password| == 128 && IsLowerHex(password) && password == HexLower(random(u.id))
  {
    if u.authType == UserAuthTypePassthrough then u.authCredential else HexLower(random(u.id))
  }

  // Room membership (computeUserRoomChanges).

  /** The position of the first of the user's current rooms with that id, searching from `from`. */
  function FirstRoomIndex(rooms: seq<CurrentUserRoomState>, roomId: string, from: nat): (k: Option<nat>)
    requires from <= |rooms|
    ensures k.Some? ==> (from <= k.value < |rooms| && rooms[k.value].roomId == roomId
                         && forall j :: from <= j < k.value ==> rooms[j].roomId != roomId)
    ensures k.None? ==> forall j :: from <= j < |rooms| ==> rooms[j].roomId != roomId
    decreases |rooms| - from
  {
    if from == |rooms| then None
    else if rooms[from].roomId == roomId then Some(from)
    else FirstRoomIndex(rooms, roomId, from + 1)
  }

  /** `currentRoomPowerFound`: the power level of the first current entry for the room. */
  function CurrentPower(cur: Option<CurrentUserState>, roomId: string): Option<int>
  {
    if cur.None? then None
    else
      match FirstRoomIndex(cur.value.joinedRooms, roomId, 0)
      case None => None
      case Some(k) => Some(cur.value.joinedRooms[k].powerLevel)
  }

  /** The actions for one room of the policy. */
  function RoomActions(userId: string, cur: Option<CurrentUserState>, room: JoinedRoom, managedRoomIds: seq<string>): seq<StateAction>
  {
    if room.roomId !in managedRoomIds then []
    else
      match CurrentPower(cur, room.roomId)
      case None => [JoinAction(userId, room.roomId), SetPowerAction(userId, room.roomId, room.powerLevel)]
      case Some(power) => if power != room.powerLevel then [SetPowerAction(userId, room.roomId, room.powerLevel)] else []
  }

  /** The actions for the policy's rooms, in the policy's order. */
  function PolicyRoomActions(userId: string, cur: Option<CurrentUserState>, rooms: seq<JoinedRoom>, managedRoomIds: seq<string>): seq<StateAction>
    decreases |rooms|
  {
    if rooms == [] then []
    else PolicyRoomActions(userId, cur, rooms[..|rooms| - 1], managedRoomIds) + RoomActions(userId, cur, rooms[|rooms| - 1], managedRoomIds)
  }

  /** `isInPolicyJoinedRooms`. */
  predicate InPolicyRooms(roomId: string, rooms: seq<JoinedRoom>)
  {
    exists i :: 0 <= i < |rooms| && rooms[i].roomId == roomId
  }

  /** The leaves for the user's current rooms that are managed and not in the policy. */
  function LeaveActions(userId: string, current: seq<CurrentUserRoomState>, rooms: seq<JoinedRoom>, managedRoomIds: seq<string>): seq<StateAction>
    decreases |current|
  {
    if current == [] then []
    else
      var last := current[|current| - 1];
      LeaveActions(userId, current[..|current| - 1], rooms, managedRoomIds)
      + (if last.roomId in managedRoomIds && !InPolicyRooms(last.roomId, rooms) then [LeaveAction(userId, last.roomId)] else [])
  }

  /** `computeUserRoomChanges` (and `computeUserMembershipChanges`, which only forwards to it). */
  function RoomChanges(userId: string, cur: Option<CurrentUserState>, u: UserPolicy, managedRoomIds: seq<string>): seq<StateAction>
  {
    PolicyRoomActions(userId, cur, u.joinedRooms, managedRoomIds)
    + (if cur.Some? then LeaveActions(userId, cur.value.joinedRooms, u.joinedRooms, managedRoomIds) else [])
  }

  // Activation and profile (computeUserActivationChanges, computeUserProfileDataChanges).

  /** `computeUserActivationChanges`. */
  function ActivationChanges(userId: string, cur: Option<CurrentUserState>, p: Policy, u: UserPolicy, random: Randomness): seq<StateAction>
  {
    if cur.None? then
      if u.active then [CreateAction(u.id, InitialPassword(u, random))] else []
    else
      (if !u.active then RoomChanges(userId, cur, u, p.managedRoomIds) else [])
      + (if cur.value.active then (if !u.active then [DeactivateAction(u.id)] else [])
         else (if u.active then [ActivateAction(u.id)] else []))
  }

  /** The display name once `actions` has been carried out on a user that has `current`. */
  function NameAfter(current: string, actions: seq<StateAction>): string
  {
    if actions != [] && "displayName" in actions[0].payload && actions[0].payload["displayName"].JStr?
    then actions[0].payload["displayName"].s else current
  }

  /** `computeUserProfileDisplayNameChanges`: at most one action, to the policy's name. A new user
      ends up with the policy's name; with custom names forbidden an existing user does too; with
      custom names allowed, only an empty name is replaced, and only by a non-empty one. No action
      is emitted that would leave the name as it is. */
  function DisplayNameChanges(cur: Option<CurrentUserState>, p: Policy, u: UserPolicy): (r: seq<StateAction>)
    ensures |r| <= 1 && (r != [] ==> r[0] == SetDisplayNameAction(u.id, u.displayName))
    ensures cur.None? ==> NameAfter("", r) == u.displayName
    ensures cur.Some? && !p.flags.allowCustomUserDisplayNames ==> NameAfter(cur.value.displayName, r) == u.displayName
    ensures cur.Some? && p.flags.allowCustomUserDisplayNames ==>
              NameAfter(cur.value.displayName, r) == (if cur.value.displayName == "" then u.displayName else cur.value.displayName)
    ensures r != [] ==> (if cur.None? then "" else cur.value.displayName) != u.displayName
  {
    var shouldSetDisplayName :=
      if cur.None? then u.displayName != ""
      else if p.flags.allowCustomUserDisplayNames then cur.value.displayName == "" && u.displayName != ""
      else cur.value.displayName != u.displayName;
    if shouldSetDisplayName then [SetDisplayNameAction(u.id, u.displayName)] else []
  }

  /** `computeUserProfileAvatarChanges`: the same three rules as for the name, where the current
      avatar is known only by the hash of the URI it was set from. */
  function AvatarChanges(cur: Option<CurrentUserState>, p: Policy, u: UserPolicy, sha512: Hash): (r: seq<StateAction>)
    ensures |r| <= 1 && (r != [] ==> r[0] == SetAvatarAction(u.id, u.avatarUri))
    ensures cur.None? ==> (r != [] <==> u.avatarUri != "")
    ensures cur.Some? && !p.flags.allowCustomUserAvatars ==>
              (r != [] <==> cur.value.avatarSourceUriHash != Avatars.UriHash(u.avatarUri, sha512))
    ensures cur.Some? && p.flags.allowCustomUserAvatars ==>
              (r != [] <==> cur.value.avatarSourceUriHash == Avatars.UriHash("", sha512) && u.avatarUri != "")
  {
    var shouldSetAvatar :=
      if cur.None? then u.avatarUri != ""
      else if p.flags.allowCustomUserAvatars then
        cur.value.avatarSourceUriHash == Avatars.UriHash("", sha512) && u.avatarUri != ""
      else cur.value.avatarSourceUriHash != Avatars.UriHash(u.avatarUri, sha512);
    if shouldSetAvatar then [SetAvatarAction(u.id, u.avatarUri)] else []
  }

  /** `computeUserChanges`: activation first; an inactive user gets nothing more; an active one
      then gets the name, the avatar and the rooms. */
  function UserChanges(userId: string, cur: Option<CurrentUserState>, p: Policy, u: UserPolicy, sha512: Hash, random: Randomness): seq<StateAction>
  {
    ActivationChanges(userId, cur, p, u, random)
    + (if !u.active then []
       else DisplayNameChanges(cur, p, u) + AvatarChanges(cur, p, u, sha512) + RoomChanges(userId, cur, u, p.managedRoomIds))
  }

  /** The actions of the first loop of `Compute`, for the user policies `users`. */
  function ComputedActions(state: CurrentState, p: Policy, users: seq<UserPolicy>, sha512: Hash, random: Randomness): seq<StateAction>
    decreases |users|
  {
    if users == [] then []
    else
      var u := users[|users| - 1];
      ComputedActions(state, p, users[..|users| - 1], sha512, random)
      + UserChanges(u.id, GetUserStateByUserId(state, u.id), p, u, sha512, random)
  }

  // Grouping of the power-level actions (the second half of Compute).

  predicate IsSetPower(a: StateAction)
  {
    a.actionType == ActionRoomUserSetPowerLevel
  }

  /** A set-power action whose three payload values can be read. */
  predicate WellFormedSetPower(a: StateAction)
  {
    GetStringPayloadDataByKey(a, "roomId").Ok? && GetIntPayloadDataByKey(a, "powerLevel").Ok?
    && GetStringPayloadDataByKey(a, "userId").Ok?
  }

  /** The error of the first payload read that fails, in the order they are read. */
  function StepError(a: StateAction): string
    requires !WellFormedSetPower(a)
  {
    if GetStringPayloadDataByKey(a, "roomId").Err? then GetStringPayloadDataByKey(a, "roomId").error
    else if GetIntPayloadDataByKey(a, "powerLevel").Err? then GetIntPayloadDataByKey(a, "powerLevel").error
    else GetStringPayloadDataByKey(a, "userId").error
  }

  /** What the grouping loop has gathered so far: the other actions in order, the rooms in the
      order they first appeared, and for each room the level of each user. */
  datatype Grouping = Grouping(others: seq<StateAction>, rooms: seq<string>, powers: map<string, map<string, int>>)

  /** One turn of the grouping loop. */
  function GroupStep(g: Grouping, a: StateAction): Result<Grouping, string>
  {
    if !IsSetPower(a) then Ok(g.(others := g.others + [a]))
    else if !WellFormedSetPower(a) then Err(StepError(a))
    else
      var roomId := GetStringPayloadDataByKey(a, "roomId").value;
      var powerLevel := GetIntPayloadDataByKey(a, "powerLevel").value;
      var userId := GetStringPayloadDataByKey(a, "userId").value;
      if roomId !in g.powers then Ok(g.(rooms := g.rooms + [roomId], powers := g.powers[roomId := map[userId := powerLevel]]))
      else Ok(g.(powers := g.powers[roomId := g.powers[roomId][userId := powerLevel]]))
  }

  /** The grouping loop over `actions`, stopping at the first error. */
  function GroupAll(actions: seq<StateAction>): Result<Grouping, string>
    decreases |actions|
  {
    if actions == [] then Ok(Grouping([], [], map[]))
    else
      match GroupAll(actions[..|actions| - 1])
      case Err(e) => Err(e)
      case Ok(g) => GroupStep(g, actions[|actions| - 1])
  }

  /** One grouped action per room, in the order of `rooms`. */
  function EmitRooms(rooms: seq<string>, powers: map<string, map<string, int>>): (r: seq<StateAction>)
    requires forall x :: x in rooms ==> x in powers
    ensures |r| == |rooms|
    ensures forall i :: 0 <= i < |rooms| ==> r[i] == GroupedPowerAction(rooms[i], powers[rooms[i]])
    decreases |rooms|
  {
    if rooms == [] then []
    else EmitRooms(rooms[..|rooms| - 1], powers) + [GroupedPowerAction(rooms[|rooms| - 1], powers[rooms[|rooms| - 1]])]
  }

  /** The gathered actions: the others, then the grouped ones. */
  ghost predicate GroupingValid(g: Grouping)
  {
    && (forall i, j :: 0 <= i < j < |g.rooms| ==> g.rooms[i] != g.rooms[j])
    && (forall x :: x in g.rooms <==> x in g.powers)
  }

  function GroupPowerLevels(actions: seq<StateAction>): Result<seq<StateAction>, string>
  {
    match GroupAll(actions)
    case Err(e) => Err(e)
    case Ok(g) =>
      GroupAllValid(actions);
      Ok(g.others + EmitRooms(g.rooms, g.powers))
  }

  /** `Compute`. */
  function Planned(state: CurrentState, p: Policy, sha512: Hash, random: Randomness): Result<State, string>
  {
    match GroupPowerLevels(ComputedActions(state, p, p.users, sha512, random))
    case Err(e) => Err(e)
    case Ok(actions) => Ok(State(actions))
  }

  /** Every grouping the loop reaches is valid. */
  lemma {:induction false} GroupAllValid(actions: seq<StateAction>)
    ensures GroupAll(actions).Ok? ==> GroupingValid(GroupAll(actions).value)
    decreases |actions|
  {
    if actions != [] {
      GroupAllValid(actions[..|actions| - 1]);
    }
  }

  // The methods.

  /** The search for `currentRoomPowerFound`. */
  method FindCurrentRoomPower(cur: Option<CurrentUserState>, roomId: string) returns (found: Option<int>)
    ensures found == CurrentPower(cur, roomId)
  {
    if cur.None? {
      return None;
    }
    var rooms := cur.value.joinedRooms;
    var j := 0;
    while j < |rooms|
      invariant 0 <= j <= |rooms|
      invariant FirstRoomIndex(rooms, roomId, j) == FirstRoomIndex(rooms, roomId, 0)
    {
      if rooms[j].roomId == roomId {
        return Some(rooms[j].powerLevel);
      }
      j := j + 1;
    }
    return None;
  }

  /** The search for `isInPolicyJoinedRooms`. */
  method IsInPolicyJoinedRooms(roomId: string, rooms: seq<JoinedRoom>) returns (found: bool)
    ensures found <==> InPolicyRooms(roomId, rooms)
  {
    var j := 0;
    while j < |rooms|
      invariant 0 <= j <= |rooms|
      invariant forall k :: 0 <= k < j ==> rooms[k].roomId != roomId
    {
      if roomId == rooms[j].roomId {
        return true;
      }
      j := j + 1;
    }
    return false;
  }

  /** The first loop of `computeUserRoomChanges`, over the policy's rooms. */
  method ComputePolicyRoomActions(userId: string, cur: Option<CurrentUserState>, rooms: seq<JoinedRoom>, managedRoomIds: seq<string>)
    returns (actions: seq<StateAction>)
    ensures actions == PolicyRoomActions(userId, cur, rooms, managedRoomIds)
  {
    actions := [];
    var i := 0;
    while i < |rooms|
      invariant 0 <= i <= |rooms|
      invariant actions == PolicyRoomActions(userId, cur, rooms[..i], managedRoomIds)
    {
      ghost var before := actions;
      assert PolicyRoomActions(userId, cur, rooms[..i + 1], managedRoomIds)
          == before + RoomActions(userId, cur, rooms[i], managedRoomIds) by {
        assert rooms[..i + 1][..i] == rooms[..i];
      }
      var room := rooms[i];
      var managed := Util.IsStringInArray(room.roomId, managedRoomIds);
      assert managed <==> room.roomId in managedRoomIds;
      if managed {
        var currentRoomPowerFound := FindCurrentRoomPower(cur, room.roomId);
        if currentRoomPowerFound.None? {
          actions := actions + [JoinAction(userId, room.roomId)];
          actions := actions + [SetPowerAction(userId, room.roomId, room.powerLevel)];
          assert actions == before + [JoinAction(userId, room.roomId), SetPowerAction(userId, room.roomId, room.powerLevel)];
        } else if currentRoomPowerFound.value != room.powerLevel {
          actions := actions + [SetPowerAction(userId, room.roomId, room.powerLevel)];
        }
      }
      assert actions == before + RoomActions(userId, cur, room, managedRoomIds);
      i := i + 1;
    }
    assert rooms[..i] == rooms;
  }

  /** The second loop of `computeUserRoomChanges`, over the user's current rooms. */
  method ComputeLeaveActions(userId: string, current: seq<CurrentUserRoomState>, rooms: seq<JoinedRoom>, managedRoomIds: seq<string>)
    returns (actions: seq<StateAction>)
    ensures actions == LeaveActions(userId, current, rooms, managedRoomIds)
  {
    actions := [];
    var k := 0;
    while k < |current|
      invariant 0 <= k <= |current|
      invariant actions == LeaveActions(userId, current[..k], rooms, managedRoomIds)
    {
      assert current[..k + 1][..k] == current[..k];
      var room := current[k];
      var managed := Util.IsStringInArray(room.roomId, managedRoomIds);
      if managed {
        var isInPolicyJoinedRooms := IsInPolicyJoinedRooms(room.roomId, rooms);
        if !isInPolicyJoinedRooms {
          actions := actions + [LeaveAction(userId, room.roomId)];
        }
      }
      k := k + 1;
    }
    assert current[..k] == current;
  }

  /** `computeUserRoomChanges`: the policy's rooms, then the leaves. */
  method ComputeUserRoomChanges(userId: string, cur: Option<CurrentUserState>, u: UserPolicy, managedRoomIds: seq<string>)
    returns (actions: seq<StateAction>)
    ensures actions == RoomChanges(userId, cur, u, managedRoomIds)
  {
    actions := ComputePolicyRoomActions(userId, cur, u.joinedRooms, managedRoomIds);
    if cur.Some? {
      var leaves := ComputeLeaveActions(userId, cur.value.joinedRooms, u.joinedRooms, managedRoomIds);
      actions := actions + leaves;
    }
  }

  /** `computeUserActivationChanges`. */
  method ComputeUserActivationChanges(userId: string, cur: Option<CurrentUserState>, p: Policy, u: UserPolicy, random: Randomness)
    returns (actions: seq<StateAction>)
    ensures actions == ActivationChanges(userId, cur, p, u, random)
  {
    actions := [];
    if cur.None? {
      if u.active {
        actions := actions + [CreateAction(u.id, InitialPassword(u, random))];
      }
      return;
    }
    if !u.active {
      var membership := ComputeUserRoomChanges(userId, cur, u, p.managedRoomIds);
      actions := actions + membership;
    }
    if cur.value.active {
      if !u.active {
        actions := actions + [DeactivateAction(u.id)];
      }
    } else {
      if u.active {
        actions := actions + [ActivateAction(u.id)];
      }
    }
  }

  /** `computeUserChanges`. */
  method ComputeUserChanges(userId: string, cur: Option<CurrentUserState>, p: Policy, u: UserPolicy, sha512: Hash, random: Randomness)
    returns (actions: seq<StateAction>)
    ensures actions == UserChanges(userId, cur, p, u, sha512, random)
  {
    actions := ComputeUserActivationChanges(userId, cur, p, u, random);
    if !u.active {
      return;
    }
    actions := actions + DisplayNameChanges(cur, p, u);
    actions := actions + AvatarChanges(cur, p, u, sha512);
    var membership := ComputeUserRoomChanges(userId, cur, u, p.managedRoomIds);
    actions := actions + membership;
  }

  /** The grouping loop of `Compute`, with its early returns on a payload that cannot be read. */
  method GroupSetPowerActions(computedActions: seq<StateAction>) returns (r: Result<Grouping, string>)
    ensures r == GroupAll(computedActions)
  {
    var groupedActions: seq<StateAction> := [];
    var roomOrder: seq<string> := [];
    var setPowerActionsByRoomId: map<string, map<string, int>> := map[];
    var i := 0;
    while i < |computedActions|
      invariant 0 <= i <= |computedActions|
      invariant GroupAll(computedActions[..i]) == Ok(Grouping(groupedActions, roomOrder, setPowerActionsByRoomId))
    {
      assert computedActions[..i + 1][..i] == computedActions[..i];
      var action := computedActions[i];
      if action.actionType != ActionRoomUserSetPowerLevel {
        groupedActions := groupedActions + [action];
      } else {
        var roomId := GetStringPayloadDataByKey(action, "roomId");
        if roomId.Err? {
          GroupAllStops(computedActions, i + 1);
          return Err(roomId.error);
        }
        var powerLevel := GetIntPayloadDataByKey(action, "powerLevel");
        if powerLevel.Err? {
          GroupAllStops(computedActions, i + 1);
          return Err(powerLevel.error);
        }
        var userId := GetStringPayloadDataByKey(action, "userId");
        if userId.Err? {
          GroupAllStops(computedActions, i + 1);
          return Err(userId.error);
        }
        if roomId.value !in setPowerActionsByRoomId {
          roomOrder := roomOrder + [roomId.value];
          setPowerActionsByRoomId := setPowerActionsByRoomId[roomId.value := map[userId.value := powerLevel.value]];
        } else {
          var roomPowerPayload := setPowerActionsByRoomId[roomId.value];
          setPowerActionsByRoomId := setPowerActionsByRoomId[roomId.value := roomPowerPayload[userId.value := powerLevel.value]];
        }
      }
      i := i + 1;
    }
    assert computedActions[..i] == computedActions;
    return Ok(Grouping(groupedActions, roomOrder, setPowerActionsByRoomId));
  }

  /** A grouping that stopped with an error stays stopped whatever follows. */
  lemma {:induction false} GroupAllStops(actions: seq<StateAction>, n: nat)
    requires n <= |actions|
    ensures GroupAll(actions[..n]).Err? ==> GroupAll(actions) == GroupAll(actions[..n])
    decreases |actions| - n
  {
    if n < |actions| && GroupAll(actions[..n]).Err? {
      var m := |actions| - 1;
      assert actions[..m][..n] == actions[..n];
      GroupAllStops(actions[..m], n);
    } else if n == |actions| {
      assert actions[..n] == actions;
    }
  }

  /** The first loop of `Compute`, over the user policies. */
  method ComputeAllUserChanges(state: CurrentState, p: Policy, sha512: Hash, random: Randomness)
    returns (computedActions: seq<StateAction>)
    ensures computedActions == ComputedActions(state, p, p.users, sha512, random)
  {
    computedActions := [];
    var i := 0;
    while i < |p.users|
      invariant 0 <= i <= |p.users|
      invariant computedActions == ComputedActions(state, p, p.users[..i], sha512, random)
    {
      assert p.users[..i + 1][..i] == p.users[..i];
      var userPolicy := p.users[i];
      var currentUserStateOrNil := GetUserStateByUserId(state, userPolicy.id);
      var actions := ComputeUserChanges(userPolicy.id, currentUserStateOrNil, p, userPolicy, sha512, random);
      computedActions := computedActions + actions;
      i := i + 1;
    }
    assert p.users[..i] == p.users;
  }

  /** The last loop of `Compute`: one grouped action per room, after the other actions. */
  method EmitGroupedActions(g: Grouping) returns (groupedActions: seq<StateAction>)
    requires GroupingValid(g)
    ensures groupedActions == g.others + EmitRooms(g.rooms, g.powers)
  {
    groupedActions := g.others;
    var k := 0;
    while k < |g.rooms|
      invariant 0 <= k <= |g.rooms|
      invariant groupedActions == g.others + EmitRooms(g.rooms[..k], g.powers)
    {
      assert g.rooms[..k + 1][..k] == g.rooms[..k];
      groupedActions := groupedActions + [GroupedPowerAction(g.rooms[k], g.powers[g.rooms[k]])];
      k := k + 1;
    }
    assert g.rooms[..k] == g.rooms;
  }

  /** `Compute`: the per-user actions, grouped. */
  method Compute(state: CurrentState, p: Policy, sha512: Hash, random: Randomness) returns (r: Result<State, string>)
    ensures r == Planned(state, p, sha512, random)
  {
    var computedActions := ComputeAllUserChanges(state, p, sha512, random);
    var grouping := GroupSetPowerActions(computedActions);
    if grouping.Err? {
      return Err(grouping.error);
    }
    GroupAllValid(computedActions);
    var groupedActions := EmitGroupedActions(grouping.value);
    return Ok(State(groupedActions));
  }
}
