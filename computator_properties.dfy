/** What the reconciliation planner promises (corporal/reconciliation/computator/computator.go):
    the order of each user's actions, which actions each kind of user gets, the room-membership
    rules, and the grouping of the power-level actions. */
module ComputatorProperties {
  import opened Wrappers
  import opened Json
  import opened Hex
  import opened Policies
  import opened ConnectorState
  import opened ReconciliationState
  import opened Computator
  import Avatars

  /** The phase an action belongs to: activation, display name, avatar, room membership. */
  function Stage(a: StateAction): nat
  {
    if a.actionType == ActionUserCreate || a.actionType == ActionUserActivate || a.actionType == ActionUserDeactivate then 0
    else if a.actionType == ActionUserSetDisplayName then 1
    else if a.actionType == ActionUserSetAvatar then 2
    else 3
  }

  predicate InStageOrder(actions: seq<StateAction>)
  {
    forall i, j :: 0 <= i < j < |actions| ==> Stage(actions[i]) <= Stage(actions[j])
  }

  /** A membership action on one of the managed rooms, for the user `userId`. */
  predicate ManagedRoomAction(a: StateAction, userId: string, managedRoomIds: seq<string>)
  {
    && (a.actionType == ActionRoomJoin || a.actionType == ActionRoomUserSetPowerLevel || a.actionType == ActionRoomLeave)
    && "roomId" in a.payload && a.payload["roomId"].JStr? && a.payload["roomId"].s in managedRoomIds
    && "userId" in a.payload && a.payload["userId"] == JStr(userId)
    && (IsSetPower(a) ==> WellFormedSetPower(a))
  }

  /** The user is currently in a room with that id. */
  predicate JoinedNow(roomId: string, current: seq<CurrentUserRoomState>)
  {
    exists i :: 0 <= i < |current| && current[i].roomId == roomId
  }

  /** Every action of `s` is in a phase from `lo` to `hi`. */
  predicate StagesWithin(s: seq<StateAction>, lo: nat, hi: nat)
  {
    forall a :: a in s ==> lo <= Stage(a) <= hi
  }

  lemma ConcatInStageOrder(x: seq<StateAction>, y: seq<StateAction>, lo: nat, mid: nat, hi: nat)
    requires InStageOrder(x) && InStageOrder(y)
    requires lo <= mid <= hi && StagesWithin(x, lo, mid) && StagesWithin(y, mid, hi)
    ensures InStageOrder(x + y) && StagesWithin(x + y, lo, hi)
  {
    forall i, j | 0 <= i < j < |x + y|
      ensures Stage((x + y)[i]) <= Stage((x + y)[j])
    {
      if j < |x| {
        assert (x + y)[i] == x[i] && (x + y)[j] == x[j];
      } else if i >= |x| {
        assert (x + y)[i] == y[i - |x|] && (x + y)[j] == y[j - |x|];
      } else {
        assert (x + y)[i] in x && (x + y)[j] in y;
      }
    }
  }

  // Room membership.

  /** The actions for the policy's rooms are joins and set-power actions on managed rooms, for
      the user; every set-power action among them can be read back. */
  lemma {:induction false} PolicyRoomActionsTouchManagedRooms(userId: string, cur: Option<CurrentUserState>, rooms: seq<JoinedRoom>, managedRoomIds: seq<string>)
    ensures forall a :: a in PolicyRoomActions(userId, cur, rooms, managedRoomIds) ==>
              ManagedRoomAction(a, userId, managedRoomIds) && a.actionType != ActionRoomLeave
    decreases |rooms|
  {
    if rooms != [] {
      PolicyRoomActionsTouchManagedRooms(userId, cur, rooms[..|rooms| - 1], managedRoomIds);
    }
  }

  /** The leaves are leave actions on managed rooms, for the user. */
  lemma {:induction false} LeaveActionsTouchManagedRooms(userId: string, current: seq<CurrentUserRoomState>, rooms: seq<JoinedRoom>, managedRoomIds: seq<string>)
    ensures forall a :: a in LeaveActions(userId, current, rooms, managedRoomIds) ==>
              ManagedRoomAction(a, userId, managedRoomIds) && a == LeaveAction(userId, a.payload["roomId"].s)
    decreases |current|
  {
    if current != [] {
      LeaveActionsTouchManagedRooms(userId, current[..|current| - 1], rooms, managedRoomIds);
    }
  }

  /** Rooms outside `ManagedRoomIds` are never touched, whether the policy lists them or the user
      is in them: every room action is a membership action on a managed room, for the user. */
  lemma RoomChangesTouchManagedRoomsOnly(userId: string, cur: Option<CurrentUserState>, u: UserPolicy, managedRoomIds: seq<string>)
    ensures forall a :: a in RoomChanges(userId, cur, u, managedRoomIds) ==> ManagedRoomAction(a, userId, managedRoomIds)
  {
    PolicyRoomActionsTouchManagedRooms(userId, cur, u.joinedRooms, managedRoomIds);
    if cur.Some? {
      LeaveActionsTouchManagedRooms(userId, cur.value.joinedRooms, u.joinedRooms, managedRoomIds);
    }
  }

  lemma {:induction false} PolicyRoomActionsAppend(userId: string, cur: Option<CurrentUserState>, a: seq<JoinedRoom>, b: seq<JoinedRoom>, managedRoomIds: seq<string>)
    ensures PolicyRoomActions(userId, cur, a + b, managedRoomIds)
            == PolicyRoomActions(userId, cur, a, managedRoomIds) + PolicyRoomActions(userId, cur, b, managedRoomIds)
    decreases |b|
  {
    if b == [] {
      assert a + b == a;
    } else {
      var b' := b[..|b| - 1];
      assert (a + b)[..|a + b| - 1] == a + b';
      assert (a + b)[|a + b| - 1] == b[|b| - 1];
      PolicyRoomActionsAppend(userId, cur, a, b', managedRoomIds);
    }
  }

  /** Each policy room contributes its own actions in place, after those of the rooms before it:
      nothing for an unmanaged room; a join immediately followed by a set-power action to the
      policy's level when the user is not in the room; only the set-power action when the first
      current entry for the room has another level; nothing when it has the policy's level. */
  lemma PolicyRoomOutcome(userId: string, cur: Option<CurrentUserState>, rooms: seq<JoinedRoom>, managedRoomIds: seq<string>, i: nat)
    requires i < |rooms|
    ensures var room := rooms[i];
            var here := RoomActions(userId, cur, room, managedRoomIds);
            && PolicyRoomActions(userId, cur, rooms, managedRoomIds)
               == PolicyRoomActions(userId, cur, rooms[..i], managedRoomIds) + here + PolicyRoomActions(userId, cur, rooms[i + 1..], managedRoomIds)
            && (room.roomId !in managedRoomIds ==> here == [])
            && (room.roomId in managedRoomIds && (cur.None? || !JoinedNow(room.roomId, cur.value.joinedRooms)) ==>
                  here == [JoinAction(userId, room.roomId), SetPowerAction(userId, room.roomId, room.powerLevel)])
  {
    var room := rooms[i];
    assert rooms == rooms[..i] + [room] + rooms[i + 1..];
    PolicyRoomActionsAppend(userId, cur, rooms[..i] + [room], rooms[i + 1..], managedRoomIds);
    PolicyRoomActionsAppend(userId, cur, rooms[..i], [room], managedRoomIds);
    assert PolicyRoomActions(userId, cur, [room], managedRoomIds) == RoomActions(userId, cur, room, managedRoomIds) by {
      assert [room][..0] == [];
    }
    if cur.Some? && !JoinedNow(room.roomId, cur.value.joinedRooms) {
      assert FirstRoomIndex(cur.value.joinedRooms, room.roomId, 0).None?;
    }
  }

  /** The policy's level is compared with the first current entry for the room. */
  lemma MemberRoomOutcome(userId: string, cur: Option<CurrentUserState>, room: JoinedRoom, managedRoomIds: seq<string>, k: nat)
    requires room.roomId in managedRoomIds && cur.Some?
    requires k < |cur.value.joinedRooms| && cur.value.joinedRooms[k].roomId == room.roomId
    requires forall j :: 0 <= j < k ==> cur.value.joinedRooms[j].roomId != room.roomId
    ensures var here := RoomActions(userId, cur, room, managedRoomIds);
            && (cur.value.joinedRooms[k].powerLevel != room.powerLevel ==> here == [SetPowerAction(userId, room.roomId, room.powerLevel)])
            && (cur.value.joinedRooms[k].powerLevel == room.powerLevel ==> here == [])
  {
    var f := FirstRoomIndex(cur.value.joinedRooms, room.roomId, 0);
    assert f == Some(k);
  }

  /** A leave is planned for a room exactly when the user is in it now, it is managed and the
      policy does not list it. */
  lemma {:induction false} LeaveIffDropped(userId: string, current: seq<CurrentUserRoomState>, rooms: seq<JoinedRoom>, managedRoomIds: seq<string>, x: string)
    ensures LeaveAction(userId, x) in LeaveActions(userId, current, rooms, managedRoomIds)
            <==> (JoinedNow(x, current) && x in managedRoomIds && !InPolicyRooms(x, rooms))
    decreases |current|
  {
    if current != [] {
      var prefix := current[..|current| - 1];
      var last := current[|current| - 1];
      LeaveIffDropped(userId, prefix, rooms, managedRoomIds, x);
      assert JoinedNow(x, current) <==> (JoinedNow(x, prefix) || last.roomId == x) by {
        if JoinedNow(x, current) {
          var i :| 0 <= i < |current| && current[i].roomId == x;
          if i < |prefix| {
            assert prefix[i] == current[i];
          }
        }
        if JoinedNow(x, prefix) {
          var i :| 0 <= i < |prefix| && prefix[i].roomId == x;
          assert current[i] == prefix[i];
        }
      }
      assert LeaveAction(userId, x) == LeaveAction(userId, last.roomId) ==> x == last.roomId by {
        if LeaveAction(userId, x) == LeaveAction(userId, last.roomId) {
          assert LeaveAction(userId, x).payload["roomId"] == LeaveAction(userId, last.roomId).payload["roomId"];
        }
      }
    }
  }

  /** Every currently joined managed room that the policy does not list gets a `room.leave`, and
      no other room does. */
  lemma RoomLeaveIffDropped(userId: string, cur: Option<CurrentUserState>, u: UserPolicy, managedRoomIds: seq<string>, x: string)
    ensures LeaveAction(userId, x) in RoomChanges(userId, cur, u, managedRoomIds)
            <==> (cur.Some? && JoinedNow(x, cur.value.joinedRooms) && x in managedRoomIds && !InPolicyRooms(x, u.joinedRooms))
  {
    PolicyRoomActionsTouchManagedRooms(userId, cur, u.joinedRooms, managedRoomIds);
    assert LeaveAction(userId, x) !in PolicyRoomActions(userId, cur, u.joinedRooms, managedRoomIds);
    if cur.Some? {
      LeaveIffDropped(userId, cur.value.joinedRooms, u.joinedRooms, managedRoomIds, x);
    }
  }

  // The actions of one user.

  lemma UniformStageInOrder(s: seq<StateAction>, n: nat)
    requires StagesWithin(s, n, n)
    ensures InStageOrder(s)
  {
    forall i, j | 0 <= i < j < |s|
      ensures Stage(s[i]) <= Stage(s[j])
    {
      assert s[i] in s && s[j] in s;
    }
  }

  lemma MembershipStage(a: StateAction)
    requires a.actionType == ActionRoomJoin || a.actionType == ActionRoomUserSetPowerLevel || a.actionType == ActionRoomLeave
    ensures Stage(a) == 3
  {
  }

  lemma RoomChangesStage(userId: string, cur: Option<CurrentUserState>, u: UserPolicy, managedRoomIds: seq<string>)
    ensures StagesWithin(RoomChanges(userId, cur, u, managedRoomIds), 3, 3)
  {
    RoomChangesTouchManagedRoomsOnly(userId, cur, u, managedRoomIds);
    forall a | a in RoomChanges(userId, cur, u, managedRoomIds)
      ensures Stage(a) == 3
    {
      MembershipStage(a);
    }
  }

  /** The activation actions of an active user: a creation or an activation. */
  lemma ActiveUserActivationStage(userId: string, cur: Option<CurrentUserState>, p: Policy, u: UserPolicy, random: Randomness)
    requires u.active
    ensures StagesWithin(ActivationChanges(userId, cur, p, u, random), 0, 0)
  {
    if cur.Some? {
      assert ActivationChanges(userId, cur, p, u, random) == (if cur.value.active then [] else [ActivateAction(u.id)]);
    }
  }

  lemma ProfileStages(cur: Option<CurrentUserState>, p: Policy, u: UserPolicy, sha512: Hash)
    ensures StagesWithin(DisplayNameChanges(cur, p, u), 1, 1)
    ensures StagesWithin(AvatarChanges(cur, p, u, sha512), 2, 2)
  {
  }

  /** An active user's actions come in phase order: activation, display name, avatar, then the
      rooms. */
  lemma ActiveUserActionsInStageOrder(userId: string, cur: Option<CurrentUserState>, p: Policy, u: UserPolicy, sha512: Hash, random: Randomness)
    requires u.active
    ensures InStageOrder(UserChanges(userId, cur, p, u, sha512, random))
  {
    ActiveUserActivationStage(userId, cur, p, u, random);
    ProfileStages(cur, p, u, sha512);
    RoomChangesStage(userId, cur, u, p.managedRoomIds);
    FourPhases(ActivationChanges(userId, cur, p, u, random), DisplayNameChanges(cur, p, u),
               AvatarChanges(cur, p, u, sha512), RoomChanges(userId, cur, u, p.managedRoomIds));
  }

  lemma FourPhases(activation: seq<StateAction>, name: seq<StateAction>, avatar: seq<StateAction>, rooms: seq<StateAction>)
    requires StagesWithin(activation, 0, 0) && StagesWithin(name, 1, 1) && StagesWithin(avatar, 2, 2) && StagesWithin(rooms, 3, 3)
    ensures InStageOrder(activation + (name + avatar + rooms))
  {
    UniformStageInOrder(activation, 0);
    UniformStageInOrder(name, 1);
    UniformStageInOrder(avatar, 2);
    UniformStageInOrder(rooms, 3);
    ConcatInStageOrder(name, avatar, 1, 1, 2);
    ConcatInStageOrder(name + avatar, rooms, 1, 2, 3);
    ConcatInStageOrder(activation, name + avatar + rooms, 0, 0, 3);
  }

  /** A policy-active user the homeserver does not know is created first, with the policy's
      credential as password when authentication is passed through to the homeserver and 128
      random hex characters otherwise; a policy-inactive one gets no action at all. */
  lemma NewUserActions(userId: string, p: Policy, u: UserPolicy, sha512: Hash, random: Randomness)
    ensures var r := UserChanges(userId, None, p, u, sha512, random);
            && (!u.active ==> r == [])
            && (u.active ==> |r| >= 1 && r[0] == CreateAction(u.id, InitialPassword(u, random)))
            && (u.active && u.authType == UserAuthTypePassthrough ==> r[0].payload["password"] == JStr(u.authCredential))
            && (u.active && u.authType != UserAuthTypePassthrough ==>
                  r[0].payload["password"].JStr? && |r[0].payload["password"].s| == 128 && IsLowerHex(r[0].payload["password"].s))
  {
  }

  /** A policy-inactive user the homeserver knows only leaves and joins rooms, then is
      deactivated if it is active now; it never gets a name, avatar, creation or activation. */
  lemma InactiveUserActions(userId: string, cur: Option<CurrentUserState>, p: Policy, u: UserPolicy, sha512: Hash, random: Randomness)
    requires cur.Some? && !u.active
    ensures var r := UserChanges(userId, cur, p, u, sha512, random);
            && r == RoomChanges(userId, cur, u, p.managedRoomIds) + (if cur.value.active then [DeactivateAction(u.id)] else [])
            && forall a :: a in r ==> a.actionType !in {ActionUserSetDisplayName, ActionUserSetAvatar, ActionUserCreate, ActionUserActivate}
  {
    RoomChangesTouchManagedRoomsOnly(userId, cur, u, p.managedRoomIds);
  }

  /** For a user the homeserver knows, activation follows the difference of the two flags: an
      activation exactly when it is inactive now and active in the policy, a deactivation exactly
      when it is the other way round, and never a creation. */
  lemma ExistingUserActivation(userId: string, cur: Option<CurrentUserState>, p: Policy, u: UserPolicy, sha512: Hash, random: Randomness)
    requires cur.Some?
    ensures var r := UserChanges(userId, cur, p, u, sha512, random);
            && (ActivateAction(u.id) in r <==> !cur.value.active && u.active)
            && (DeactivateAction(u.id) in r <==> cur.value.active && !u.active)
            && (forall a :: a in r ==> a.actionType != ActionUserCreate)
            && (!cur.value.active && u.active ==> r[0] == ActivateAction(u.id))
  {
    RoomChangesTouchManagedRoomsOnly(userId, cur, u, p.managedRoomIds);
    var r := UserChanges(userId, cur, p, u, sha512, random);
    assert forall a :: a in DisplayNameChanges(cur, p, u) + AvatarChanges(cur, p, u, sha512) ==>
                      a.actionType == ActionUserSetDisplayName || a.actionType == ActionUserSetAvatar;
  }

  /** With custom avatars forbidden, an avatar set from `source` is replaced exactly when the
      SHA-512 digests of `source` and of the policy's URI differ. */
  lemma LockedAvatarFollowsPolicy(cur: Option<CurrentUserState>, p: Policy, u: UserPolicy, sha512: Hash, source: string)
    requires cur.Some? && !p.flags.allowCustomUserAvatars
    requires cur.value.avatarSourceUriHash == Avatars.UriHash(source, sha512)
    ensures AvatarChanges(cur, p, u, sha512) != [] <==> sha512(source) != sha512(u.avatarUri)
  {
    Avatars.UriHashesDistinguishUris(source, u.avatarUri, sha512);
  }

  // The grouping of the power-level actions.

  /** The actions other than the per-user power-level ones, in their order. */
  function NonPowerActions(actions: seq<StateAction>): (r: seq<StateAction>)
    ensures forall a :: a in r ==> a in actions && !IsSetPower(a)
    decreases |actions|
  {
    if actions == [] then []
    else
      var last := actions[|actions| - 1];
      NonPowerActions(actions[..|actions| - 1]) + (if IsSetPower(last) then [] else [last])
  }

  /** The rooms named by the readable power-level actions. */
  function PowerRooms(actions: seq<StateAction>): set<string>
    decreases |actions|
  {
    if actions == [] then {}
    else
      var last := actions[|actions| - 1];
      PowerRooms(actions[..|actions| - 1])
      + (if IsSetPower(last) && WellFormedSetPower(last) then {GetStringPayloadDataByKey(last, "roomId").value} else {})
  }

  /** The level the last power-level action for that room and user sets, if any does. */
  function LastPower(actions: seq<StateAction>, roomId: string, userId: string): Option<int>
    decreases |actions|
  {
    if actions == [] then None
    else
      var last := actions[|actions| - 1];
      if IsSetPower(last) && WellFormedSetPower(last) && GetStringPayloadDataByKey(last, "roomId").value == roomId
         && GetStringPayloadDataByKey(last, "userId").value == userId
      then Some(GetIntPayloadDataByKey(last, "powerLevel").value)
      else LastPower(actions[..|actions| - 1], roomId, userId)
  }

  lemma {:induction false} LastPowerNamesPowerRoom(actions: seq<StateAction>, roomId: string, userId: string)
    ensures LastPower(actions, roomId, userId).Some? ==> roomId in PowerRooms(actions)
    decreases |actions|
  {
    if actions != [] {
      LastPowerNamesPowerRoom(actions[..|actions| - 1], roomId, userId);
    }
  }

  /** Every readable power-level action names one of the power rooms. */
  lemma {:induction false} SetPowerNamesPowerRoom(actions: seq<StateAction>, k: nat) returns (roomId: string)
    requires k < |actions| && IsSetPower(actions[k]) && WellFormedSetPower(actions[k])
    ensures roomId == GetStringPayloadDataByKey(actions[k], "roomId").value && roomId in PowerRooms(actions)
    decreases |actions|
  {
    roomId := GetStringPayloadDataByKey(actions[k], "roomId").value;
    if k < |actions| - 1 {
      var prefix := actions[..|actions| - 1];
      assert prefix[k] == actions[k];
      roomId := SetPowerNamesPowerRoom(prefix, k);
    }
  }

  /** The grouping fails exactly when some power-level action has a payload value that cannot be
      read. */
  lemma {:induction false} GroupAllOkIff(actions: seq<StateAction>)
    ensures GroupAll(actions).Ok? <==> forall k :: 0 <= k < |actions| && IsSetPower(actions[k]) ==> WellFormedSetPower(actions[k])
    decreases |actions|
  {
    if actions != [] {
      var prefix := actions[..|actions| - 1];
      GroupAllOkIff(prefix);
      assert forall k :: 0 <= k < |prefix| ==> prefix[k] == actions[k];
    }
  }

  /** A failing grouping reports the error of the first such action. */
  lemma {:induction false} GroupAllFailsAtFirst(actions: seq<StateAction>) returns (k: nat)
    requires GroupAll(actions).Err?
    ensures k < |actions| && IsSetPower(actions[k]) && !WellFormedSetPower(actions[k])
    ensures forall j :: 0 <= j < k ==> !IsSetPower(actions[j]) || WellFormedSetPower(actions[j])
    ensures GroupAll(actions).error == StepError(actions[k])
    decreases |actions|
  {
    var prefix := actions[..|actions| - 1];
    if GroupAll(prefix).Err? {
      k := GroupAllFailsAtFirst(prefix);
      assert prefix[k] == actions[k];
      assert forall j :: 0 <= j < k ==> prefix[j] == actions[j];
    } else {
      k := |actions| - 1;
      GroupAllOkIff(prefix);
      assert forall j :: 0 <= j < k ==> prefix[j] == actions[j];
    }
  }

  /** What the grouping gathers: the other actions in order, each room of a power-level action
      once, and for each room and user the level of the last action for them. */
  lemma {:induction false} GroupAllGathers(actions: seq<StateAction>)
    requires GroupAll(actions).Ok?
    ensures var g := GroupAll(actions).value;
            && g.others == NonPowerActions(actions)
            && (forall x :: x in g.powers <==> x in PowerRooms(actions))
            && (forall x, u :: x in g.powers ==> (u in g.powers[x] <==> LastPower(actions, x, u).Some?))
            && (forall x, u :: x in g.powers && u in g.powers[x] ==> g.powers[x][u] == LastPower(actions, x, u).value)
    decreases |actions|
  {
    if actions != [] {
      var prefix := actions[..|actions| - 1];
      var last := actions[|actions| - 1];
      GroupAllGathers(prefix);
      GroupAllValid(prefix);
      if IsSetPower(last) {
        var roomId := GetStringPayloadDataByKey(last, "roomId").value;
        forall u | LastPower(prefix, roomId, u).Some?
          ensures roomId in PowerRooms(prefix)
        {
          LastPowerNamesPowerRoom(prefix, roomId, u);
        }
      }
    }
  }

  /** The grouped plan: the other actions keep their order and come first, then exactly one
      `room.users_set_power_levels` action per room that had a power-level action, mapping each
      user to the level of the last such action for them; no per-user power-level action is left. */
  lemma GroupedPlanShape(actions: seq<StateAction>) returns (rooms: seq<string>, powers: map<string, map<string, int>>)
    requires GroupAll(actions).Ok?
    ensures forall x :: x in rooms <==> x in powers
    ensures GroupPowerLevels(actions) == Ok(NonPowerActions(actions) + EmitRooms(rooms, powers))
    ensures forall i, j :: 0 <= i < j < |rooms| ==> rooms[i] != rooms[j]
    ensures forall x :: x in rooms <==> x in PowerRooms(actions)
    ensures forall x, u :: x in powers ==> (u in powers[x] <==> LastPower(actions, x, u).Some?)
    ensures forall x, u :: x in powers && u in powers[x] ==> powers[x][u] == LastPower(actions, x, u).value
    ensures forall a :: a in GroupPowerLevels(actions).value ==> !IsSetPower(a)
  {
    var g := GroupAll(actions).value;
    GroupAllGathers(actions);
    GroupAllValid(actions);
    rooms, powers := g.rooms, g.powers;
    var emitted := EmitRooms(rooms, powers);
    assert forall a :: a in emitted ==> a.actionType == ActionRoomUsersSetPowerLevels;
  }

  /** Every action the planner itself produces for a user is readable by the grouping. */
  lemma UserChangesReadable(userId: string, cur: Option<CurrentUserState>, p: Policy, u: UserPolicy, sha512: Hash, random: Randomness)
    ensures forall a :: a in UserChanges(userId, cur, p, u, sha512, random) ==> (IsSetPower(a) ==> WellFormedSetPower(a))
  {
    RoomChangesTouchManagedRoomsOnly(userId, cur, u, p.managedRoomIds);
  }

  lemma {:induction false} ComputedActionsReadable(state: CurrentState, p: Policy, users: seq<UserPolicy>, sha512: Hash, random: Randomness)
    ensures forall a :: a in ComputedActions(state, p, users, sha512, random) ==> (IsSetPower(a) ==> WellFormedSetPower(a))
    decreases |users|
  {
    if users != [] {
      var u := users[|users| - 1];
      ComputedActionsReadable(state, p, users[..|users| - 1], sha512, random);
      UserChangesReadable(u.id, GetUserStateByUserId(state, u.id), p, u, sha512, random);
    }
  }

  /** The planner never fails on its own actions: `Compute` always returns a plan. */
  lemma PlanAlwaysComputed(state: CurrentState, p: Policy, sha512: Hash, random: Randomness)
    ensures Planned(state, p, sha512, random).Ok?
  {
    var actions := ComputedActions(state, p, p.users, sha512, random);
    ComputedActionsReadable(state, p, p.users, sha512, random);
    GroupAllOkIff(actions);
  }
}
