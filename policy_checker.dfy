/** The permission predicates over a policy (corporal/policy/checker.go). Membership in a list is
    `IsStringInArray` (Util), which is exactly `in` on the list. */
module PolicyChecker {
  import opened Wrappers
  import opened Policies

  /** The three room-creation permissions share one shape: a user's own setting, when the user is
      managed and has one, overrides the global flag. */
  datatype RoomKind = AnyRoom | EncryptedRoom | UnencryptedRoom

  function UserForbids(u: UserPolicy, kind: RoomKind): Option<bool>
  {
    match kind
    case AnyRoom => u.forbidRoomCreation
    case EncryptedRoom => u.forbidEncryptedRoomCreation
    case UnencryptedRoom => u.forbidUnencryptedRoomCreation
  }

  function GlobalForbids(flags: PolicyFlags, kind: RoomKind): bool
  {
    match kind
    case AnyRoom => flags.forbidRoomCreation
    case EncryptedRoom => flags.forbidEncryptedRoomCreation
    case UnencryptedRoom => flags.forbidUnencryptedRoomCreation
  }

  predicate CanUserCreate(p: Policy, userId: string, kind: RoomKind)
  {
    var u := GetUserPolicyByUserId(p, userId);
    if u.Some? && UserForbids(u.value, kind).Some? then !UserForbids(u.value, kind).value
    else !GlobalForbids(p.flags, kind)
  }

  predicate CanUserCreateRoom(p: Policy, userId: string)
  {
    CanUserCreate(p, userId, AnyRoom)
  }

  predicate CanUserCreateEncryptedRoom(p: Policy, userId: string)
  {
    CanUserCreate(p, userId, EncryptedRoom)
  }

  predicate CanUserCreateUnencryptedRoom(p: Policy, userId: string)
  {
    CanUserCreate(p, userId, UnencryptedRoom)
  }

  /** The first user policy with that id decides when it has its own setting. */
  lemma {:induction false} UserSettingOverrides(p: Policy, userId: string, kind: RoomKind, k: nat)
    requires k < |p.users| && p.users[k].id == userId
    requires forall j :: 0 <= j < k ==> p.users[j].id != userId
    requires UserForbids(p.users[k], kind).Some?
    ensures CanUserCreate(p, userId, kind) == !UserForbids(p.users[k], kind).value
  {
    FirstIndexIsUnique(p, userId, k);
  }

  /** Without a user policy, or without the user's own setting, the global flag decides. */
  lemma {:induction false} GlobalFlagDecides(p: Policy, userId: string, kind: RoomKind)
    requires forall k :: 0 <= k < |p.users| && p.users[k].id == userId && (forall j :: 0 <= j < k ==> p.users[j].id != userId)
               ==> UserForbids(p.users[k], kind).None?
    ensures CanUserCreate(p, userId, kind) == !GlobalForbids(p.flags, kind)
  {
    var u := GetUserPolicyByUserId(p, userId);
    if u.Some? {
      var k :| 0 <= k < |p.users| && p.users[k] == u.value && forall j :: 0 <= j < k ==> p.users[j].id != userId;
      assert UserForbids(p.users[k], kind).None?;
    }
  }

  /** The entry the lookup answers with is the one at the first position holding that id. */
  lemma FirstIndexIsUnique(p: Policy, userId: string, k: nat)
    requires k < |p.users| && p.users[k].id == userId
    requires forall j :: 0 <= j < k ==> p.users[j].id != userId
    ensures GetUserPolicyByUserId(p, userId) == Some(p.users[k])
  {
    var i := FirstUserIndex(p.users, userId);
    assert i == Some(k);
  }

  /** Every user may send every event anywhere; hooks are the place to restrict this. */
  function CanUserSendEventToRoom(p: Policy, userId: string, eventType: string, roomId: string): (r: bool)
    ensures r
  {
    true
  }

  predicate CanUserChangeOwnMembershipStateInRoom(p: Policy, userId: string, roomId: string)
  {
    var u := GetUserPolicyByUserId(p, userId);
    u.None? || roomId !in u.value.joinedRoomIds
  }

  predicate CanUserLeaveRoom(p: Policy, userId: string, roomId: string)
  {
    CanUserChangeOwnMembershipStateInRoom(p, userId, roomId)
  }

  predicate CanUserChangeOwnMembershipStateInCommunity(p: Policy, userId: string, communityId: string)
  {
    var u := GetUserPolicyByUserId(p, userId);
    u.None? || communityId !in u.value.joinedCommunityIds
  }

  predicate CanUserLeaveCommunity(p: Policy, userId: string, communityId: string)
  {
    CanUserChangeOwnMembershipStateInCommunity(p, userId, communityId)
  }

  /** A managed user may not change membership of a room that user's first policy entry lists; every
      other change, and every change by an unmanaged user, is allowed. */
  lemma {:induction false} OwnRoomMembership(p: Policy, userId: string, roomId: string)
    ensures !CanUserChangeOwnMembershipStateInRoom(p, userId, roomId) <==>
              exists k :: 0 <= k < |p.users| && p.users[k].id == userId
                          && (forall j :: 0 <= j < k ==> p.users[j].id != userId)
                          && roomId in p.users[k].joinedRoomIds
    ensures !IsManaged(p, userId) ==> CanUserChangeOwnMembershipStateInRoom(p, userId, roomId)
  {
    var u := GetUserPolicyByUserId(p, userId);
    if u.Some? {
      var k :| 0 <= k < |p.users| && p.users[k] == u.value && forall j :: 0 <= j < k ==> p.users[j].id != userId;
      forall k' | 0 <= k' < |p.users| && p.users[k'].id == userId && (forall j :: 0 <= j < k' ==> p.users[j].id != userId)
        ensures k' == k
      {
        FirstIndexIsUnique(p, userId, k');
      }
    }
  }

  /** The community version is the same decision over the listed communities. */
  lemma {:induction false} OwnCommunityMembership(p: Policy, userId: string, communityId: string)
    ensures !CanUserChangeOwnMembershipStateInCommunity(p, userId, communityId) <==>
              exists k :: 0 <= k < |p.users| && p.users[k].id == userId
                          && (forall j :: 0 <= j < k ==> p.users[j].id != userId)
                          && communityId in p.users[k].joinedCommunityIds
    ensures !IsManaged(p, userId) ==> CanUserChangeOwnMembershipStateInCommunity(p, userId, communityId)
  {
    var u := GetUserPolicyByUserId(p, userId);
    if u.Some? {
      var k :| 0 <= k < |p.users| && p.users[k] == u.value && forall j :: 0 <= j < k ==> p.users[j].id != userId;
      forall k' | 0 <= k' < |p.users| && p.users[k'].id == userId && (forall j :: 0 <= j < k' ==> p.users[j].id != userId)
        ensures k' == k
      {
        FirstIndexIsUnique(p, userId, k');
      }
    }
  }

  /** Leaving is changing one's own membership. */
  lemma LeavingIsChangingOwnMembership(p: Policy, userId: string, id: string)
    ensures CanUserLeaveRoom(p, userId, id) == CanUserChangeOwnMembershipStateInRoom(p, userId, id)
    ensures CanUserLeaveCommunity(p, userId, id) == CanUserChangeOwnMembershipStateInCommunity(p, userId, id)
  {
  }

  function CanUserUseCustomDisplayName(p: Policy, userId: string): (r: bool)
    ensures r == p.flags.allowCustomUserDisplayNames
  {
    p.flags.allowCustomUserDisplayNames
  }

  function CanUserUseCustomAvatar(p: Policy, userId: string): (r: bool)
    ensures r == p.flags.allowCustomUserAvatars
  {
    p.flags.allowCustomUserAvatars
  }

  /** Custom names and avatars are global: every user gets the same answer. */
  lemma CustomProfileIsGlobal(p: Policy, a: string, b: string)
    ensures CanUserUseCustomDisplayName(p, a) == CanUserUseCustomDisplayName(p, b)
    ensures CanUserUseCustomAvatar(p, a) == CanUserUseCustomAvatar(p, b)
  {
  }
}
