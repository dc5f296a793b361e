/** The policy document (corporal/policy/policy.go): global flags, hooks, the managed communities
    and rooms, and one user policy per managed user. */
module Policies {
  import opened Wrappers
  import opened Hooks

  /** Global flags. The encrypted-room flags and `allow3pidLogin` are read by the checker and the
      login interceptor of the same code base, so they are declared here as well. */
  datatype PolicyFlags = PolicyFlags(
    allowCustomUserDisplayNames: bool,
    allowCustomUserAvatars: bool,
    allowCustomPassthroughUserPasswords: bool,
    forbidRoomCreation: bool,
    forbidEncryptedRoomCreation: bool,
    forbidUnencryptedRoomCreation: bool,
    allow3pidLogin: bool)

  /** A room a user should be in, with the power level the reconciler reads. */
  datatype JoinedRoom = JoinedRoom(roomId: string, powerLevel: int)

  datatype UserPolicy = UserPolicy(
    id: string,
    active: bool,
    authType: string,
    authCredential: string,
    displayName: string,
    avatarUri: string,
    joinedCommunityIds: seq<string>,
    joinedRoomIds: seq<string>,
    joinedRooms: seq<JoinedRoom>,
    forbidRoomCreation: Option<bool>,
    forbidEncryptedRoomCreation: Option<bool>,
    forbidUnencryptedRoomCreation: Option<bool>)

  datatype Policy = Policy(
    schemaVersion: int,
    flags: PolicyFlags,
    hooks: seq<Hook>,
    managedCommunityIds: seq<string>,
    managedRoomIds: seq<string>,
    users: seq<UserPolicy>)

  const UserAuthTypePassthrough := "passthrough"

  /** `GetManagedUserIds`: the ids of the user policies, in order. */
  function GetManagedUserIds(p: Policy): (ids: seq<string>)
    ensures |ids| == |p.users|
    ensures forall i :: 0 <= i < |ids| ==> ids[i] == p.users[i].id
  {
    UserIds(p.users)
  }

  function UserIds(users: seq<UserPolicy>): (ids: seq<string>)
    ensures |ids| == |users|
    ensures forall i :: 0 <= i < |ids| ==> ids[i] == users[i].id
    decreases |users|
  {
    if users == [] then [] else [users[0].id] + UserIds(users[1..])
  }

  /** The position of the first user policy with exactly that id, if any. */
  function FirstUserIndex(users: seq<UserPolicy>, userId: string): (k: Option<nat>)
    ensures k.None? <==> forall i :: 0 <= i < |users| ==> users[i].id != userId
    ensures k.Some? ==> k.value < |users| && users[k.value].id == userId
    ensures k.Some? ==> forall j :: 0 <= j < k.value ==> users[j].id != userId
    decreases |users|
  {
    if users == [] then None
    else if users[0].id == userId then Some(0)
    else
      var rest := FirstUserIndex(users[1..], userId);
      if rest.None? then
        assert forall i :: 1 <= i < |users| ==> users[i].id == users[1..][i - 1].id;
        None
      else Some(rest.value + 1)
  }

  /** `GetUserPolicyByUserId`: the first user policy with that id, or None when there is none. */
  function GetUserPolicyByUserId(p: Policy, userId: string): (r: Option<UserPolicy>)
    ensures r.None? <==> forall i :: 0 <= i < |p.users| ==> p.users[i].id != userId
    ensures r.Some? ==> r.value.id == userId
    ensures r.Some? ==> exists k :: 0 <= k < |p.users| && p.users[k] == r.value
                                    && forall j :: 0 <= j < k ==> p.users[j].id != userId
  {
    var k := FirstUserIndex(p.users, userId);
    if k.None? then None else Some(p.users[k.value])
  }

  /** The user is managed: the policy has an entry for it. */
  predicate IsManaged(p: Policy, userId: string)
  {
    GetUserPolicyByUserId(p, userId).Some?
  }

  /** Every managed id finds its user policy. */
  lemma ManagedIdsResolve(p: Policy, i: nat)
    requires i < |GetManagedUserIds(p)|
    ensures GetUserPolicyByUserId(p, GetManagedUserIds(p)[i]).Some?
  {
  }

  /** With duplicate ids the earlier entry wins. */
  lemma FirstEntryWins(p: Policy, i: nat, j: nat)
    requires i < j < |p.users| && p.users[i].id == p.users[j].id
    requires forall k :: 0 <= k < i ==> p.users[k].id != p.users[i].id
    ensures GetUserPolicyByUserId(p, p.users[j].id) == Some(p.users[i])
  {
    var k := FirstUserIndex(p.users, p.users[i].id);
    assert k == Some(i);
  }
}
