/** The homeserver's current state of the managed users (corporal/connector/state.go). */
module ConnectorState {
  import opened Wrappers

  datatype CurrentUserRoomState = CurrentUserRoomState(roomId: string, powerLevel: int)

  datatype CurrentUserState = CurrentUserState(
    id: string,
    active: bool,
    displayName: string,
    avatarMxcUri: string,
    avatarSourceUriHash: string,
    joinedRooms: seq<CurrentUserRoomState>)

  datatype CurrentState = CurrentState(users: seq<CurrentUserState>)

  /** `GetUserStateByUserId`: a copy of the first entry with that id, or None when there is none.
      The state is a value, so the copy cannot alias it. */
  function GetUserStateByUserId(state: CurrentState, userId: string): (r: Option<CurrentUserState>)
    ensures r.None? <==> forall i :: 0 <= i < |state.users| ==> state.users[i].id != userId
    ensures r.Some? ==> r.value.id == userId
    ensures r.Some? ==> exists k :: 0 <= k < |state.users| && state.users[k] == r.value
                                    && forall j :: 0 <= j < k ==> state.users[j].id != userId
    decreases |state.users|
  {
    if state.users == [] then None
    else if state.users[0].id == userId then Some(state.users[0])
    else
      var rest := GetUserStateByUserId(CurrentState(state.users[1..]), userId);
      if rest.None? then
        assert forall i :: 1 <= i < |state.users| ==> state.users[i] == state.users[1..][i - 1];
        None
      else
        var k :| 0 <= k < |state.users[1..]| && state.users[1..][k] == rest.value
                 && forall j :: 0 <= j < k ==> state.users[1..][j].id != userId;
        assert state.users[k + 1] == rest.value;
        assert forall j :: 1 <= j < k + 1 ==> state.users[j] == state.users[1..][j - 1];
        rest
  }

  /** Entries before the first one with the id do not matter, and neither do entries after it. */
  lemma {:induction false} LookupStopsAtFirst(before: seq<CurrentUserState>, found: CurrentUserState, after: seq<CurrentUserState>)
    requires forall i :: 0 <= i < |before| ==> before[i].id != found.id
    ensures GetUserStateByUserId(CurrentState(before + [found] + after), found.id) == Some(found)
    decreases |before|
  {
    if before == [] {
      assert (before + [found] + after)[0] == found;
    } else {
      assert (before + [found] + after)[1..] == before[1..] + [found] + after;
      LookupStopsAtFirst(before[1..], found, after);
    }
  }
}
