/** Typed access to reconciliation action payloads (corporal/reconciliation/state.go). */
module ReconciliationState {
  import opened Wrappers
  import opened Json

  /** The action types (corporal/reconciliation/actions.go). */
  const ActionUserCreate := "user.create"
  const ActionUserSetDisplayName := "user.set_display_name"
  const ActionUserSetAvatar := "user.set_avatar"
  const ActionUserActivate := "user.activate"
  const ActionUserDeactivate := "user.deactivate"
  const ActionRoomJoin := "room.join"
  const ActionRoomLeave := "room.leave"
  const ActionRoomUserSetPowerLevel := "room.user_set_power_level"
  const ActionRoomUsersSetPowerLevels := "room.users_set_power_levels"

  const ActionTypes: seq<string> := [
    ActionUserCreate, ActionUserSetDisplayName, ActionUserSetAvatar, ActionUserActivate, ActionUserDeactivate,
    ActionRoomJoin, ActionRoomLeave, ActionRoomUserSetPowerLevel, ActionRoomUsersSetPowerLevels]

  /** The nine action types are pairwise different, so an action's type names one handler. */
  lemma ActionTypesDistinct()
    ensures forall i, j :: 0 <= i < j < |ActionTypes| ==> ActionTypes[i] != ActionTypes[j]
  {
    assert ActionUserSetAvatar[5] != ActionUserDeactivate[5];
    assert ActionUserActivate[5] != ActionUserDeactivate[5];
    assert ActionUserSetDisplayName[5] != ActionUserDeactivate[5];
  }

  /** A reconciliation action: its type and its payload. */
  datatype StateAction = StateAction(actionType: string, payload: map<string, Json>)

  datatype State = State(actions: seq<StateAction>)

  /** `GetPayloadDataByKey`: the value, or an error when the key is absent. */
  function GetPayloadDataByKey(a: StateAction, key: string): (r: Result<Json, string>)
    ensures r.Ok? <==> key in a.payload
    ensures r.Ok? ==> r.value == a.payload[key]
    ensures r.Err? ==> r.error == "missing " + key + " payload data"
  {
    if key in a.payload then Ok(a.payload[key]) else Err("missing " + key + " payload data")
  }

  /** `GetStringPayloadDataByKey`: present and a string, or an error. */
  function GetStringPayloadDataByKey(a: StateAction, key: string): (r: Result<string, string>)
    ensures r.Ok? <==> key in a.payload && a.payload[key].JStr?
    ensures r.Ok? ==> r.value == a.payload[key].s
    ensures key in a.payload && !a.payload[key].JStr? ==> r == Err("failed casting payload data for: " + key)
  {
    match GetPayloadDataByKey(a, key)
    case Err(msg) => Err(msg)
    case Ok(data) => if data.JStr? then Ok(data.s) else Err("failed casting payload data for: " + key)
  }

  /** `GetIntPayloadDataByKey`: present and an int, or an error; a float is not an int. */
  function GetIntPayloadDataByKey(a: StateAction, key: string): (r: Result<int, string>)
    ensures r.Ok? <==> key in a.payload && a.payload[key].JInt?
    ensures r.Ok? ==> r.value == a.payload[key].i
    ensures key in a.payload && !a.payload[key].JInt? ==> r == Err("failed casting payload data for: " + key)
  {
    match GetPayloadDataByKey(a, key)
    case Err(msg) => Err(msg)
    case Ok(data) => if data.JInt? then Ok(data.i) else Err("failed casting payload data for: " + key)
  }

  /** An integer payload value stored as a float is refused, whatever its value. */
  lemma FloatIsNotInt(a: StateAction, key: string, f: real)
    requires key in a.payload && a.payload[key] == JFloat(f)
    ensures GetIntPayloadDataByKey(a, key).Err?
    ensures GetPayloadDataByKey(a, key) == Ok(JFloat(f))
  {
  }
}
