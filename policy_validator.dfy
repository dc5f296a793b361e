/** Validation of a policy before it is used (corporal/policy/validator.go). The user policy's own
    `Validate` is not part of this model's sources, so it is a parameter. */
module PolicyValidator {
  import opened Wrappers
  import opened Regex
  import opened Hooks
  import opened Policies
  import MatrixUtil

  /** The first problem found, in the order the checks run. */
  datatype PolicyError =
    | UnsupportedSchemaVersion(version: int)
    | ForeignUser(userId: string)
    | InvalidUserPolicy(userId: string, index: nat, reason: string)
    | InvalidHook(index: nat, reason: string)

  /** The abstract `UserPolicy.Validate`: an error message, or None. */
  type UserPolicyValidation = UserPolicy -> Option<string>

  const SupportedSchemaVersion := 1

  /** The first managed id not hosted on the domain. */
  function FirstForeignUser(ids: seq<string>, domain: string): (r: Option<nat>)
    ensures r.None? <==> forall i :: 0 <= i < |ids| ==> MatrixUtil.IsFullUserIdOfDomain(ids[i], domain)
    ensures r.Some? ==> r.value < |ids| && !MatrixUtil.IsFullUserIdOfDomain(ids[r.value], domain)
                        && forall i :: 0 <= i < r.value ==> MatrixUtil.IsFullUserIdOfDomain(ids[i], domain)
    decreases |ids|
  {
    if ids == [] then None
    else if !MatrixUtil.IsFullUserIdOfDomain(ids[0], domain) then Some(0)
    else
      var rest := FirstForeignUser(ids[1..], domain);
      assert forall i :: 1 <= i < |ids| ==> ids[i] == ids[1..][i - 1];
      if rest.None? then None else Some(rest.value + 1)
  }

  /** The first user policy that fails its own validation. */
  function FirstInvalidUser(users: seq<UserPolicy>, validate: UserPolicyValidation): (r: Option<nat>)
    ensures r.None? <==> forall i :: 0 <= i < |users| ==> validate(users[i]).None?
    ensures r.Some? ==> r.value < |users| && validate(users[r.value]).Some?
                        && forall i :: 0 <= i < r.value ==> validate(users[i]).None?
    decreases |users|
  {
    if users == [] then None
    else if validate(users[0]).Some? then Some(0)
    else
      var rest := FirstInvalidUser(users[1..], validate);
      assert forall i :: 1 <= i < |users| ==> users[i] == users[1..][i - 1];
      if rest.None? then None else Some(rest.value + 1)
  }

  /** The first hook that fails `Hook.Validate`. */
  function FirstInvalidHook(e: Engine, hooks: seq<Hook>): (r: Option<nat>)
    ensures r.None? <==> forall i :: 0 <= i < |hooks| ==> Validate(e, hooks[i]).Pass?
    ensures r.Some? ==> r.value < |hooks| && Validate(e, hooks[r.value]).Fail?
                        && forall i :: 0 <= i < r.value ==> Validate(e, hooks[i]).Pass?
    decreases |hooks|
  {
    if hooks == [] then None
    else if Validate(e, hooks[0]).Fail? then Some(0)
    else
      var rest := FirstInvalidHook(e, hooks[1..]);
      assert forall i :: 1 <= i < |hooks| ==> hooks[i] == hooks[1..][i - 1];
      if rest.None? then None else Some(rest.value + 1)
  }

  /** `Validator.Validate` for the given homeserver domain. */
  function ValidatePolicy(e: Engine, validate: UserPolicyValidation, domain: string, p: Policy): (r: Outcome<PolicyError>)
    ensures p.schemaVersion != SupportedSchemaVersion ==> r == Fail(UnsupportedSchemaVersion(p.schemaVersion))
    ensures r.Fail? && r.error.ForeignUser? ==>
              p.schemaVersion == SupportedSchemaVersion
              && exists i :: 0 <= i < |p.users| && p.users[i].id == r.error.userId
                             && !MatrixUtil.IsFullUserIdOfDomain(r.error.userId, domain)
                             && forall j :: 0 <= j < i ==> MatrixUtil.IsFullUserIdOfDomain(p.users[j].id, domain)
    ensures r.Fail? && r.error.InvalidUserPolicy? ==>
              && p.schemaVersion == SupportedSchemaVersion
              && (forall i :: 0 <= i < |p.users| ==> MatrixUtil.IsFullUserIdOfDomain(p.users[i].id, domain))
              && r.error.index < |p.users| && p.users[r.error.index].id == r.error.userId
              && validate(p.users[r.error.index]) == Some(r.error.reason)
              && (forall i :: 0 <= i < r.error.index ==> validate(p.users[i]).None?)
    ensures r.Fail? && r.error.InvalidHook? ==>
              && p.schemaVersion == SupportedSchemaVersion
              && (forall i :: 0 <= i < |p.users| ==> MatrixUtil.IsFullUserIdOfDomain(p.users[i].id, domain))
              && (forall i :: 0 <= i < |p.users| ==> validate(p.users[i]).None?)
              && r.error.index < |p.hooks| && Validate(e, p.hooks[r.error.index]) == Fail(r.error.reason)
              && (forall i :: 0 <= i < r.error.index ==> Validate(e, p.hooks[i]).Pass?)
    ensures r.Pass? <==>
              && p.schemaVersion == SupportedSchemaVersion
              && (forall i :: 0 <= i < |p.users| ==> MatrixUtil.IsFullUserIdOfDomain(p.users[i].id, domain))
              && (forall i :: 0 <= i < |p.users| ==> validate(p.users[i]).None?)
              && (forall i :: 0 <= i < |p.hooks| ==> Validate(e, p.hooks[i]).Pass?)
  {
    if p.schemaVersion != SupportedSchemaVersion then Fail(UnsupportedSchemaVersion(p.schemaVersion))
    else
      var ids := GetManagedUserIds(p);
      var foreign := FirstForeignUser(ids, domain);
      if foreign.Some? then Fail(ForeignUser(ids[foreign.value]))
      else
        var invalidUser := FirstInvalidUser(p.users, validate);
        if invalidUser.Some? then
          var k := invalidUser.value;
          Fail(InvalidUserPolicy(p.users[k].id, k, validate(p.users[k]).value))
        else
          var invalidHook := FirstInvalidHook(e, p.hooks);
          if invalidHook.Some? then Fail(InvalidHook(invalidHook.value, Validate(e, p.hooks[invalidHook.value]).error))
          else Pass
  }

  /** The message the error is returned with. */
  function Message(err: PolicyError, domain: string, renderInt: int -> string): string
  {
    match err
    case UnsupportedSchemaVersion(v) => "Found policy with schema version (" + renderInt(v) + ") that we do not support"
    case ForeignUser(u) => "Policy user `" + u + "` is not hosted on the managed homeserver domain (" + domain + ")"
    case InvalidUserPolicy(u, k, reason) => "User policy validation for `" + u + "` (index " + renderInt(k) + ") failed: " + reason
    case InvalidHook(k, reason) => "Hook at index `" + renderInt(k) + "` is invalid: " + reason
  }

  /** A policy with a hook whose id is empty is refused, whatever else it holds, once the schema,
      the users and the earlier hooks are in order. */
  lemma {:induction false} HookWithoutIdIsRefused(e: Engine, validate: UserPolicyValidation, domain: string, p: Policy, k: nat)
    requires k < |p.hooks| && p.hooks[k].id == ""
    ensures ValidatePolicy(e, validate, domain, p).Fail?
  {
    assert Validate(e, p.hooks[k]).Fail?;
  }
}
