/** The Synapse password provider that delegates the password check to a REST endpoint and then
    brings the local account in line with the profile the endpoint returns
    (etc/services/rest_auth_provider.py). */
module RestAuthProvider {
  import opened Wrappers
  import opened Strings
  import opened Json

  // ---------------------------------------------------------------------------------------------
  // Configuration

  /** The parsed configuration. Python keeps whatever value the YAML holds, so each setting is a
      JSON value and is read through its truth value. */
  datatype RestConfig = RestConfig(
    endpoint: Json,
    regLower: Json,
    setNameOnRegister: Json,
    setNameOnLogin: Json,
    updateThreepid: Json,
    replaceThreepid: Json)

  const RegLowerPath := ["policy", "registration", "username", "enforceLowercase"]
  const SetNameOnRegisterPath := ["policy", "registration", "profile", "name"]
  const SetNameOnLoginPath := ["policy", "login", "profile", "name"]
  const UpdateThreepidPath := ["policy", "all", "threepid", "update"]
  const ReplaceThreepidPath := ["policy", "all", "threepid", "replace"]

  /** `_require_keys`' list of missing keys, in the order they are required. */
  function MissingKeys(config: map<string, Json>, required: seq<string>): (missing: seq<string>)
    ensures forall k :: k in missing <==> k in required && k !in config
    ensures |missing| <= |required|
  {
    if required == [] then []
    else (if required[0] in config then [] else [required[0]]) + MissingKeys(config, required[1..])
  }

  /** `", ".join(items)`. */
  function CommaJoined(items: seq<string>): string
  {
    if |items| == 0 then "" else if |items| == 1 then items[0] else items[0] + ", " + CommaJoined(items[1..])
  }

  /** `_require_keys`: an error naming the missing keys, or success when all are present. */
  function RequireKeys(config: map<string, Json>, required: seq<string>): (r: Outcome<string>)
    ensures r.Pass? <==> forall k :: k in required ==> k in config
    ensures r.Fail? ==> r.error == "REST Auth enabled but missing required config values: " + CommaJoined(MissingKeys(config, required))
  {
    var missing := MissingKeys(config, required);
    if missing == [] then Pass
    else
      assert missing[0] in missing;
      Fail("REST Auth enabled but missing required config values: " + CommaJoined(missing))
  }

  /** The value at `path` when every step is a dict that holds the key, else `default` (the
      KeyError and TypeError that `parse_config` swallows). */
  function Setting(config: map<string, Json>, path: seq<string>, default: Json): (v: Json)
    ensures Lookup(JObj(config), path).Some? ==> v == Lookup(JObj(config), path).value
    ensures Lookup(JObj(config), path).None? ==> v == default
  {
    match Lookup(JObj(config), path)
    case Some(v) => v
    case None => default
  }

  /** `parse_config`: starts from the defaults and overrides each setting whose full key path exists. */
  method ParseConfig(config: map<string, Json>) returns (r: Result<RestConfig, string>)
    ensures r.Err? <==> "endpoint" !in config
    ensures r.Err? ==> r.error == "REST Auth enabled but missing required config values: endpoint"
    ensures r.Ok? ==> r.value == RestConfig(
      config["endpoint"],
      Setting(config, RegLowerPath, JBool(true)),
      Setting(config, SetNameOnRegisterPath, JBool(true)),
      Setting(config, SetNameOnLoginPath, JBool(false)),
      Setting(config, UpdateThreepidPath, JBool(true)),
      Setting(config, ReplaceThreepidPath, JBool(false)))
  {
    var required := RequireKeys(config, ["endpoint"]);
    if required.Fail? {
      return Err(required.error);
    }
    var restConfig := RestConfig(JStr(""), JBool(true), JBool(true), JBool(false), JBool(true), JBool(false));
    restConfig := restConfig.(endpoint := config["endpoint"]);
    var v := Lookup(JObj(config), RegLowerPath);
    if v.Some? { restConfig := restConfig.(regLower := v.value); }
    v := Lookup(JObj(config), SetNameOnRegisterPath);
    if v.Some? { restConfig := restConfig.(setNameOnRegister := v.value); }
    v := Lookup(JObj(config), SetNameOnLoginPath);
    if v.Some? { restConfig := restConfig.(setNameOnLogin := v.value); }
    v := Lookup(JObj(config), UpdateThreepidPath);
    if v.Some? { restConfig := restConfig.(updateThreepid := v.value); }
    v := Lookup(JObj(config), ReplaceThreepidPath);
    if v.Some? { restConfig := restConfig.(replaceThreepid := v.value); }
    return Ok(restConfig);
  }

  /** Without a `policy` dict every setting keeps its default, whatever else the configuration
      holds. */
  lemma ParseConfigDefaults(config: map<string, Json>)
    requires "policy" !in config || !config["policy"].JObj?
    ensures Setting(config, RegLowerPath, JBool(true)) == JBool(true)
    ensures Setting(config, SetNameOnRegisterPath, JBool(true)) == JBool(true)
    ensures Setting(config, SetNameOnLoginPath, JBool(false)) == JBool(false)
    ensures Setting(config, UpdateThreepidPath, JBool(true)) == JBool(true)
    ensures Setting(config, ReplaceThreepidPath, JBool(false)) == JBool(false)
  {
    assert forall path :: |path| >= 2 && path[0] == "policy" ==> Lookup(JObj(config), path).None? by {
      forall path | |path| >= 2 && path[0] == "policy"
        ensures Lookup(JObj(config), path).None?
      {
        if "policy" in config {
          assert Lookup(JObj(config), path) == Lookup(config["policy"], path[1..]);
        }
      }
    }
  }

  /** A `policy` whose nested dicts hold a value at the end of a setting's path gives the setting
      that value, for every configuration and every default. */
  lemma ParseConfigOverride(config: map<string, Json>, path: seq<string>, v: Json, default: Json)
    requires |path| > 0
    ensures Setting(config[path[0] := Nest(path[1..], v)], path, default) == v
  {
    LookupNest(path, v);
    assert Lookup(JObj(config[path[0] := Nest(path[1..], v)]), path) == Lookup(Nest(path[1..], v), path[1..]);
  }

  // ---------------------------------------------------------------------------------------------
  // The account store (Synapse's account handler and profile store)

  /** A row of the homeserver's third-party-identifier table. */
  datatype ThreepidRecord = ThreepidRecord(userId: string, medium: string, address: string, validatedAt: int, addedAt: int)

  /** A (medium, address) pair as the provider compares them. */
  type Pair = (string, string)

  /** The calls the provider makes on the store, in the order it makes them. */
  datatype StoreCall =
    | CheckUserExists(userId: string)
    | Register(localpart: string)
    | SetProfileDisplayname(localpart: string, name: Json)
    | GetUserIdByThreepid(medium: string, address: string)
    | UserAddThreepid(userId: string, medium: string, address: string, validatedAt: int, addedAt: int)
    | UserGetThreepids(userId: string)
    | UserDeleteThreepid(userId: string, medium: string, address: string)

  /** The owner of the first row with exactly this medium and address. */
  function OwnerOf(records: seq<ThreepidRecord>, medium: string, address: string): (r: Option<string>)
    ensures r.None? <==> forall k :: 0 <= k < |records| ==> !(records[k].medium == medium && records[k].address == address)
    ensures r.Some? ==> exists k :: 0 <= k < |records| && records[k].medium == medium && records[k].address == address && records[k].userId == r.value
  {
    if records == [] then None
    else if records[0].medium == medium && records[0].address == address then Some(records[0].userId)
    else
      var rest := OwnerOf(records[1..], medium, address);
      assert forall k :: 1 <= k < |records| ==> records[k] == records[1..][k - 1];
      rest
  }

  /** The rows of one user, in table order. */
  function RecordsOf(records: seq<ThreepidRecord>, userId: string): (r: seq<ThreepidRecord>)
    ensures forall t :: t in r <==> t in records && t.userId == userId
  {
    if records == [] then []
    else (if records[0].userId == userId then [records[0]] else []) + RecordsOf(records[1..], userId)
  }

  /** The table without the rows of `userId` that have exactly this medium and address. */
  function Without(records: seq<ThreepidRecord>, userId: string, medium: string, address: string): (r: seq<ThreepidRecord>)
    ensures forall t :: t in r <==> t in records && !(t.userId == userId && t.medium == medium && t.address == address)
  {
    if records == [] then []
    else
      (if records[0].userId == userId && records[0].medium == medium && records[0].address == address then [] else [records[0]])
      + Without(records[1..], userId, medium, address)
  }

  /** The full user id the homeserver gives a newly registered localpart. */
  function CanonicalUserId(localpart: string, serverName: string): string
  {
    "@" + localpart + ":" + serverName
  }

  /** The store's contents together with the journal of calls received. */
  datatype StoreState = StoreState(
    users: set<string>,
    displayNames: map<string, Json>,
    threepids: seq<ThreepidRecord>,
    calls: seq<StoreCall>)
  {
    function Log(c: StoreCall): (s: StoreState)
      ensures s.calls == calls + [c]
      ensures s.users == users && s.displayNames == displayNames && s.threepids == threepids
    {
      this.(calls := calls + [c])
    }
  }

  class AccountStore {
    const serverName: string
    var users: set<string>
    var displayNames: map<string, Json>
    var threepids: seq<ThreepidRecord>
    ghost var calls: seq<StoreCall>

    ghost function State(): StoreState
      reads this
    {
      StoreState(users, displayNames, threepids, calls)
    }

    constructor (serverName: string, users: set<string>, displayNames: map<string, Json>, threepids: seq<ThreepidRecord>)
      ensures this.serverName == serverName
      ensures State() == StoreState(users, displayNames, threepids, [])
    {
      this.serverName := serverName;
      this.users := users;
      this.displayNames := displayNames;
      this.threepids := threepids;
      this.calls := [];
    }

    method CheckUserExistsCall(userId: string) returns (found: bool)
      modifies this
      ensures found <==> userId in old(users)
      ensures State() == old(State()).Log(CheckUserExists(userId))
    {
      calls := calls + [CheckUserExists(userId)];
      found := userId in users;
    }

    method RegisterCall(localpart: string) returns (userId: string)
      modifies this
      ensures userId == CanonicalUserId(localpart, serverName)
      ensures State() == old(State()).Log(Register(localpart)).(users := old(users) + {userId})
    {
      calls := calls + [Register(localpart)];
      userId := CanonicalUserId(localpart, serverName);
      users := users + {userId};
    }

    method SetProfileDisplaynameCall(localpart: string, name: Json)
      modifies this
      ensures State() == old(State()).Log(SetProfileDisplayname(localpart, name)).(displayNames := old(displayNames)[localpart := name])
    {
      calls := calls + [SetProfileDisplayname(localpart, name)];
      displayNames := displayNames[localpart := name];
    }

    method GetUserIdByThreepidCall(medium: string, address: string) returns (owner: Option<string>)
      modifies this
      ensures owner == OwnerOf(old(threepids), medium, address)
      ensures State() == old(State()).Log(GetUserIdByThreepid(medium, address))
    {
      calls := calls + [GetUserIdByThreepid(medium, address)];
      owner := OwnerOf(threepids, medium, address);
    }

    method UserAddThreepidCall(userId: string, medium: string, address: string, validatedAt: int, addedAt: int)
      modifies this
      ensures State() == old(State()).Log(UserAddThreepid(userId, medium, address, validatedAt, addedAt))
                         .(threepids := old(threepids) + [ThreepidRecord(userId, medium, address, validatedAt, addedAt)])
    {
      calls := calls + [UserAddThreepid(userId, medium, address, validatedAt, addedAt)];
      threepids := threepids + [ThreepidRecord(userId, medium, address, validatedAt, addedAt)];
    }

    method UserGetThreepidsCall(userId: string) returns (rows: seq<ThreepidRecord>)
      modifies this
      ensures rows == RecordsOf(old(threepids), userId)
      ensures State() == old(State()).Log(UserGetThreepids(userId))
    {
      calls := calls + [UserGetThreepids(userId)];
      rows := RecordsOf(threepids, userId);
    }

    method UserDeleteThreepidCall(userId: string, medium: string, address: string)
      modifies this
      ensures State() == old(State()).Log(UserDeleteThreepid(userId, medium, address))
                         .(threepids := Without(old(threepids), userId, medium, address))
    {
      calls := calls + [UserDeleteThreepid(userId, medium, address)];
      threepids := Without(threepids, userId, medium, address);
    }
  }

  // ---------------------------------------------------------------------------------------------
  // The remote verdict

  /** What `requests.post` produced: a connection failure, or a status and a body that may not be
      JSON. */
  datatype HttpReply = TransportFailure | HttpResponse(status: int, body: Option<Json>)

  /** Why `check_password` raised instead of answering. */
  datatype ProviderError =
    | ConnectionFailed
    | HttpStatusError(status: int)
    | InvalidJson
    | ReadFailure(cause: PyError)
    | RuntimeError(message: string)

  /** The remote's answer once it has been read: a refusal, or an acceptance carrying the `auth`
      object. */
  datatype Verdict = Rejected | Accepted(auth: Json)

  predicate IsErrorStatus(status: int)
  {
    400 <= status < 600
  }

  /** Reading the reply up to the success flag (lines 50-61). */
  function ReadVerdict(reply: HttpReply): (r: Result<Verdict, ProviderError>)
    ensures reply.TransportFailure? ==> r == Err(ConnectionFailed)
    ensures reply.HttpResponse? && IsErrorStatus(reply.status) ==> r == Err(HttpStatusError(reply.status))
    ensures reply.HttpResponse? && !IsErrorStatus(reply.status) && reply.body.None? ==> r == Err(InvalidJson)
    ensures (reply.HttpResponse? && !IsErrorStatus(reply.status) && reply.body.Some? && reply.body.value.JObj?
             && "auth" !in reply.body.value.fields) ==> r == Err(ReadFailure(KeyError("auth")))
    ensures r == Ok(Rejected) <==>
      reply.HttpResponse? && !IsErrorStatus(reply.status) && reply.body.Some?
      && Lookup(reply.body.value, ["auth"]).Some? && Truthy(Lookup(reply.body.value, ["auth"]).value)
      && Lookup(reply.body.value, ["auth", "success"]).Some? && !Truthy(Lookup(reply.body.value, ["auth", "success"]).value)
    ensures r.Ok? && r.value.Accepted? ==>
      reply.HttpResponse? && !IsErrorStatus(reply.status) && reply.body.Some?
      && Lookup(reply.body.value, ["auth"]) == Some(r.value.auth) && Truthy(r.value.auth)
      && Lookup(reply.body.value, ["auth", "success"]).Some? && Truthy(Lookup(reply.body.value, ["auth", "success"]).value)
  {
    match reply
    case TransportFailure => Err(ConnectionFailed)
    case HttpResponse(status, body) =>
      if IsErrorStatus(status) then Err(HttpStatusError(status))
      else if body.None? then Err(InvalidJson)
      else match PyIndex(body.value, "auth")
        case Err(e) => Err(ReadFailure(e))
        case Ok(auth) =>
          if !Truthy(auth) then Err(RuntimeError("Invalid JSON data returned from REST endpoint"))
          else match PyIndex(auth, "success")
            case Err(e) => Err(ReadFailure(e))
            case Ok(success) => if Truthy(success) then Ok(Accepted(auth)) else Ok(Rejected)
  }

  /** `user_id.split(":", 1)[0][1:]`: up to the first ':' with the first character dropped. */
  function Localpart(userId: string): string
  {
    DropFirst(BeforeFirst(userId, ':'))
  }

  /** The localpart of `@l:domain` is `l` whenever `l` has no ':'. */
  lemma LocalpartOfFullId(l: string, domain: string)
    requires ':' !in l
    ensures Localpart("@" + l + ":" + domain) == l
  {
    var u := "@" + l + ":" + domain;
    assert u[|l| + 1] == ':';
    assert u[..|l| + 1] == "@" + l;
    assert ':' !in u[..|l| + 1];
    assert forall j :: 0 <= j < |l| + 1 ==> u[j] != ':';
    var k := IndexOf(u, ':');
    assert k.Some? && k.value >= |l| + 1;
    forall j | 0 <= j < k.value ensures u[j] != ':' {
      assert u[..k.value][j] == u[j];
    }
  }

  lemma LocalpartExample()
    ensures Localpart("@bob:x") == "bob"
  {
    LocalpartOfFullId("bob", "x");
  }

  // ---------------------------------------------------------------------------------------------
  // Reading the profile

  /** `auth["profile"]` as written: a reply without the key raises KeyError. */
  function ProfileAsWritten(auth: Json): (r: Result<Json, ProviderError>)
    ensures auth.JObj? && "profile" !in auth.fields ==> r == Err(ReadFailure(KeyError("profile")))
    ensures auth.JObj? && "profile" in auth.fields ==> r == Ok(auth.fields["profile"])
  {
    match PyIndex(auth, "profile")
    case Ok(p) => Ok(p)
    case Err(e) => Err(ReadFailure(e))
  }

  /** The evidently intended reading: a reply without profile data is one with no profile to apply. */
  function ProfileIntended(auth: Json): (r: Result<Json, ProviderError>)
    ensures auth.JObj? && "profile" !in auth.fields ==> r == Ok(JNull)
    ensures auth.JObj? && "profile" in auth.fields ==> r == Ok(auth.fields["profile"])
    ensures auth.JObj? ==> r.Ok?
  {
    if auth.JObj? && "profile" !in auth.fields then Ok(JNull) else ProfileAsWritten(auth)
  }

  /** Python iteration over a decoded value, as far as the 3PID loop can use it. Iterating a dict
      or a string yields strings, and indexing the first one with "medium" raises TypeError before
      any store call, so both read as that TypeError unless empty. */
  function Elements(j: Json): (r: Result<seq<Json>, ProviderError>)
    ensures j.JArr? ==> r == Ok(j.items)
  {
    match j
    case JArr(xs) => Ok(xs)
    case JObj(m) => if |m| == 0 then Ok([]) else Err(ReadFailure(TypeError))
    case JStr(s) => if s == "" then Ok([]) else Err(ReadFailure(TypeError))
    case _ => Err(ReadFailure(TypeError))
  }

  /** `x[key].lower()`: the value must exist and be a string. */
  function LoweredField(x: Json, key: string): (r: Result<string, ProviderError>)
    ensures r.Ok? <==> x.JObj? && key in x.fields && x.fields[key].JStr?
    ensures r.Ok? ==> r.value == Lower(x.fields[key].s)
  {
    match PyIndex(x, key)
    case Err(e) => Err(ReadFailure(e))
    case Ok(v) => if v.JStr? then Ok(Lower(v.s)) else Err(ReadFailure(AttributeError))
  }

  /** The lowercased (medium, address) of one incoming 3PID, medium read first. */
  function ParseThreepid(item: Json): (r: Result<Pair, ProviderError>)
    ensures r.Ok? ==> r.value.0 == Lower(r.value.0) && r.value.1 == Lower(r.value.1)
  {
    match LoweredField(item, "medium")
    case Err(e) => Err(e)
    case Ok(medium) =>
      match LoweredField(item, "address")
      case Err(e) => Err(e)
      case Ok(address) =>
        LowerIdempotent(item.fields["medium"].s);
        LowerIdempotent(item.fields["address"].s);
        Ok((medium, address))
  }

  // ---------------------------------------------------------------------------------------------
  // The phases of check_password as state transitions

  /** The state reached by a phase, and the exception it ended with, if any. */
  datatype Step = Step(state: StoreState, failure: Option<ProviderError>)

  /** Lines 90-95: the display name is written under both the registration and the login rule. */
  function DisplayNameStep(c: RestConfig, s: StoreState, localpart: string, registered: bool, profile: Json): Step
  {
    match PyContains(profile, "display_name")
    case Err(e) => Step(s, Some(ReadFailure(e)))
    case Ok(has) =>
      if has && ((registered && Truthy(c.setNameOnRegister)) || Truthy(c.setNameOnLogin)) then
        match PyIndex(profile, "display_name")
        case Err(e) => Step(s, Some(ReadFailure(e)))
        case Ok(name) => Step(s.Log(SetProfileDisplayname(localpart, name)).(displayNames := s.displayNames[localpart := name]), None)
      else Step(s, None)
  }

  /** Progress of the addition loop: the state, the incoming pairs collected so far, and the
      exception that stopped it. */
  datatype AddProgress = AddProgress(state: StoreState, external: seq<Pair>, failure: Option<ProviderError>)

  /** A store answer counts as "no owner" when it is falsy. */
  predicate NoOwner(owner: Option<string>)
  {
    owner.None? || owner.value == ""
  }

  /** The store calls of one iteration for a parsed pair: the owner lookup, then the addition
      when nobody owns the pair. */
  function AddPair(s: StoreState, userId: string, pair: Pair, now: int): StoreState
  {
    var s1 := s.Log(GetUserIdByThreepid(pair.0, pair.1));
    if NoOwner(OwnerOf(s.threepids, pair.0, pair.1)) then
      s1.Log(UserAddThreepid(userId, pair.0, pair.1, now, now))
        .(threepids := s1.threepids + [ThreepidRecord(userId, pair.0, pair.1, now, now)])
    else s1
  }

  /** One iteration of the addition loop (lines 102-119), reading the clock once. */
  function AddOne(p: AddProgress, userId: string, item: Json, now: int): AddProgress
  {
    match ParseThreepid(item)
    case Err(e) => p.(failure := Some(e))
    case Ok(pair) => AddProgress(AddPair(p.state, userId, pair, now), p.external + [pair], None)
  }

  /** The addition loop over the first `n` incoming items; `clock(k)` is the k-th clock reading. */
  function AddUpTo(start: StoreState, userId: string, items: seq<Json>, clock: nat -> int, n: nat): AddProgress
    requires n <= |items|
  {
    if n == 0 then AddProgress(start, [], None)
    else
      var prev := AddUpTo(start, userId, items, clock, n - 1);
      if prev.failure.Some? then prev else AddOne(prev, userId, items[n - 1], clock(n - 1))
  }

  /** One iteration of the removal loop (lines 122-131): the stored row is compared lowercased and
      deleted by its lowercased pair. */
  function RemoveOne(s: StoreState, userId: string, t: ThreepidRecord, external: seq<Pair>): StoreState
  {
    var pair := (Lower(t.medium), Lower(t.address));
    if pair in external then s
    else s.Log(UserDeleteThreepid(userId, pair.0, pair.1)).(threepids := Without(s.threepids, userId, pair.0, pair.1))
  }

  function RemoveUpTo(start: StoreState, userId: string, snapshot: seq<ThreepidRecord>, external: seq<Pair>, n: nat): StoreState
    requires n <= |snapshot|
  {
    if n == 0 then start else RemoveOne(RemoveUpTo(start, userId, snapshot, external, n - 1), userId, snapshot[n - 1], external)
  }

  /** Lines 97-131: additions, then (with replaceThreepid) removals, only when updateThreepid holds
      and the profile has `three_pids`. */
  function ThreepidStep(c: RestConfig, s: StoreState, userId: string, profile: Json, clock: nat -> int): Step
  {
    if !Truthy(c.updateThreepid) then Step(s, None)
    else match PyContains(profile, "three_pids")
      case Err(e) => Step(s, Some(ReadFailure(e)))
      case Ok(has) =>
        if !has then Step(s, None)
        else match PyIndex(profile, "three_pids")
          case Err(e) => Step(s, Some(ReadFailure(e)))
          case Ok(list) =>
            match Elements(list)
            case Err(e) => Step(s, Some(e))
            case Ok(items) =>
              var added := AddUpTo(s, userId, items, clock, |items|);
              if added.failure.Some? then Step(added.state, added.failure)
              else if !Truthy(c.replaceThreepid) then Step(added.state, None)
              else
                var snapshot := RecordsOf(added.state.threepids, userId);
                Step(RemoveUpTo(added.state.Log(UserGetThreepids(userId)), userId, snapshot, added.external, |snapshot|), None)
  }

  /** The registration decision of lines 66-76. */
  datatype Registration = Refused | Existing | Registered(newUserId: string)

  function RegistrationStep(c: RestConfig, s: StoreState, serverName: string, userId: string): (o: (StoreState, Registration))
  {
    var s1 := s.Log(CheckUserExists(userId));
    var localpart := Localpart(userId);
    if userId in s.users then (s1, Existing)
    else if localpart != Lower(localpart) && Truthy(c.regLower) then (s1, Refused)
    else
      var newId := CanonicalUserId(localpart, serverName);
      (s1.Log(Register(localpart)).(users := s.users + {newId}), Registered(newId))
  }

  /** Lines 80-138 once the profile has been read: nothing for a falsy profile, otherwise the
      display name and then the 3PIDs. */
  function ProfileStep(c: RestConfig, s: StoreState, localpart: string, registered: bool, userId: string,
                       profile: Json, clock: nat -> int): (StoreState, Result<bool, ProviderError>)
  {
    if !Truthy(profile) then (s, Ok(true))
    else
      var d := DisplayNameStep(c, s, localpart, registered, profile);
      if d.failure.Some? then (d.state, Err(d.failure.value))
      else
        var t := ThreepidStep(c, d.state, userId, profile, clock);
        if t.failure.Some? then (t.state, Err(t.failure.value)) else (t.state, Ok(true))
  }

  /** The whole of `check_password`, with the profile read by `readProfile`: the resulting store
      (with its call journal) and the answer or the exception raised. The 3PID calls use the id the
      registration returned, the display name the localpart of the id that logged in. */
  function CheckPasswordWith(readProfile: Json -> Result<Json, ProviderError>, c: RestConfig, serverName: string,
                             s: StoreState, userId: string, reply: HttpReply, clock: nat -> int): (StoreState, Result<bool, ProviderError>)
  {
    match ReadVerdict(reply)
    case Err(e) => (s, Err(e))
    case Ok(Rejected) => (s, Ok(false))
    case Ok(Accepted(auth)) =>
      var (s1, registration) := RegistrationStep(c, s, serverName, userId);
      if registration == Refused then (s1, Ok(false))
      else
        var effectiveId := if registration.Registered? then registration.newUserId else userId;
        match readProfile(auth)
        case Err(e) => (s1, Err(e))
        case Ok(profile) => ProfileStep(c, s1, Localpart(userId), registration.Registered?, effectiveId, profile, clock)
  }

  /** `check_password` as written: a success reply without `profile` raises KeyError. */
  function CheckPasswordAsWritten(c: RestConfig, serverName: string, s: StoreState, userId: string, reply: HttpReply, clock: nat -> int): (StoreState, Result<bool, ProviderError>)
  {
    CheckPasswordWith(ProfileAsWritten, c, serverName, s, userId, reply, clock)
  }

  /** `check_password` as this model runs it: a missing profile is treated as no profile data. */
  function CheckPasswordIntended(c: RestConfig, serverName: string, s: StoreState, userId: string, reply: HttpReply, clock: nat -> int): (StoreState, Result<bool, ProviderError>)
  {
    CheckPasswordWith(ProfileIntended, c, serverName, s, userId, reply, clock)
  }

  /** Once an iteration has raised, later items change nothing. */
  lemma {:induction false} AddFailureSticks(start: StoreState, userId: string, items: seq<Json>, clock: nat -> int, n: nat, m: nat)
    requires n <= m <= |items|
    requires AddUpTo(start, userId, items, clock, n).failure.Some?
    ensures AddUpTo(start, userId, items, clock, m) == AddUpTo(start, userId, items, clock, n)
    decreases m - n
  {
    if n < m {
      AddFailureSticks(start, userId, items, clock, n, m - 1);
      var prev := AddUpTo(start, userId, items, clock, m - 1);
      assert prev.failure.Some?;
      assert AddUpTo(start, userId, items, clock, m) == prev;
    }
  }

  // ---------------------------------------------------------------------------------------------
  // The provider

  class RestAuthProvider {
    const config: RestConfig
    const accountHandler: AccountStore

    constructor (config: RestConfig, accountHandler: AccountStore)
      requires Truthy(config.endpoint)
      ensures this.config == config && this.accountHandler == accountHandler
    {
      this.config := config;
      this.accountHandler := accountHandler;
    }

    /** `__init__`: refuses a configuration whose endpoint is falsy. */
    static method New(config: RestConfig, accountHandler: AccountStore) returns (r: Result<RestAuthProvider, ProviderError>)
      ensures r.Err? <==> !Truthy(config.endpoint)
      ensures r.Err? ==> r.error == RuntimeError("Missing endpoint config")
      ensures r.Ok? ==> fresh(r.value) && r.value.config == config && r.value.accountHandler == accountHandler
    {
      if !Truthy(config.endpoint) {
        return Err(RuntimeError("Missing endpoint config"));
      }
      var provider := new RestAuthProvider(config, accountHandler);
      return Ok(provider);
    }

    /** Lines 66-76: existence check, then either refusal or registration of a missing account. */
    method EnsureAccount(userId: string) returns (registration: Registration)
      modifies accountHandler
      ensures (accountHandler.State(), registration) == RegistrationStep(config, old(accountHandler.State()), accountHandler.serverName, userId)
    {
      var found := accountHandler.CheckUserExistsCall(userId);
      var localpart := Localpart(userId);
      if found {
        return Existing;
      }
      if localpart != Lower(localpart) && Truthy(config.regLower) {
        return Refused;
      }
      var newUserId := accountHandler.RegisterCall(localpart);
      return Registered(newUserId);
    }

    /** Lines 90-95. */
    method ApplyDisplayName(localpart: string, registered: bool, profile: Json) returns (failure: Option<ProviderError>)
      modifies accountHandler
      ensures Step(accountHandler.State(), failure) == DisplayNameStep(config, old(accountHandler.State()), localpart, registered, profile)
    {
      var has := PyContains(profile, "display_name");
      if has.Err? {
        return Some(ReadFailure(has.error));
      }
      if has.value && ((registered && Truthy(config.setNameOnRegister)) || Truthy(config.setNameOnLogin)) {
        var name := PyIndex(profile, "display_name");
        if name.Err? {
          return Some(ReadFailure(name.error));
        }
        accountHandler.SetProfileDisplaynameCall(localpart, name.value);
      }
      return None;
    }

    /** Lines 101-119: each incoming 3PID is lowercased, collected, and added when nobody owns it. */
    /** Lines 103-119 for one parsed pair; `validatedAt` is the clock reading of that iteration. */
    method AddIfUnowned(userId: string, medium: string, address: string, validatedAt: int)
      modifies accountHandler
      ensures accountHandler.State() == AddPair(old(accountHandler.State()), userId, (medium, address), validatedAt)
    {
      var owner := accountHandler.GetUserIdByThreepidCall(medium, address);
      if NoOwner(owner) {
        accountHandler.UserAddThreepidCall(userId, medium, address, validatedAt, validatedAt);
      }
    }

    method AddThreepids(userId: string, items: seq<Json>, clock: nat -> int) returns (external: seq<Pair>, failure: Option<ProviderError>)
      modifies accountHandler
      ensures AddProgress(accountHandler.State(), external, failure) == AddUpTo(old(accountHandler.State()), userId, items, clock, |items|)
    {
      ghost var start := accountHandler.State();
      external := [];
      var i := 0;
      while i < |items|
        invariant 0 <= i <= |items|
        invariant AddUpTo(start, userId, items, clock, i) == AddProgress(accountHandler.State(), external, None)
      {
        var parsed := ParseThreepid(items[i]);
        if parsed.Err? {
          AddFailureSticks(start, userId, items, clock, i + 1, |items|);
          return external, Some(parsed.error);
        }
        var (medium, address) := parsed.value;
        external := external + [(medium, address)];
        AddIfUnowned(userId, medium, address, clock(i));
        i := i + 1;
      }
      return external, None;
    }

    /** Lines 121-131: every stored 3PID of the user whose lowercased pair is not incoming is deleted. */
    method RemoveStaleThreepids(userId: string, external: seq<Pair>)
      modifies accountHandler
      ensures accountHandler.State() ==
        RemoveUpTo(old(accountHandler.State()).Log(UserGetThreepids(userId)), userId,
                   RecordsOf(old(accountHandler.threepids), userId), external, |RecordsOf(old(accountHandler.threepids), userId)|)
    {
      var rows := accountHandler.UserGetThreepidsCall(userId);
      ghost var afterGet := accountHandler.State();
      var i := 0;
      while i < |rows|
        invariant 0 <= i <= |rows|
        invariant accountHandler.State() == RemoveUpTo(afterGet, userId, rows, external, i)
      {
        DeleteIfStale(userId, rows[i], external);
        i := i + 1;
      }
    }

    /** Lines 122-131 for one stored row: deleted by its lowercased pair unless that pair is incoming. */
    method DeleteIfStale(userId: string, row: ThreepidRecord, external: seq<Pair>)
      modifies accountHandler
      ensures accountHandler.State() == RemoveOne(old(accountHandler.State()), userId, row, external)
    {
      var medium := Lower(row.medium);
      var address := Lower(row.address);
      if (medium, address) !in external {
        accountHandler.UserDeleteThreepidCall(userId, medium, address);
      }
    }

    /** Lines 97-134. */
    method ApplyThreepids(userId: string, profile: Json, clock: nat -> int) returns (failure: Option<ProviderError>)
      modifies accountHandler
      ensures Step(accountHandler.State(), failure) == ThreepidStep(config, old(accountHandler.State()), userId, profile, clock)
    {
      if !Truthy(config.updateThreepid) {
        return None;
      }
      var has := PyContains(profile, "three_pids");
      if has.Err? {
        return Some(ReadFailure(has.error));
      }
      if !has.value {
        return None;
      }
      var list := PyIndex(profile, "three_pids");
      if list.Err? {
        return Some(ReadFailure(list.error));
      }
      var items := Elements(list.value);
      if items.Err? {
        return Some(items.error);
      }
      var external, addFailure := AddThreepids(userId, items.value, clock);
      if addFailure.Some? {
        return addFailure;
      }
      if Truthy(config.replaceThreepid) {
        RemoveStaleThreepids(userId, external);
      }
      return None;
    }

    /** `check_password`. The reply is the endpoint's answer to (userId, password); `clock(k)` is the
        k-th reading of the millisecond clock. The resulting store, its call journal, and the answer
        or exception are those of CheckPasswordIntended, which reads a missing profile as no profile
        data where line 80 raises KeyError. */
    method CheckPassword(userId: string, password: string, reply: HttpReply, clock: nat -> int) returns (r: Result<bool, ProviderError>)
      modifies accountHandler
      ensures (accountHandler.State(), r) == CheckPasswordIntended(config, accountHandler.serverName, old(accountHandler.State()), userId, reply, clock)
    {
      var verdict := ReadVerdict(reply);
      if verdict.Err? {
        return Err(verdict.error);
      }
      if verdict.value.Rejected? {
        return Ok(false);
      }
      var auth := verdict.value.auth;
      var localpart := Localpart(userId);
      var registration := EnsureAccount(userId);
      if registration == Refused {
        return Ok(false);
      }
      var effectiveId := if registration.Registered? then registration.newUserId else userId;
      var profile := ProfileIntended(auth);
      if profile.Err? {
        return Err(profile.error);
      }
      if !Truthy(profile.value) {
        return Ok(true);
      }
      var nameFailure := ApplyDisplayName(localpart, registration.Registered?, profile.value);
      if nameFailure.Some? {
        return Err(nameFailure.value);
      }
      var threepidFailure := ApplyThreepids(effectiveId, profile.value, clock);
      if threepidFailure.Some? {
        return Err(threepidFailure.value);
      }
      return Ok(true);
    }
  }
}
