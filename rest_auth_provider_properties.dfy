/** What `check_password` guarantees about the account store, proved on the function that models it. */
module RestAuthProviderProperties {
  import opened Wrappers
  import opened Strings
  import opened Json
  import opened RestAuthProvider

  /** The phase each store call belongs to, in the order the provider goes through them. */
  function Rank(c: StoreCall): nat
  {
    match c
    case CheckUserExists(_) => 0
    case Register(_) => 1
    case SetProfileDisplayname(_, _) => 2
    case GetUserIdByThreepid(_, _) => 3
    case UserAddThreepid(_, _, _, _, _) => 3
    case UserGetThreepids(_) => 4
    case UserDeleteThreepid(_, _, _) => 5
  }

  /** `t` extends the journal of `s`, and every call it adds lies in phases lo..hi. */
  predicate NewCallsWithin(s: StoreState, t: StoreState, lo: nat, hi: nat)
  {
    |s.calls| <= |t.calls| && t.calls[..|s.calls|] == s.calls
    && forall k :: |s.calls| <= k < |t.calls| ==> lo <= Rank(t.calls[k]) <= hi
  }

  /** The calls from position `from` on never go back to an earlier phase. */
  predicate PhasesInOrder(calls: seq<StoreCall>, from: nat)
  {
    forall i, j :: from <= i < j < |calls| ==> Rank(calls[i]) <= Rank(calls[j])
  }

  lemma NewCallsWithinTrans(s: StoreState, t: StoreState, u: StoreState, lo: nat, mid: nat, hi: nat)
    requires lo <= mid <= hi
    requires NewCallsWithin(s, t, lo, mid) && NewCallsWithin(t, u, mid, hi)
    requires PhasesInOrder(t.calls, |s.calls|) && PhasesInOrder(u.calls, |t.calls|)
    ensures NewCallsWithin(s, u, lo, hi) && PhasesInOrder(u.calls, |s.calls|)
  {
    assert u.calls[..|t.calls|] == t.calls;
    forall k | |s.calls| <= k < |t.calls| ensures u.calls[k] == t.calls[k] {
      assert u.calls[..|t.calls|][k] == u.calls[k];
    }
    assert u.calls[..|s.calls|] == t.calls[..|s.calls|];
  }

  /** The display-name phase adds at most one call, of its own phase, and touches only the names. */
  lemma DisplayNameStepCalls(c: RestConfig, s: StoreState, localpart: string, registered: bool, profile: Json)
    ensures var d := DisplayNameStep(c, s, localpart, registered, profile);
      NewCallsWithin(s, d.state, 2, 2) && |d.state.calls| <= |s.calls| + 1
      && d.state.users == s.users && d.state.threepids == s.threepids
  {
    var d := DisplayNameStep(c, s, localpart, registered, profile);
    assert d.state.calls[..|s.calls|] == s.calls;
  }

  lemma NewCallsWithinChain(s: StoreState, t: StoreState, u: StoreState, lo: nat, hi: nat)
    requires NewCallsWithin(s, t, lo, hi) && NewCallsWithin(t, u, lo, hi)
    ensures NewCallsWithin(s, u, lo, hi)
  {
    assert u.calls[..|t.calls|] == t.calls;
    forall k | |s.calls| <= k < |t.calls| ensures u.calls[k] == t.calls[k] {
      assert u.calls[..|t.calls|][k] == u.calls[k];
    }
    assert u.calls[..|s.calls|] == t.calls[..|s.calls|];
  }

  lemma AddOneCalls(p: AddProgress, userId: string, item: Json, now: int)
    ensures var q := AddOne(p, userId, item, now);
      NewCallsWithin(p.state, q.state, 3, 3) && q.state.users == p.state.users && q.state.displayNames == p.state.displayNames
  {
    var q := AddOne(p, userId, item, now);
    assert q.state.calls[..|p.state.calls|] == p.state.calls;
  }

  /** The addition loop issues only lookups and additions, and changes neither users nor names. */
  lemma {:induction false} AddUpToCalls(s: StoreState, userId: string, items: seq<Json>, clock: nat -> int, n: nat)
    requires n <= |items|
    ensures var p := AddUpTo(s, userId, items, clock, n);
      NewCallsWithin(s, p.state, 3, 3) && p.state.users == s.users && p.state.displayNames == s.displayNames
  {
    if n > 0 {
      AddUpToCalls(s, userId, items, clock, n - 1);
      var prev := AddUpTo(s, userId, items, clock, n - 1);
      if prev.failure.None? {
        AddOneCalls(prev, userId, items[n - 1], clock(n - 1));
        NewCallsWithinChain(s, prev.state, AddOne(prev, userId, items[n - 1], clock(n - 1)).state, 3, 3);
      }
    }
  }

  lemma RemoveOneCalls(s: StoreState, userId: string, t: ThreepidRecord, external: seq<Pair>)
    ensures var r := RemoveOne(s, userId, t, external);
      NewCallsWithin(s, r, 5, 5) && r.users == s.users && r.displayNames == s.displayNames
  {
    var r := RemoveOne(s, userId, t, external);
    assert r.calls[..|s.calls|] == s.calls;
  }

  /** The removal loop issues only deletions and changes neither users nor names. */
  lemma {:induction false} RemoveUpToCalls(s: StoreState, userId: string, snapshot: seq<ThreepidRecord>, external: seq<Pair>, n: nat)
    requires n <= |snapshot|
    ensures var t := RemoveUpTo(s, userId, snapshot, external, n);
      NewCallsWithin(s, t, 5, 5) && t.users == s.users && t.displayNames == s.displayNames
  {
    if n > 0 {
      RemoveUpToCalls(s, userId, snapshot, external, n - 1);
      var prev := RemoveUpTo(s, userId, snapshot, external, n - 1);
      RemoveOneCalls(prev, userId, snapshot[n - 1], external);
      NewCallsWithinChain(s, prev, RemoveOne(prev, userId, snapshot[n - 1], external), 5, 5);
    }
  }

  lemma SinglePhaseInOrder(s: StoreState, t: StoreState, rank: nat)
    requires NewCallsWithin(s, t, rank, rank)
    ensures PhasesInOrder(t.calls, |s.calls|)
  {
  }

  /** One logged call of phase `rank` is a phase of its own. */
  lemma LogCalls(s: StoreState, c: StoreCall)
    ensures var t := s.Log(c);
      NewCallsWithin(s, t, Rank(c), Rank(c)) && PhasesInOrder(t.calls, |s.calls|)
      && t.users == s.users && t.displayNames == s.displayNames
  {
    assert s.Log(c).calls[..|s.calls|] == s.calls;
  }

  /** A phase of lookups and additions, then a listing, then a phase of deletions. */
  lemma ListThenDeleteCalls(added: StoreState, listed: StoreState, t: StoreState)
    requires NewCallsWithin(added, listed, 4, 4) && PhasesInOrder(listed.calls, |added.calls|)
    requires NewCallsWithin(listed, t, 5, 5)
    ensures NewCallsWithin(added, t, 3, 5) && PhasesInOrder(t.calls, |added.calls|)
  {
    SinglePhaseInOrder(listed, t, 5);
    NewCallsWithinTrans(added, listed, t, 3, 4, 5);
  }

  /** The removal phase: one listing call, then only deletions, and neither accounts nor names change. */
  lemma RemovalPhaseCalls(added: StoreState, userId: string, external: seq<Pair>)
    ensures var listed := added.Log(UserGetThreepids(userId));
      var snapshot := RecordsOf(added.threepids, userId);
      var t := RemoveUpTo(listed, userId, snapshot, external, |snapshot|);
      NewCallsWithin(added, t, 3, 5) && PhasesInOrder(t.calls, |added.calls|)
      && t.users == added.users && t.displayNames == added.displayNames
  {
    var listed := added.Log(UserGetThreepids(userId));
    var snapshot := RecordsOf(added.threepids, userId);
    LogCalls(added, UserGetThreepids(userId));
    RemoveUpToCalls(listed, userId, snapshot, external, |snapshot|);
    ListThenDeleteCalls(added, listed, RemoveUpTo(listed, userId, snapshot, external, |snapshot|));
  }

  /** The 3PID phase: additions, then the listing, then deletions, and nothing else. */
  lemma ThreepidStepCalls(c: RestConfig, s: StoreState, userId: string, profile: Json, clock: nat -> int)
    ensures var t := ThreepidStep(c, s, userId, profile, clock);
      NewCallsWithin(s, t.state, 3, 5) && PhasesInOrder(t.state.calls, |s.calls|)
      && t.state.users == s.users && t.state.displayNames == s.displayNames
  {
    var t := ThreepidStep(c, s, userId, profile, clock);
    if Truthy(c.updateThreepid) && PyContains(profile, "three_pids") == Ok(true) && PyIndex(profile, "three_pids").Ok?
       && Elements(PyIndex(profile, "three_pids").value).Ok? {
      var items := Elements(PyIndex(profile, "three_pids").value).value;
      var added := AddUpTo(s, userId, items, clock, |items|);
      AddUpToCalls(s, userId, items, clock, |items|);
      SinglePhaseInOrder(s, added.state, 3);
      if added.failure.None? && Truthy(c.replaceThreepid) {
        var snapshot := RecordsOf(added.state.threepids, userId);
        assert t.state == RemoveUpTo(added.state.Log(UserGetThreepids(userId)), userId, snapshot, added.external, |snapshot|);
        RemovalPhaseCalls(added.state, userId, added.external);
        NewCallsWithinTrans(s, added.state, t.state, 3, 3, 5);
      } else {
        assert t.state == added.state;
      }
    } else {
      assert t.state == s;
      assert s.calls[..|s.calls|] == s.calls;
    }
  }

  /** Everything after the registration: the display-name phase, then the 3PID phases. */
  lemma ProfileStepCalls(c: RestConfig, s: StoreState, localpart: string, registered: bool, userId: string, profile: Json, clock: nat -> int)
    ensures var t := ProfileStep(c, s, localpart, registered, userId, profile, clock).0;
      NewCallsWithin(s, t, 2, 5) && PhasesInOrder(t.calls, |s.calls|) && t.users == s.users
  {
    if Truthy(profile) {
      var d := DisplayNameStep(c, s, localpart, registered, profile);
      DisplayNameStepCalls(c, s, localpart, registered, profile);
      SinglePhaseInOrder(s, d.state, 2);
      if d.failure.None? {
        var th := ThreepidStep(c, d.state, userId, profile, clock);
        ThreepidStepCalls(c, d.state, userId, profile, clock);
        NewCallsWithinTrans(s, d.state, th.state, 2, 3, 5);
      }
    }
  }

  /** The registration phase: the existence check, then at most the one registration. */
  lemma RegistrationStepCalls(c: RestConfig, s: StoreState, serverName: string, userId: string)
    ensures var o := RegistrationStep(c, s, serverName, userId);
      NewCallsWithin(s, o.0, 0, 1) && PhasesInOrder(o.0.calls, |s.calls|)
      && |o.0.calls| == |s.calls| + (if o.1.Registered? then 2 else 1)
      && o.0.calls[|s.calls|] == CheckUserExists(userId)
      && (o.1.Registered? ==> o.0.calls[|s.calls| + 1].Register?)
      && (o.1.Registered? <==> userId !in s.users && !(Localpart(userId) != Lower(Localpart(userId)) && Truthy(c.regLower)))
  {
    var o := RegistrationStep(c, s, serverName, userId);
    var localpart := Localpart(userId);
    if o.1.Registered? {
      assert o.0.calls == s.calls + [CheckUserExists(userId), Register(localpart)];
      RegistrationCallsShape(s, o.0, [CheckUserExists(userId), Register(localpart)]);
    } else {
      assert o.0.calls == s.calls + [CheckUserExists(userId)];
      RegistrationCallsShape(s, o.0, [CheckUserExists(userId)]);
    }
  }

  /** The journal facts of the registration phase, for the one or two calls that phase makes. */
  lemma RegistrationCallsShape(s: StoreState, t: StoreState, added: seq<StoreCall>)
    requires 1 <= |added| <= 2 && added[0].CheckUserExists? && (|added| == 2 ==> added[1].Register?)
    requires t.calls == s.calls + added
    ensures NewCallsWithin(s, t, 0, 1) && PhasesInOrder(t.calls, |s.calls|)
    ensures t.calls[|s.calls|] == added[0] && (|added| == 2 ==> t.calls[|s.calls| + 1] == added[1])
  {
    assert t.calls[..|s.calls|] == s.calls;
    assert forall k :: |s.calls| <= k < |t.calls| ==> t.calls[k] == added[k - |s.calls|];
  }

  /** Whatever the profile reader does, the calls after the registration phase lie in the later
      phases and keep their order. */
  lemma AfterRegistrationCalls(readProfile: Json -> Result<Json, ProviderError>, c: RestConfig, serverName: string, s: StoreState,
                               userId: string, reply: HttpReply, clock: nat -> int)
    requires ReadVerdict(reply).Ok? && ReadVerdict(reply).value.Accepted?
    ensures var s1 := RegistrationStep(c, s, serverName, userId).0;
      var t := CheckPasswordWith(readProfile, c, serverName, s, userId, reply, clock).0;
      NewCallsWithin(s1, t, 2, 5) && PhasesInOrder(t.calls, |s1.calls|)
  {
    var auth := ReadVerdict(reply).value.auth;
    var (s1, registration) := RegistrationStep(c, s, serverName, userId);
    var t := CheckPasswordWith(readProfile, c, serverName, s, userId, reply, clock).0;
    if registration == Refused || readProfile(auth).Err? {
      assert t == s1;
      assert t.calls[..|s1.calls|] == s1.calls;
    } else {
      var effectiveId := if registration.Registered? then registration.newUserId else userId;
      ProfileStepCalls(c, s1, Localpart(userId), registration.Registered?, effectiveId, readProfile(auth).value, clock);
    }
  }

  /** The call order of `check_password` holds whatever the profile reader does. */
  lemma CallOrderWith(readProfile: Json -> Result<Json, ProviderError>, c: RestConfig, serverName: string, s: StoreState,
                      userId: string, reply: HttpReply, clock: nat -> int)
    requires ReadVerdict(reply).Ok? && ReadVerdict(reply).value.Accepted?
    ensures var t := CheckPasswordWith(readProfile, c, serverName, s, userId, reply, clock).0;
      |t.calls| > |s.calls| && t.calls[..|s.calls|] == s.calls && t.calls[|s.calls|] == CheckUserExists(userId)
      && PhasesInOrder(t.calls, |s.calls|)
      && (forall k :: |s.calls| + 1 < k < |t.calls| ==> Rank(t.calls[k]) >= 2)
      && ((|t.calls| > |s.calls| + 1 && t.calls[|s.calls| + 1].Register?) <==>
          (userId !in s.users && !(Localpart(userId) != Lower(Localpart(userId)) && Truthy(c.regLower))))
  {
    var o := RegistrationStep(c, s, serverName, userId);
    var s1 := o.0;
    var t := CheckPasswordWith(readProfile, c, serverName, s, userId, reply, clock).0;
    RegistrationStepCalls(c, s, serverName, userId);
    AfterRegistrationCalls(readProfile, c, serverName, s, userId, reply, clock);
    NewCallsWithinTrans(s, s1, t, 0, 1, 5);
    assert t.calls[|s.calls|] == s1.calls[|s.calls|] by {
      assert t.calls[..|s1.calls|][|s.calls|] == t.calls[|s.calls|];
    }
    if o.1.Registered? {
      assert t.calls[|s.calls| + 1] == s1.calls[|s.calls| + 1] by {
        assert t.calls[..|s1.calls|][|s.calls| + 1] == t.calls[|s.calls| + 1];
      }
    } else if |t.calls| > |s.calls| + 1 {
      assert Rank(t.calls[|s1.calls|]) >= 2;
    }
  }

  /** The order of store calls in `check_password`: an accepted verdict first asks whether the user
      exists, then registers at most once (exactly when the account is missing and the lowercase
      rule does not refuse it), then sets the display name, adds 3PIDs, lists and deletes them, never
      going back to an earlier phase. */
  lemma CheckPasswordCallOrder(c: RestConfig, serverName: string, s: StoreState, userId: string, reply: HttpReply, clock: nat -> int)
    requires ReadVerdict(reply).Ok? && ReadVerdict(reply).value.Accepted?
    ensures var t := CheckPasswordIntended(c, serverName, s, userId, reply, clock).0;
      |t.calls| > |s.calls| && t.calls[..|s.calls|] == s.calls && t.calls[|s.calls|] == CheckUserExists(userId)
      && PhasesInOrder(t.calls, |s.calls|)
      && (forall k :: |s.calls| + 1 < k < |t.calls| ==> Rank(t.calls[k]) >= 2)
      && ((|t.calls| > |s.calls| + 1 && t.calls[|s.calls| + 1].Register?) <==>
          (userId !in s.users && !(Localpart(userId) != Lower(Localpart(userId)) && Truthy(c.regLower))))
  {
    CallOrderWith(ProfileIntended, c, serverName, s, userId, reply, clock);
  }

  /** After an accepted verdict and a successful profile read, the answer is never False: it is
      True or an exception. */
  lemma ProfileStepNeverFalse(c: RestConfig, s: StoreState, localpart: string, registered: bool, userId: string, profile: Json, clock: nat -> int)
    ensures ProfileStep(c, s, localpart, registered, userId, profile, clock).1 != Ok(false)
  {
  }

  /** Lines 53-76: the answer is False exactly when the endpoint refused the credentials, or when
      the account is missing and the lowercase rule forbids creating it. Every other outcome is
      True or an exception, so a failure is never mistaken for a refusal. */
  lemma AnswerFalseIff(c: RestConfig, serverName: string, s: StoreState, userId: string, reply: HttpReply, clock: nat -> int)
    ensures CheckPasswordIntended(c, serverName, s, userId, reply, clock).1 == Ok(false) <==>
      ReadVerdict(reply) == Ok(Rejected)
      || (ReadVerdict(reply).Ok? && ReadVerdict(reply).value.Accepted? && userId !in s.users
          && Localpart(userId) != Lower(Localpart(userId)) && Truthy(c.regLower))
  {
    match ReadVerdict(reply)
    case Err(_) =>
    case Ok(Rejected) =>
    case Ok(Accepted(auth)) =>
      var (s1, registration) := RegistrationStep(c, s, serverName, userId);
      if registration != Refused && ProfileIntended(auth).Ok? {
        var effectiveId := if registration.Registered? then registration.newUserId else userId;
        ProfileStepNeverFalse(c, s1, Localpart(userId), registration.Registered?, effectiveId, ProfileIntended(auth).value, clock);
      }
  }

  /** Lines 50-61: a transport, status or reading failure, and a refusal, leave the store and its
      journal exactly as they were; only the kind of answer differs. */
  lemma NoStoreCallBeforeVerdict(c: RestConfig, serverName: string, s: StoreState, userId: string, reply: HttpReply, clock: nat -> int)
    requires !(ReadVerdict(reply).Ok? && ReadVerdict(reply).value.Accepted?)
    ensures CheckPasswordIntended(c, serverName, s, userId, reply, clock).0 == s
    ensures ReadVerdict(reply).Err? ==> CheckPasswordIntended(c, serverName, s, userId, reply, clock).1 == Err(ReadVerdict(reply).error)
    ensures ReadVerdict(reply).Ok? ==> CheckPasswordIntended(c, serverName, s, userId, reply, clock).1 == Ok(false)
  {
  }

  /** Lines 66-72: the lowercase refusal happens after the existence check and changes nothing
      else: no account, no name, no 3PID. */
  lemma LowercaseRefusalChangesNothing(c: RestConfig, serverName: string, s: StoreState, userId: string, reply: HttpReply, clock: nat -> int)
    requires ReadVerdict(reply).Ok? && ReadVerdict(reply).value.Accepted?
    requires userId !in s.users && Localpart(userId) != Lower(Localpart(userId)) && Truthy(c.regLower)
    ensures CheckPasswordIntended(c, serverName, s, userId, reply, clock) == (s.Log(CheckUserExists(userId)), Ok(false))
  {
  }

  /** Lines 90-95 on a dict profile: the name is written, under the login's localpart, exactly when
      the profile has one and either the account was just registered with setNameOnRegister, or
      setNameOnLogin holds (which therefore also covers new accounts). */
  lemma DisplayNameRule(c: RestConfig, s: StoreState, localpart: string, registered: bool, profile: Json)
    requires profile.JObj?
    ensures var d := DisplayNameStep(c, s, localpart, registered, profile);
      d.failure.None?
      && d.state.displayNames ==
         (if "display_name" in profile.fields && ((registered && Truthy(c.setNameOnRegister)) || Truthy(c.setNameOnLogin))
          then s.displayNames[localpart := profile.fields["display_name"]] else s.displayNames)
  {
  }

  // ---------------------------------------------------------------------------------------------
  // A success reply without profile data

  /** The reply shape the demo endpoint sends: success and the id, no profile. */
  function SuccessWithoutProfile(mxid: string): Json
  {
    JObj(map["auth" := JObj(map["success" := JBool(true), "mxid" := JStr(mxid)])])
  }

  /** The reply above is an accepted verdict whose `auth` object has no profile. */
  lemma SuccessWithoutProfileAccepted(mxid: string)
    ensures var auth := JObj(map["success" := JBool(true), "mxid" := JStr(mxid)]);
            ReadVerdict(HttpResponse(200, Some(SuccessWithoutProfile(mxid)))) == Ok(Accepted(auth))
            && "profile" !in auth.fields
  {
    var auth := JObj(map["success" := JBool(true), "mxid" := JStr(mxid)]);
    assert PyIndex(SuccessWithoutProfile(mxid), "auth") == Ok(auth);
    assert "success" in auth.fields && |auth.fields| > 0;
    assert PyIndex(auth, "success") == Ok(JBool(true));
  }

  /** As written, line 80 reads `auth["profile"]` after the registration of lines 66-76: for a
      new user the account is created and then KeyError is raised, so the login fails although the
      endpoint accepted it (for instance "@bob:x" on an empty store, see BobIsRegistrable). */
  lemma MissingProfileFailsAfterRegistration(c: RestConfig, serverName: string, s: StoreState, userId: string, mxid: string, clock: nat -> int)
    requires userId !in s.users
    requires !(Localpart(userId) != Lower(Localpart(userId)) && Truthy(c.regLower))
    ensures var r := CheckPasswordAsWritten(c, serverName, s, userId, HttpResponse(200, Some(SuccessWithoutProfile(mxid))), clock);
      r.1 == Err(ReadFailure(KeyError("profile")))
      && CanonicalUserId(Localpart(userId), serverName) in r.0.users
      && r.0.calls == s.calls + [CheckUserExists(userId), Register(Localpart(userId))]
  {
    var reply := HttpResponse(200, Some(SuccessWithoutProfile(mxid)));
    SuccessWithoutProfileAccepted(mxid);
    var reg := RegistrationStep(c, s, serverName, userId);
    assert reg.0.calls == s.calls + [CheckUserExists(userId), Register(Localpart(userId))]
           && CanonicalUserId(Localpart(userId), serverName) in reg.0.users;
    MissingProfileIntended(c, serverName, s, userId, reply, clock);
  }

  /** The demo reply for a new lowercase user meets the premises above. */
  lemma BobIsRegistrable()
    ensures Localpart("@bob:x") == "bob" == Lower("bob")
  {
    LocalpartExample();
    assert Lower("bob")[0] == 'b' && Lower("bob")[1] == 'o' && Lower("bob")[2] == 'b';
  }

  /** Treating a missing profile as no profile data, the same replies log the user in, with the same
      store changes (the existence check and, for a new user, the registration). */
  lemma MissingProfileIntended(c: RestConfig, serverName: string, s: StoreState, userId: string, reply: HttpReply, clock: nat -> int)
    requires ReadVerdict(reply).Ok? && ReadVerdict(reply).value.Accepted?
    requires ReadVerdict(reply).value.auth.JObj? && "profile" !in ReadVerdict(reply).value.auth.fields
    requires !(userId !in s.users && Localpart(userId) != Lower(Localpart(userId)) && Truthy(c.regLower))
    ensures CheckPasswordIntended(c, serverName, s, userId, reply, clock).1 == Ok(true)
    ensures CheckPasswordIntended(c, serverName, s, userId, reply, clock).0 == RegistrationStep(c, s, serverName, userId).0
    ensures CheckPasswordAsWritten(c, serverName, s, userId, reply, clock) ==
      (RegistrationStep(c, s, serverName, userId).0, Err(ReadFailure(KeyError("profile"))))
  {
  }

  /** Whenever the reply has profile data, the intended reading agrees with the code as written. */
  lemma IntendedAgreesWithProfile(c: RestConfig, serverName: string, s: StoreState, userId: string, reply: HttpReply, clock: nat -> int)
    requires !(ReadVerdict(reply).Ok? && ReadVerdict(reply).value.Accepted? && ReadVerdict(reply).value.auth.JObj?
               && "profile" !in ReadVerdict(reply).value.auth.fields)
    ensures CheckPasswordIntended(c, serverName, s, userId, reply, clock) == CheckPasswordAsWritten(c, serverName, s, userId, reply, clock)
  {
  }
}
