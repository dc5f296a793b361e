/** What the two 3PID loops of `check_password` do to the 3PID table, proved on their
    functional model (etc/services/rest_auth_provider.py, lines 97-131). */
module RestAuthProviderThreepids {
  import opened Wrappers
  import opened Strings
  import opened Json
  import opened RestAuthProvider

  /** The incoming pairs collected are the parsed items, in order. */
  ghost predicate ParsedInOrder(items: seq<Json>, n: nat, external: seq<Pair>)
  {
    |external| == n && n <= |items| && forall k :: 0 <= k < n ==> ParseThreepid(items[k]) == Ok(external[k])
  }

  /** Every row from position `base` on belongs to the user, carries one timestamp twice, is an
      incoming pair, and was added only because no user owned that pair at the time. */
  ghost predicate AddedRowsFine(base: nat, userId: string, external: seq<Pair>, rows: seq<ThreepidRecord>)
  {
    forall i :: base <= i < |rows| ==>
      rows[i].userId == userId && rows[i].validatedAt == rows[i].addedAt && (rows[i].medium, rows[i].address) in external
      && NoOwner(OwnerOf(rows[..i], rows[i].medium, rows[i].address))
  }

  /** Every incoming pair is owned by somebody. */
  ghost predicate AllOwned(external: seq<Pair>, rows: seq<ThreepidRecord>)
  {
    forall k :: 0 <= k < |external| ==> OwnerOf(rows, external[k].0, external[k].1).Some?
  }

  /** What the addition loop has established after `n` items without an exception: the parsed
      pairs, the old rows kept in place, only well-founded additions, and every incoming pair owned. */
  ghost predicate AddInvariant(s: StoreState, userId: string, items: seq<Json>, n: nat, p: AddProgress)
  {
    && ParsedInOrder(items, n, p.external)
    && |s.threepids| <= |p.state.threepids| && p.state.threepids[..|s.threepids|] == s.threepids
    && AddedRowsFine(|s.threepids|, userId, p.external, p.state.threepids)
    && AllOwned(p.external, p.state.threepids)
  }

  /** A pair that is owned in a table stays owned when rows are appended. */
  lemma OwnedStaysOwned(a: seq<ThreepidRecord>, b: seq<ThreepidRecord>, medium: string, address: string)
    requires OwnerOf(a, medium, address).Some?
    ensures OwnerOf(a + b, medium, address).Some?
  {
    var k :| 0 <= k < |a| && a[k].medium == medium && a[k].address == address;
    assert (a + b)[k] == a[k];
  }

  /** One iteration without an exception: it collects the parsed pair, and either appends one row
      for it, when nobody owned it, or leaves the table alone; either way the pair is owned after. */
  lemma AddOneShape(p: AddProgress, userId: string, item: Json, now: int)
    requires AddOne(p, userId, item, now).failure.None?
    ensures ParseThreepid(item).Ok?
    ensures var q := AddOne(p, userId, item, now); var pair := ParseThreepid(item).value;
      && q.external == p.external + [pair]
      && (if NoOwner(OwnerOf(p.state.threepids, pair.0, pair.1))
          then q.state.threepids == p.state.threepids + [ThreepidRecord(userId, pair.0, pair.1, now, now)]
          else q.state.threepids == p.state.threepids)
      && OwnerOf(q.state.threepids, pair.0, pair.1).Some?
  {
    var q := AddOne(p, userId, item, now);
    var pair := ParseThreepid(item).value;
    if NoOwner(OwnerOf(p.state.threepids, pair.0, pair.1)) {
      assert q.state.threepids[|p.state.threepids|].medium == pair.0;
    }
  }

  lemma AddedRowsExtend(base: nat, userId: string, external: seq<Pair>, rows: seq<ThreepidRecord>, pair: Pair, now: int)
    requires base <= |rows| && AddedRowsFine(base, userId, external, rows)
    ensures AddedRowsFine(base, userId, external + [pair], rows)
    ensures NoOwner(OwnerOf(rows, pair.0, pair.1)) ==>
      AddedRowsFine(base, userId, external + [pair], rows + [ThreepidRecord(userId, pair.0, pair.1, now, now)])
  {
    var rows' := rows + [ThreepidRecord(userId, pair.0, pair.1, now, now)];
    forall i | 0 <= i <= |rows| ensures rows'[..i] == rows[..i] { }
    assert rows'[..|rows|] == rows;
  }

  lemma AllOwnedExtend(external: seq<Pair>, rows: seq<ThreepidRecord>, extra: seq<ThreepidRecord>, pair: Pair)
    requires AllOwned(external, rows)
    requires OwnerOf(rows + extra, pair.0, pair.1).Some?
    ensures AllOwned(external + [pair], rows + extra)
  {
    assert forall k :: 0 <= k < |rows| ==> (rows + extra)[k] == rows[k];
  }

  lemma ParsedInOrderStep(items: seq<Json>, n: nat, external: seq<Pair>, pair: Pair)
    requires n < |items| && ParsedInOrder(items, n, external) && ParseThreepid(items[n]) == Ok(pair)
    ensures ParsedInOrder(items, n + 1, external + [pair])
  {
    assert forall k :: 0 <= k < n ==> (external + [pair])[k] == external[k];
  }

  /** An iteration that appends a row for an unowned pair keeps the table part of the invariant. */
  lemma InvariantStepAdded(s: StoreState, userId: string, external: seq<Pair>, rows: seq<ThreepidRecord>, pair: Pair, now: int)
    requires |s.threepids| <= |rows| && rows[..|s.threepids|] == s.threepids
    requires AddedRowsFine(|s.threepids|, userId, external, rows) && AllOwned(external, rows)
    requires NoOwner(OwnerOf(rows, pair.0, pair.1))
    requires OwnerOf(rows + [ThreepidRecord(userId, pair.0, pair.1, now, now)], pair.0, pair.1).Some?
    ensures var rows' := rows + [ThreepidRecord(userId, pair.0, pair.1, now, now)];
      && |s.threepids| <= |rows'| && rows'[..|s.threepids|] == s.threepids
      && AddedRowsFine(|s.threepids|, userId, external + [pair], rows') && AllOwned(external + [pair], rows')
  {
    var rows' := rows + [ThreepidRecord(userId, pair.0, pair.1, now, now)];
    assert rows'[..|s.threepids|] == s.threepids by {
      assert rows'[..|s.threepids|] == rows[..|s.threepids|];
    }
    assert AddedRowsFine(|s.threepids|, userId, external + [pair], rows') by {
      AddedRowsExtend(|s.threepids|, userId, external, rows, pair, now);
    }
    assert AllOwned(external + [pair], rows') by {
      AllOwnedExtend(external, rows, [ThreepidRecord(userId, pair.0, pair.1, now, now)], pair);
    }
  }

  /** An iteration that finds the pair owned leaves the table and keeps the invariant. */
  lemma InvariantStepKept(s: StoreState, userId: string, external: seq<Pair>, rows: seq<ThreepidRecord>, pair: Pair, now: int)
    requires |s.threepids| <= |rows|
    requires AddedRowsFine(|s.threepids|, userId, external, rows) && AllOwned(external, rows)
    requires OwnerOf(rows, pair.0, pair.1).Some?
    ensures AddedRowsFine(|s.threepids|, userId, external + [pair], rows) && AllOwned(external + [pair], rows)
  {
    AddedRowsExtend(|s.threepids|, userId, external, rows, pair, now);
    assert rows + [] == rows;
    AllOwnedExtend(external, rows, [], pair);
  }

  /** The invariant survives one iteration, stated on the values the iteration produces. */
  lemma InvariantStep(s: StoreState, userId: string, items: seq<Json>, n: nat, external: seq<Pair>,
                      rows: seq<ThreepidRecord>, pair: Pair, now: int, rows': seq<ThreepidRecord>)
    requires n < |items|
    requires ParsedInOrder(items, n, external)
    requires |s.threepids| <= |rows| && rows[..|s.threepids|] == s.threepids
    requires AddedRowsFine(|s.threepids|, userId, external, rows) && AllOwned(external, rows)
    requires ParseThreepid(items[n]) == Ok(pair)
    requires if NoOwner(OwnerOf(rows, pair.0, pair.1))
             then rows' == rows + [ThreepidRecord(userId, pair.0, pair.1, now, now)] else rows' == rows
    requires OwnerOf(rows', pair.0, pair.1).Some?
    ensures ParsedInOrder(items, n + 1, external + [pair])
    ensures |s.threepids| <= |rows'| && rows'[..|s.threepids|] == s.threepids
    ensures AddedRowsFine(|s.threepids|, userId, external + [pair], rows') && AllOwned(external + [pair], rows')
  {
    ParsedInOrderStep(items, n, external, pair);
    if NoOwner(OwnerOf(rows, pair.0, pair.1)) {
      InvariantStepAdded(s, userId, external, rows, pair, now);
    } else {
      InvariantStepKept(s, userId, external, rows, pair, now);
    }
  }

  lemma AddOneKeepsInvariant(s: StoreState, userId: string, items: seq<Json>, n: nat, p: AddProgress, now: int)
    requires n < |items|
    requires AddInvariant(s, userId, items, n, p)
    requires AddOne(p, userId, items[n], now).failure.None?
    ensures AddInvariant(s, userId, items, n + 1, AddOne(p, userId, items[n], now))
  {
    var q := AddOne(p, userId, items[n], now);
    AddOneShape(p, userId, items[n], now);
    InvariantStep(s, userId, items, n, p.external, p.state.threepids, ParseThreepid(items[n]).value, now, q.state.threepids);
  }

  lemma AddUpToStep(s: StoreState, userId: string, items: seq<Json>, clock: nat -> int, n: nat)
    requires 0 < n <= |items|
    requires AddUpTo(s, userId, items, clock, n).failure.None?
    ensures AddUpTo(s, userId, items, clock, n - 1).failure.None?
    ensures var q := AddOne(AddUpTo(s, userId, items, clock, n - 1), userId, items[n - 1], clock(n - 1));
      AddUpTo(s, userId, items, clock, n).external == q.external
      && AddUpTo(s, userId, items, clock, n).state.threepids == q.state.threepids
      && AddUpTo(s, userId, items, clock, n).failure == q.failure
  {
  }

  lemma AddInvariantStart(s: StoreState, userId: string, items: seq<Json>)
    ensures AddInvariant(s, userId, items, 0, AddProgress(s, [], None))
  {
    assert s.threepids[..|s.threepids|] == s.threepids;
  }

  lemma AddUpToEffectStep(s: StoreState, userId: string, items: seq<Json>, clock: nat -> int, n: nat)
    requires 0 < n <= |items|
    requires AddUpTo(s, userId, items, clock, n).failure.None?
    requires AddUpTo(s, userId, items, clock, n - 1).failure.None? ==>
      AddInvariant(s, userId, items, n - 1, AddUpTo(s, userId, items, clock, n - 1))
    ensures AddInvariant(s, userId, items, n, AddUpTo(s, userId, items, clock, n))
  {
    AddUpToStep(s, userId, items, clock, n);
    AddOneKeepsInvariant(s, userId, items, n - 1, AddUpTo(s, userId, items, clock, n - 1), clock(n - 1));
  }

  /** Lines 101-119 in full: see AddInvariant. */
  lemma {:induction false} AddUpToEffect(s: StoreState, userId: string, items: seq<Json>, clock: nat -> int, n: nat)
    requires n <= |items|
    requires AddUpTo(s, userId, items, clock, n).failure.None?
    ensures AddInvariant(s, userId, items, n, AddUpTo(s, userId, items, clock, n))
  {
    if n == 0 {
      AddInvariantStart(s, userId, items);
    } else {
      if AddUpTo(s, userId, items, clock, n - 1).failure.None? {
        AddUpToEffect(s, userId, items, clock, n - 1);
      }
      AddUpToEffectStep(s, userId, items, clock, n);
    }
  }

  /** A table whose rows all have a non-empty owner answers a lookup with a non-empty owner. */
  lemma OwnersNonEmpty(rows: seq<ThreepidRecord>, medium: string, address: string)
    requires forall k :: 0 <= k < |rows| ==> rows[k].userId != ""
    ensures !NoOwner(OwnerOf(rows, medium, address)) <==> OwnerOf(rows, medium, address).Some?
  {
  }

  /** An incoming pair listed twice is added once: when the user id is not empty and no stored row
      has an empty owner (an empty owner reads as "nobody"), the added rows have distinct pairs. */
  lemma AddedPairsDistinct(s: StoreState, userId: string, items: seq<Json>, clock: nat -> int)
    requires userId != ""
    requires forall t :: t in s.threepids ==> t.userId != ""
    requires AddUpTo(s, userId, items, clock, |items|).failure.None?
    ensures var rows := AddUpTo(s, userId, items, clock, |items|).state.threepids;
      forall i, j :: |s.threepids| <= i < j < |rows| ==>
        (rows[i].medium, rows[i].address) != (rows[j].medium, rows[j].address)
  {
    var p := AddUpTo(s, userId, items, clock, |items|);
    AddUpToEffect(s, userId, items, clock, |items|);
    AddedRowsDistinct(s.threepids, userId, p.external, p.state.threepids);
  }

  /** Rows appended to a table whose owners are all non-empty, each for a pair nobody owned
      before it, have distinct pairs. */
  lemma AddedRowsDistinct(stored: seq<ThreepidRecord>, userId: string, external: seq<Pair>, rows: seq<ThreepidRecord>)
    requires userId != ""
    requires forall t :: t in stored ==> t.userId != ""
    requires |stored| <= |rows| && rows[..|stored|] == stored
    requires AddedRowsFine(|stored|, userId, external, rows)
    ensures forall i, j :: |stored| <= i < j < |rows| ==>
      (rows[i].medium, rows[i].address) != (rows[j].medium, rows[j].address)
  {
    forall k | 0 <= k < |rows| ensures rows[k].userId != "" {
      if k < |stored| {
        assert rows[..|stored|][k] == rows[k];
        assert stored[k] in stored;
      }
    }
    forall j | |stored| <= j < |rows|
      ensures forall i :: |stored| <= i < j ==> (rows[i].medium, rows[i].address) != (rows[j].medium, rows[j].address)
    {
      var before := rows[..j];
      assert forall k :: 0 <= k < |before| ==> before[k] == rows[k];
      OwnersNonEmpty(before, rows[j].medium, rows[j].address);
      assert OwnerOf(before, rows[j].medium, rows[j].address).None?;
    }
  }

  /** The lowercased pair of a stored row, as the removal loop compares and deletes it. */
  function LoweredPair(t: ThreepidRecord): Pair
  {
    (Lower(t.medium), Lower(t.address))
  }

  /** The pairs the removal loop deletes among the first `n` rows of its snapshot. */
  ghost function DeletedPairs(snapshot: seq<ThreepidRecord>, external: seq<Pair>, n: nat): set<Pair>
    requires n <= |snapshot|
  {
    set k | 0 <= k < n && LoweredPair(snapshot[k]) !in external :: LoweredPair(snapshot[k])
  }

  /** Lines 121-131: afterwards the table holds exactly the rows it held before, minus the user's
      rows whose pair is one of the deleted pairs. */
  lemma {:induction false} RemoveUpToEffect(s: StoreState, userId: string, snapshot: seq<ThreepidRecord>, external: seq<Pair>, n: nat)
    requires n <= |snapshot|
    ensures forall t :: t in RemoveUpTo(s, userId, snapshot, external, n).threepids <==>
      t in s.threepids && !(t.userId == userId && (t.medium, t.address) in DeletedPairs(snapshot, external, n))
  {
    if n > 0 {
      RemoveUpToEffect(s, userId, snapshot, external, n - 1);
      var last := LoweredPair(snapshot[n - 1]);
      if last !in external {
        assert DeletedPairs(snapshot, external, n) == DeletedPairs(snapshot, external, n - 1) + {last};
      } else {
        assert DeletedPairs(snapshot, external, n) == DeletedPairs(snapshot, external, n - 1);
      }
    }
  }

  /** No incoming pair is ever deleted, and other users' rows are never touched. */
  lemma RemovalSparesIncomingAndOthers(s: StoreState, userId: string, snapshot: seq<ThreepidRecord>, external: seq<Pair>)
    ensures forall t :: t in s.threepids && ((t.medium, t.address) in external || t.userId != userId) ==>
      t in RemoveUpTo(s, userId, snapshot, external, |snapshot|).threepids
  {
    RemoveUpToEffect(s, userId, snapshot, external, |snapshot|);
  }

  /** With the user's own rows as snapshot, every stale row of the user stored in lowercase is gone. */
  lemma RemovalDropsStale(s: StoreState, userId: string, external: seq<Pair>)
    ensures var snapshot := RecordsOf(s.threepids, userId);
      forall t :: t in s.threepids && t.userId == userId && LoweredPair(t) !in external
                  && t.medium == Lower(t.medium) && t.address == Lower(t.address) ==>
        t !in RemoveUpTo(s, userId, snapshot, external, |snapshot|).threepids
  {
    var snapshot := RecordsOf(s.threepids, userId);
    RemoveUpToEffect(s, userId, snapshot, external, |snapshot|);
    forall t | t in s.threepids && t.userId == userId && LoweredPair(t) !in external
               && t.medium == Lower(t.medium) && t.address == Lower(t.address)
      ensures (t.medium, t.address) in DeletedPairs(snapshot, external, |snapshot|)
    {
      var k :| 0 <= k < |snapshot| && snapshot[k] == t;
    }
  }

  /** After the whole 3PID phase with replacement, every incoming pair is owned by somebody. */
  lemma IncomingPairsSurviveReplacement(c: RestConfig, s: StoreState, userId: string, items: seq<Json>, clock: nat -> int)
    requires Truthy(c.updateThreepid) && Truthy(c.replaceThreepid)
    requires AddUpTo(s, userId, items, clock, |items|).failure.None?
    ensures var p := AddUpTo(s, userId, items, clock, |items|);
      var snapshot := RecordsOf(p.state.threepids, userId);
      var t := RemoveUpTo(p.state.Log(UserGetThreepids(userId)), userId, snapshot, p.external, |snapshot|);
      forall k :: 0 <= k < |p.external| ==> OwnerOf(t.threepids, p.external[k].0, p.external[k].1).Some?
  {
    var p := AddUpTo(s, userId, items, clock, |items|);
    var snapshot := RecordsOf(p.state.threepids, userId);
    var start := p.state.Log(UserGetThreepids(userId));
    var t := RemoveUpTo(start, userId, snapshot, p.external, |snapshot|);
    AddUpToEffect(s, userId, items, clock, |items|);
    RemovalSparesIncomingAndOthers(start, userId, snapshot, p.external);
    forall k | 0 <= k < |p.external| ensures OwnerOf(t.threepids, p.external[k].0, p.external[k].1).Some? {
      var pair := p.external[k];
      var i :| 0 <= i < |start.threepids| && start.threepids[i].medium == pair.0 && start.threepids[i].address == pair.1;
      assert start.threepids[i] in t.threepids;
    }
  }

  /** Nothing about 3PIDs happens when updating is off or the profile lists none. */
  lemma NoThreepidChangesWithoutUpdate(c: RestConfig, s: StoreState, userId: string, profile: Json, clock: nat -> int)
    requires !Truthy(c.updateThreepid) || (profile.JObj? && "three_pids" !in profile.fields)
    ensures ThreepidStep(c, s, userId, profile, clock) == Step(s, None)
  {
  }

  /** Without replaceThreepid the phase only adds: no row is ever deleted. */
  lemma NoDeletionWithoutReplace(c: RestConfig, s: StoreState, userId: string, profile: Json, clock: nat -> int)
    requires !Truthy(c.replaceThreepid)
    ensures var t := ThreepidStep(c, s, userId, profile, clock).state;
      |s.threepids| <= |t.threepids| && t.threepids[..|s.threepids|] == s.threepids
  {
    if Truthy(c.updateThreepid) && profile.JObj? && "three_pids" in profile.fields {
      var list := profile.fields["three_pids"];
      if Elements(list).Ok? {
        var items := Elements(list).value;
        var p := AddUpTo(s, userId, items, clock, |items|);
        if p.failure.None? {
          AddUpToEffect(s, userId, items, clock, |items|);
        } else {
          AddUpToPrefix(s, userId, items, clock, |items|);
        }
      }
    }
  }

  /** Even a loop that raised part-way keeps the old rows in place. */
  lemma {:induction false} AddUpToPrefix(s: StoreState, userId: string, items: seq<Json>, clock: nat -> int, n: nat)
    requires n <= |items|
    ensures var t := AddUpTo(s, userId, items, clock, n).state.threepids;
      |s.threepids| <= |t| && t[..|s.threepids|] == s.threepids
  {
    if n > 0 {
      AddUpToPrefix(s, userId, items, clock, n - 1);
      var before := AddUpTo(s, userId, items, clock, n - 1);
      var prev := before.state.threepids;
      var t := AddUpTo(s, userId, items, clock, n).state.threepids;
      assert |prev| <= |t| && t[..|prev|] == prev by {
        if before.failure.None? {
          AddOneExtends(before, userId, items[n - 1], clock(n - 1));
        }
      }
      assert t[..|s.threepids|] == prev[..|s.threepids|];
    }
  }

  /** One iteration only ever appends to the stored 3PIDs. */
  lemma AddOneExtends(p: AddProgress, userId: string, item: Json, now: int)
    ensures var t := AddOne(p, userId, item, now).state.threepids;
      |p.state.threepids| <= |t| && t[..|p.state.threepids|] == p.state.threepids
  {
    var t := AddOne(p, userId, item, now).state.threepids;
    if ParseThreepid(item).Ok? {
      var pair := ParseThreepid(item).value;
      if NoOwner(OwnerOf(p.state.threepids, pair.0, pair.1)) {
        assert t == p.state.threepids + [ThreepidRecord(userId, pair.0, pair.1, now, now)];
      }
    }
  }
}
