/** What re-running seeds repairs, and what it cannot. */
module SeedRecovery {
  import opened RbacModel
  import opened GrantMigrations
  import opened BackfillMigrations
  import opened SeedModel

  // ---- The two patterns ----

  /** Once its permissions exist a no-fallback seed does nothing, whatever roles have appeared. */
  lemma NoFallbackRerunIsNoOp(a: Rbac, entries: seq<Entry>, later: set<Code>)
    requires Codes(entries) <= a.perms
    ensures RunItems(WithRoles(a, later), Tagged(NoFallback, entries)) == WithRoles(a, later)
  {
    var b := WithRoles(a, later);
    var items := Tagged(NoFallback, entries);
    RunItemsClosed(b, items);
    forall i | 0 <= i < |items| ensures items[i].entry.code in b.perms {
      assert entries[i] in entries;
    }
    assert RunItems(b, items).perms == b.perms;
    assert RunItems(b, items).grants == b.grants;
  }

  lemma NoFallbackIsIdempotent(a: Rbac, entries: seq<Entry>)
    ensures RunItems(RunItems(a, Tagged(NoFallback, entries)), Tagged(NoFallback, entries))
         == RunItems(a, Tagged(NoFallback, entries))
  {
    var items := Tagged(NoFallback, entries);
    var b := RunItems(a, items);
    RunItemsClosed(a, items);
    RunItemsClosed(b, items);
    forall i | 0 <= i < |items| ensures items[i].entry.code in b.perms {
      assert Inserts(items, items[i].entry.code);
    }
    assert RunItems(b, items).perms == b.perms;
    assert RunItems(b, items).grants == b.grants;
  }

  /** A fallback seed does what a backfill with the same entries does, so it is idempotent and
      catches up on roles that have appeared since (BackfillIsIdempotent, FallbackCatchesUp). */
  lemma FallbackIsBackfill(a: Rbac, entries: seq<Entry>)
    ensures RunItems(a, Tagged(Fallback, entries)) == Backfilled(a, entries)
  {
    var items := Tagged(Fallback, entries);
    RunItemsClosed(a, items);
    var b, c := RunItems(a, items), Backfilled(a, entries);
    forall x ensures x in b.perms <==> x in c.perms {
      if x in Codes(entries) {
        var i :| 0 <= i < |entries| && entries[i].code == x;
        assert items[i].entry.code == x;
      }
    }
    assert b.perms == c.perms;
    forall g: Pair ensures g in b.grants <==> g in c.grants {
      InBackfilled(a, entries, g);
      if Lists(entries, g.0, g.1) {
        var i :| 0 <= i < |entries| && entries[i].code == g.1 && g.0 in entries[i].roles;
        assert FiresAt(items, g.1 in a.perms, i);
      }
    }
    assert b.grants == c.grants;
  }

  /** The early commit makes a difference exactly when the first permission exists and another
      of the seed's is missing: a plain seed would have inserted it. */
  lemma EarlyCommitMattersIff(a: Rbac, entries: seq<Entry>)
    requires entries != []
    ensures RunSeed(a, Seed(true, Tagged(NoFallback, entries))) == RunSeed(a, Seed(false, Tagged(NoFallback, entries)))
        <==> (entries[0].code in a.perms ==> Codes(entries) <= a.perms)
  {
    var items := Tagged(NoFallback, entries);
    RunItemsClosed(a, items);
    if entries[0].code in a.perms {
      if Codes(entries) <= a.perms {
        NoFallbackRerunIsNoOp(a, entries, {});
        assert WithRoles(a, {}).roles == a.roles;
      } else {
        var e :| e in entries && e.code !in a.perms;
        var i :| 0 <= i < |entries| && entries[i] == e;
        assert items[i].entry == e;
        assert e.code in RunItems(a, items).perms;
      }
    }
  }

  // ---- Recovery after failed seeds ----

  function Flat(batches: seq<seq<Item>>): seq<Item> {
    if batches == [] then [] else Flat(batches[..|batches| - 1]) + batches[|batches| - 1]
  }

  function PlainSeeds(batches: seq<seq<Item>>): seq<Seed> {
    seq(|batches|, i requires 0 <= i < |batches| => Seed(false, batches[i]))
  }

  lemma {:induction false} RunSeedsFlat(a: Rbac, batches: seq<seq<Item>>)
    ensures RunSeeds(a, PlainSeeds(batches)) == RunItems(a, Flat(batches))
  {
    if batches != [] {
      var last := |batches| - 1;
      RunSeedsFlat(a, batches[..last]);
      assert PlainSeeds(batches)[..last] == PlainSeeds(batches[..last]);
      RunItemsAppend(a, Flat(batches[..last]), batches[last]);
    }
  }

  lemma {:induction false} SucceededPlain(batches: seq<seq<Item>>, ok: seq<bool>)
    requires |batches| == |ok|
    ensures Succeeded(PlainSeeds(batches), ok) == PlainSeeds(Succeeded(batches, ok))
  {
    if batches != [] {
      var last := |batches| - 1;
      SucceededPlain(batches[..last], ok[..last]);
      assert PlainSeeds(batches)[..last] == PlainSeeds(batches[..last]);
    }
  }

  /** First a run in which some seeds failed, then a run in which none does. */
  function Recovered(a: Rbac, batches: seq<seq<Item>>, ok: seq<bool>): Rbac
    requires |batches| == |ok|
  {
    RunSeeds(RunSeeds(a, Succeeded(PlainSeeds(batches), ok)), PlainSeeds(batches))
  }

  /** For each code that is new, each seed that can be the first to insert it: what this seed
      grants alone, plus whatever fallback and external items list, is what a clean run grants. */
  predicate SeedIsReplaceable(a: Rbac, batches: seq<seq<Item>>, k: nat, c: Code, role: Code)
    requires k < |batches|
  {
    Reaches(Flat(batches), false, c, role) <==> Reaches(batches[k], false, c, role) || Reaches(Flat(batches), true, c, role)
  }

  ghost predicate Recoverable(a: Rbac, batches: seq<seq<Item>>) {
    forall k: nat, c, role ::
      k < |batches| && c !in a.perms && Inserts(batches[k], c) && Active(a, role) ==>
      SeedIsReplaceable(a, batches, k, c, role)
  }

  lemma {:induction false} SucceededReaches(batches: seq<seq<Item>>, ok: seq<bool>, c: Code, role: Code)
    requires |batches| == |ok| && Reaches(Flat(Succeeded(batches, ok)), true, c, role)
    ensures Reaches(Flat(batches), true, c, role)
  {
    if batches != [] {
      var last := |batches| - 1;
      var before := Succeeded(batches[..last], ok[..last]);
      ReachesAppend(Flat(batches[..last]), batches[last], true, c, role);
      FlatSnoc(before, batches[last]);
      ReachesAppend(Flat(before), batches[last], true, c, role);
      if Reaches(Flat(before), true, c, role) {
        assert before + [] == before;
        SucceededReaches(batches[..last], ok[..last], c, role);
      } else {
        assert before + [] == before;
      }
    }
  }

  lemma FlatSnoc(batches: seq<seq<Item>>, batch: seq<Item>)
    ensures Flat(batches + [batch]) == Flat(batches) + batch
  {
    assert (batches + [batch])[..|batches|] == batches;
  }

  /** The first succeeded seed that inserts `c` decides; everything after it is fallback or external. */
  lemma {:induction false} FirstInserterDecides(batches: seq<seq<Item>>, ok: seq<bool>, c: Code) returns (k: nat)
    requires |batches| == |ok|
    ensures !Inserts(Flat(Succeeded(batches, ok)), c) ==>
              forall role :: !Reaches(Flat(Succeeded(batches, ok)), false, c, role)
    ensures Inserts(Flat(Succeeded(batches, ok)), c) ==>
              && k < |batches| && Inserts(batches[k], c)
              && forall role :: Reaches(Flat(Succeeded(batches, ok)), false, c, role) || Reaches(Flat(batches), true, c, role)
                           <==> Reaches(batches[k], false, c, role) || Reaches(Flat(batches), true, c, role)
  {
    k := 0;
    if batches != [] {
      var last := |batches| - 1;
      var before := Succeeded(batches[..last], ok[..last]);
      k := FirstInserterDecides(batches[..last], ok[..last], c);
      assert before + [] == before;
      FlatSnoc(before, batches[last]);
      InsertsAppend(Flat(before), batches[last], c);
      if ok[last] && !Inserts(Flat(before), c) {
        k := last;
      }
      var some := Flat(Succeeded(batches, ok));
      forall role: Code
        ensures Inserts(some, c) ==>
                  (Reaches(some, false, c, role) || Reaches(Flat(batches), true, c, role) <==>
                   Reaches(batches[k], false, c, role) || Reaches(Flat(batches), true, c, role))
        ensures !Inserts(some, c) ==> !Reaches(some, false, c, role)
      {
        ReachesAppend(Flat(before), batches[last], false, c, role);
        ReachesAppend(Flat(batches[..last]), batches[last], true, c, role);
        QuietWithoutInsert(some, c, role);
        QuietWithoutInsert(Flat(before), c, role);
      }
    }
  }

  /** Starting without the code, nothing fires before something inserts it. */
  lemma QuietWithoutInsert(items: seq<Item>, c: Code, role: Code)
    ensures !Inserts(items, c) ==> !Reaches(items, false, c, role)
  {
    if Reaches(items, false, c, role) {
      var i :| 0 <= i < |items| && items[i].entry.code == c && role in items[i].entry.roles && FiresAt(items, false, i);
      if items[i].kind.External? {
        var j :| 0 <= j < i && !items[..i][j].kind.External? && items[..i][j].entry.code == c;
        assert items[j] == items[..i][j];
      }
    }
  }

  /** What the failed run and the clean run after it leave, one grant at a time. */
  lemma RecoveredClosed(a: Rbac, batches: seq<seq<Item>>, ok: seq<bool>)
    requires |batches| == |ok|
    ensures var some, all := Flat(Succeeded(batches, ok)), Flat(batches);
      && Recovered(a, batches, ok) == RunItems(RunItems(a, some), all)
      && RunSeeds(a, PlainSeeds(batches)) == RunItems(a, all)
      && forall c :: Inserts(some, c) ==> Inserts(all, c)
  {
    SucceededPlain(batches, ok);
    RunSeedsFlat(a, Succeeded(batches, ok));
    RunSeedsFlat(a, batches);
    RunSeedsFlat(RunItems(a, Flat(Succeeded(batches, ok))), batches);
    forall c | Inserts(Flat(Succeeded(batches, ok)), c) ensures Inserts(Flat(batches), c) {
      SucceededInserts(batches, ok, c);
    }
  }

  lemma {:induction false} SucceededInserts(batches: seq<seq<Item>>, ok: seq<bool>, c: Code)
    requires |batches| == |ok| && Inserts(Flat(Succeeded(batches, ok)), c)
    ensures Inserts(Flat(batches), c)
  {
    if batches != [] {
      var last := |batches| - 1;
      var before := Succeeded(batches[..last], ok[..last]);
      assert before + [] == before;
      FlatSnoc(before, batches[last]);
      InsertsAppend(Flat(before), batches[last], c);
      InsertsAppend(Flat(batches[..last]), batches[last], c);
      if Inserts(Flat(before), c) {
        SucceededInserts(batches[..last], ok[..last], c);
      }
    }
  }

  lemma RecoveredGrant(a: Rbac, batches: seq<seq<Item>>, ok: seq<bool>, g: Pair)
    requires |batches| == |ok| && Recoverable(a, batches)
    ensures g in Recovered(a, batches, ok).grants <==> g in RunSeeds(a, PlainSeeds(batches)).grants
  {
    var some, all := Flat(Succeeded(batches, ok)), Flat(batches);
    RecoveredClosed(a, batches, ok);
    RunItemsClosed(a, some);
    RunItemsClosed(RunItems(a, some), all);
    RunItemsClosed(a, all);
    var c, role := g.1, g.0;
    assert Active(RunItems(a, some), role) <==> Active(a, role);
    if c in a.perms {
      if Reaches(some, true, c, role) {
        SucceededReaches(batches, ok, c, role);
      }
    } else {
      var k := FirstInserterDecides(batches, ok, c);
      if Inserts(some, c) && Active(a, role) {
        assert SeedIsReplaceable(a, batches, k, c, role);
      }
    }
  }

  /** Only seed `k` succeeds. */
  lemma {:induction false} OnlyOneSucceeds(batches: seq<seq<Item>>, k: nat) returns (ok: seq<bool>)
    ensures |ok| == |batches|
    ensures Flat(Succeeded(batches, ok)) == if k < |batches| then batches[k] else []
    decreases |batches|
  {
    if batches == [] {
      return [];
    }
    var last := |batches| - 1;
    var init := batches[..last];
    ok := OnlyOneSucceeds(init, k);
    assert batches == init + [batches[last]];
    OnlyOneMore(init, batches[last], ok, last == k);
    ok := ok + [last == k];
  }

  lemma OnlyOneMore(all: seq<seq<Item>>, last: seq<Item>, ok: seq<bool>, done: bool)
    requires |all| == |ok| && (done ==> Flat(Succeeded(all, ok)) == [])
    ensures Flat(Succeeded(all + [last], ok + [done])) == if done then last else Flat(Succeeded(all, ok))
  {
    SucceededSnoc(all, last, ok, done);
    FlatSnoc(Succeeded(all, ok), last);
    assert [] + last == last;
  }

  lemma SucceededSnoc<T>(all: seq<T>, last: T, ok: seq<bool>, done: bool)
    requires |all| == |ok|
    ensures Succeeded(all + [last], ok + [done]) == if done then Succeeded(all, ok) + [last] else Succeeded(all, ok)
  {
    assert (all + [last])[..|all|] == all && (ok + [done])[..|ok|] == ok;
    assert Succeeded(all, ok) + [] == Succeeded(all, ok);
  }

  /**
   * Crash recovery, exactly: a clean run after an arbitrary pattern of failures always reaches
   * the state a never-failing run would have reached, if and only if every seed is replaceable.
   * Checking one seed at a time decides all 2^n patterns.
   */
  lemma RecoveryIff(a: Rbac, batches: seq<seq<Item>>)
    requires WellFormed(a)
    ensures (forall ok :: |ok| == |batches| ==> Recovered(a, batches, ok) == RunSeeds(a, PlainSeeds(batches)))
        <==> Recoverable(a, batches)
  {
    if Recoverable(a, batches) {
      forall ok | |ok| == |batches| ensures Recovered(a, batches, ok) == RunSeeds(a, PlainSeeds(batches)) {
        RecoverableRecovers(a, batches, ok);
      }
    }
    if forall ok :: |ok| == |batches| ==> Recovered(a, batches, ok) == RunSeeds(a, PlainSeeds(batches)) {
      forall k: nat, c, role | k < |batches| && c !in a.perms && Inserts(batches[k], c) && Active(a, role)
        ensures SeedIsReplaceable(a, batches, k, c, role)
      {
        var ok := OnlyOneSucceeds(batches, k);
        assert Recovered(a, batches, ok) == RunSeeds(a, PlainSeeds(batches));
        RecoveredClosed(a, batches, ok);
        RunItemsClosed(a, batches[k]);
        RunItemsClosed(RunItems(a, batches[k]), Flat(batches));
        RunItemsClosed(a, Flat(batches));
        var g := (role, c);
        assert g !in a.grants;
        assert g in Recovered(a, batches, ok).grants <==> g in RunSeeds(a, PlainSeeds(batches)).grants;
      }
    }
  }

  lemma RecoverableRecovers(a: Rbac, batches: seq<seq<Item>>, ok: seq<bool>)
    requires |batches| == |ok| && Recoverable(a, batches)
    ensures Recovered(a, batches, ok) == RunSeeds(a, PlainSeeds(batches))
  {
    var x, y := Recovered(a, batches, ok), RunSeeds(a, PlainSeeds(batches));
    RecoveredClosed(a, batches, ok);
    RunItemsClosed(a, Flat(Succeeded(batches, ok)));
    RunItemsClosed(RunItems(a, Flat(Succeeded(batches, ok))), Flat(batches));
    RunItemsClosed(a, Flat(batches));
    assert x.perms == y.perms;
    forall g: Pair ensures g in x.grants <==> g in y.grants {
      RecoveredGrant(a, batches, ok, g);
    }
    assert x.grants == y.grants;
  }

  // ---- A condition one can read off the seed list ----

  ghost predicate ExternalsFollow(items: seq<Item>, c: Code) {
    forall i :: 0 <= i < |items| && items[i].kind.External? && items[i].entry.code == c ==> Inserts(items[..i], c)
  }

  ghost predicate OnlyFallback(items: seq<Item>, c: Code) {
    forall i :: 0 <= i < |items| && items[i].entry.code == c ==> !items[i].kind.NoFallback?
  }

  ghost predicate OneInserter(batches: seq<seq<Item>>, c: Code) {
    forall k, l :: 0 <= k < |batches| && 0 <= l < |batches| && Inserts(batches[k], c) && Inserts(batches[l], c) ==> k == l
  }

  /** If external items come after an inserter, every fallback and external item fires. */
  lemma FollowersFire(items: seq<Item>, c: Code, role: Code)
    requires ExternalsFollow(items, c) && Reaches(items, true, c, role)
    ensures Reaches(items, false, c, role)
  {
    var i :| 0 <= i < |items| && items[i].entry.code == c && role in items[i].entry.roles && FiresAt(items, true, i);
    assert FiresAt(items, false, i);
  }

  lemma OnlyFallbackFires(items: seq<Item>, c: Code, role: Code)
    requires OnlyFallback(items, c) && Reaches(items, false, c, role)
    ensures Reaches(items, true, c, role)
  {
    var i :| 0 <= i < |items| && items[i].entry.code == c && role in items[i].entry.roles && FiresAt(items, false, i);
    assert FiresAt(items, true, i);
  }

  lemma {:induction false} BatchIsOnlyFallback(batches: seq<seq<Item>>, k: nat, c: Code)
    requires k < |batches| && OnlyFallback(Flat(batches), c)
    ensures OnlyFallback(batches[k], c)
  {
    var last := |batches| - 1;
    var x, y := Flat(batches[..last]), batches[last];
    if k == last {
      forall i | 0 <= i < |y| && y[i].entry.code == c ensures !y[i].kind.NoFallback? {
        assert (x + y)[|x| + i] == y[i];
      }
    } else {
      forall i | 0 <= i < |x| && x[i].entry.code == c ensures !x[i].kind.NoFallback? {
        assert (x + y)[i] == x[i];
      }
      BatchIsOnlyFallback(batches[..last], k, c);
    }
  }

  lemma {:induction false} BatchReaches(batches: seq<seq<Item>>, k: nat, c: Code, role: Code)
    requires k < |batches| && Reaches(batches[k], true, c, role)
    ensures Reaches(Flat(batches), true, c, role)
  {
    var last := |batches| - 1;
    ReachesAppend(Flat(batches[..last]), batches[last], true, c, role);
    if k < last {
      BatchReaches(batches[..last], k, c, role);
    }
  }

  /** With one inserting seed a clean run grants what that seed grants, and then the rest. */
  lemma {:induction false} OneInserterDecides(batches: seq<seq<Item>>, k: nat, c: Code, role: Code)
    requires OneInserter(batches, c) && k < |batches| && Inserts(batches[k], c)
    ensures Reaches(batches[k], false, c, role) ==> Reaches(Flat(batches), false, c, role)
    ensures Reaches(Flat(batches), false, c, role) ==>
              Reaches(batches[k], false, c, role) || Reaches(Flat(batches), true, c, role)
    ensures Inserts(Flat(batches), c)
  {
    var last := |batches| - 1;
    var x, y := Flat(batches[..last]), batches[last];
    ReachesAppend(x, y, false, c, role);
    ReachesAppend(x, y, true, c, role);
    InsertsAppend(x, y, c);
    if k == last {
      NoInserterInFlat(batches[..last], c);
      QuietWithoutInsert(x, c, role);
    } else {
      OneInserterDecides(batches[..last], k, c, role);
    }
  }

  lemma {:induction false} NoInserterInFlat(batches: seq<seq<Item>>, c: Code)
    requires forall k :: 0 <= k < |batches| ==> !Inserts(batches[k], c)
    ensures !Inserts(Flat(batches), c)
  {
    if batches != [] {
      NoInserterInFlat(batches[..|batches| - 1], c);
      InsertsAppend(Flat(batches[..|batches| - 1]), batches[|batches| - 1], c);
    }
  }

  /** Enough for recovery: each new code is inserted by one seed or only by fallback items, and
      external items come after an inserter of their code. */
  lemma OneSeedOrFallbackRecovers(a: Rbac, batches: seq<seq<Item>>, ok: seq<bool>)
    requires |ok| == |batches|
    requires forall c :: c !in a.perms ==>
               (OneInserter(batches, c) || OnlyFallback(Flat(batches), c)) && ExternalsFollow(Flat(batches), c)
    ensures Recovered(a, batches, ok) == RunSeeds(a, PlainSeeds(batches))
  {
    forall k: nat, c, role | k < |batches| && c !in a.perms && Inserts(batches[k], c) && Active(a, role)
      ensures SeedIsReplaceable(a, batches, k, c, role)
    {
      if Reaches(Flat(batches), true, c, role) {
        FollowersFire(Flat(batches), c, role);
      }
      if OneInserter(batches, c) {
        OneInserterDecides(batches, k, c, role);
      } else {
        BatchIsOnlyFallback(batches, k, c);
        if Reaches(Flat(batches), false, c, role) {
          OnlyFallbackFires(Flat(batches), c, role);
        }
        if Reaches(batches[k], false, c, role) {
          OnlyFallbackFires(batches[k], c, role);
          BatchReaches(batches, k, c, role);
        }
      }
    }
    RecoverableRecovers(a, batches, ok);
  }

  lemma TwoSeeds(x: seq<Item>, y: seq<Item>)
    ensures Flat([x, y]) == x + y && Succeeded([x, y], [true, true]) == [x, y]
  {
    assert [x, y][..1] == [x] && [x, y][..1][..0] == [] && [true, true][..1] == [true];
    assert Flat([x]) == Flat([]) + x == x;
    assert Succeeded([x], [true]) == [x];
  }

  /** An external grant before the permission's inserter fires if the permission is there. */
  lemma ExternalThenOwned(c: Code, early: Code, owner: Code)
    requires early != owner
    ensures var items := [Item(External, Entry(c, "", [early]))] + [Item(Fallback, Entry(c, "", [owner]))];
      !Reaches(items, false, c, early) && Reaches(items, true, c, early) && Inserts(items, c)
  {
    var first, second := Item(External, Entry(c, "", [early])), Item(Fallback, Entry(c, "", [owner]));
    LastItem(first, false, c, early);
    LastItem(second, false, c, early);
    LastItem(first, true, c, early);
    ReachesAppend([first], [second], false, c, early);
    ReachesAppend([first], [second], true, c, early);
    assert ([first] + [second])[1] == second;
  }

  /** The order of external items cannot be dropped: an external grant that runs before its
      permission is inserted takes effect only when the seeds are run again. */
  lemma ExternalBeforeInserterIsNotRecovered(c: Code, early: Code, owner: Code)
    requires early != owner
    ensures var a := Rbac({}, map[early := true, owner := true], {}, {});
      var batches := [[Item(External, Entry(c, "", [early]))], [Item(Fallback, Entry(c, "", [owner]))]];
      && (forall d :: OneInserter(batches, d))
      && Recovered(a, batches, [true, true]) != RunSeeds(a, PlainSeeds(batches))
  {
    var a := Rbac({}, map[early := true, owner := true], {}, {});
    var first, second := Item(External, Entry(c, "", [early])), Item(Fallback, Entry(c, "", [owner]));
    var items := [first] + [second];
    TwoSeeds([first], [second]);
    RecoveredClosed(a, [[first], [second]], [true, true]);
    ExternalThenOwned(c, early, owner);
    SecondRunGrants(a, items, c, early);
    OneInserterEach(first, second);
  }

  /** A grant that only the second of two runs of the same items makes. */
  lemma SecondRunGrants(a: Rbac, items: seq<Item>, c: Code, role: Code)
    requires Active(a, role) && c !in a.perms && (role, c) !in a.grants && Inserts(items, c)
    requires !Reaches(items, false, c, role) && Reaches(items, true, c, role)
    ensures RunItems(RunItems(a, items), items) != RunItems(a, items)
  {
    var once := RunItems(a, items);
    RunItemsClosed(a, items);
    RunItemsClosed(once, items);
    var g: Pair := (role, c);
    assert g in RunItems(once, items).grants && g !in once.grants;
  }

  lemma OneInserterEach(external: Item, inserter: Item)
    requires external.kind.External?
    ensures forall d :: OneInserter([[external], [inserter]], d)
  {
    forall d ensures !Inserts([external], d) {}
  }
}
