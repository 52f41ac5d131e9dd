/** Recovery for every seed list, seeds with the early commit included. */
module GuardedRecovery {
  import opened RbacModel
  import opened GrantMigrations
  import opened BackfillMigrations
  import opened SeedModel
  import opened SeedRecovery

  // ---- Which items a run attempts ----

  /** All items of a list of seeds, in order. */
  function AllItems(seeds: seq<Seed>): seq<Item> {
    if seeds == [] then [] else AllItems(seeds[..|seeds| - 1]) + seeds[|seeds| - 1].items
  }

  /** The items that a run from the permissions `present` gets to: a guarded seed whose tested
      permission is there by then is skipped. Roles and grants play no part in it. */
  function Attempted(seeds: seq<Seed>, present: set<Code>): seq<Item> {
    if seeds == [] then []
    else
      var before, seed := Attempted(seeds[..|seeds| - 1], present), seeds[|seeds| - 1];
      if seed.guarded && seed.items != [] &&
         (seed.items[0].entry.code in present || Inserts(before, seed.items[0].entry.code))
      then before else before + seed.items
  }

  /** Any list of seeds, early commits included, runs as the items it attempts. */
  lemma {:induction false} RunIsAttempted(a: Rbac, seeds: seq<Seed>)
    ensures RunSeeds(a, seeds) == RunItems(a, Attempted(seeds, a.perms))
  {
    if seeds != [] {
      var init, seed := seeds[..|seeds| - 1], seeds[|seeds| - 1];
      RunIsAttempted(a, init);
      RunItemsClosed(a, Attempted(init, a.perms));
      RunItemsAppend(a, Attempted(init, a.perms), seed.items);
    }
  }

  // ---- Recovery after failed seeds ----

  predicate Guards(seed: Seed, present: set<Code>) {
    seed.guarded && seed.items != [] && seed.items[0].entry.code in present
  }

  /** What a seed amounts to on a database that starts with the permissions `present`. */
  function Effective(seed: Seed, present: set<Code>): seq<Item> {
    if Guards(seed, present) then [] else seed.items
  }

  function Batches(seeds: seq<Seed>, present: set<Code>): seq<seq<Item>> {
    seq(|seeds|, i requires 0 <= i < |seeds| => Effective(seeds[i], present))
  }

  predicate AllNoFallback(items: seq<Item>) {
    forall i :: 0 <= i < |items| ==> items[i].kind.NoFallback?
  }

  /** A guarded seed has no-fallback items only, and no other seed inserts the permission it
      tests, unless that is there from the start. */
  ghost predicate GuardsOwnPermission(seeds: seq<Seed>, present: set<Code>) {
    forall k :: 0 <= k < |seeds| && seeds[k].guarded && seeds[k].items != [] && !Guards(seeds[k], present) ==>
      && AllNoFallback(seeds[k].items)
      && forall l :: 0 <= l < |seeds| && Inserts(seeds[l].items, seeds[k].items[0].entry.code) ==> l == k
  }

  /** Every permission of the seed is there. */
  predicate AllThere(seed: Seed, perms: set<Code>) {
    forall i :: 0 <= i < |seed.items| ==> seed.items[i].entry.code in perms
  }

  /** Between seeds: a guarded seed's tested permission is there only if the seed has run. */
  ghost predicate BetweenSeeds(seeds: seq<Seed>, present: set<Code>, b: Rbac) {
    && present <= b.perms
    && forall k :: 0 <= k < |seeds| && Guards(seeds[k], b.perms) && !Guards(seeds[k], present) ==>
         AllThere(seeds[k], b.perms)
  }

  lemma AllThereIsNoOp(b: Rbac, items: seq<Item>)
    requires AllNoFallback(items) && forall i :: 0 <= i < |items| ==> items[i].entry.code in b.perms
    ensures RunItems(b, items) == b
  {
    RunItemsClosed(b, items);
    assert RunItems(b, items).perms == b.perms;
    assert RunItems(b, items).grants == b.grants;
  }

  lemma SeedIsEffective(seeds: seq<Seed>, present: set<Code>, b: Rbac, k: nat)
    requires GuardsOwnPermission(seeds, present) && BetweenSeeds(seeds, present, b) && k < |seeds|
    ensures RunSeed(b, seeds[k]) == RunItems(b, Effective(seeds[k], present))
  {
    if Guards(seeds[k], b.perms) && !Guards(seeds[k], present) {
      AllThereIsNoOp(b, seeds[k].items);
    }
  }

  lemma SeedKeepsBetween(seeds: seq<Seed>, present: set<Code>, b: Rbac, k: nat)
    requires GuardsOwnPermission(seeds, present) && BetweenSeeds(seeds, present, b) && k < |seeds|
    ensures BetweenSeeds(seeds, present, RunSeed(b, seeds[k]))
  {
    SeedIsEffective(seeds, present, b, k);
    var items := Effective(seeds[k], present);
    var c := RunItems(b, items);
    RunItemsClosed(b, items);
    forall j | 0 <= j < |seeds| && Guards(seeds[j], c.perms) && !Guards(seeds[j], present)
      ensures AllThere(seeds[j], c.perms)
    {
      if !Guards(seeds[j], b.perms) {
        assert Inserts(items, seeds[j].items[0].entry.code);
        assert items == seeds[k].items && j == k;
        forall i | 0 <= i < |items| ensures items[i].entry.code in c.perms {
          assert !items[i].kind.External?;
        }
      }
    }
  }

  lemma {:induction false} RunIsEffective(seeds: seq<Seed>, present: set<Code>, b: Rbac, ok: seq<bool>, n: nat)
    requires GuardsOwnPermission(seeds, present) && BetweenSeeds(seeds, present, b) && n <= |seeds| == |ok|
    ensures var after := RunSeeds(b, Succeeded(seeds[..n], ok[..n]));
      && BetweenSeeds(seeds, present, after)
      && after == RunSeeds(b, Succeeded(PlainSeeds(Batches(seeds, present))[..n], ok[..n]))
  {
    if n > 0 {
      var plain := PlainSeeds(Batches(seeds, present));
      RunIsEffective(seeds, present, b, ok, n - 1);
      var before := RunSeeds(b, Succeeded(seeds[..n - 1], ok[..n - 1]));
      assert ok[..n] == ok[..n - 1] + [ok[n - 1]];
      SucceededOneMore(seeds, n - 1, ok[..n - 1], ok[n - 1], b);
      SucceededOneMore(plain, n - 1, ok[..n - 1], ok[n - 1], b);
      SeedIsEffective(seeds, present, before, n - 1);
      SeedKeepsBetween(seeds, present, before, n - 1);
    }
  }

  lemma {:induction false} AllTrue(n: nat) returns (ok: seq<bool>)
    ensures |ok| == n && CountTrue(ok) == n
  {
    ok := [];
    if n > 0 {
      var init := AllTrue(n - 1);
      ok := init + [true];
      assert ok[..n - 1] == init;
    }
  }

  lemma CleanRunIsEffective(seeds: seq<Seed>, present: set<Code>, b: Rbac)
    requires GuardsOwnPermission(seeds, present) && BetweenSeeds(seeds, present, b)
    ensures RunSeeds(b, seeds) == RunSeeds(b, PlainSeeds(Batches(seeds, present)))
  {
    var n := |seeds|;
    var plain := PlainSeeds(Batches(seeds, present));
    var ok := AllTrue(n);
    AllSucceededIff(seeds, ok);
    AllSucceededIff(plain, ok);
    RunIsEffective(seeds, present, b, ok, n);
    assert seeds[..n] == seeds && ok[..n] == ok && plain[..n] == plain;
  }

  lemma RecoveredIsEffective(a: Rbac, seeds: seq<Seed>, ok: seq<bool>)
    requires GuardsOwnPermission(seeds, a.perms) && |ok| == |seeds|
    ensures RunSeeds(RunSeeds(a, Succeeded(seeds, ok)), seeds) == Recovered(a, Batches(seeds, a.perms), ok)
  {
    var n := |seeds|;
    var plain := PlainSeeds(Batches(seeds, a.perms));
    assert seeds[..n] == seeds && ok[..n] == ok && plain[..n] == plain;
    RunIsEffective(seeds, a.perms, a, ok, n);
    CleanRunIsEffective(seeds, a.perms, RunSeeds(a, Succeeded(seeds, ok)));
  }

  /**
   * Crash recovery for run-seeds as it is, early commits included: for every pattern of failed
   * seeds, a later clean run reaches what a never-failing run would have reached, if and only if
   * each effective seed is replaceable.
   */
  lemma SeedListRecoversIff(a: Rbac, seeds: seq<Seed>)
    requires WellFormed(a) && GuardsOwnPermission(seeds, a.perms)
    ensures (forall ok :: |ok| == |seeds| ==> RunSeeds(RunSeeds(a, Succeeded(seeds, ok)), seeds) == RunSeeds(a, seeds))
        <==> Recoverable(a, Batches(seeds, a.perms))
  {
    var batches := Batches(seeds, a.perms);
    CleanRunIsEffective(seeds, a.perms, a);
    forall ok | |ok| == |seeds|
      ensures RunSeeds(RunSeeds(a, Succeeded(seeds, ok)), seeds) == Recovered(a, batches, ok)
    {
      RecoveredIsEffective(a, seeds, ok);
    }
    RecoveryIff(a, batches);
  }

  /** The three seed functions meet the requirement as soon as no other seed inserts the first
      permission of a MeetingEnd seed. */
  lemma SeedFunctionsGuardTheirOwn(fs: seq<SeedFunction>, present: set<Code>)
    requires forall k, l ::
               (0 <= k < |fs| && 0 <= l < |fs| && fs[k].MeetingEnd? && fs[k].first.code !in present &&
                Inserts(SeedOf(fs[l]).items, fs[k].first.code)) ==> k == l
    ensures GuardsOwnPermission(SeedsOf(fs), present)
  {
    forall k | 0 <= k < |fs| && fs[k].MeetingEnd? ensures AllNoFallback(SeedOf(fs[k]).items) {}
  }

  // ---- Lists in which any seed may insert what another tests ----

  /** The items of both runs, when `ok` says which seeds succeed in the first one. */
  function AttemptedTwice(seeds: seq<Seed>, present: set<Code>, ok: seq<bool>): seq<Item>
    requires |ok| == |seeds|
  {
    var first := Attempted(Succeeded(seeds, ok), present);
    first + Attempted(seeds, present + Inserted(first))
  }

  function Inserted(items: seq<Item>): set<Code> {
    set item | item in items && !item.kind.External? :: item.entry.code
  }

  lemma InsertedIff(items: seq<Item>, c: Code)
    ensures c in Inserted(items) <==> Inserts(items, c)
  {
    if Inserts(items, c) {
      var i :| 0 <= i < |items| && !items[i].kind.External? && items[i].entry.code == c;
      assert items[i] in items;
    }
  }

  /** The two runs insert and grant what one clean run does: read off the seed list, the
      permissions and grants there are, and the active roles. */
  ghost predicate PatternRecovers(a: Rbac, seeds: seq<Seed>, ok: seq<bool>)
    requires |ok| == |seeds|
  {
    var both, clean := AttemptedTwice(seeds, a.perms, ok), Attempted(seeds, a.perms);
    && (forall c :: c !in a.perms ==> (Inserts(both, c) <==> Inserts(clean, c)))
    && (forall role, c :: Active(a, role) && (role, c) !in a.grants ==>
          (Reaches(both, c in a.perms, c, role) <==> Reaches(clean, c in a.perms, c, role)))
  }

  lemma TwoRunsAreAttempted(a: Rbac, seeds: seq<Seed>, ok: seq<bool>)
    requires |ok| == |seeds|
    ensures RunSeeds(RunSeeds(a, Succeeded(seeds, ok)), seeds) == RunItems(a, AttemptedTwice(seeds, a.perms, ok))
  {
    var first := Attempted(Succeeded(seeds, ok), a.perms);
    RunIsAttempted(a, Succeeded(seeds, ok));
    var b := RunItems(a, first);
    RunItemsClosed(a, first);
    forall c ensures c in b.perms <==> c in a.perms + Inserted(first) {
      InsertedIff(first, c);
    }
    assert b.perms == a.perms + Inserted(first);
    RunIsAttempted(b, seeds);
    RunItemsAppend(a, first, Attempted(seeds, b.perms));
  }

  lemma SameItemsIff(a: Rbac, x: seq<Item>, y: seq<Item>)
    ensures RunItems(a, x) == RunItems(a, y)
        <==> && (forall c :: c !in a.perms ==> (Inserts(x, c) <==> Inserts(y, c)))
             && (forall role, c :: Active(a, role) && (role, c) !in a.grants ==>
                   (Reaches(x, c in a.perms, c, role) <==> Reaches(y, c in a.perms, c, role)))
  {
    var r, s := RunItems(a, x), RunItems(a, y);
    RunItemsClosed(a, x);
    RunItemsClosed(a, y);
    if r == s {
      forall c | c !in a.perms ensures Inserts(x, c) <==> Inserts(y, c) {
        assert c in r.perms <==> c in s.perms;
      }
      forall role, c | Active(a, role) && (role, c) !in a.grants
        ensures Reaches(x, c in a.perms, c, role) <==> Reaches(y, c in a.perms, c, role)
      {
        var g: Pair := (role, c);
        assert g in r.grants <==> g in s.grants;
      }
    } else {
      assert r.perms != s.perms || r.grants != s.grants;
    }
  }

  /** For every list of seeds whatever: each pattern of failures is recovered from by a clean run
      if and only if its two runs together insert and grant what one clean run does. */
  lemma AnySeedListRecoversIff(a: Rbac, seeds: seq<Seed>, ok: seq<bool>)
    requires |ok| == |seeds|
    ensures RunSeeds(RunSeeds(a, Succeeded(seeds, ok)), seeds) == RunSeeds(a, seeds) <==> PatternRecovers(a, seeds, ok)
  {
    TwoRunsAreAttempted(a, seeds, ok);
    RunIsAttempted(a, seeds);
    SameItemsIff(a, AttemptedTwice(seeds, a.perms, ok), Attempted(seeds, a.perms));
  }

  /** Checking one seed at a time is not enough for such lists: if another seed inserts the tested permission, each
      effective seed can be replaceable and a failure still leaves a permission too many. */
  lemma OtherInserterBreaksRecovery(tested: Code, added: Code) returns (a: Rbac, seeds: seq<Seed>)
    requires tested != added
    ensures WellFormed(a) && Recoverable(a, Batches(seeds, a.perms)) && |seeds| == 2
    ensures added !in RunSeeds(a, seeds).perms
    ensures added in RunSeeds(RunSeeds(a, Succeeded(seeds, [false, true])), seeds).perms
  {
    var plain := Seed(false, [Item(Fallback, Entry(tested, "", []))]);
    var guarded := Seed(true, [Item(NoFallback, Entry(tested, "", [])), Item(NoFallback, Entry(added, "", []))]);
    a, seeds := Rbac({}, map[], {}, {}), [plain, guarded];
    var first, other := RunSeed(a, plain), RunSeed(a, guarded);
    RunItemsClosed(a, plain.items);
    assert Inserts(plain.items, tested) && first.perms == {tested};
    TwoInserted(a, guarded.items);
    TwoOfTwo(plain, guarded);
    assert RunSeeds(a, seeds) == RunSeed(first, guarded) == first;
    RunItemsClosed(other, plain.items);
    var again := RunSeed(other, plain);
    assert Guards(guarded, again.perms);
  }

  lemma TwoInserted(a: Rbac, items: seq<Item>)
    requires |items| == 2 && AllNoFallback(items)
    ensures items[0].entry.code in RunItems(a, items).perms && items[1].entry.code in RunItems(a, items).perms
  {
    RunItemsClosed(a, items);
    assert Inserts(items, items[0].entry.code) && Inserts(items, items[1].entry.code);
  }

  lemma TwoOfTwo(x: Seed, y: Seed)
    ensures forall a :: RunSeeds(a, Succeeded([x, y], [false, true])) == RunSeed(a, y)
    ensures forall a :: RunSeeds(a, [x, y]) == RunSeed(RunSeed(a, x), y)
  {
    assert [x, y][..1] == [x] && [false, true][..1] == [false] && [x][..0] == [] && [false][..0] == [];
    assert Succeeded([x], [false]) == [];
    assert Succeeded([x, y], [false, true]) == [y];
    assert [y][..0] == [];
    forall a ensures RunSeeds(a, [x, y]) == RunSeed(RunSeed(a, x), y) {
      assert RunSeeds(a, [x]) == RunSeed(RunSeeds(a, [x][..0]), x);
    }
  }
}
