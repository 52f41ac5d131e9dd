/**
 * The history behind 20260720000005: the seeds ran before any role existed and granted nothing;
 * then the core roles were created and one backfill granted what the seeds had listed, with two
 * role codes renamed and one dropped. When is that as good as having had the roles from the start?
 */
module RepairHistory {
  import opened Options
  import opened RbacModel
  import opened GrantMigrations
  import opened BackfillMigrations
  import opened SeedModel
  import opened GuardedRecovery

  function Alias(role: Code): Option<Code> {
    if role == "ADMIN" then Some("SYSTEM_ADMIN")
    else if role == "INTERNAL_USER" then Some("EMPLOYEE")
    else if role == "ROOM_ADMIN" then None
    else Some(role)
  }

  function AliasAll(roles: seq<Code>): seq<Code> {
    if roles == [] then []
    else
      var rest := AliasAll(roles[1..]);
      match Alias(roles[0]) case Some(r) => [r] + rest case None => rest
  }

  lemma {:induction false} InAliasAll(roles: seq<Code>, r: Code)
    ensures r in AliasAll(roles) <==>
            || (r in roles && r != "ADMIN" && r != "INTERNAL_USER" && r != "ROOM_ADMIN")
            || (r == "SYSTEM_ADMIN" && "ADMIN" in roles)
            || (r == "EMPLOYEE" && "INTERNAL_USER" in roles)
  {
    if roles != [] {
      InAliasAll(roles[1..], r);
      assert roles == [roles[0]] + roles[1..];
    }
  }

  function Aliased(items: seq<Item>): seq<Item> {
    seq(|items|, i requires 0 <= i < |items| =>
      items[i].(entry := items[i].entry.(roles := AliasAll(items[i].entry.roles))))
  }

  /** The seed history with its role codes replaced. */
  function AliasedSeeds(history: seq<Seed>): seq<Seed> {
    seq(|history|, i requires 0 <= i < |history| => history[i].(items := Aliased(history[i].items)))
  }

  predicate Mentions(items: seq<Item>, c: Code) {
    exists i :: 0 <= i < |items| && items[i].entry.code == c
  }

  /** Some item of the history, effective or not, lists `role` for `c` once aliased. */
  predicate ListedIn(items: seq<Item>, role: Code, c: Code) {
    exists i :: 0 <= i < |items| && items[i].entry.code == c && role in AliasAll(items[i].entry.roles)
  }

  /** For each permission the history mentions, `entries` list exactly the aliased roles that the
      history lists. Entries for further permissions are free. */
  ghost predicate EntriesMatch(history: seq<Seed>, entries: seq<Entry>) {
    forall role, c :: Mentions(AllItems(history), c) ==>
      (Lists(entries, role, c) <==> ListedIn(AllItems(history), role, c))
  }

  /** Seeds, then roles, then backfill. */
  function Repaired(a: Rbac, history: seq<Seed>, core: set<Code>, entries: seq<Entry>): Rbac {
    Backfilled(WithRoles(RunSeeds(a, history), core), entries)
  }

  /** Roles first, then the aliased seeds. */
  function AsIntended(a: Rbac, history: seq<Seed>, core: set<Code>): Rbac {
    RunSeeds(WithRoles(a, core), AliasedSeeds(history))
  }

  /** Whatever core role an item lists for a permission is listed for it by an item that is
      attempted and fires. */
  predicate NothingListedInVain(history: seq<Seed>, present: set<Code>, core: set<Code>) {
    forall i, role :: 0 <= i < |AllItems(history)| && role in core && role in AliasAll(AllItems(history)[i].entry.roles) ==>
      var c := AllItems(history)[i].entry.code;
      Reaches(Aliased(Attempted(history, present)), c in present, c, role)
  }

  lemma AliasedInserts(items: seq<Item>, c: Code)
    ensures Inserts(Aliased(items), c) <==> Inserts(items, c)
  {
    if Inserts(items, c) {
      var k :| 0 <= k < |items| && !items[k].kind.External? && items[k].entry.code == c;
      assert Aliased(items)[k].entry.code == c;
    }
    if Inserts(Aliased(items), c) {
      var k :| 0 <= k < |items| && !Aliased(items)[k].kind.External? && Aliased(items)[k].entry.code == c;
      assert items[k].entry.code == c;
    }
  }

  /** Renaming roles does not change which items are attempted. */
  lemma {:induction false} AliasedAttempted(history: seq<Seed>, present: set<Code>)
    ensures Attempted(AliasedSeeds(history), present) == Aliased(Attempted(history, present))
  {
    if history != [] {
      var init, seed := history[..|history| - 1], history[|history| - 1];
      AliasedAttempted(init, present);
      assert AliasedSeeds(history)[..|history| - 1] == AliasedSeeds(init);
      if seed.items != [] {
        AliasedInserts(Attempted(init, present), seed.items[0].entry.code);
      }
    }
  }

  lemma {:induction false} AttemptedAreItems(history: seq<Seed>, present: set<Code>)
    ensures forall item :: item in Attempted(history, present) ==> item in AllItems(history)
  {
    if history != [] {
      AttemptedAreItems(history[..|history| - 1], present);
    }
  }

  /** Seeding without active roles leaves every grant as it was: the silent failure. */
  lemma SeedsWithoutRolesGrantNothing(a: Rbac, history: seq<Seed>)
    requires forall r :: r in a.roles ==> !a.roles[r]
    ensures RunSeeds(a, history).grants == a.grants && RunSeeds(a, history).roles == a.roles
  {
    RunIsAttempted(a, history);
    RunItemsClosed(a, Attempted(history, a.perms));
  }

  lemma RepairedGrants(a: Rbac, history: seq<Seed>, core: set<Code>, entries: seq<Entry>, g: Pair)
    requires a.roles == map[] && a.grants == {}
    ensures g in Repaired(a, history, core, entries).grants <==> g.0 in core && Lists(entries, g.0, g.1)
    ensures g in AsIntended(a, history, core).grants
        <==> g.0 in core && Reaches(Aliased(Attempted(history, a.perms)), g.1 in a.perms, g.1, g.0)
  {
    SeedsWithoutRolesGrantNothing(a, history);
    InBackfilled(WithRoles(RunSeeds(a, history), core), entries, g);
    RunIsAttempted(WithRoles(a, core), AliasedSeeds(history));
    AliasedAttempted(history, a.perms);
    RunItemsClosed(WithRoles(a, core), Aliased(Attempted(history, a.perms)));
  }

  lemma ReachedIsListed(history: seq<Seed>, present: set<Code>, c: Code, role: Code)
    requires Reaches(Aliased(Attempted(history, present)), c in present, c, role)
    ensures ListedIn(AllItems(history), role, c) && Mentions(AllItems(history), c)
  {
    var did := Attempted(history, present);
    var i :| 0 <= i < |did| && Aliased(did)[i].entry.code == c && role in Aliased(did)[i].entry.roles;
    AttemptedAreItems(history, present);
    assert did[i] in AllItems(history);
    var k :| 0 <= k < |AllItems(history)| && AllItems(history)[k] == did[i];
  }

  /**
   * The repair theorem: starting without roles, the repair gives every role exactly the grants
   * the intended order would have given on every permission the seeds mention, if and only if
   * nothing was listed in vain. On other permissions the intended order grants nothing and the
   * repair what its entries say.
   */
  lemma RepairIff(a: Rbac, history: seq<Seed>, core: set<Code>, entries: seq<Entry>)
    requires a.roles == map[] && a.grants == {} && EntriesMatch(history, entries)
    ensures var x, y := Repaired(a, history, core, entries).grants, AsIntended(a, history, core).grants;
      && ((forall g: Pair :: Mentions(AllItems(history), g.1) ==> (g in x <==> g in y))
          <==> NothingListedInVain(history, a.perms, core))
      && (forall g: Pair :: !Mentions(AllItems(history), g.1) ==>
            g !in y && (g in x <==> g.0 in core && Lists(entries, g.0, g.1)))
  {
    var x, y := Repaired(a, history, core, entries).grants, AsIntended(a, history, core).grants;
    var items := AllItems(history);
    forall g: Pair
      ensures g in x <==> g.0 in core && Lists(entries, g.0, g.1)
      ensures g in y <==> g.0 in core && Reaches(Aliased(Attempted(history, a.perms)), g.1 in a.perms, g.1, g.0)
      ensures g in y ==> ListedIn(items, g.0, g.1) && Mentions(items, g.1)
    {
      RepairedGrants(a, history, core, entries, g);
      if g in y {
        ReachedIsListed(history, a.perms, g.1, g.0);
      }
    }
    if forall g: Pair :: Mentions(items, g.1) ==> (g in x <==> g in y) {
      forall i, role | 0 <= i < |items| && role in core && role in AliasAll(items[i].entry.roles)
        ensures var c := items[i].entry.code; Reaches(Aliased(Attempted(history, a.perms)), c in a.perms, c, role)
      {
        var g := (role, items[i].entry.code);
        assert ListedIn(items, g.0, g.1) && Mentions(items, g.1) && g in x;
      }
    }
  }

  // ---- Histories that are repaired, and one that is not ----

  /** No early commit is ever taken. */
  predicate NoneSkipped(history: seq<Seed>, present: set<Code>) {
    forall k :: 0 <= k < |history| && history[k].guarded && history[k].items != [] ==>
      var c := history[k].items[0].entry.code;
      c !in present && !Inserts(AllItems(history[..k]), c)
  }

  lemma {:induction false} AllAttempted(history: seq<Seed>, present: set<Code>)
    requires NoneSkipped(history, present)
    ensures Attempted(history, present) == AllItems(history)
  {
    if history != [] {
      var init := history[..|history| - 1];
      assert forall k :: 0 <= k < |init| ==> init[..k] == history[..k];
      AllAttempted(init, present);
    }
  }

  lemma AliasedFiresAlike(items: seq<Item>, present: bool, i: nat)
    requires i < |items|
    ensures FiresAt(Aliased(items), present, i) <==> FiresAt(items, present, i)
  {
    assert Aliased(items)[..i] == Aliased(items[..i]);
    AliasedInserts(items[..i], items[i].entry.code);
  }

  /** Histories that meet the condition by their shape: no early commit taken, no no-fallback item
      after another inserter of its code, every external item after one, no code there at first. */
  lemma OrderlyHistoryIsRepaired(a: Rbac, history: seq<Seed>, core: set<Code>, entries: seq<Entry>, g: Pair)
    requires a == Rbac({}, map[], {}, {}) && EntriesMatch(history, entries) && NoneSkipped(history, {})
    requires var items := AllItems(history);
      && (forall i :: 0 <= i < |items| && items[i].kind.NoFallback? ==> !Inserts(items[..i], items[i].entry.code))
      && (forall i :: 0 <= i < |items| && items[i].kind.External? ==> Inserts(items[..i], items[i].entry.code))
    requires Mentions(AllItems(history), g.1)
    ensures g in Repaired(a, history, core, entries).grants <==> g in AsIntended(a, history, core).grants
  {
    var items := AllItems(history);
    AllAttempted(history, {});
    forall i, role | 0 <= i < |items| && role in core && role in AliasAll(items[i].entry.roles)
      ensures Reaches(Aliased(items), items[i].entry.code in a.perms, items[i].entry.code, role)
    {
      AliasedFiresAlike(items, false, i);
      assert Aliased(items)[i].entry.code == items[i].entry.code && FiresAt(Aliased(items), false, i);
    }
    RepairIff(a, history, core, entries);
  }

  /** Two no-fallback seeds for one permission: in the intended order the second would have found
      it inserted and granted nothing, but the backfill grants what it lists. */
  lemma RepairCanOvergrant(c: Code) returns (history: seq<Seed>, entries: seq<Entry>)
    ensures EntriesMatch(history, entries) && Mentions(AllItems(history), c)
    ensures var a := Rbac({}, map[], {}, {});
      var core := {"MANAGER", "EMPLOYEE"};
      && ("EMPLOYEE", c) in Repaired(a, history, core, entries).grants
      && ("EMPLOYEE", c) !in AsIntended(a, history, core).grants
  {
    var a := Rbac({}, map[], {}, {});
    var core := {"MANAGER", "EMPLOYEE"};
    var first, second := Item(NoFallback, Entry(c, "", ["MANAGER"])), Item(NoFallback, Entry(c, "", ["EMPLOYEE"]));
    history := [Seed(false, [first]), Seed(false, [second])];
    entries := [Entry(c, "", ["MANAGER", "EMPLOYEE"])];
    TwoPlainSeeds(first, second);
    var items := [first, second];
    assert AllItems(history) == items && items[0] == first && items[1] == second;
    KeptRole("MANAGER");
    KeptRole("EMPLOYEE");
    forall role, d | Mentions(items, d) ensures Lists(entries, role, d) <==> ListedIn(items, role, d) {
      assert entries[0] in entries;
    }
    RepairedGrants(a, history, core, entries, ("EMPLOYEE", c));
    assert entries[0] in entries;
    if Reaches(Aliased(items), false, c, "EMPLOYEE") {
      var i :| 0 <= i < 2 && "EMPLOYEE" in Aliased(items)[i].entry.roles && FiresAt(Aliased(items), false, i);
      AliasedFiresAlike(items, false, i);
      assert items[..1][0] == first && Inserts(items[..1], c);
    }
  }

  lemma KeptRole(role: Code)
    requires role == "MANAGER" || role == "EMPLOYEE"
    ensures AliasAll([role]) == [role]
  {
    assert role[0] != "ADMIN"[0] && role[0] != "INTERNAL_USER"[0] && role[0] != "ROOM_ADMIN"[0];
    assert [role][1..] == [];
  }

  lemma TwoPlainSeeds(x: Item, y: Item)
    ensures var history := [Seed(false, [x]), Seed(false, [y])];
      AllItems(history) == [x, y] && forall present :: Attempted(history, present) == [x, y]
  {
    var one, two := Seed(false, [x]), Seed(false, [y]);
    assert [one, two][..1] == [one] && [one][..0] == [];
    assert AllItems([one]) == AllItems([]) + [x];
    forall present ensures Attempted([one, two], present) == [x, y] {
      assert Attempted([one], present) == Attempted([], present) + [x];
    }
  }
}
