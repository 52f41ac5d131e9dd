/** The seed functions, statement by statement, and the runner. Which statements fail is an input:
    the statements of a seed are numbered from 0 and `faults` holds the numbers that fail. */
module Seeds {
  import opened Options
  import opened RbacModel
  import opened RbacTables
  import opened GrantMigrations
  import opened BackfillMigrations
  import opened SeedModel

  /** The next statement, number `at`; its effect is applied by the caller if it succeeds. */
  method Statement(faults: set<nat>, at: nat) returns (ok: bool, next: nat)
    ensures ok <==> at !in faults
    ensures next == at + 1
  {
    return at !in faults, at + 1;
  }

  /** Look one role up; if it is there and active, insert the grant. */
  method GrantFoundRole(q: QueryRunner, role: Code, permissionId: nat, faults: set<nat>, at: nat, ghost code: Code)
      returns (ok: bool, next: nat)
    requires Valid(q.tables)
    requires code in q.tables.permissions && q.tables.permissions[code].id == permissionId
    modifies q
    ensures Valid(q.tables) && q.tables == old(q.tables).(rolePermissions := q.tables.rolePermissions)
    ensures ok <==> NoFault(faults, at, RoleStatements(old(View(q.tables)), role))
    ensures ok ==> next == at + RoleStatements(old(View(q.tables)), role)
    ensures ok ==> View(q.tables) == GrantRoles(old(View(q.tables)), [role], code)
  {
    GrantOneRole(View(q.tables), role, code);
    NoFaultInOne(faults, at);
    assert Active(View(q.tables), role) <==> SelectActiveRole(q.tables, role).Some?;
    ok, next := Statement(faults, at);
    if !ok {
      return;
    }
    var roleId := SelectActiveRole(q.tables, role);
    if roleId.None? {
      return;
    }
    ok, next := Statement(faults, next);
    if !ok {
      return;
    }
    q.tables := InsertGrant(q.tables, roleId.value, permissionId, role, code);
  }

  /** `for (const roleCode of roles)`. */
  method GrantFoundRoles(q: QueryRunner, roles: seq<Code>, permissionId: nat, faults: set<nat>, at: nat, ghost code: Code)
      returns (ok: bool, next: nat)
    requires Valid(q.tables)
    requires code in q.tables.permissions && q.tables.permissions[code].id == permissionId
    modifies q
    ensures Valid(q.tables) && q.tables == old(q.tables).(rolePermissions := q.tables.rolePermissions)
    ensures ok <==> NoFault(faults, at, RolesStatements(old(View(q.tables)), roles))
    ensures ok ==> next == at + RolesStatements(old(View(q.tables)), roles)
    ensures ok ==> View(q.tables) == GrantRoles(old(View(q.tables)), roles, code)
  {
    ghost var before := View(q.tables);
    assert GrantRoles(before, roles[..0], code) == before;
    ok, next := true, at;
    for j := 0 to |roles|
      invariant Valid(q.tables) && View(q.tables) == GrantRoles(before, roles[..j], code)
      invariant q.tables == old(q.tables).(rolePermissions := q.tables.rolePermissions)
      invariant ok && next == at + RolesStatements(before, roles[..j]) && NoFault(faults, at, next - at)
    {
      RoleGrantOneMore(before, roles, j, code);
      RolesStatementsOneMore(before, roles, j);
      ok, next := GrantFoundRole(q, roles[j], permissionId, faults, next, code);
      if !ok {
        return;
      }
    }
    assert roles[..|roles|] == roles;
  }

  lemma RolesStatementsOneMore(a: Rbac, roles: seq<Code>, j: nat)
    requires j < |roles|
    ensures RolesStatements(a, roles[..j + 1]) == RolesStatements(a, roles[..j]) + RoleStatements(a, roles[j])
    ensures RolesStatements(a, roles[..j + 1]) <= RolesStatements(a, roles)
  {
    assert roles[..j + 1][..j] == roles[..j];
    RolesStatementsPrefix(a, roles, j + 1);
  }

  lemma {:induction false} RolesStatementsPrefix(a: Rbac, roles: seq<Code>, j: nat)
    requires j <= |roles|
    ensures RolesStatements(a, roles[..j]) <= RolesStatements(a, roles)
  {
    if j < |roles| {
      RolesStatementsPrefix(a, roles[..|roles| - 1], j);
      assert roles[..|roles| - 1][..j] == roles[..j];
    } else {
      assert roles[..j] == roles;
    }
  }

  /** One permission of any of the three kinds: insert, look up if the pattern does, grant. */
  method SeedItem(q: QueryRunner, item: Item, faults: set<nat>, at: nat,
                  ghost before: map<Code, PermissionRow>, ghost names: seq<(Code, string)>)
      returns (ok: bool, next: nat)
    requires Valid(q.tables) && NamedBy(before, names, q.tables.permissions)
    modifies q
    ensures Valid(q.tables)
    ensures q.tables.roles == old(q.tables).roles && q.tables.userRoles == old(q.tables).userRoles
    ensures ok <==> NoFault(faults, at, ItemStatements(old(View(q.tables)), item))
    ensures ok ==> next == at + ItemStatements(old(View(q.tables)), item)
    ensures ok ==> View(q.tables) == RunItem(old(View(q.tables)), item)
    ensures ok ==> NamedBy(before, names + InsertNames([item]), q.tables.permissions)
  {
    var e := item.entry;
    SingleName(item, names);
    var permissionId;
    ItemStatementsSplit(View(q.tables), item, faults, at);
    ok, next, permissionId := FindPermission(q, item, faults, at, before, names);
    if !ok || permissionId.None? {
      return;
    }
    ok, next := GrantFoundRoles(q, e.roles, permissionId.value, faults, next, e.code);
  }

  /** INSERT ... ON CONFLICT DO NOTHING RETURNING id: an id exactly if a row was made. */
  method InsertReturning(q: QueryRunner, code: Code, name: string,
                         ghost before: map<Code, PermissionRow>, ghost names: seq<(Code, string)>)
      returns (permissionId: Option<nat>)
    requires Valid(q.tables) && NamedBy(before, names, q.tables.permissions)
    modifies q
    ensures Valid(q.tables) && View(q.tables) == AddPermission(old(View(q.tables)), code)
    ensures q.tables.roles == old(q.tables).roles && q.tables.userRoles == old(q.tables).userRoles
    ensures NamedBy(before, names + [(code, name)], q.tables.permissions)
    ensures permissionId.Some? <==> code !in old(q.tables).permissions
    ensures permissionId.None? ==> q.tables == old(q.tables)
    ensures code in q.tables.permissions && (permissionId.Some? ==> q.tables.permissions[code].id == permissionId.value)
  {
    InsertNamed(before, names, q.tables, code, name);
    permissionId := None;
    if SelectPermission(q.tables, code).None? {
      q.tables := InsertPermission(q.tables, code, name);
      permissionId := SelectPermission(q.tables, code);
    } else {
      assert AddPermission(View(q.tables), code) == View(q.tables);
    }
  }

  /** The statements up to the grants; no id means that there are none to be made. */
  method FindPermission(q: QueryRunner, item: Item, faults: set<nat>, at: nat,
                        ghost before: map<Code, PermissionRow>, ghost names: seq<(Code, string)>)
      returns (ok: bool, next: nat, permissionId: Option<nat>)
    requires Valid(q.tables) && NamedBy(before, names, q.tables.permissions)
    modifies q
    ensures Valid(q.tables)
    ensures q.tables.roles == old(q.tables).roles && q.tables.userRoles == old(q.tables).userRoles
    ensures var present := item.entry.code in old(q.tables).permissions;
      var count := if item.kind.Fallback? && present then 2 else 1;
      && (ok <==> NoFault(faults, at, count))
      && (ok ==> next == at + count && (permissionId.Some? <==> Fires(item.kind, present)))
    ensures ok ==> View(q.tables) == if permissionId.Some? then AddPermission(old(View(q.tables)), item.entry.code)
                                     else old(View(q.tables))
    ensures ok && permissionId.Some? ==> item.entry.code in q.tables.permissions &&
                                         q.tables.permissions[item.entry.code].id == permissionId.value
    ensures ok ==> NamedBy(before, if item.kind.External? then names else names + [(item.entry.code, item.entry.name)],
                           q.tables.permissions)
  {
    var e := item.entry;
    NoFaultInOne(faults, at);
    permissionId := None;
    ok, next := true, at;
    if !item.kind.External? {
      ok, next := Statement(faults, next);
      if !ok {
        return;
      }
      permissionId := InsertReturning(q, e.code, e.name, before, names);
    }
    if permissionId.None? && !item.kind.NoFallback? {
      ok, next := Statement(faults, next);
      if !ok {
        return;
      }
      permissionId := SelectPermission(q.tables, e.code);
      assert permissionId.Some? ==> AddPermission(View(q.tables), e.code) == View(q.tables);
    }
  }

  method SeedItems(q: QueryRunner, items: seq<Item>, faults: set<nat>, at: nat,
                   ghost before: map<Code, PermissionRow>, ghost names: seq<(Code, string)>)
      returns (ok: bool, next: nat)
    requires Valid(q.tables) && NamedBy(before, names, q.tables.permissions)
    modifies q
    ensures Valid(q.tables)
    ensures q.tables.roles == old(q.tables).roles && q.tables.userRoles == old(q.tables).userRoles
    ensures ok <==> NoFault(faults, at, ItemsStatements(old(View(q.tables)), items))
    ensures ok ==> next == at + ItemsStatements(old(View(q.tables)), items)
    ensures ok ==> View(q.tables) == RunItems(old(View(q.tables)), items)
    ensures ok ==> NamedBy(before, names + InsertNames(items), q.tables.permissions)
  {
    ghost var start := View(q.tables);
    ok, next := true, at;
    assert names + InsertNames(items[..0]) == names;
    for i := 0 to |items|
      invariant Valid(q.tables) && View(q.tables) == RunItems(start, items[..i])
      invariant q.tables.roles == old(q.tables).roles && q.tables.userRoles == old(q.tables).userRoles
      invariant ok && next == at + ItemsStatements(start, items[..i]) && NoFault(faults, at, next - at)
      invariant NamedBy(before, names + InsertNames(items[..i]), q.tables.permissions)
    {
      ItemsOneMore(start, items, i, names);
      ok, next := SeedItem(q, items[i], faults, next, before, names + InsertNames(items[..i]));
      if !ok {
        return;
      }
    }
    assert items[..|items|] == items;
  }

  lemma ItemsOneMore(a: Rbac, items: seq<Item>, i: nat, names: seq<(Code, string)>)
    requires i < |items|
    ensures RunItems(a, items[..i + 1]) == RunItem(RunItems(a, items[..i]), items[i])
    ensures ItemsStatements(a, items[..i + 1])
         == ItemsStatements(a, items[..i]) + ItemStatements(RunItems(a, items[..i]), items[i])
    ensures ItemsStatements(a, items[..i + 1]) <= ItemsStatements(a, items)
    ensures names + InsertNames(items[..i + 1]) == names + InsertNames(items[..i]) + InsertNames([items[i]])
  {
    assert items[..i + 1][..i] == items[..i] && [items[i]][..0] == [];
    assert items == items[..i + 1] + items[i + 1..];
    ItemsStatementsAppend(a, items[..i + 1], items[i + 1..]);
  }

  /** Two loops one after the other, as in seedCameraDomainRbacPermissions. */
  method SeedBoth(q: QueryRunner, owned: seq<Item>, external: seq<Item>, faults: set<nat>, at: nat)
      returns (ok: bool, next: nat)
    requires Valid(q.tables)
    modifies q
    ensures Valid(q.tables)
    ensures q.tables.roles == old(q.tables).roles && q.tables.userRoles == old(q.tables).userRoles
    ensures ok <==> NoFault(faults, at, ItemsStatements(old(View(q.tables)), owned + external))
    ensures ok ==> next == at + ItemsStatements(old(View(q.tables)), owned + external)
    ensures ok ==> View(q.tables) == RunItems(old(View(q.tables)), owned + external)
    ensures ok ==> NamedBy(old(q.tables).permissions, InsertNames(owned) + InsertNames(external), q.tables.permissions)
  {
    ghost var rows := q.tables.permissions;
    RunItemsAppend(View(q.tables), owned, external);
    ItemsStatementsAppend(View(q.tables), owned, external);
    assert [] + InsertNames(owned) == InsertNames(owned);
    ok, next := SeedItems(q, owned, faults, at, rows, []);
    if ok {
      ok, next := SeedItems(q, external, faults, next, rows, InsertNames(owned));
    }
  }

  /** startTransaction, the two loops, and commitTransaction; or a rollback of everything. */
  method InTransaction(q: QueryRunner, owned: seq<Item>, external: seq<Item>, faults: set<nat>) returns (ok: bool)
    requires Valid(q.tables)
    modifies q
    ensures Valid(q.tables)
    ensures ok <==> NoFault(faults, 0, 2 + ItemsStatements(old(View(q.tables)), owned + external))
    ensures !ok ==> q.tables == old(q.tables)
    ensures ok ==>
              && View(q.tables) == RunItems(old(View(q.tables)), owned + external)
              && NamedBy(old(q.tables).permissions, InsertNames(owned) + InsertNames(external), q.tables.permissions)
              && q.tables.roles == old(q.tables).roles && q.tables.userRoles == old(q.tables).userRoles
  {
    var atStart := q.tables;
    ghost var count := ItemsStatements(View(q.tables), owned + external);
    NoFaultInOne(faults, 0);
    NoFaultSplits(faults, 0, 1, count);
    NoFaultSplits(faults, 0, 1 + count, 1);
    NoFaultInOne(faults, 1 + count);
    var next;
    ok, next := Statement(faults, 0);
    if ok {
      ok, next := SeedBoth(q, owned, external, faults, next);
    }
    if ok {
      ok, next := Statement(faults, next);
    }
    if !ok {
      q.tables := atStart;
    }
  }

  // ---- The three seed functions: rows afterwards, and exactly when they succeed ----

  lemma OneLoop(permissions: seq<Entry>)
    ensures Tagged(NoFallback, permissions) + [] == SeedOf(MeetingRequest(permissions)).items
    ensures InsertNames(Tagged(NoFallback, permissions)) + InsertNames([]) == Names(permissions)
  {
    TaggedNames(NoFallback, permissions);
  }

  lemma MeetingRequestRows(t: Tables, permissions: seq<Entry>, u: Tables)
    requires View(u) == RunSeed(View(t), SeedOf(MeetingRequest(permissions)))
    ensures forall role, code :: Holds(u, role, code) <==>
              Holds(t, role, code) ||
              (ActiveRow(t, role) && code !in t.permissions && ListsFirst(permissions, role, code))
  {
    HoldsIsView(t);
    HoldsIsView(u);
    MeetingRequestMeaning(View(t), permissions);
    forall role: Code, code: Code ensures Holds(u, role, code) <==> (role, code) in View(u).grants {}
  }

  /** seedMeetingRequestPermissions: commit, or roll everything back and rethrow. A permission that
      exists is left alone; one that does not is inserted and granted. */
  method SeedMeetingRequestPermissions(q: QueryRunner, permissions: seq<Entry>, faults: set<nat>) returns (ok: bool)
    requires Valid(q.tables)
    modifies q
    ensures Valid(q.tables)
    ensures ok <==> NoFault(faults, 0, SeedStatements(old(View(q.tables)), SeedOf(MeetingRequest(permissions))))
    ensures if ok then View(q.tables) == RunSeed(old(View(q.tables)), SeedOf(MeetingRequest(permissions)))
            else q.tables == old(q.tables)
    ensures ok ==>
              && NamedBy(old(q.tables).permissions, Names(permissions), q.tables.permissions)
              && q.tables.roles == old(q.tables).roles && q.tables.userRoles == old(q.tables).userRoles
              && forall role, code :: Holds(q.tables, role, code) <==>
                   Holds(old(q.tables), role, code) ||
                   (ActiveRow(old(q.tables), role) && code !in old(q.tables).permissions &&
                    ListsFirst(permissions, role, code))
  {
    ghost var atStart := q.tables;
    OneLoop(permissions);
    ok := InTransaction(q, Tagged(NoFallback, permissions), [], faults);
    if ok {
      MeetingRequestRows(atStart, permissions, q.tables);
    }
  }

  /** startTransaction, an INSERT that makes no row, commitTransaction. */
  method CommitAtOnce(faults: set<nat>) returns (ok: bool)
    ensures ok <==> NoFault(faults, 0, 3)
  {
    NoFaultSplits(faults, 0, 2, 1);
    NoFaultInOne(faults, 0);
    NoFaultInOne(faults, 2);
    var next;
    ok, next := Statement(faults, 0);
    if ok {
      ok, next := Statement(faults, next);
    }
    if ok {
      ok, next := Statement(faults, next);
    }
  }

  lemma EndNames(first: Entry, overriding: Entry)
    ensures InsertNames([Item(NoFallback, first)]) + InsertNames([Item(NoFallback, overriding)])
         == Names([first, overriding])
  {
    TaggedNames(NoFallback, [first]);
    TaggedNames(NoFallback, [overriding]);
    assert Tagged(NoFallback, [first]) == [Item(NoFallback, first)];
    assert Tagged(NoFallback, [overriding]) == [Item(NoFallback, overriding)];
  }

  lemma MeetingEndRows(t: Tables, first: Entry, overriding: Entry, u: Tables)
    requires first.code !in t.permissions && View(u) == RunSeed(View(t), SeedOf(MeetingEnd(first, overriding)))
    ensures forall role, code :: Holds(u, role, code) <==>
              || Holds(t, role, code)
              || (ActiveRow(t, role) && code == first.code && role in first.roles)
              || (ActiveRow(t, role) && code == overriding.code && role in overriding.roles &&
                  overriding.code != first.code && overriding.code !in t.permissions)
  {
    HoldsIsView(t);
    HoldsIsView(u);
    MeetingEndMeaning(View(t), first, overriding);
    forall role: Code, code: Code ensures Holds(u, role, code) <==> (role, code) in View(u).grants {}
  }

  /** seedMeetingEndPermission: an existing first permission commits at once and changes nothing;
      otherwise both are inserted and granted, the second only if it was missing too. */
  method SeedMeetingEndPermission(q: QueryRunner, first: Entry, overriding: Entry, faults: set<nat>) returns (ok: bool)
    requires Valid(q.tables)
    modifies q
    ensures Valid(q.tables)
    ensures ok <==> NoFault(faults, 0, SeedStatements(old(View(q.tables)), SeedOf(MeetingEnd(first, overriding))))
    ensures if ok then View(q.tables) == RunSeed(old(View(q.tables)), SeedOf(MeetingEnd(first, overriding)))
            else q.tables == old(q.tables)
    ensures first.code in old(q.tables).permissions ==> q.tables == old(q.tables) && (ok <==> NoFault(faults, 0, 3))
    ensures ok && first.code !in old(q.tables).permissions ==>
              && NamedBy(old(q.tables).permissions, Names([first, overriding]), q.tables.permissions)
              && q.tables.roles == old(q.tables).roles && q.tables.userRoles == old(q.tables).userRoles
              && forall role, code :: Holds(q.tables, role, code) <==>
                   || Holds(old(q.tables), role, code)
                   || (ActiveRow(old(q.tables), role) && code == first.code && role in first.roles)
                   || (ActiveRow(old(q.tables), role) && code == overriding.code && role in overriding.roles &&
                       overriding.code != first.code && overriding.code !in old(q.tables).permissions)
  {
    ghost var atStart := q.tables;
    if SelectPermission(q.tables, first.code).Some? {
      ok := CommitAtOnce(faults);
      return;
    }
    var one, two := [Item(NoFallback, first)], [Item(NoFallback, overriding)];
    EndNames(first, overriding);
    assert one + two == [Item(NoFallback, first), Item(NoFallback, overriding)];
    ok := InTransaction(q, one, two, faults);
    if ok {
      MeetingEndRows(atStart, first, overriding, q.tables);
    }
  }

  lemma CameraDomainRows(t: Tables, owned: seq<Entry>, external: seq<Entry>, u: Tables)
    requires View(u) == RunSeed(View(t), SeedOf(CameraDomain(owned, external)))
    ensures forall role, code :: Holds(u, role, code) <==>
              || Holds(t, role, code)
              || (ActiveRow(t, role) && exists i :: 0 <= i < |owned| && owned[i].code == code && role in owned[i].roles)
              || (ActiveRow(t, role) && code in u.permissions &&
                  exists i :: 0 <= i < |external| && external[i].code == code && role in external[i].roles)
  {
    HoldsIsView(t);
    HoldsIsView(u);
    CameraDomainMeaning(View(t), owned, external);
    forall role: Code, code: Code ensures Holds(u, role, code) <==> (role, code) in View(u).grants {}
  }

  /** seedCameraDomainRbacPermissions: an owned permission is granted whether it existed or not; an
      external one is never created, and granted if it exists once the owned ones do. */
  method SeedCameraDomainRbacPermissions(q: QueryRunner, owned: seq<Entry>, external: seq<Entry>, faults: set<nat>)
      returns (ok: bool)
    requires Valid(q.tables)
    modifies q
    ensures Valid(q.tables)
    ensures ok <==> NoFault(faults, 0, SeedStatements(old(View(q.tables)), SeedOf(CameraDomain(owned, external))))
    ensures if ok then View(q.tables) == RunSeed(old(View(q.tables)), SeedOf(CameraDomain(owned, external)))
            else q.tables == old(q.tables)
    ensures ok ==>
              && NamedBy(old(q.tables).permissions, Names(owned), q.tables.permissions)
              && q.tables.roles == old(q.tables).roles && q.tables.userRoles == old(q.tables).userRoles
              && forall role, code :: Holds(q.tables, role, code) <==>
                   || Holds(old(q.tables), role, code)
                   || (ActiveRow(old(q.tables), role) &&
                       exists i :: 0 <= i < |owned| && owned[i].code == code && role in owned[i].roles)
                   || (ActiveRow(old(q.tables), role) && code in q.tables.permissions &&
                       exists i :: 0 <= i < |external| && external[i].code == code && role in external[i].roles)
  {
    ghost var atStart := q.tables;
    TaggedNames(Fallback, owned);
    TaggedNames(External, external);
    assert Names(owned) + [] == Names(owned);
    ok := InTransaction(q, Tagged(Fallback, owned), Tagged(External, external), faults);
    if ok {
      CameraDomainRows(atStart, owned, external, q.tables);
    }
  }

  // ---- run-seeds ----

  /** One seed function, called by its kind. */
  method RunSeedFunction(q: QueryRunner, f: SeedFunction, faults: set<nat>) returns (ok: bool)
    requires Valid(q.tables)
    modifies q
    ensures Valid(q.tables)
    ensures ok <==> NoFault(faults, 0, SeedStatements(old(View(q.tables)), SeedOf(f)))
    ensures if ok then View(q.tables) == RunSeed(old(View(q.tables)), SeedOf(f)) else q.tables == old(q.tables)
  {
    match f {
      case MeetingRequest(permissions) => ok := SeedMeetingRequestPermissions(q, permissions, faults);
      case MeetingEnd(first, overriding) => ok := SeedMeetingEndPermission(q, first, overriding, faults);
      case CameraDomain(owned, external) => ok := SeedCameraDomainRbacPermissions(q, owned, external, faults);
    }
  }

  /** The database before seed `i`: the seeds that succeeded so far, run in order. */
  function StateBefore(a: Rbac, seeds: seq<SeedFunction>, ok: seq<bool>, i: nat): Rbac
    requires i <= |ok| <= |seeds|
  {
    RunSeeds(a, Succeeded(SeedsOf(seeds)[..i], ok[..i]))
  }

  /** Each seed so far succeeded exactly if none of its own statements failed, whatever happened to
      the seeds before it. */
  ghost predicate OutcomesExplained(a: Rbac, seeds: seq<SeedFunction>, faults: seq<set<nat>>, ok: seq<bool>)
    requires |ok| <= |seeds| == |faults|
  {
    forall i :: 0 <= i < |ok| ==>
      (ok[i] <==> NoFault(faults[i], 0, SeedStatements(StateBefore(a, seeds, ok, i), SeedOf(seeds[i]))))
  }

  lemma OutcomesOneMore(a: Rbac, seeds: seq<SeedFunction>, faults: seq<set<nat>>, ok: seq<bool>, succeeded: bool)
    requires |ok| < |seeds| == |faults| && OutcomesExplained(a, seeds, faults, ok)
    requires succeeded <==> NoFault(faults[|ok|], 0, SeedStatements(StateBefore(a, seeds, ok, |ok|), SeedOf(seeds[|ok|])))
    ensures OutcomesExplained(a, seeds, faults, ok + [succeeded])
  {
    forall i | 0 <= i <= |ok| ensures (ok + [succeeded])[..i] == ok[..i] {}
  }

  /** One turn of the loop: the seed runs, and its failure is caught and counted. */
  method RunNextSeed(q: QueryRunner, seeds: seq<SeedFunction>, faults: seq<set<nat>>, ok: seq<bool>, ghost before: Rbac)
      returns (succeeded: bool)
    requires Valid(q.tables) && |ok| < |seeds| == |faults|
    requires OutcomesExplained(before, seeds, faults, ok)
    requires View(q.tables) == StateBefore(before, seeds, ok, |ok|)
    modifies q
    ensures Valid(q.tables)
    ensures OutcomesExplained(before, seeds, faults, ok + [succeeded])
    ensures View(q.tables) == StateBefore(before, seeds, ok + [succeeded], |ok| + 1)
    ensures CountTrue(ok + [succeeded]) == CountTrue(ok) + if succeeded then 1 else 0
  {
    succeeded := RunSeedFunction(q, seeds[|ok|], faults[|ok|]);
    OutcomesOneMore(before, seeds, faults, ok, succeeded);
    assert ok[..|ok|] == ok && (ok + [succeeded])[..|ok| + 1] == ok + [succeeded];
    SucceededOneMore(SeedsOf(seeds), |ok|, ok, succeeded, before);
  }

  lemma {:induction false} AllTrueCount(ok: seq<bool>)
    requires forall i :: 0 <= i < |ok| ==> ok[i]
    ensures CountTrue(ok) == |ok|
  {
    if ok != [] {
      AllTrueCount(ok[..|ok| - 1]);
    }
  }

  lemma RunIsComplete(a: Rbac, seeds: seq<SeedFunction>, faults: seq<set<nat>>, ok: seq<bool>)
    requires |ok| == |seeds| == |faults| && OutcomesExplained(a, seeds, faults, ok)
    ensures forall i :: 0 <= i < |seeds| && faults[i] == {} ==> ok[i]
    ensures Succeeded(SeedsOf(seeds), ok) == SeedsOf(seeds) <==> CountTrue(ok) == |seeds|
    ensures CountTrue(ok) <= |seeds|
    ensures (forall i :: 0 <= i < |seeds| ==> faults[i] == {}) ==> CountTrue(ok) == |seeds|
  {
    AllSucceededIff(SeedsOf(seeds), ok);
    NoFaultSucceeds(a, seeds, faults, ok);
    if forall i :: 0 <= i < |seeds| ==> faults[i] == {} {
      AllTrueCount(ok);
    }
  }

  lemma NoFaultSucceeds(a: Rbac, seeds: seq<SeedFunction>, faults: seq<set<nat>>, ok: seq<bool>)
    requires |ok| == |seeds| == |faults| && OutcomesExplained(a, seeds, faults, ok)
    ensures forall i :: 0 <= i < |seeds| && faults[i] == {} ==> ok[i]
  {}

  /** The catch around each seed keeps the loop going: `faults[i]` holds the statements of seed `i`
      that fail, and a seed without one succeeds, whatever became of the others. The tables end as
      the composition of exactly the seeds that succeeded. */
  method RunAllSeeds(q: QueryRunner, seeds: seq<SeedFunction>, faults: seq<set<nat>>)
    returns (ok: seq<bool>, successCount: nat, failCount: nat, exitCode: nat)
    requires Valid(q.tables) && |faults| == |seeds|
    modifies q
    ensures Valid(q.tables) && |ok| == |seeds|
    ensures OutcomesExplained(old(View(q.tables)), seeds, faults, ok)
    ensures forall i :: 0 <= i < |seeds| && faults[i] == {} ==> ok[i]
    ensures View(q.tables) == RunSeeds(old(View(q.tables)), Succeeded(SeedsOf(seeds), ok))
    ensures successCount == CountTrue(ok) && successCount + failCount == |seeds|
    ensures exitCode == if failCount > 0 then 1 else 0
    ensures exitCode == 0 <==> Succeeded(SeedsOf(seeds), ok) == SeedsOf(seeds)
    ensures (forall i :: 0 <= i < |seeds| ==> faults[i] == {}) ==>
              exitCode == 0 && View(q.tables) == RunSeeds(old(View(q.tables)), SeedsOf(seeds))
  {
    ghost var before, all := View(q.tables), SeedsOf(seeds);
    ok, successCount, failCount := [], 0, 0;
    assert all[..0] == [];
    for i := 0 to |seeds|
      invariant |ok| == i && Valid(q.tables)
      invariant OutcomesExplained(before, seeds, faults, ok)
      invariant View(q.tables) == StateBefore(before, seeds, ok, i)
      invariant successCount == CountTrue(ok) && successCount + failCount == i
    {
      var succeeded := RunNextSeed(q, seeds, faults, ok, before);
      ok := ok + [succeeded];
      if succeeded {
        successCount := successCount + 1;
      } else {
        failCount := failCount + 1;
      }
    }
    assert all[..|seeds|] == all && ok[..|seeds|] == ok;
    RunIsComplete(before, seeds, faults, ok);
    exitCode := if failCount > 0 then 1 else 0;
  }
}
