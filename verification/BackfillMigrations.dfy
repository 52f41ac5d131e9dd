/** Migrations that create roles, or create permissions and grant them. */
module BackfillMigrations {
  import opened RbacModel
  import opened RbacTables
  import opened GrantMigrations

  // ---- 20260720000002: the core roles ----

  /** Listed roles that are missing are created, active; an inactive one stays as it is. */
  function WithRoles(a: Rbac, roles: set<Code>): Rbac {
    a.(roles := (map r | r in roles :: true) + a.roles)
  }

  class CoreRolesMigration {
    const roleCodes: seq<Code>

    constructor (roleCodes: seq<Code>)
      ensures this.roleCodes == roleCodes
    {
      this.roleCodes := roleCodes;
    }

    method Up(q: QueryRunner)
      requires Valid(q.tables)
      modifies q
      ensures Valid(q.tables) && View(q.tables) == WithRoles(old(View(q.tables)), Elements(roleCodes))
      ensures RolesAdded(old(q.tables).roles, roleCodes, q.tables.roles)
    {
      ghost var before := View(q.tables);
      assert WithRoles(before, Elements(roleCodes[..0])).roles == before.roles;
      for i := 0 to |roleCodes|
        invariant Valid(q.tables) && View(q.tables) == WithRoles(before, Elements(roleCodes[..i]))
        invariant RolesAdded(old(q.tables).roles, roleCodes[..i], q.tables.roles)
      {
        assert roleCodes[..i + 1] == roleCodes[..i] + [roleCodes[i]];
        RoleOneMore(before, roleCodes, i);
        CreateRole(q, roleCodes[i], old(q.tables).roles, roleCodes[..i]);
      }
      assert roleCodes[..|roleCodes|] == roleCodes;
    }

    method Down(q: QueryRunner)
      requires Valid(q.tables)
      modifies q
      ensures Valid(q.tables) && View(q.tables) == DropRoles(old(View(q.tables)), Elements(roleCodes))
    {
      q.tables := DeleteRoles(q.tables, Elements(roleCodes));
    }
  }

  method CreateRole(q: QueryRunner, role: Code, ghost before: map<Code, RoleRow>, ghost codes: seq<Code>)
    requires Valid(q.tables) && RolesAdded(before, codes, q.tables.roles)
    modifies q
    ensures Valid(q.tables) && View(q.tables) == AddRole(old(View(q.tables)), role)
    ensures RolesAdded(before, codes + [role], q.tables.roles)
  {
    RolesAddedOneMore(before, codes, q.tables, role);
    q.tables := InsertRole(q.tables, role);
  }

  lemma RoleOneMore(a: Rbac, roles: seq<Code>, i: nat)
    requires i < |roles|
    ensures AddRole(WithRoles(a, Elements(roles[..i])), roles[i]) == WithRoles(a, Elements(roles[..i + 1]))
  {
    assert Elements(roles[..i + 1]) == Elements(roles[..i]) + {roles[i]};
    assert AddRole(WithRoles(a, Elements(roles[..i])), roles[i]).roles == WithRoles(a, Elements(roles[..i + 1])).roles;
  }

  /** The down deletes roles with all their grants and memberships, its own or not: it undoes
      the up if and only if none of the listed roles was there before. */
  lemma RolesDownUndoesUpIff(a: Rbac, roles: set<Code>)
    requires WellFormed(a)
    ensures DropRoles(WithRoles(a, roles), roles) == a <==> roles !! a.roles.Keys
  {
    var b := DropRoles(WithRoles(a, roles), roles);
    if b == a {
      assert b.roles.Keys !! roles;
    }
    if roles !! a.roles.Keys {
      assert b.roles == a.roles;
      assert b.grants == a.grants && b.members == a.members;
    }
  }

  // ---- Insert or look up, then grant ----

  datatype Entry = Entry(code: Code, name: string, roles: seq<Code>)

  function Names(entries: seq<Entry>): seq<(Code, string)> {
    seq(|entries|, i requires 0 <= i < |entries| => (entries[i].code, entries[i].name))
  }

  lemma NamesOneMore(entries: seq<Entry>, i: nat)
    requires i < |entries|
    ensures Names(entries)[..i + 1] == Names(entries)[..i] + [(entries[i].code, entries[i].name)]
  {}

  predicate Lists(entries: seq<Entry>, role: Code, code: Code) {
    exists e :: e in entries && e.code == code && role in e.roles
  }

  function Codes(entries: seq<Entry>): set<Code> {
    set e | e in entries :: e.code
  }

  /** All listed permissions exist, and are granted to all their listed active roles. */
  function Backfilled(a: Rbac, entries: seq<Entry>): Rbac {
    a.(perms := a.perms + Codes(entries),
       grants := a.grants + set e, r | e in entries && r in e.roles && Active(a, r) :: (r, e.code))
  }

  lemma InBackfilled(a: Rbac, entries: seq<Entry>, g: Pair)
    ensures g in Backfilled(a, entries).grants
        <==> g in a.grants || (Active(a, g.0) && Lists(entries, g.0, g.1))
  {}

  /** The closed form, row by row. */
  lemma BackfilledHolds(t: Tables, entries: seq<Entry>, u: Tables)
    requires View(u) == Backfilled(View(t), entries)
    ensures forall role, code :: Holds(u, role, code) <==>
              Holds(t, role, code) ||
              (ActiveRow(t, role) && exists e :: e in entries && e.code == code && role in e.roles)
  {
    HoldsIsView(t);
    HoldsIsView(u);
    forall role: Code, code: Code
      ensures (role, code) in View(u).grants <==>
              (role, code) in View(t).grants || (Active(View(t), role) && Lists(entries, role, code))
    {
      InBackfilled(View(t), entries, (role, code));
    }
  }

  lemma EntryOneMore(a: Rbac, entries: seq<Entry>, i: nat)
    requires i < |entries|
    ensures GrantRoles(AddPermission(Backfilled(a, entries[..i]), entries[i].code), entries[i].roles, entries[i].code)
         == Backfilled(a, entries[..i + 1])
  {
    var e := entries[i];
    var x := GrantRoles(AddPermission(Backfilled(a, entries[..i]), e.code), e.roles, e.code);
    var y := Backfilled(a, entries[..i + 1]);
    assert entries[..i + 1] == entries[..i] + [e];
    assert x.perms == y.perms;
    forall g: Pair ensures g in x.grants <==> g in y.grants {
      InBackfilled(a, entries[..i], g);
      InBackfilled(a, entries[..i + 1], g);
      assert Lists(entries[..i + 1], g.0, g.1) <==> Lists(entries[..i], g.0, g.1) || (e.code == g.1 && g.0 in e.roles);
    }
    assert x.grants == y.grants;
  }

  lemma RoleGrantOneMore(a: Rbac, roles: seq<Code>, j: nat, code: Code)
    requires j < |roles|
    ensures GrantRoles(GrantRoles(a, roles[..j], code), [roles[j]], code) == GrantRoles(a, roles[..j + 1], code)
  {
    assert roles[..j + 1] == roles[..j] + [roles[j]];
    assert GrantRoles(GrantRoles(a, roles[..j], code), [roles[j]], code).grants == GrantRoles(a, roles[..j + 1], code).grants;
  }

  /** The inner loop over an entry's roles. */
  method GrantToRoles(q: QueryRunner, roles: seq<Code>, permissionId: nat, ghost code: Code)
    requires Valid(q.tables)
    requires code in q.tables.permissions && q.tables.permissions[code].id == permissionId
    modifies q
    ensures Valid(q.tables) && View(q.tables) == GrantRoles(old(View(q.tables)), roles, code)
    ensures q.tables.permissions == old(q.tables).permissions
    ensures q.tables.roles == old(q.tables).roles && q.tables.userRoles == old(q.tables).userRoles
  {
    ghost var before := View(q.tables);
    assert GrantRoles(before, roles[..0], code) == before;
    for j := 0 to |roles|
      invariant Valid(q.tables) && View(q.tables) == GrantRoles(before, roles[..j], code)
      invariant q.tables.permissions == old(q.tables).permissions
      invariant q.tables.roles == old(q.tables).roles && q.tables.userRoles == old(q.tables).userRoles
    {
      RoleGrantOneMore(before, roles, j, code);
      q.tables := GrantToRole(q.tables, roles[j], permissionId, code);
    }
    assert roles[..|roles|] == roles;
  }

  /** Insert unless it exists; then select, which always finds it. */
  method InsertThenLookUp(q: QueryRunner, code: Code, name: string, ghost before: map<Code, PermissionRow>,
                          ghost names: seq<(Code, string)>)
      returns (permissionId: nat)
    requires Valid(q.tables) && NamedBy(before, names, q.tables.permissions)
    modifies q
    ensures Valid(q.tables) && View(q.tables) == AddPermission(old(View(q.tables)), code)
    ensures NamedBy(before, names + [(code, name)], q.tables.permissions)
    ensures q.tables.roles == old(q.tables).roles && q.tables.userRoles == old(q.tables).userRoles
    ensures code in q.tables.permissions && q.tables.permissions[code].id == permissionId
  {
    InsertNamed(before, names, q.tables, code, name);
    q.tables := InsertPermission(q.tables, code, name);
    var found := SelectPermission(q.tables, code);
    if found.None? {
      assert false;
    }
    permissionId := found.value;
  }

  /** Insert unless it exists, and select only in that case. */
  method InsertOrLookUp(q: QueryRunner, code: Code, name: string, ghost before: map<Code, PermissionRow>,
                        ghost names: seq<(Code, string)>)
      returns (permissionId: nat)
    requires Valid(q.tables) && NamedBy(before, names, q.tables.permissions)
    modifies q
    ensures Valid(q.tables) && View(q.tables) == AddPermission(old(View(q.tables)), code)
    ensures NamedBy(before, names + [(code, name)], q.tables.permissions)
    ensures q.tables.roles == old(q.tables).roles && q.tables.userRoles == old(q.tables).userRoles
    ensures code in q.tables.permissions && q.tables.permissions[code].id == permissionId
  {
    InsertNamed(before, names, q.tables, code, name);
    var existing := SelectPermission(q.tables, code);
    if existing.None? {
      q.tables := InsertPermission(q.tables, code, name);
      existing := SelectPermission(q.tables, code);
    } else {
      assert View(q.tables) == AddPermission(View(q.tables), code);
    }
    permissionId := existing.value;
  }

  /** One turn of the backfill's outer loop. */
  method FillEntry(q: QueryRunner, e: Entry, ghost before: map<Code, PermissionRow>, ghost names: seq<(Code, string)>)
    requires Valid(q.tables) && NamedBy(before, names, q.tables.permissions)
    modifies q
    ensures Valid(q.tables) && View(q.tables) == GrantRoles(AddPermission(old(View(q.tables)), e.code), e.roles, e.code)
    ensures NamedBy(before, names + [(e.code, e.name)], q.tables.permissions)
    ensures q.tables.roles == old(q.tables).roles && q.tables.userRoles == old(q.tables).userRoles
  {
    var permissionId := InsertThenLookUp(q, e.code, e.name, before, names);
    GrantToRoles(q, e.roles, permissionId, e.code);
  }

  /** 20260720000005. `newlyCreated` are the codes its down deletes. */
  class BackfillMigration {
    const entries: seq<Entry>
    const newlyCreated: seq<Code>

    constructor (entries: seq<Entry>, newlyCreated: seq<Code>)
      ensures this.entries == entries && this.newlyCreated == newlyCreated
    {
      this.entries := entries;
      this.newlyCreated := newlyCreated;
    }

    method Up(q: QueryRunner)
      requires Valid(q.tables)
      modifies q
      ensures Valid(q.tables) && View(q.tables) == Backfilled(old(View(q.tables)), entries)
      ensures NamedBy(old(q.tables).permissions, Names(entries), q.tables.permissions)
      ensures q.tables.roles == old(q.tables).roles && q.tables.userRoles == old(q.tables).userRoles
      ensures forall role, code :: Holds(q.tables, role, code) <==>
                Holds(old(q.tables), role, code) ||
                (ActiveRow(old(q.tables), role) && exists e :: e in entries && e.code == code && role in e.roles)
    {
      ghost var start, names := q.tables, Names(entries);
      assert Backfilled(View(start), entries[..0]) == View(start);
      for i := 0 to |entries|
        invariant Valid(q.tables) && View(q.tables) == Backfilled(View(start), entries[..i])
        invariant NamedBy(start.permissions, names[..i], q.tables.permissions)
        invariant q.tables.roles == start.roles && q.tables.userRoles == start.userRoles
      {
        EntryOneMore(View(start), entries, i);
        NamesOneMore(entries, i);
        FillEntry(q, entries[i], start.permissions, names[..i]);
      }
      assert entries[..|entries|] == entries && names[..|entries|] == names;
      BackfilledHolds(start, entries, q.tables);
    }

    method Down(q: QueryRunner)
      requires Valid(q.tables)
      modifies q
      ensures Valid(q.tables)
      ensures View(q.tables) == Unfilled(old(View(q.tables)), Codes(entries), Elements(newlyCreated))
    {
      ghost var before := View(q.tables);
      ViewIsWellFormed(q.tables);
      q.tables := DeleteGrants(q.tables, q.tables.roles.Keys, Codes(entries));
      q.tables := DeletePermissions(q.tables, Elements(newlyCreated));
      assert View(q.tables).grants == Unfilled(before, Codes(entries), Elements(newlyCreated)).grants;
    }
  }

  /** Every grant on a listed code goes, whoever made it; then the new permissions go. */
  function Unfilled(a: Rbac, codes: set<Code>, created: set<Code>): Rbac {
    a.(perms := a.perms - created,
       grants := set g | g in a.grants && g.1 !in codes && g.1 !in created)
  }

  lemma BackfillIsIdempotent(a: Rbac, entries: seq<Entry>)
    ensures Backfilled(Backfilled(a, entries), entries) == Backfilled(a, entries)
  {
    var once := Backfilled(a, entries);
    assert Backfilled(once, entries).perms == once.perms;
    forall g: Pair ensures g in Backfilled(once, entries).grants <==> g in once.grants {
      InBackfilled(a, entries, g);
      InBackfilled(once, entries, g);
    }
    assert Backfilled(once, entries).grants == once.grants;
  }

  /** The down's comment promises to remove only what the up added. It does so exactly when no
      listed code had a grant before, the codes it deletes were new, and all others were not. */
  lemma BackfillDownUndoesUpIff(a: Rbac, entries: seq<Entry>, created: set<Code>)
    requires WellFormed(a)
    ensures Unfilled(Backfilled(a, entries), Codes(entries), created) == a
        <==> && (forall g :: g in a.grants ==> g.1 !in Codes(entries))
             && created !! a.perms
             && Codes(entries) - created <= a.perms
  {
    var up := Backfilled(a, entries);
    var b := Unfilled(up, Codes(entries), created);
    assert b.perms == (a.perms + Codes(entries)) - created;
    if b == a {
      forall g | g in a.grants ensures g.1 !in Codes(entries) {
        assert g in b.grants;
      }
      assert created !! b.perms;
      assert Codes(entries) - created <= b.perms;
    }
    if (forall g :: g in a.grants ==> g.1 !in Codes(entries)) && created !! a.perms && Codes(entries) - created <= a.perms {
      assert b.perms == a.perms;
      forall g: Pair ensures g in b.grants <==> g in a.grants {
        InBackfilled(a, entries, g);
      }
      assert b.grants == a.grants;
    }
  }

  /** A state in which the up adds nothing and the down takes a grant away all the same. */
  lemma BackfillDownCanLose(role: Code, code: Code, name: string) returns (a: Rbac)
    ensures WellFormed(a) && (role, code) in a.grants
    ensures Backfilled(a, [Entry(code, name, [role])]) == a
    ensures (role, code) !in Unfilled(a, Codes([Entry(code, name, [role])]), {}).grants
  {
    var entries := [Entry(code, name, [role])];
    a := Rbac({code}, map[role := true], {(role, code)}, {});
    assert entries[0] in entries;
    assert Backfilled(a, entries).perms == a.perms;
    forall g ensures g in Backfilled(a, entries).grants <==> g in a.grants {
      InBackfilled(a, entries, g);
    }
    assert Backfilled(a, entries).grants == a.grants;
  }

  // ---- 20260624000002: the fallback pattern, one role list for all its permissions ----

  /** The entries a fallback seed migration stands for. */
  function SharedRoles(permissions: seq<(Code, string)>, roles: seq<Code>): seq<Entry> {
    seq(|permissions|, i requires 0 <= i < |permissions| => Entry(permissions[i].0, permissions[i].1, roles))
  }

  lemma SharedRolesList(permissions: seq<(Code, string)>, roles: seq<Code>, role: Code, code: Code)
    ensures (exists e :: e in SharedRoles(permissions, roles) && e.code == code && role in e.roles)
        <==> role in roles && exists p :: p in permissions && p.0 == code
  {
    var entries := SharedRoles(permissions, roles);
    if exists p :: p in permissions && p.0 == code {
      var i :| 0 <= i < |permissions| && permissions[i].0 == code;
      assert entries[i] in entries;
    }
    if exists e :: e in entries && e.code == code && role in e.roles {
      var i :| 0 <= i < |entries| && entries[i].code == code && role in entries[i].roles;
      assert permissions[i] in permissions;
    }
  }

  lemma SharedEnds(a: Rbac, permissions: seq<(Code, string)>, roles: seq<Code>)
    ensures |SharedRoles(permissions, roles)| == |permissions|
    ensures Backfilled(a, SharedRoles(permissions, roles)[..0]) == a
    ensures SharedRoles(permissions, roles)[..|permissions|] == SharedRoles(permissions, roles)
  {
    assert Backfilled(a, SharedRoles(permissions, roles)[..0]).grants == a.grants;
  }

  lemma SharedEntryOneMore(a: Rbac, permissions: seq<(Code, string)>, roles: seq<Code>, i: nat)
    requires i < |permissions|
    ensures GrantRoles(AddPermission(Backfilled(a, SharedRoles(permissions, roles)[..i]), permissions[i].0),
                       roles, permissions[i].0)
         == Backfilled(a, SharedRoles(permissions, roles)[..i + 1])
  {
    EntryOneMore(a, SharedRoles(permissions, roles), i);
  }

  lemma SharedRolesHold(t: Tables, permissions: seq<(Code, string)>, roles: seq<Code>, u: Tables)
    requires View(u) == Backfilled(View(t), SharedRoles(permissions, roles))
    ensures forall role, code :: Holds(u, role, code) <==>
              Holds(t, role, code) ||
              (ActiveRow(t, role) && role in roles && exists p :: p in permissions && p.0 == code)
  {
    BackfilledHolds(t, SharedRoles(permissions, roles), u);
    forall role, code
      ensures Holds(u, role, code) <==>
              Holds(t, role, code) ||
              (ActiveRow(t, role) && role in roles && exists p :: p in permissions && p.0 == code)
    {
      SharedRolesList(permissions, roles, role, code);
    }
  }

  class FallbackMigration {
    const permissions: seq<(Code, string)>
    const roles: seq<Code>

    constructor (permissions: seq<(Code, string)>, roles: seq<Code>)
      ensures this.permissions == permissions && this.roles == roles
    {
      this.permissions := permissions;
      this.roles := roles;
    }

    method Up(q: QueryRunner)
      requires Valid(q.tables)
      modifies q
      ensures Valid(q.tables) && View(q.tables) == Backfilled(old(View(q.tables)), SharedRoles(permissions, roles))
      ensures NamedBy(old(q.tables).permissions, permissions, q.tables.permissions)
      ensures q.tables.roles == old(q.tables).roles && q.tables.userRoles == old(q.tables).userRoles
      ensures forall role, code :: Holds(q.tables, role, code) <==>
                Holds(old(q.tables), role, code) ||
                (ActiveRow(old(q.tables), role) && role in roles && exists p :: p in permissions && p.0 == code)
    {
      ghost var start := q.tables;
      FillPermissions(q);
      SharedRolesHold(start, permissions, roles, q.tables);
    }

    /** The outer loop. */
    method FillPermissions(q: QueryRunner)
      requires Valid(q.tables)
      modifies q
      ensures Valid(q.tables) && View(q.tables) == Backfilled(old(View(q.tables)), SharedRoles(permissions, roles))
      ensures NamedBy(old(q.tables).permissions, permissions, q.tables.permissions)
      ensures q.tables.roles == old(q.tables).roles && q.tables.userRoles == old(q.tables).userRoles
    {
      ghost var start, entries := q.tables, SharedRoles(permissions, roles);
      SharedEnds(View(start), permissions, roles);
      for i := 0 to |permissions|
        invariant Valid(q.tables) && View(q.tables) == Backfilled(View(start), entries[..i])
        invariant NamedBy(start.permissions, permissions[..i], q.tables.permissions)
        invariant q.tables.roles == start.roles && q.tables.userRoles == start.userRoles
      {
        SharedEntryOneMore(View(start), permissions, roles, i);
        assert permissions[..i + 1] == permissions[..i] + [permissions[i]];
        FillPermission(q, permissions[i], start.permissions, permissions[..i]);
      }
      assert permissions[..|permissions|] == permissions;
    }

    /** One turn of the outer loop: insert or look up, then grant. */
    method FillPermission(q: QueryRunner, p: (Code, string), ghost before: map<Code, PermissionRow>,
                          ghost names: seq<(Code, string)>)
      requires Valid(q.tables) && NamedBy(before, names, q.tables.permissions)
      modifies q
      ensures Valid(q.tables) && View(q.tables) == GrantRoles(AddPermission(old(View(q.tables)), p.0), roles, p.0)
      ensures NamedBy(before, names + [p], q.tables.permissions)
      ensures q.tables.roles == old(q.tables).roles && q.tables.userRoles == old(q.tables).userRoles
    {
      var permissionId := InsertOrLookUp(q, p.0, p.1, before, names);
      assert p == (p.0, p.1);
      GrantToRoles(q, roles, permissionId, p.0);
    }

    method Down(q: QueryRunner)
      requires Valid(q.tables)
      modifies q
      ensures Valid(q.tables)
      ensures View(q.tables) == DropPermissions(old(View(q.tables)), Codes(SharedRoles(permissions, roles)))
    {
      ghost var before := View(q.tables);
      ViewIsWellFormed(q.tables);
      var codes := Codes(SharedRoles(permissions, roles));
      q.tables := DeleteGrants(q.tables, q.tables.roles.Keys, codes);
      q.tables := DeletePermissions(q.tables, codes);
      assert View(q.tables).grants == DropPermissions(before, codes).grants;
    }
  }

  lemma FallbackDownUndoesUpIff(a: Rbac, entries: seq<Entry>)
    requires WellFormed(a)
    ensures DropPermissions(Backfilled(a, entries), Codes(entries)) == a <==> Codes(entries) !! a.perms
  {
    var b := DropPermissions(Backfilled(a, entries), Codes(entries));
    if b == a {
      assert b.perms !! Codes(entries);
    }
    if Codes(entries) !! a.perms {
      assert b.perms == a.perms;
      assert b.grants == a.grants;
    }
  }

  /** Re-running a fallback migration once missing roles have appeared grants them everything
      they are listed for, whatever the first run found. */
  lemma FallbackCatchesUp(a: Rbac, entries: seq<Entry>, later: set<Code>)
    ensures Backfilled(WithRoles(Backfilled(a, entries), later), entries)
         == Backfilled(WithRoles(a, later), entries)
  {
    var x := Backfilled(WithRoles(Backfilled(a, entries), later), entries);
    var y := Backfilled(WithRoles(a, later), entries);
    assert x.perms == y.perms;
    forall g: Pair ensures g in x.grants <==> g in y.grants {
      InBackfilled(a, entries, g);
      InBackfilled(WithRoles(Backfilled(a, entries), later), entries, g);
      InBackfilled(WithRoles(a, later), entries, g);
      assert Active(a, g.0) ==> Active(WithRoles(a, later), g.0);
    }
    assert x.grants == y.grants;
  }
}
