/**
 * The four tables with their generated ids, and the SQL statements the migrations send.
 * Each statement is shown to do to the by-code view what its RbacModel counterpart says.
 */
module RbacTables {
  import opened Options
  import opened RbacModel

  datatype PermissionRow = PermissionRow(id: nat, name: string)

  datatype RoleRow = RoleRow(id: nat, active: bool)

  /** `rolePermissions` holds (role id, permission id), `userRoles` (user, role id). The codes
      are unique, as `ON CONFLICT (permission_code)` requires. */
  datatype Tables = Tables(permissions: map<Code, PermissionRow>, roles: map<Code, RoleRow>,
                           rolePermissions: set<(nat, nat)>, userRoles: set<(string, nat)>, nextId: nat)

  ghost predicate RoleId(t: Tables, id: nat) {
    exists r :: r in t.roles && t.roles[r].id == id
  }

  ghost predicate PermissionId(t: Tables, id: nat) {
    exists c :: c in t.permissions && t.permissions[c].id == id
  }

  /** Ids are unique and below `nextId`. */
  ghost predicate UniqueIds(t: Tables) {
    && (forall c :: c in t.permissions ==> t.permissions[c].id < t.nextId)
    && (forall r :: r in t.roles ==> t.roles[r].id < t.nextId)
    && (forall c, d :: c in t.permissions && d in t.permissions && t.permissions[c].id == t.permissions[d].id ==> c == d)
    && (forall r, q :: r in t.roles && q in t.roles && t.roles[r].id == t.roles[q].id ==> r == q)
  }

  /** The foreign keys: grants and memberships point at existing rows. */
  ghost predicate ReferencesHold(t: Tables) {
    && (forall g :: g in t.rolePermissions ==> RoleId(t, g.0) && PermissionId(t, g.1))
    && (forall m :: m in t.userRoles ==> RoleId(t, m.1))
  }

  ghost predicate Valid(t: Tables) {
    UniqueIds(t) && ReferencesHold(t)
  }

  ghost function ActiveFlags(t: Tables): map<Code, bool> {
    map r | r in t.roles :: t.roles[r].active
  }

  ghost function GrantsByCode(t: Tables): set<(Code, Code)> {
    set r, c | r in t.roles && c in t.permissions &&
               (t.roles[r].id, t.permissions[c].id) in t.rolePermissions :: (r, c)
  }

  ghost function MembersByCode(t: Tables): set<(string, Code)> {
    set m, r | m in t.userRoles && r in t.roles && t.roles[r].id == m.1 :: (m.0, r)
  }

  ghost function View(t: Tables): Rbac {
    Rbac(t.permissions.Keys, ActiveFlags(t), GrantsByCode(t), MembersByCode(t))
  }

  lemma ViewIsWellFormed(t: Tables)
    ensures WellFormed(View(t))
  {}

  lemma InGrantsByCode(t: Tables, g: (Code, Code))
    ensures g in GrantsByCode(t) <==>
            g.0 in t.roles && g.1 in t.permissions && (t.roles[g.0].id, t.permissions[g.1].id) in t.rolePermissions
  {}

  lemma InMembersByCode(t: Tables, m: (string, Code))
    ensures m in MembersByCode(t) <==> m.1 in t.roles && (m.0, t.roles[m.1].id) in t.userRoles
  {
    if m.1 in t.roles && (m.0, t.roles[m.1].id) in t.userRoles {
      var row := (m.0, t.roles[m.1].id);
      assert row in t.userRoles && t.roles[m.1].id == row.1 && (row.0, m.1) == m;
    }
  }

  /** The role's row holds a grant of the permission's row. */
  predicate Holds(t: Tables, role: Code, code: Code) {
    role in t.roles && code in t.permissions && (t.roles[role].id, t.permissions[code].id) in t.rolePermissions
  }

  predicate ActiveRow(t: Tables, role: Code) {
    role in t.roles && t.roles[role].active
  }

  /** What the rows say and what the by-code view says. */
  lemma HoldsIsView(t: Tables)
    ensures forall role, code :: Holds(t, role, code) <==> (role, code) in View(t).grants
    ensures forall role :: ActiveRow(t, role) <==> role in View(t).roles && View(t).roles[role]
  {
    forall role, code ensures Holds(t, role, code) <==> (role, code) in View(t).grants {
      InGrantsByCode(t, (role, code));
    }
  }

  /** No row of `before` has changed; every listed code exists, and each code that is new has the
      name of its first listing. */
  ghost predicate NamedBy(before: map<Code, PermissionRow>, names: seq<(Code, string)>, now: map<Code, PermissionRow>) {
    && (forall c :: c in before ==> c in now && now[c] == before[c])
    && (forall i :: 0 <= i < |names| ==> names[i].0 in now)
    && (forall c :: c in now && c !in before ==>
          exists i :: 0 <= i < |names| && names[i] == (c, now[c].name) && forall j :: 0 <= j < i ==> names[j].0 != c)
  }

  lemma NamedOneMore(before: map<Code, PermissionRow>, names: seq<(Code, string)>, mid: map<Code, PermissionRow>,
                     code: Code, row: PermissionRow, now: map<Code, PermissionRow>)
    requires NamedBy(before, names, mid)
    requires now == if code in mid then mid else mid[code := row]
    ensures NamedBy(before, names + [(code, row.name)], now)
  {
    var more := names + [(code, row.name)];
    forall c | c in now && c !in before
      ensures exists i :: 0 <= i < |more| && more[i] == (c, now[c].name) && forall j :: 0 <= j < i ==> more[j].0 != c
    {
      if c in mid {
        var i :| 0 <= i < |names| && names[i] == (c, mid[c].name) && forall j :: 0 <= j < i ==> names[j].0 != c;
        assert more[i] == (c, now[c].name);
      } else {
        assert more[|names|] == (c, now[c].name);
      }
    }
  }

  /** Growing a table keeps every id in it. */
  lemma IdsKept(t: Tables, u: Tables)
    requires forall c :: c in t.permissions ==> c in u.permissions && u.permissions[c].id == t.permissions[c].id
    requires forall r :: r in t.roles ==> r in u.roles && u.roles[r].id == t.roles[r].id
    ensures forall id :: PermissionId(t, id) ==> PermissionId(u, id)
    ensures forall id :: RoleId(t, id) ==> RoleId(u, id)
  {
    forall id | PermissionId(t, id) ensures PermissionId(u, id) {
      var c :| c in t.permissions && t.permissions[c].id == id;
      assert c in u.permissions && u.permissions[c].id == id;
    }
    forall id | RoleId(t, id) ensures RoleId(u, id) {
      var r :| r in t.roles && t.roles[r].id == id;
      assert r in u.roles && u.roles[r].id == id;
    }
  }

  lemma AddPermissionRow(t: Tables, code: Code, name: string, u: Tables)
    requires Valid(t) && code !in t.permissions
    requires u == t.(permissions := t.permissions[code := PermissionRow(t.nextId, name)], nextId := t.nextId + 1)
    ensures Valid(u) && View(u) == AddPermission(View(t), code)
  {
    IdsKept(t, u);
    assert GrantsByCode(u) == GrantsByCode(t) by {
      assert !PermissionId(t, t.nextId);
    }
    assert u.permissions.Keys == t.permissions.Keys + {code};
  }

  /** INSERT INTO permissions ... WHERE NOT EXISTS / ON CONFLICT DO NOTHING. */
  function InsertPermission(t: Tables, code: Code, name: string): (u: Tables)
    requires Valid(t)
    ensures Valid(u) && View(u) == AddPermission(View(t), code)
    ensures code in u.permissions && (code in t.permissions ==> u == t)
    ensures code !in t.permissions ==> u.permissions == t.permissions[code := PermissionRow(t.nextId, name)]
    ensures u.roles == t.roles && u.userRoles == t.userRoles
  {
    if code in t.permissions then t
    else
      var u := t.(permissions := t.permissions[code := PermissionRow(t.nextId, name)], nextId := t.nextId + 1);
      AddPermissionRow(t, code, name, u);
      u
  }

  lemma InsertNamed(before: map<Code, PermissionRow>, names: seq<(Code, string)>, t: Tables, code: Code, name: string)
    requires Valid(t) && NamedBy(before, names, t.permissions)
    ensures NamedBy(before, names + [(code, name)], InsertPermission(t, code, name).permissions)
  {
    NamedOneMore(before, names, t.permissions, code, PermissionRow(t.nextId, name),
                 InsertPermission(t, code, name).permissions);
  }

  /** SELECT id FROM permissions WHERE permission_code = $1. */
  function SelectPermission(t: Tables, code: Code): Option<nat> {
    if code in t.permissions then Some(t.permissions[code].id) else None
  }

  /** SELECT id FROM roles WHERE role_code = $1 AND is_active = true. */
  function SelectActiveRole(t: Tables, role: Code): Option<nat> {
    if role in t.roles && t.roles[role].active then Some(t.roles[role].id) else None
  }

  lemma AddGrantRow(t: Tables, role: Code, code: Code, u: Tables)
    requires Valid(t) && role in t.roles && code in t.permissions
    requires u == t.(rolePermissions := t.rolePermissions + {(t.roles[role].id, t.permissions[code].id)})
    ensures Valid(u) && View(u) == View(t).(grants := View(t).grants + {(role, code)})
  {
    IdsKept(t, u);
    assert GrantsByCode(u) == GrantsByCode(t) + {(role, code)};
  }

  /** INSERT INTO role_permissions VALUES (...) ON CONFLICT DO NOTHING. */
  function InsertGrant(t: Tables, roleId: nat, permissionId: nat, ghost role: Code, ghost code: Code): (u: Tables)
    requires Valid(t)
    requires role in t.roles && t.roles[role].id == roleId
    requires code in t.permissions && t.permissions[code].id == permissionId
    ensures Valid(u) && View(u) == View(t).(grants := View(t).grants + {(role, code)})
    ensures u == t.(rolePermissions := u.rolePermissions)
  {
    var u := t.(rolePermissions := t.rolePermissions + {(roleId, permissionId)});
    AddGrantRow(t, role, code, u);
    u
  }

  /** INSERT INTO role_permissions SELECT r.id, $2 FROM roles r WHERE r.role_code = $1 AND r.is_active. */
  function GrantToRole(t: Tables, role: Code, permissionId: nat, ghost code: Code): (u: Tables)
    requires Valid(t)
    requires code in t.permissions && t.permissions[code].id == permissionId
    ensures Valid(u) && View(u) == GrantRoles(View(t), [role], code)
    ensures u == t.(rolePermissions := u.rolePermissions)
  {
    GrantOneRole(View(t), role, code);
    var roleId := SelectActiveRole(t, role);
    if roleId.Some? then InsertGrant(t, roleId.value, permissionId, role, code) else t
  }

  /** INSERT INTO role_permissions SELECT r.id, p.id FROM roles r, permissions p WHERE ... */
  function GrantByCodes(t: Tables, role: Code, code: Code): (u: Tables)
    requires Valid(t)
    ensures Valid(u) && View(u) == GrantPair(View(t), role, code)
    ensures u == t.(rolePermissions := u.rolePermissions)
  {
    var roleId := SelectActiveRole(t, role);
    var permissionId := SelectPermission(t, code);
    if roleId.Some? && permissionId.Some?
    then InsertGrant(t, roleId.value, permissionId.value, role, code)
    else t
  }

  function RoleIds(t: Tables, roles: set<Code>): set<nat> {
    set r | r in roles && r in t.roles :: t.roles[r].id
  }

  function PermissionIds(t: Tables, codes: set<Code>): set<nat> {
    set c | c in codes && c in t.permissions :: t.permissions[c].id
  }

  /** DELETE FROM role_permissions WHERE role_id IN (...) AND permission_id IN (...). */
  function DeleteGrants(t: Tables, roles: set<Code>, codes: set<Code>): (u: Tables)
    requires Valid(t)
    ensures Valid(u) && View(u) == Revoke(View(t), roles, codes)
    ensures u == t.(rolePermissions := u.rolePermissions)
  {
    var roleIds, permissionIds := RoleIds(t, roles), PermissionIds(t, codes);
    var u := t.(rolePermissions := set g | g in t.rolePermissions && !(g.0 in roleIds && g.1 in permissionIds));
    IdsKept(t, u);
    u
  }

  lemma DropKeepsIds(t: Tables, roles: set<Code>, codes: set<Code>)
    ensures forall id :: PermissionId(t, id) && id !in PermissionIds(t, codes) ==>
              PermissionId(t.(permissions := t.permissions - codes), id)
    ensures forall id :: RoleId(t, id) && id !in RoleIds(t, roles) ==> RoleId(t.(roles := t.roles - roles), id)
  {
    forall id | PermissionId(t, id) && id !in PermissionIds(t, codes)
      ensures PermissionId(t.(permissions := t.permissions - codes), id)
    {
      var c :| c in t.permissions && t.permissions[c].id == id;
      assert c in t.permissions - codes;
    }
    forall id | RoleId(t, id) && id !in RoleIds(t, roles) ensures RoleId(t.(roles := t.roles - roles), id) {
      var r :| r in t.roles && t.roles[r].id == id;
      assert r in t.roles - roles;
    }
  }

  lemma DropPermissionRows(t: Tables, codes: set<Code>, u: Tables)
    requires Valid(t)
    requires u == t.(permissions := t.permissions - codes,
                     rolePermissions := set g | g in t.rolePermissions && g.1 !in PermissionIds(t, codes))
    ensures Valid(u) && View(u) == DropPermissions(View(t), codes)
  {
    DropKeepsIds(t, {}, codes);
    forall g | g in u.rolePermissions ensures RoleId(u, g.0) && PermissionId(u, g.1) {
      assert PermissionId(t.(permissions := t.permissions - codes), g.1);
      assert RoleId(t, g.0);
      var c :| c in u.permissions && u.permissions[c].id == g.1;
      var r :| r in u.roles && u.roles[r].id == g.0;
    }
    forall m | m in u.userRoles ensures RoleId(u, m.1) {
      var r :| r in t.roles && t.roles[r].id == m.1;
      assert r in u.roles;
    }
  }

  /** DELETE FROM permissions WHERE permission_code = ANY($1); role_permissions cascade. */
  function DeletePermissions(t: Tables, codes: set<Code>): (u: Tables)
    requires Valid(t)
    ensures Valid(u) && View(u) == DropPermissions(View(t), codes)
    ensures u == t.(permissions := t.permissions - codes, rolePermissions := u.rolePermissions)
  {
    var permissionIds := PermissionIds(t, codes);
    var u := t.(permissions := t.permissions - codes,
                rolePermissions := set g | g in t.rolePermissions && g.1 !in permissionIds);
    DropPermissionRows(t, codes, u);
    u
  }

  function WithRow(t: Tables, from: Code, to: Code, name: Option<string>): Tables
    requires from in t.permissions
  {
    var before := t.permissions[from];
    var row := PermissionRow(before.id, if name.Some? then name.value else before.name);
    t.(permissions := (t.permissions - {from})[to := row])
  }

  lemma RenameRow(t: Tables, from: Code, to: Code, row: PermissionRow, u: Tables)
    requires Valid(t) && from in t.permissions && (to in t.permissions ==> to == from)
    requires row.id == t.permissions[from].id
    requires u == t.(permissions := (t.permissions - {from})[to := row])
    ensures Valid(u) && View(u) == RenamePermission(View(t), from, to)
  {
    forall g | g in u.rolePermissions ensures RoleId(u, g.0) && PermissionId(u, g.1) {
      var c :| c in t.permissions && t.permissions[c].id == g.1;
      assert Renamed(c, from, to) in u.permissions && u.permissions[Renamed(c, from, to)].id == g.1;
      var r :| r in t.roles && t.roles[r].id == g.0;
      assert r in u.roles && u.roles[r].id == g.0;
    }
    forall m | m in u.userRoles ensures RoleId(u, m.1) {
      var r :| r in t.roles && t.roles[r].id == m.1;
      assert r in u.roles;
    }
    RenameGrants(t, from, to, row, u);
  }

  lemma RenameGrants(t: Tables, from: Code, to: Code, row: PermissionRow, u: Tables)
    requires from in t.permissions && (to in t.permissions ==> to == from)
    requires row.id == t.permissions[from].id
    requires u == t.(permissions := (t.permissions - {from})[to := row])
    ensures View(u) == RenamePermission(View(t), from, to)
  {
    var a, b := View(u), RenamePermission(View(t), from, to);
    assert a.roles == b.roles && a.members == b.members;
    forall c ensures c in a.perms <==> c in b.perms {
      if c in a.perms {
        var d := if c == to then from else c;
        assert d in View(t).perms && Renamed(d, from, to) == c;
      }
    }
    forall g ensures g in a.grants <==> g in b.grants {
      if g in a.grants {
        var d := if g.1 == to then from else g.1;
        assert (g.0, d) in View(t).grants && g == (g.0, Renamed(d, from, to));
      }
    }
  }

  /** UPDATE permissions SET permission_code = $1 [, permission_name = $2] WHERE permission_code = $3.
      None is the unique-key violation when another row already has the new code. */
  function UpdatePermissionCode(t: Tables, from: Code, to: Code, name: Option<string>): (u: Option<Tables>)
    requires Valid(t)
    ensures u.None? <==> from in t.permissions && to in t.permissions && from != to
    ensures u.Some? ==> u.value == if from in t.permissions then WithRow(t, from, to, name) else t
    ensures u.Some? ==> Valid(u.value) && View(u.value) == RenamePermission(View(t), from, to)
  {
    if from !in t.permissions then
      RenameMissing(View(t), from, to);
      Some(t)
    else if to in t.permissions && from != to then None
    else
      var renamed := WithRow(t, from, to, name);
      RenameRow(t, from, to, renamed.permissions[to], renamed);
      Some(renamed)
  }

  lemma AddRoleRow(t: Tables, role: Code, u: Tables)
    requires Valid(t) && role !in t.roles
    requires u == t.(roles := t.roles[role := RoleRow(t.nextId, true)], nextId := t.nextId + 1)
    ensures Valid(u) && View(u) == AddRole(View(t), role)
  {
    IdsKept(t, u);
    assert !RoleId(t, t.nextId);
    assert ActiveFlags(u) == ActiveFlags(t)[role := true];
    forall g ensures g in GrantsByCode(u) <==> g in GrantsByCode(t) {
      InGrantsByCode(t, g);
      InGrantsByCode(u, g);
    }
    forall m ensures m in MembersByCode(u) <==> m in MembersByCode(t) {
      InMembersByCode(t, m);
      InMembersByCode(u, m);
    }
  }

  /** INSERT INTO roles ... WHERE NOT EXISTS. */
  function InsertRole(t: Tables, role: Code): (u: Tables)
    requires Valid(t)
    ensures Valid(u) && View(u) == AddRole(View(t), role)
    ensures u.roles == if role in t.roles then t.roles else t.roles[role := RoleRow(t.nextId, true)]
  {
    if role in t.roles then t
    else
      var u := t.(roles := t.roles[role := RoleRow(t.nextId, true)], nextId := t.nextId + 1);
      AddRoleRow(t, role, u);
      u
  }

  /** No role row of `before` has changed, and the listed roles that are new are active. */
  ghost predicate RolesAdded(before: map<Code, RoleRow>, codes: seq<Code>, now: map<Code, RoleRow>) {
    && (forall r :: r in now <==> r in before || r in codes)
    && (forall r :: r in now ==> if r in before then now[r] == before[r] else now[r].active)
  }

  lemma RolesAddedOneMore(before: map<Code, RoleRow>, codes: seq<Code>, t: Tables, role: Code)
    requires Valid(t) && RolesAdded(before, codes, t.roles)
    ensures RolesAdded(before, codes + [role], InsertRole(t, role).roles)
  {}

  lemma DropRolesReferences(t: Tables, roles: set<Code>, u: Tables)
    requires Valid(t)
    requires u == t.(roles := t.roles - roles,
                     rolePermissions := (set g | g in t.rolePermissions && g.0 !in RoleIds(t, roles)),
                     userRoles := (set m | m in t.userRoles && m.1 !in RoleIds(t, roles)))
    ensures ReferencesHold(u)
  {
    forall g | g in u.rolePermissions ensures RoleId(u, g.0) && PermissionId(u, g.1) {
      var r :| r in t.roles && t.roles[r].id == g.0;
      assert r in u.roles && u.roles[r].id == g.0;
      var c :| c in t.permissions && t.permissions[c].id == g.1;
      assert c in u.permissions && u.permissions[c].id == g.1;
    }
    forall m | m in u.userRoles ensures RoleId(u, m.1) {
      var r :| r in t.roles && t.roles[r].id == m.1;
      assert r in u.roles && u.roles[r].id == m.1;
    }
  }

  lemma DropRolesView(t: Tables, roles: set<Code>, u: Tables)
    requires UniqueIds(t)
    requires u == t.(roles := t.roles - roles,
                     rolePermissions := (set g | g in t.rolePermissions && g.0 !in RoleIds(t, roles)),
                     userRoles := (set m | m in t.userRoles && m.1 !in RoleIds(t, roles)))
    ensures UniqueIds(u) && View(u) == DropRoles(View(t), roles)
  {
    forall r | r in t.roles ensures r in roles <==> t.roles[r].id in RoleIds(t, roles) {}
    assert ActiveFlags(u) == ActiveFlags(t) - roles;
    forall g ensures g in GrantsByCode(u) <==> g in GrantsByCode(t) && g.0 !in roles {
      InGrantsByCode(t, g);
      InGrantsByCode(u, g);
    }
    forall m ensures m in MembersByCode(u) <==> m in MembersByCode(t) && m.1 !in roles {
      InMembersByCode(t, m);
      InMembersByCode(u, m);
    }
  }

  /** The three DELETEs of SeedCoreRoles' down, memberships and grants before the roles. */
  function DeleteRoles(t: Tables, roles: set<Code>): (u: Tables)
    requires Valid(t)
    ensures Valid(u) && View(u) == DropRoles(View(t), roles)
  {
    var roleIds := RoleIds(t, roles);
    var u := t.(roles := t.roles - roles,
                rolePermissions := (set g | g in t.rolePermissions && g.0 !in roleIds),
                userRoles := (set m | m in t.userRoles && m.1 !in roleIds));
    DropRolesReferences(t, roles, u);
    DropRolesView(t, roles, u);
    u
  }
}
