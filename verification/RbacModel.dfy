/** Roles, permissions and grants by code: what a migration means, ids and timestamps aside. */
module RbacModel {
  type Code = string

  /** `grants` holds (role, permission) pairs; a role maps to its is_active flag. */
  datatype Rbac = Rbac(perms: set<Code>, roles: map<Code, bool>,
                       grants: set<(Code, Code)>, members: set<(string, Code)>)

  /** The foreign keys. */
  ghost predicate WellFormed(a: Rbac) {
    && (forall g :: g in a.grants ==> g.0 in a.roles && g.1 in a.perms)
    && (forall m :: m in a.members ==> m.1 in a.roles)
  }

  predicate Active(a: Rbac, role: Code) {
    role in a.roles && a.roles[role]
  }

  function AddPermission(a: Rbac, code: Code): Rbac {
    a.(perms := a.perms + {code})
  }

  /** Grants one permission to every listed role that is active. */
  function GrantRoles(a: Rbac, roles: seq<Code>, code: Code): Rbac {
    a.(grants := a.grants + set r | r in roles && Active(a, r) :: (r, code))
  }

  lemma GrantOneRole(a: Rbac, role: Code, code: Code)
    ensures GrantRoles(a, [role], code) == if Active(a, role) then a.(grants := a.grants + {(role, code)}) else a
  {
    assert GrantRoles(a, [role], code).grants == if Active(a, role) then a.grants + {(role, code)} else a.grants;
  }

  /** Grants one listed pair, if the role is active and the permission there. */
  function GrantPair(a: Rbac, role: Code, code: Code): Rbac {
    if Active(a, role) && code in a.perms then a.(grants := a.grants + {(role, code)}) else a
  }

  function Revoke(a: Rbac, roles: set<Code>, codes: set<Code>): Rbac {
    a.(grants := set g | g in a.grants && !(g.0 in roles && g.1 in codes))
  }

  /** Deleting a permission takes its grants along. */
  function DropPermissions(a: Rbac, codes: set<Code>): Rbac {
    a.(perms := a.perms - codes, grants := set g | g in a.grants && g.1 !in codes)
  }

  function AddRole(a: Rbac, role: Code): Rbac {
    if role in a.roles then a else a.(roles := a.roles[role := true])
  }

  /** Deleting roles after their memberships and grants. */
  function DropRoles(a: Rbac, roles: set<Code>): Rbac {
    Rbac(a.perms, a.roles - roles,
         set g | g in a.grants && g.0 !in roles,
         set m | m in a.members && m.1 !in roles)
  }

  function Renamed(code: Code, from: Code, to: Code): Code {
    if code == from then to else code
  }

  /** `UPDATE permissions SET permission_code = to WHERE permission_code = from`. */
  function RenamePermission(a: Rbac, from: Code, to: Code): Rbac {
    a.(perms := set c | c in a.perms :: Renamed(c, from, to),
       grants := set g | g in a.grants :: (g.0, Renamed(g.1, from, to)))
  }

  lemma RenameMissing(a: Rbac, from: Code, to: Code)
    requires WellFormed(a) && from !in a.perms
    ensures RenamePermission(a, from, to) == a
  {
    var b := RenamePermission(a, from, to);
    forall c ensures c in b.perms <==> c in a.perms {
      assert c in a.perms ==> Renamed(c, from, to) == c;
    }
    forall g ensures g in b.grants <==> g in a.grants {
      assert g in a.grants ==> (g.0, Renamed(g.1, from, to)) == g;
    }
  }
}
