/** Migrations that take a permission from one role and give it to another. */
module HandoverMigrations {
  import opened RbacModel
  import opened RbacTables
  import opened GrantMigrations

  function Paired(role: Code, codes: set<Code>): set<Pair> {
    set c | c in codes :: (role, c)
  }

  /** `from` loses every listed permission; `to` gets those that exist, if it is active. */
  function HandedOver(a: Rbac, codes: set<Code>, from: Code, to: Code): Rbac {
    Granted(Revoke(a, {from}, codes), Paired(to, codes))
  }

  /** 20260820000001 and 20260821000001: one permission, looked up first. The second migration
      is the first with the two roles exchanged. */
  class MoveMigration {
    const permissionCode: Code
    const fromRole: Code
    const toRole: Code

    constructor (permissionCode: Code, fromRole: Code, toRole: Code)
      ensures this.permissionCode == permissionCode && this.fromRole == fromRole && this.toRole == toRole
    {
      this.permissionCode := permissionCode;
      this.fromRole := fromRole;
      this.toRole := toRole;
    }

    method Up(q: QueryRunner)
      requires Valid(q.tables)
      modifies q
      ensures Valid(q.tables)
      ensures View(q.tables) == HandedOver(old(View(q.tables)), {permissionCode}, fromRole, toRole)
    {
      Move(q, permissionCode, fromRole, toRole);
    }

    /** Same statements, roles exchanged: the other migration's up as a function of the tables. */
    method Down(q: QueryRunner)
      requires Valid(q.tables)
      modifies q
      ensures Valid(q.tables)
      ensures View(q.tables) == HandedOver(old(View(q.tables)), {permissionCode}, toRole, fromRole)
    {
      Move(q, permissionCode, toRole, fromRole);
    }
  }

  method Move(q: QueryRunner, code: Code, from: Code, to: Code)
    requires Valid(q.tables)
    modifies q
    ensures Valid(q.tables)
    ensures View(q.tables) == HandedOver(old(View(q.tables)), {code}, from, to)
  {
    ghost var before := View(q.tables);
    ViewIsWellFormed(q.tables);
    var permissionId := SelectPermission(q.tables, code);
    if permissionId.None? {
      MissingPermissionIsNoOp(before, code, from, to);
      return;
    }
    q.tables := DeleteGrants(q.tables, {from}, {code});
    q.tables := GrantToRole(q.tables, to, permissionId.value, code);
    OnePermission(before, code, from, to);
  }

  lemma MissingPermissionIsNoOp(a: Rbac, code: Code, from: Code, to: Code)
    requires WellFormed(a) && code !in a.perms
    ensures HandedOver(a, {code}, from, to) == a
  {
    assert HandedOver(a, {code}, from, to).grants == a.grants;
  }

  lemma OnePermission(a: Rbac, code: Code, from: Code, to: Code)
    requires code in a.perms
    ensures GrantRoles(Revoke(a, {from}, {code}), [to], code) == HandedOver(a, {code}, from, to)
  {
    assert GrantRoles(Revoke(a, {from}, {code}), [to], code).grants == HandedOver(a, {code}, from, to).grants;
  }

  /** 20260803000002: a bulk revoke, then one insert per code. */
  class TransferMigration {
    const permissionCodes: seq<Code>
    const fromRole: Code
    const toRole: Code

    constructor (permissionCodes: seq<Code>, fromRole: Code, toRole: Code)
      ensures this.permissionCodes == permissionCodes && this.fromRole == fromRole && this.toRole == toRole
    {
      this.permissionCodes := permissionCodes;
      this.fromRole := fromRole;
      this.toRole := toRole;
    }

    method Up(q: QueryRunner)
      requires Valid(q.tables)
      modifies q
      ensures Valid(q.tables)
      ensures View(q.tables) == HandedOver(old(View(q.tables)), Elements(permissionCodes), fromRole, toRole)
    {
      Transfer(q, fromRole, toRole);
    }

    method Down(q: QueryRunner)
      requires Valid(q.tables)
      modifies q
      ensures Valid(q.tables)
      ensures View(q.tables) == HandedOver(old(View(q.tables)), Elements(permissionCodes), toRole, fromRole)
    {
      Transfer(q, toRole, fromRole);
    }

    method Transfer(q: QueryRunner, from: Code, to: Code)
      requires Valid(q.tables)
      modifies q
      ensures Valid(q.tables)
      ensures View(q.tables) == HandedOver(old(View(q.tables)), Elements(permissionCodes), from, to)
    {
      q.tables := DeleteGrants(q.tables, {from}, Elements(permissionCodes));
      GrantList(q, to);
    }

    method GrantList(q: QueryRunner, to: Code)
      requires Valid(q.tables)
      modifies q
      ensures Valid(q.tables)
      ensures View(q.tables) == Granted(old(View(q.tables)), Paired(to, Elements(permissionCodes)))
    {
      ghost var before := View(q.tables);
      for i := 0 to |permissionCodes|
        invariant Valid(q.tables)
        invariant View(q.tables) == Granted(before, Paired(to, Elements(permissionCodes[..i])))
      {
        GrantOneMore(before, Paired(to, Elements(permissionCodes[..i])), (to, permissionCodes[i]));
        assert Paired(to, Elements(permissionCodes[..i + 1]))
            == Paired(to, Elements(permissionCodes[..i])) + {(to, permissionCodes[i])};
        q.tables := GrantByCodes(q.tables, to, permissionCodes[i]);
      }
      assert permissionCodes[..|permissionCodes|] == permissionCodes;
    }
  }

  /** Nothing to restore, or nothing lost on the way: `from` holds the permission exactly if it
      could get it back, and `to` does not hold it. */
  predicate Reversible(a: Rbac, codes: set<Code>, from: Code, to: Code) {
    forall c :: c in codes && c in a.perms ==>
      ((from, c) in a.grants <==> Active(a, from)) && (to, c) !in a.grants
  }

  /** Handing over and back is the identity exactly on reversible states. A missing permission,
      or an inactive `from` that held nothing, is reversible as well. */
  lemma HandingBackRestoresIff(a: Rbac, codes: set<Code>, from: Code, to: Code)
    requires WellFormed(a) && from != to
    ensures HandedOver(HandedOver(a, codes, from, to), codes, to, from) == a
        <==> Reversible(a, codes, from, to)
  {
    var there := HandedOver(a, codes, from, to);
    var back := HandedOver(there, codes, to, from);
    forall c | c in codes && c in a.perms
      ensures (to, c) !in back.grants && ((from, c) in back.grants <==> Active(a, from))
    {}
    forall g: Pair | g.1 !in codes || (g.0 != from && g.0 != to)
      ensures g in back.grants <==> g in a.grants
    {}
    if Reversible(a, codes, from, to) {
      forall g: Pair ensures g in back.grants <==> g in a.grants {}
      assert back.grants == a.grants;
    }
  }

  /** The example the source's claim of a full reversal misses: BUSINESS_ADMIN held the
      permission as well, and has lost it after the round trip. */
  lemma HandingBackCanLose()
    ensures exists a ::
      && WellFormed(a)
      && ("SYSTEM_ADMIN", "audit.system.read") in a.grants && Active(a, "SYSTEM_ADMIN")
      && HandedOver(HandedOver(a, {"audit.system.read"}, "SYSTEM_ADMIN", "BUSINESS_ADMIN"),
                    {"audit.system.read"}, "BUSINESS_ADMIN", "SYSTEM_ADMIN") != a
  {
    var sa, ba, p := "SYSTEM_ADMIN", "BUSINESS_ADMIN", "audit.system.read";
    assert sa[0] != ba[0];
    var a := Rbac({p}, map[sa := true, ba := true], {(sa, p), (ba, p)}, {});
    HandingBackRestoresIff(a, {p}, sa, ba);
  }

  // ---- Any sequence of moves ----

  /** `true` moves the permission to `one`, `false` to `other`. */
  function MoveHistory(a: Rbac, code: Code, one: Code, other: Code, moves: seq<bool>): Rbac {
    if moves == [] then a
    else
      var before := MoveHistory(a, code, one, other, moves[..|moves| - 1]);
      if moves[|moves| - 1] then HandedOver(before, {code}, other, one) else HandedOver(before, {code}, one, other)
  }

  lemma HandedOverEffect(a: Rbac, code: Code, from: Code, to: Code)
    requires code in a.perms && from != to
    ensures var b := HandedOver(a, {code}, from, to);
      && b.perms == a.perms && b.roles == a.roles && b.members == a.members
      && (forall g: Pair :: g.1 != code || (g.0 != from && g.0 != to) ==> (g in b.grants <==> g in a.grants))
      && (from, code) !in b.grants
      && ((to, code) in b.grants <==> Active(a, to) || (to, code) in a.grants)
  {}

  lemma {:induction false} MissingPermissionNeverMoves(a: Rbac, code: Code, one: Code, other: Code, moves: seq<bool>)
    requires WellFormed(a) && code !in a.perms
    ensures MoveHistory(a, code, one, other, moves) == a
  {
    if moves != [] {
      MissingPermissionNeverMoves(a, code, one, other, moves[..|moves| - 1]);
      MissingPermissionIsNoOp(a, code, one, other);
      MissingPermissionIsNoOp(a, code, other, one);
    }
  }

  /** After any nonempty history only the last move counts: its target holds the permission if
      it is active, the other role does not, and every other grant is as it was. Without the
      permission no history changes anything. */
  lemma {:induction false} LastMoveCounts(a: Rbac, code: Code, one: Code, other: Code, moves: seq<bool>)
    requires WellFormed(a) && one != other && moves != []
    ensures code !in a.perms ==> MoveHistory(a, code, one, other, moves) == a
    ensures code in a.perms ==>
      var b := MoveHistory(a, code, one, other, moves);
      var target := if moves[|moves| - 1] then one else other;
      && b.perms == a.perms && b.roles == a.roles && b.members == a.members
      && (forall g: Pair :: g.1 != code || (g.0 != one && g.0 != other) ==> (g in b.grants <==> g in a.grants))
      && (if target == one then other else one, code) !in b.grants
      && ((target, code) in b.grants <==>
            Active(a, target) || ((target, code) in a.grants && forall i :: 0 <= i < |moves| ==> moves[i] == moves[|moves| - 1]))
  {
    var init, last := moves[..|moves| - 1], moves[|moves| - 1];
    if code !in a.perms {
      MissingPermissionNeverMoves(a, code, one, other, moves);
    } else {
      if init != [] {
        LastMoveCounts(a, code, one, other, init);
        assert init[|init| - 1] == moves[|moves| - 2];
        assert forall i :: 0 <= i < |init| ==> init[i] == moves[i];
      }
      var before := MoveHistory(a, code, one, other, init);
      if last {
        HandedOverEffect(before, code, other, one);
      } else {
        HandedOverEffect(before, code, one, other);
      }
    }
  }
}
