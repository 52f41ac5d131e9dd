/** Migrations that only add pairs to role_permissions, and their downs. */
module GrantMigrations {
  import opened RbacModel
  import opened RbacTables

  /** The connection a migration runs on; the tables are what it updates. */
  class QueryRunner {
    var tables: Tables

    constructor (tables: Tables)
      ensures this.tables == tables
    {
      this.tables := tables;
    }
  }

  type Pair = (Code, Code)

  function Elements<T>(s: seq<T>): set<T> {
    set x | x in s
  }

  /** Every listed pair whose role is active and whose permission exists is granted. */
  function Granted(a: Rbac, pairs: set<Pair>): Rbac {
    a.(grants := a.grants + set p | p in pairs && Active(a, p.0) && p.1 in a.perms)
  }

  function Ungranted(a: Rbac, pairs: set<Pair>): Rbac {
    a.(grants := a.grants - pairs)
  }

  lemma GrantOneMore(a: Rbac, pairs: set<Pair>, p: Pair)
    ensures GrantPair(Granted(a, pairs), p.0, p.1) == Granted(a, pairs + {p})
  {}

  lemma RevokeOneMore(a: Rbac, pairs: set<Pair>, p: Pair)
    ensures Revoke(Ungranted(a, pairs), {p.0}, {p.1}) == Ungranted(a, pairs + {p})
  {}

  /** The INSERT of one turn of a grant migration's loop. */
  method GrantOne(q: QueryRunner, p: Pair)
    requires Valid(q.tables)
    modifies q
    ensures Valid(q.tables) && View(q.tables) == GrantPair(old(View(q.tables)), p.0, p.1)
  {
    q.tables := GrantByCodes(q.tables, p.0, p.1);
  }

  /** The DELETE of one turn. */
  method RevokeOne(q: QueryRunner, p: Pair)
    requires Valid(q.tables)
    modifies q
    ensures Valid(q.tables) && View(q.tables) == Revoke(old(View(q.tables)), {p.0}, {p.1})
  {
    q.tables := DeleteGrants(q.tables, {p.0}, {p.1});
  }

  /** 20260802000001 and 20260731000001: a list of (role, permission) pairs. */
  class PairGrantMigration {
    const grants: seq<Pair>

    constructor (grants: seq<Pair>)
      ensures this.grants == grants
    {
      this.grants := grants;
    }

    method Up(q: QueryRunner)
      requires Valid(q.tables)
      modifies q
      ensures Valid(q.tables) && View(q.tables) == Granted(old(View(q.tables)), Elements(grants))
    {
      ghost var before := View(q.tables);
      for i := 0 to |grants|
        invariant Valid(q.tables) && View(q.tables) == Granted(before, Elements(grants[..i]))
      {
        GrantOneMore(before, Elements(grants[..i]), grants[i]);
        assert Elements(grants[..i + 1]) == Elements(grants[..i]) + {grants[i]};
        GrantOne(q, grants[i]);
      }
      assert grants[..|grants|] == grants;
    }

    method Down(q: QueryRunner)
      requires Valid(q.tables)
      modifies q
      ensures Valid(q.tables) && View(q.tables) == Ungranted(old(View(q.tables)), Elements(grants))
    {
      ghost var before := View(q.tables);
      for i := 0 to |grants|
        invariant Valid(q.tables) && View(q.tables) == Ungranted(before, Elements(grants[..i]))
      {
        RevokeOneMore(before, Elements(grants[..i]), grants[i]);
        assert Elements(grants[..i + 1]) == Elements(grants[..i]) + {grants[i]};
        RevokeOne(q, grants[i]);
      }
      assert grants[..|grants|] == grants;
    }
  }

  function Cross(roles: seq<Code>, codes: seq<Code>): set<Pair> {
    set r, c | r in roles && c in codes :: (r, c)
  }

  lemma CrossOneMore(done: set<Pair>, role: Code, codes: seq<Code>, j: nat)
    requires j < |codes|
    ensures done + Cross([role], codes[..j + 1]) == (done + Cross([role], codes[..j])) + {(role, codes[j])}
  {}

  lemma GrantCodesStep(a: Rbac, done: set<Pair>, role: Code, codes: seq<Code>, j: nat)
    requires j < |codes|
    ensures GrantPair(Granted(a, done + Cross([role], codes[..j])), role, codes[j])
         == Granted(a, done + Cross([role], codes[..j + 1]))
  {
    GrantOneMore(a, done + Cross([role], codes[..j]), (role, codes[j]));
    CrossOneMore(done, role, codes, j);
  }

  lemma RevokeCodesStep(a: Rbac, done: set<Pair>, role: Code, codes: seq<Code>, j: nat)
    requires j < |codes|
    ensures Revoke(Ungranted(a, done + Cross([role], codes[..j])), {role}, {codes[j]})
         == Ungranted(a, done + Cross([role], codes[..j + 1]))
  {
    RevokeOneMore(a, done + Cross([role], codes[..j]), (role, codes[j]));
    CrossOneMore(done, role, codes, j);
  }

  lemma CrossOneRow(roles: seq<Code>, codes: seq<Code>, i: nat)
    requires i < |roles|
    ensures Cross(roles[..i + 1], codes) == Cross(roles[..i], codes) + Cross([roles[i]], codes[..|codes|])
  {}

  /** 20260731000002: every listed role gets every listed permission. */
  class CrossGrantMigration {
    const roleCodes: seq<Code>
    const permissionCodes: seq<Code>

    constructor (roleCodes: seq<Code>, permissionCodes: seq<Code>)
      ensures this.roleCodes == roleCodes && this.permissionCodes == permissionCodes
    {
      this.roleCodes := roleCodes;
      this.permissionCodes := permissionCodes;
    }

    /** The inner loop of up. */
    method GrantCodes(q: QueryRunner, role: Code, ghost before: Rbac, ghost done: set<Pair>)
      requires Valid(q.tables) && View(q.tables) == Granted(before, done)
      modifies q
      ensures Valid(q.tables)
      ensures View(q.tables) == Granted(before, done + Cross([role], permissionCodes[..|permissionCodes|]))
    {
      for j := 0 to |permissionCodes|
        invariant Valid(q.tables)
        invariant View(q.tables) == Granted(before, done + Cross([role], permissionCodes[..j]))
      {
        GrantCodesStep(before, done, role, permissionCodes, j);
        GrantOne(q, (role, permissionCodes[j]));
      }
    }

    /** The inner loop of down. */
    method RevokeCodes(q: QueryRunner, role: Code, ghost before: Rbac, ghost done: set<Pair>)
      requires Valid(q.tables) && View(q.tables) == Ungranted(before, done)
      modifies q
      ensures Valid(q.tables)
      ensures View(q.tables) == Ungranted(before, done + Cross([role], permissionCodes[..|permissionCodes|]))
    {
      for j := 0 to |permissionCodes|
        invariant Valid(q.tables)
        invariant View(q.tables) == Ungranted(before, done + Cross([role], permissionCodes[..j]))
      {
        RevokeCodesStep(before, done, role, permissionCodes, j);
        RevokeOne(q, (role, permissionCodes[j]));
      }
    }

    method Up(q: QueryRunner)
      requires Valid(q.tables)
      modifies q
      ensures Valid(q.tables) && View(q.tables) == Granted(old(View(q.tables)), Cross(roleCodes, permissionCodes))
    {
      ghost var before := View(q.tables);
      for i := 0 to |roleCodes|
        invariant Valid(q.tables) && View(q.tables) == Granted(before, Cross(roleCodes[..i], permissionCodes))
      {
        GrantCodes(q, roleCodes[i], before, Cross(roleCodes[..i], permissionCodes));
        CrossOneRow(roleCodes, permissionCodes, i);
      }
      assert roleCodes[..|roleCodes|] == roleCodes;
    }

    method Down(q: QueryRunner)
      requires Valid(q.tables)
      modifies q
      ensures Valid(q.tables) && View(q.tables) == Ungranted(old(View(q.tables)), Cross(roleCodes, permissionCodes))
    {
      ghost var before := View(q.tables);
      for i := 0 to |roleCodes|
        invariant Valid(q.tables) && View(q.tables) == Ungranted(before, Cross(roleCodes[..i], permissionCodes))
      {
        RevokeCodes(q, roleCodes[i], before, Cross(roleCodes[..i], permissionCodes));
        CrossOneRow(roleCodes, permissionCodes, i);
      }
      assert roleCodes[..|roleCodes|] == roleCodes;
    }
  }

  // ---- Any order, any number of times ----

  function GrantHistory(a: Rbac, history: seq<set<Pair>>): Rbac {
    if history == [] then a
    else Granted(GrantHistory(a, history[..|history| - 1]), history[|history| - 1])
  }

  function AllPairs(history: seq<set<Pair>>): set<Pair> {
    set h, p | h in history && p in h :: p
  }

  /** A history of grant-only migrations amounts to one migration that lists all their pairs. */
  lemma {:induction false} HistoryIsUnion(a: Rbac, history: seq<set<Pair>>)
    ensures GrantHistory(a, history) == Granted(a, AllPairs(history))
  {
    if history != [] {
      var init, last := history[..|history| - 1], history[|history| - 1];
      HistoryIsUnion(a, init);
      assert AllPairs(history) == AllPairs(init) + last;
    }
  }

  /** So order, repetition and splitting do not matter: only which pairs are listed somewhere,
      and of those only the ones with an active role and an existing permission. */
  lemma GrantHistoriesConverge(a: Rbac, one: seq<set<Pair>>, other: seq<set<Pair>>)
    ensures GrantHistory(a, one) == GrantHistory(a, other)
        <==> forall p: Pair :: Active(a, p.0) && p.1 in a.perms && p !in a.grants ==>
               (p in AllPairs(one) <==> p in AllPairs(other))
  {
    HistoryIsUnion(a, one);
    HistoryIsUnion(a, other);
    var x, y := Granted(a, AllPairs(one)).grants, Granted(a, AllPairs(other)).grants;
    if x == y {
      forall p: Pair | Active(a, p.0) && p.1 in a.perms && p !in a.grants
        ensures p in AllPairs(one) <==> p in AllPairs(other)
      {
        assert p in x <==> p in AllPairs(one);
        assert p in y <==> p in AllPairs(other);
      }
    }
  }

  /** A down takes away exactly what its up added if and only if no listed pair was granted
      before, not even one the up would have skipped. */
  lemma DownUndoesUpIff(a: Rbac, pairs: set<Pair>)
    ensures Ungranted(Granted(a, pairs), pairs) == a <==> pairs !! a.grants
  {
    if Ungranted(Granted(a, pairs), pairs) == a {
      forall p | p in pairs ensures p !in a.grants {
        assert p !in Ungranted(Granted(a, pairs), pairs).grants;
      }
    } else {
      assert Ungranted(Granted(a, pairs), pairs).grants != a.grants;
    }
  }

  // ---- The two recording migrations ----

  const FIX_RECORDING_CONFIG_GRANTS: seq<Pair> := [
    ("BUSINESS_ADMIN", "recording.config.create"),
    ("BUSINESS_ADMIN", "recording.config.read"),
    ("BUSINESS_ADMIN", "recording.config.update"),
    ("EMPLOYEE", "recording.config.create"),
    ("EMPLOYEE", "recording.config.read"),
    ("EMPLOYEE", "recording.config.update")]

  const RECORDING_ROLES: seq<Code> := ["EMPLOYEE", "BUSINESS_ADMIN"]

  const RECORDING_CODES: seq<Code> := [
    "recording.config.create", "recording.config.read", "recording.config.update",
    "recording.video.start", "recording.video.stop", "recording.video.status"]

  lemma FixRecordingConfigIsCovered()
    ensures Elements(FIX_RECORDING_CONFIG_GRANTS) <= Cross(RECORDING_ROLES, RECORDING_CODES)
  {
    var r0, r1 := RECORDING_ROLES[0], RECORDING_ROLES[1];
    var c0, c1, c2 := RECORDING_CODES[0], RECORDING_CODES[1], RECORDING_CODES[2];
    forall i | 0 <= i < |FIX_RECORDING_CONFIG_GRANTS|
      ensures FIX_RECORDING_CONFIG_GRANTS[i] in Cross(RECORDING_ROLES, RECORDING_CODES)
    {
      assert r0 in RECORDING_ROLES && r1 in RECORDING_ROLES;
      assert c0 in RECORDING_CODES && c1 in RECORDING_CODES && c2 in RECORDING_CODES;
    }
  }

  /** 20260731000002 absorbs 20260731000001 on either side; reverting it also reverts the other. */
  lemma RecordingGrantsAbsorb(a: Rbac)
    ensures var fix := Elements(FIX_RECORDING_CONFIG_GRANTS);
      var all := Cross(RECORDING_ROLES, RECORDING_CODES);
      && Granted(Granted(a, fix), all) == Granted(a, all) == Granted(Granted(a, all), fix)
      && Ungranted(Granted(Granted(a, fix), all), all) == Ungranted(a, all)
  {
    FixRecordingConfigIsCovered();
    var fix, all := Elements(FIX_RECORDING_CONFIG_GRANTS), Cross(RECORDING_ROLES, RECORDING_CODES);
    assert Granted(Granted(a, fix), all).grants == Granted(a, all).grants;
    assert Granted(Granted(a, all), fix).grants == Granted(a, all).grants;
    assert Ungranted(Granted(a, all), all).grants == Ungranted(a, all).grants;
  }
}
