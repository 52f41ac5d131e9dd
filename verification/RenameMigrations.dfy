/** 20260729000001: permission codes renamed in place, or dropped when the new code exists. */
module RenameMigrations {
  import opened Options
  import opened RbacModel
  import opened RbacTables
  import opened GrantMigrations
  import opened BackfillMigrations

  datatype Rename = Rename(from: Code, to: Code, name: string)

  function RenameOne(a: Rbac, r: Rename): Rbac {
    if r.to in a.perms then DropPermissions(a, {r.from}) else RenamePermission(a, r.from, r.to)
  }

  function RenameAll(a: Rbac, renames: seq<Rename>): Rbac {
    if renames == [] then a
    else RenameOne(RenameAll(a, renames[..|renames| - 1]), renames[|renames| - 1])
  }

  /** Moving the codes back; None when an old code is taken again and the UPDATE is refused. */
  function RevertAll(a: Rbac, renames: seq<Rename>): Option<Rbac> {
    if renames == [] then Some(a)
    else
      var before := RevertAll(a, renames[..|renames| - 1]);
      var r := renames[|renames| - 1];
      if before.None? then None
      else if r.to in before.value.perms && r.from in before.value.perms && r.from != r.to then None
      else Some(RenamePermission(before.value, r.to, r.from))
  }

  /** The same on the tables, ids and names included. */
  function RenameRow1(t: Tables, r: Rename): (u: Tables)
    requires Valid(t)
    ensures Valid(u)
  {
    if r.to in t.permissions then DeletePermissions(t, {r.from})
    else UpdatePermissionCode(t, r.from, r.to, Some(r.name)).value
  }

  function RenameRows(t: Tables, renames: seq<Rename>): (u: Tables)
    requires Valid(t)
    ensures Valid(u)
  {
    if renames == [] then t
    else RenameRow1(RenameRows(t, renames[..|renames| - 1]), renames[|renames| - 1])
  }

  class RenameMigration {
    const renames: seq<Rename>

    constructor (renames: seq<Rename>)
      ensures this.renames == renames
    {
      this.renames := renames;
    }

    method Up(q: QueryRunner)
      requires Valid(q.tables)
      modifies q
      ensures Valid(q.tables) && View(q.tables) == RenameAll(old(View(q.tables)), renames)
      ensures q.tables == RenameRows(old(q.tables), renames)
      ensures Distinct(renames) ==> RowsKept(old(q.tables), renames, q.tables)
      ensures Distinct(renames) ==> forall role, code :: Holds(q.tables, role, code) <==>
                || (!IsFrom(renames, code) && Holds(old(q.tables), role, code))
                || exists r :: r in renames && r.to == code && r.to !in old(q.tables).permissions &&
                               Holds(old(q.tables), role, r.from)
    {
      ghost var before := q.tables;
      for i := 0 to |renames|
        invariant Valid(q.tables) && View(q.tables) == RenameAll(View(before), renames[..i])
        invariant q.tables == RenameRows(before, renames[..i])
      {
        var rename := renames[i];
        assert renames[..i + 1][..i] == renames[..i];
        if SelectPermission(q.tables, rename.to).Some? {
          q.tables := DeletePermissions(q.tables, {rename.from});
        } else {
          var updated := UpdatePermissionCode(q.tables, rename.from, rename.to, Some(rename.name));
          q.tables := updated.value;
        }
      }
      assert renames[..|renames|] == renames;
      if Distinct(renames) {
        RenamingKeepsIds(before, renames);
        RenamedHolds(before, renames, q.tables);
      }
    }

    /** False when the database refuses an UPDATE; the transaction is rolled back then. */
    method Down(q: QueryRunner) returns (ok: bool)
      requires Valid(q.tables)
      modifies q
      ensures Valid(q.tables)
      ensures ok <==> RevertAll(old(View(q.tables)), renames).Some?
      ensures if ok then Some(View(q.tables)) == RevertAll(old(View(q.tables)), renames) else q.tables == old(q.tables)
      ensures q.tables.permissions.Values <= old(q.tables).permissions.Values
      ensures q.tables == old(q.tables).(permissions := q.tables.permissions)
    {
      ghost var before := View(q.tables);
      var saved := q.tables;
      for i := 0 to |renames|
        invariant Valid(q.tables) && Some(View(q.tables)) == RevertAll(before, renames[..i])
        invariant q.tables.permissions.Values <= saved.permissions.Values
        invariant q.tables == saved.(permissions := q.tables.permissions)
      {
        assert renames[..i + 1][..i] == renames[..i];
        ok := MoveBack(q, renames[i]);
        if !ok {
          assert RevertAll(before, renames[..i + 1]).None?;
          NoneStaysNone(before, renames, i + 1);
          q.tables := saved;
          return false;
        }
      }
      assert renames[..|renames|] == renames;
      return true;
    }
  }

  /** One UPDATE of the down: the row moves back to its old code and keeps its id and its name. */
  method MoveBack(q: QueryRunner, r: Rename) returns (ok: bool)
    requires Valid(q.tables)
    modifies q
    ensures Valid(q.tables)
    ensures ok <==> r.to !in old(q.tables).permissions || r.from !in old(q.tables).permissions || r.from == r.to
    ensures ok ==> View(q.tables) == RenamePermission(old(View(q.tables)), r.to, r.from)
    ensures !ok ==> q.tables == old(q.tables)
    ensures q.tables == old(q.tables).(permissions := q.tables.permissions)
    ensures q.tables.permissions.Values <= old(q.tables).permissions.Values
  {
    var updated := UpdatePermissionCode(q.tables, r.to, r.from, None);
    if updated.None? {
      return false;
    }
    if r.to in q.tables.permissions {
      MovedValues(q.tables, r.to, r.from);
    }
    q.tables := updated.value;
    return true;
  }

  lemma MovedValues(t: Tables, from: Code, to: Code)
    requires from in t.permissions
    ensures WithRow(t, from, to, None).permissions.Values <= t.permissions.Values
  {
    var u := WithRow(t, from, to, None);
    forall row | row in u.permissions.Values ensures row in t.permissions.Values {
      var c :| c in u.permissions && u.permissions[c] == row;
      assert t.permissions[if c == to then from else c] == row;
    }
  }

  lemma {:induction false} NoneStaysNone(a: Rbac, renames: seq<Rename>, i: nat)
    requires i <= |renames| && RevertAll(a, renames[..i]).None?
    ensures RevertAll(a, renames).None?
    decreases |renames|
  {
    if i == |renames| {
      assert renames[..i] == renames;
    } else {
      assert renames[..|renames| - 1][..i] == renames[..i];
      NoneStaysNone(a, renames[..|renames| - 1], i);
    }
  }

  // ---- A rename list with no code used twice ----

  predicate IsFrom(renames: seq<Rename>, c: Code) {
    exists r :: r in renames && r.from == c
  }

  predicate IsTo(renames: seq<Rename>, c: Code) {
    exists r :: r in renames && r.to == c
  }

  predicate Distinct(renames: seq<Rename>) {
    && (forall i, j :: 0 <= i < j < |renames| ==> renames[i].from != renames[j].from && renames[i].to != renames[j].to)
    && (forall i, j :: 0 <= i < |renames| && 0 <= j < |renames| ==> renames[i].from != renames[j].to)
  }

  /** Old codes are gone; a new code has what its old code had, unless it existed already, in
      which case it keeps its own grants and those of the old code are lost. */
  function AllRenamed(a: Rbac, renames: seq<Rename>): Rbac {
    a.(perms := (set c | c in a.perms && !IsFrom(renames, c))
                + (set r | r in renames && r.from in a.perms :: r.to),
       grants := (set g | g in a.grants && !IsFrom(renames, g.1))
                 + (set r, g | r in renames && g in a.grants && g.1 == r.from && r.to !in a.perms :: (g.0, r.to)))
  }

  /** With distinct codes the loop computes the simultaneous renaming. */
  lemma {:induction false} RenameAllIsSimultaneous(a: Rbac, renames: seq<Rename>)
    requires Distinct(renames)
    ensures RenameAll(a, renames) == AllRenamed(a, renames)
  {
    if renames == [] {
      assert AllRenamed(a, []).perms == a.perms && AllRenamed(a, []).grants == a.grants;
    } else {
      RenameAllIsSimultaneous(a, renames[..|renames| - 1]);
      RenamedOneMore(a, renames[..|renames| - 1], renames[|renames| - 1]);
      assert renames[..|renames| - 1] + [renames[|renames| - 1]] == renames;
    }
  }

  lemma SnocCodes(renames: seq<Rename>, r: Rename, c: Code)
    ensures IsFrom(renames + [r], c) <==> IsFrom(renames, c) || r.from == c
    ensures IsTo(renames + [r], c) <==> IsTo(renames, c) || r.to == c
  {}

  lemma FreshCodes(renames: seq<Rename>, r: Rename)
    requires Distinct(renames + [r])
    ensures Distinct(renames) && r.from != r.to
    ensures !IsFrom(renames, r.from) && !IsTo(renames, r.from) && !IsFrom(renames, r.to) && !IsTo(renames, r.to)
  {
    var all := renames + [r];
    assert all[|renames|] == r;
    forall i | 0 <= i < |renames|
      ensures renames[i].from != r.from && renames[i].to != r.from && renames[i].from != r.to && renames[i].to != r.to
    {
      assert all[i] == renames[i];
    }
    forall i, j | 0 <= i < j < |renames|
      ensures renames[i].from != renames[j].from && renames[i].to != renames[j].to
    {
      assert all[i] == renames[i] && all[j] == renames[j];
    }
    forall i, j | 0 <= i < |renames| && 0 <= j < |renames| ensures renames[i].from != renames[j].to {
      assert all[i] == renames[i] && all[j] == renames[j];
    }
  }

  predicate HasGrant(a: Rbac, renames: seq<Rename>, g: Pair) {
    || (g in a.grants && !IsFrom(renames, g.1))
    || (exists r :: r in renames && r.to == g.1 && (g.0, r.from) in a.grants && r.to !in a.perms)
  }

  lemma InAllRenamed(a: Rbac, renames: seq<Rename>, g: Pair)
    ensures g in AllRenamed(a, renames).grants <==> HasGrant(a, renames, g)
  {
    if HasGrant(a, renames, g) && !(g in a.grants && !IsFrom(renames, g.1)) {
      var r :| r in renames && r.to == g.1 && (g.0, r.from) in a.grants && r.to !in a.perms;
      assert (g.0, r.from).1 == r.from;
    }
  }

  /** The simultaneous renaming, row by row. */
  lemma RenamedHolds(t: Tables, renames: seq<Rename>, u: Tables)
    requires Distinct(renames) && View(u) == RenameAll(View(t), renames)
    ensures forall role, code :: Holds(u, role, code) <==>
              || (!IsFrom(renames, code) && Holds(t, role, code))
              || exists r :: r in renames && r.to == code && r.to !in t.permissions && Holds(t, role, r.from)
  {
    HoldsIsView(t);
    HoldsIsView(u);
    RenameAllIsSimultaneous(View(t), renames);
    forall role, code
      ensures Holds(u, role, code) <==>
              || (!IsFrom(renames, code) && Holds(t, role, code))
              || exists r :: r in renames && r.to == code && r.to !in t.permissions && Holds(t, role, r.from)
    {
      InAllRenamed(View(t), renames, (role, code));
    }
  }

  lemma RenamedOneMore(a: Rbac, renames: seq<Rename>, r: Rename)
    requires Distinct(renames + [r])
    ensures RenameOne(AllRenamed(a, renames), r) == AllRenamed(a, renames + [r])
  {
    FreshCodes(renames, r);
    var b := AllRenamed(a, renames);
    var x, y := RenameOne(b, r), AllRenamed(a, renames + [r]);
    assert r.to in b.perms <==> r.to in a.perms;
    assert r.from in b.perms <==> r.from in a.perms;
    forall c ensures c in x.perms <==> c in y.perms {
      RenamedPermission(b, r, c);
      HasPermissionOneMore(a, renames, r, c);
    }
    forall g: Pair ensures g in x.grants <==> g in y.grants {
      InAllRenamed(a, renames, g);
      InAllRenamed(a, renames, (g.0, r.from));
      InAllRenamed(a, renames + [r], g);
      SnocCodes(renames, r, g.1);
      RenamedGrant(b, r, g);
      HasGrantOneMore(a, renames, r, g);
    }
  }

  predicate HasPermission(a: Rbac, renames: seq<Rename>, c: Code) {
    || (c in a.perms && !IsFrom(renames, c))
    || (exists r :: r in renames && r.to == c && r.from in a.perms)
  }

  lemma RenamedPermission(b: Rbac, r: Rename, c: Code)
    requires r.from != r.to
    ensures c in RenameOne(b, r).perms <==>
            (c in b.perms && c != r.from) || (c == r.to && r.from in b.perms && r.to !in b.perms)
  {
    if r.to !in b.perms {
      if c in b.perms && c != r.from {
        assert c == Renamed(c, r.from, r.to);
      }
      if c == r.to && r.from in b.perms {
        assert c == Renamed(r.from, r.from, r.to);
      }
    }
  }

  lemma HasPermissionOneMore(a: Rbac, renames: seq<Rename>, r: Rename, c: Code)
    ensures HasPermission(a, renames + [r], c) <==>
            || (c in a.perms && !IsFrom(renames, c) && c != r.from)
            || (exists q :: q in renames && q.to == c && q.from in a.perms)
            || (c == r.to && r.from in a.perms)
    ensures c in AllRenamed(a, renames).perms <==> HasPermission(a, renames, c)
    ensures c in AllRenamed(a, renames + [r]).perms <==> HasPermission(a, renames + [r], c)
  {
    SnocCodes(renames, r, c);
    if exists q :: q in renames && q.to == c && q.from in a.perms {
      var q :| q in renames && q.to == c && q.from in a.perms;
      assert q in renames + [r];
    }
    assert r in renames + [r];
  }

  lemma RenamedGrant(b: Rbac, r: Rename, g: Pair)
    requires r.from != r.to
    ensures g in RenameOne(b, r).grants <==>
            if r.to in b.perms then g in b.grants && g.1 != r.from
            else (g in b.grants && g.1 != r.from) || (g.1 == r.to && (g.0, r.from) in b.grants)
  {
    if r.to !in b.perms {
      if g in b.grants && g.1 != r.from {
        assert g == (g.0, Renamed(g.1, r.from, r.to));
      }
      if g.1 == r.to && (g.0, r.from) in b.grants {
        var h := (g.0, r.from);
        assert g == (h.0, Renamed(h.1, r.from, r.to));
      }
    }
  }

  lemma HasGrantOneMore(a: Rbac, renames: seq<Rename>, r: Rename, g: Pair)
    requires Distinct(renames + [r])
    ensures HasGrant(a, renames + [r], g) <==>
            || (HasGrant(a, renames, g) && g.1 != r.from)
            || (r.to !in a.perms && g.1 == r.to && HasGrant(a, renames, (g.0, r.from)))
  {
    FreshCodes(renames, r);
    SnocCodes(renames, r, g.1);
    assert HasGrant(a, renames, (g.0, r.from)) <==> (g.0, r.from) in a.grants;
    if HasGrant(a, renames + [r], g) && !(g in a.grants && !IsFrom(renames + [r], g.1)) {
      var q :| q in renames + [r] && q.to == g.1 && (g.0, q.from) in a.grants && q.to !in a.perms;
      assert q in renames || q == r;
    }
    if HasGrant(a, renames, g) && g.1 != r.from && !(g in a.grants && !IsFrom(renames, g.1)) {
      var q :| q in renames && q.to == g.1 && (g.0, q.from) in a.grants && q.to !in a.perms;
      assert q in renames + [r];
    }
    if r.to !in a.perms && g.1 == r.to && HasGrant(a, renames, (g.0, r.from)) {
      assert r in renames + [r];
    }
  }

  // ---- What the migration promises ----

  lemma RenameIsIdempotent(a: Rbac, renames: seq<Rename>)
    requires Distinct(renames)
    ensures RenameAll(RenameAll(a, renames), renames) == RenameAll(a, renames)
  {
    RenameAllIsSimultaneous(a, renames);
    var b := AllRenamed(a, renames);
    RenameAllIsSimultaneous(b, renames);
    var c := AllRenamed(b, renames);
    NoOldCodeLeft(a, renames);
    assert c.perms == b.perms;
    forall g: Pair ensures g in c.grants <==> g in b.grants {
      InAllRenamed(b, renames, g);
    }
  }

  lemma NoOldCodeLeft(a: Rbac, renames: seq<Rename>)
    requires Distinct(renames)
    ensures forall r :: r in renames ==> r.from !in AllRenamed(a, renames).perms
    ensures forall r, role :: r in renames ==> (role, r.from) !in AllRenamed(a, renames).grants
    ensures forall c :: c in AllRenamed(a, renames).perms ==> !IsFrom(renames, c)
  {
    forall q, r | q in renames && r in renames ensures q.to != r.from {}
    forall r, role | r in renames ensures (role, r.from) !in AllRenamed(a, renames).grants {
      InAllRenamed(a, renames, (role, r.from));
    }
  }

  /** A role keeps its grants, up to renaming, exactly if wherever the new code existed already
      the role held it too: then the old row is deleted and its grants go with it. */
  lemma GrantsSurviveRenamingIff(a: Rbac, renames: seq<Rename>)
    requires Distinct(renames)
    ensures && (forall g: Pair :: g in a.grants && !IsFrom(renames, g.1) ==> g in RenameAll(a, renames).grants)
            && (forall r, role :: r in renames && (role, r.from) in a.grants ==> (role, r.to) in RenameAll(a, renames).grants)
        <==> forall r, role :: r in renames && r.to in a.perms && (role, r.from) in a.grants ==> (role, r.to) in a.grants
  {
    RenameAllIsSimultaneous(a, renames);
    forall g: Pair | g in a.grants && !IsFrom(renames, g.1) ensures g in AllRenamed(a, renames).grants {
      InAllRenamed(a, renames, g);
    }
    forall r, role: Code | r in renames && (role, r.from) in a.grants
      ensures (role, r.to) in AllRenamed(a, renames).grants <==> (r.to in a.perms ==> (role, r.to) in a.grants)
    {
      GrantSurvivesIff(a, renames, r, role);
    }
  }

  /** A role that may review avatars and, the new code being there already, may review nothing
      after the rename. */
  lemma RenameCanLoseGrants(role: Code, name: string) returns (a: Rbac, renames: seq<Rename>)
    ensures Distinct(renames) && WellFormed(a)
    ensures renames == [Rename("account.avatar.review", "account.biometric.review", name)]
    ensures (role, "account.avatar.review") in a.grants && RenameAll(a, renames).grants == {}
  {
    var r := Rename("account.avatar.review", "account.biometric.review", name);
    assert r.from[8] != r.to[8];
    renames := [r];
    a := Rbac({r.from, r.to}, map[role := true], {(role, r.from)}, {});
    RenameAllIsSimultaneous(a, renames);
    forall g: Pair ensures g !in AllRenamed(a, renames).grants {
      InAllRenamed(a, renames, g);
      assert r in renames;
    }
  }

  lemma GrantSurvivesIff(a: Rbac, renames: seq<Rename>, r: Rename, role: Code)
    requires Distinct(renames) && r in renames && (role, r.from) in a.grants
    ensures (role, r.to) in AllRenamed(a, renames).grants <==> (r.to in a.perms ==> (role, r.to) in a.grants)
  {
    InAllRenamed(a, renames, (role, r.to));
    assert forall q :: q in renames ==> q.from != r.to;
    assert forall q :: q in renames && q.to == r.to ==> q == r;
  }

  function Swapped(renames: seq<Rename>): seq<Rename> {
    seq(|renames|, i requires 0 <= i < |renames| => Rename(renames[i].to, renames[i].from, renames[i].name))
  }

  lemma SwappedCodes(renames: seq<Rename>)
    ensures forall c :: IsFrom(Swapped(renames), c) <==> IsTo(renames, c)
    ensures forall c :: IsTo(Swapped(renames), c) <==> IsFrom(renames, c)
    ensures Distinct(renames) ==> Distinct(Swapped(renames))
  {
    forall c ensures IsFrom(Swapped(renames), c) <==> IsTo(renames, c) {
      if IsTo(renames, c) {
        var i :| 0 <= i < |renames| && renames[i].to == c;
        assert Swapped(renames)[i] in Swapped(renames);
      }
    }
    forall c ensures IsTo(Swapped(renames), c) <==> IsFrom(renames, c) {
      if IsFrom(renames, c) {
        var i :| 0 <= i < |renames| && renames[i].from == c;
        assert Swapped(renames)[i] in Swapped(renames);
      }
    }
  }

  /** Where no old code is taken, moving the codes back is renaming the other way round. */
  lemma {:induction false} RevertIsRenameBack(a: Rbac, renames: seq<Rename>)
    requires Distinct(renames) && forall r :: r in renames ==> r.from !in a.perms
    ensures RevertAll(a, renames) == Some(RenameAll(a, Swapped(renames)))
  {
    if renames != [] {
      var init, r := renames[..|renames| - 1], renames[|renames| - 1];
      assert init + [r] == renames;
      FreshCodes(init, r);
      RevertIsRenameBack(a, init);
      assert Swapped(renames)[..|renames| - 1] == Swapped(init);
      SwappedCodes(init);
      RenameAllIsSimultaneous(a, Swapped(init));
      assert r.from !in RenameAll(a, Swapped(init)).perms;
    }
  }

  lemma RoundTripIsBackAndForth(a: Rbac, renames: seq<Rename>)
    requires Distinct(renames)
    ensures RevertAll(RenameAll(a, renames), renames)
         == Some(AllRenamed(AllRenamed(a, renames), Swapped(renames)))
    ensures forall r :: r in renames ==> r.to !in AllRenamed(AllRenamed(a, renames), Swapped(renames)).perms
  {
    RenameAllIsSimultaneous(a, renames);
    var b := AllRenamed(a, renames);
    NoOldCodeLeft(a, renames);
    RevertIsRenameBack(b, renames);
    SwappedCodes(renames);
    RenameAllIsSimultaneous(b, Swapped(renames));
    NoOldCodeLeft(b, Swapped(renames));
    forall r | r in renames ensures r.to !in AllRenamed(b, Swapped(renames)).perms {
      assert IsTo(renames, r.to);
    }
  }

  /** The down restores codes and grants exactly if no new code existed before the up. */
  lemma RenameDownUndoesUpIff(a: Rbac, renames: seq<Rename>)
    requires Distinct(renames) && WellFormed(a)
    ensures RevertAll(RenameAll(a, renames), renames) == Some(a)
        <==> forall r :: r in renames ==> r.to !in a.perms
  {
    RoundTripIsBackAndForth(a, renames);
    if forall r :: r in renames ==> r.to !in a.perms {
      var c := AllRenamed(AllRenamed(a, renames), Swapped(renames));
      forall x ensures x in c.perms <==> x in a.perms {
        BackAndForthPermission(a, renames, x);
      }
      forall g: Pair ensures g in c.grants <==> g in a.grants {
        BackAndForthGrant(a, renames, g);
      }
      assert c.perms == a.perms && c.grants == a.grants;
    }
  }

  lemma BackAndForthPermission(a: Rbac, renames: seq<Rename>, x: Code)
    requires Distinct(renames) && forall r :: r in renames ==> r.to !in a.perms
    ensures x in AllRenamed(AllRenamed(a, renames), Swapped(renames)).perms <==> x in a.perms
  {
    var b := AllRenamed(a, renames);
    SwappedCodes(renames);
    forall i | 0 <= i < |renames| ensures renames[i].to in b.perms <==> renames[i].from in a.perms {
      assert renames[i] in renames;
      assert forall q :: q in renames && q.to == renames[i].to ==> q == renames[i];
    }
    if IsFrom(renames, x) {
      var i :| 0 <= i < |renames| && renames[i].from == x;
      assert Swapped(renames)[i] in Swapped(renames);
      assert x in a.perms ==> x in AllRenamed(b, Swapped(renames)).perms;
    }
  }

  lemma BackAndForthGrant(a: Rbac, renames: seq<Rename>, g: Pair)
    requires Distinct(renames) && WellFormed(a) && forall r :: r in renames ==> r.to !in a.perms
    ensures g in AllRenamed(AllRenamed(a, renames), Swapped(renames)).grants <==> g in a.grants
  {
    var b := AllRenamed(a, renames);
    SwappedCodes(renames);
    NoOldCodeLeft(a, renames);
    InAllRenamed(a, renames, g);
    InAllRenamed(b, Swapped(renames), g);
    forall i | 0 <= i < |renames|
      ensures (g.0, renames[i].to) in b.grants <==> (g.0, renames[i].from) in a.grants
    {
      InAllRenamed(a, renames, (g.0, renames[i].to));
      assert renames[i] in renames;
      assert forall q :: q in renames && q.to == renames[i].to ==> q == renames[i];
    }
    if IsFrom(renames, g.1) {
      var i :| 0 <= i < |renames| && renames[i].from == g.1;
      assert Swapped(renames)[i] in Swapped(renames) && renames[i] in renames;
    }
  }

  // ---- Backfill and rename, over and over ----

  function BackfillThenRename(a: Rbac, entries: seq<Entry>, renames: seq<Rename>): Rbac {
    RenameAll(Backfilled(a, entries), renames)
  }

  /** A backfill that still lists the old codes brings them back for a moment; the rename then
      finds the new codes in place and drops them. Running the pair again changes nothing. */
  lemma BackfillThenRenameIsIdempotent(a: Rbac, entries: seq<Entry>, renames: seq<Rename>)
    requires Distinct(renames)
    ensures BackfillThenRename(BackfillThenRename(a, entries, renames), entries, renames)
         == BackfillThenRename(a, entries, renames)
  {
    var b := Backfilled(a, entries);
    RenameAllIsSimultaneous(b, renames);
    var c := AllRenamed(b, renames);
    NoOldCodeLeft(b, renames);
    var d := Backfilled(c, entries);
    RenameAllIsSimultaneous(d, renames);
    var e := AllRenamed(d, renames);
    SecondRenameDrops(a, entries, renames);
    assert e.perms == c.perms;
    forall g: Pair ensures g in e.grants <==> g in c.grants {
      InAllRenamed(d, renames, g);
      InAllRenamed(b, renames, g);
      InBackfilled(c, entries, g);
      InBackfilled(a, entries, g);
    }
    assert e.grants == c.grants;
  }

  lemma SecondRenameDrops(a: Rbac, entries: seq<Entry>, renames: seq<Rename>)
    requires Distinct(renames)
    ensures var c := AllRenamed(Backfilled(a, entries), renames);
      forall r :: r in renames && r.from in Backfilled(c, entries).perms ==> r.to in c.perms
  {
    var b := Backfilled(a, entries);
    var c := AllRenamed(b, renames);
    NoOldCodeLeft(b, renames);
    forall r | r in renames && r.from in Backfilled(c, entries).perms ensures r.to in c.perms {
      assert r.from in Codes(entries) && r.from in b.perms;
    }
  }

  // ---- Ids ----

  /** What becomes of each permission row: kept as it is, or kept under its new code and name. */
  ghost predicate RowsKept(before: Tables, renames: seq<Rename>, now: Tables) {
    && now.roles == before.roles && now.userRoles == before.userRoles
    && (forall c :: c in before.permissions && !IsFrom(renames, c) ==>
          c in now.permissions && now.permissions[c] == before.permissions[c])
    && (forall c :: c in now.permissions && !IsTo(renames, c) ==> c in before.permissions)
    && (forall r :: r in renames && r.from in before.permissions && r.to !in before.permissions ==>
          r.to in now.permissions && now.permissions[r.to] == PermissionRow(before.permissions[r.from].id, r.name))
    && ((forall r :: r in renames ==> r.to !in before.permissions) ==> now.rolePermissions == before.rolePermissions)
  }

  /** No row gets a new id, and role_permissions is not touched at all when no new code existed. */
  lemma {:induction false} RenamingKeepsIds(t: Tables, renames: seq<Rename>)
    requires Valid(t) && Distinct(renames)
    ensures RowsKept(t, renames, RenameRows(t, renames))
  {
    if renames != [] {
      var init, r := renames[..|renames| - 1], renames[|renames| - 1];
      assert init + [r] == renames;
      FreshCodes(init, r);
      RenamingKeepsIds(t, init);
      RowsKeptOneMore(t, init, RenameRows(t, init), r, RenameRows(t, renames));
    }
  }

  lemma RowsKeptOneMore(t: Tables, init: seq<Rename>, mid: Tables, r: Rename, now: Tables)
    requires Distinct(init + [r]) && RowsKept(t, init, mid)
    requires if r.to in mid.permissions then
               now == mid.(permissions := mid.permissions - {r.from}, rolePermissions := now.rolePermissions)
             else now == if r.from in mid.permissions then WithRow(mid, r.from, r.to, Some(r.name)) else mid
    ensures RowsKept(t, init + [r], now)
  {
    FreshCodes(init, r);
    assert r.to in mid.permissions <==> r.to in t.permissions;
    forall c | c in t.permissions && !IsFrom(init + [r], c)
      ensures c in now.permissions && now.permissions[c] == t.permissions[c]
    {
      SnocCodes(init, r, c);
    }
    forall c | c in now.permissions && !IsTo(init + [r], c) ensures c in t.permissions {
      SnocCodes(init, r, c);
    }
    forall q | q in init + [r] && q.from in t.permissions && q.to !in t.permissions
      ensures q.to in now.permissions && now.permissions[q.to] == PermissionRow(t.permissions[q.from].id, q.name)
    {
      if q in init {
        assert IsTo(init, q.to);
      } else {
        assert q == r;
      }
    }
    if forall q :: q in init + [r] ==> q.to !in t.permissions {
      assert r in init + [r];
      assert forall q :: q in init ==> q in init + [r];
    }
  }
}
