/** What the seeds do to roles and permissions, by code, and how many statements it takes. */
module SeedModel {
  import opened RbacModel
  import opened GrantMigrations
  import opened BackfillMigrations

  /** How a seed treats one permission. `NoFallback` grants only if its own INSERT made the row,
      `Fallback` looks the row up otherwise, `External` never inserts. */
  datatype Kind = NoFallback | Fallback | External

  datatype Item = Item(kind: Kind, entry: Entry)

  /** A guarded seed commits at once when the permission of its first item exists. */
  datatype Seed = Seed(guarded: bool, items: seq<Item>)

  predicate Fires(kind: Kind, present: bool) {
    match kind
    case NoFallback => !present
    case Fallback => true
    case External => present
  }

  function RunItem(a: Rbac, item: Item): Rbac {
    var e := item.entry;
    if !Fires(item.kind, e.code in a.perms) then a
    else GrantRoles(AddPermission(a, e.code), e.roles, e.code)
  }

  function RunItems(a: Rbac, items: seq<Item>): Rbac {
    if items == [] then a else RunItem(RunItems(a, items[..|items| - 1]), items[|items| - 1])
  }

  function RunSeed(a: Rbac, seed: Seed): Rbac {
    if seed.guarded && seed.items != [] && seed.items[0].entry.code in a.perms then a
    else RunItems(a, seed.items)
  }

  function RunSeeds(a: Rbac, seeds: seq<Seed>): Rbac {
    if seeds == [] then a else RunSeed(RunSeeds(a, seeds[..|seeds| - 1]), seeds[|seeds| - 1])
  }

  lemma {:induction false} RunItemsAppend(a: Rbac, x: seq<Item>, y: seq<Item>)
    ensures RunItems(a, x + y) == RunItems(RunItems(a, x), y)
  {
    if y == [] {
      assert x + y == x;
    } else {
      RunItemsAppend(a, x, y[..|y| - 1]);
      assert (x + y)[..|x + y| - 1] == x + y[..|y| - 1];
    }
  }

  function Tagged(kind: Kind, entries: seq<Entry>): seq<Item> {
    seq(|entries|, i requires 0 <= i < |entries| => Item(kind, entries[i]))
  }

  /** The seed functions of the three patterns. */
  datatype SeedFunction =
    | MeetingRequest(permissions: seq<Entry>)
    | MeetingEnd(first: Entry, overriding: Entry)
    | CameraDomain(owned: seq<Entry>, external: seq<Entry>)

  function SeedOf(f: SeedFunction): Seed {
    match f
    case MeetingRequest(permissions) => Seed(false, Tagged(NoFallback, permissions))
    case MeetingEnd(first, overriding) => Seed(true, [Item(NoFallback, first), Item(NoFallback, overriding)])
    case CameraDomain(owned, external) => Seed(false, Tagged(Fallback, owned) + Tagged(External, external))
  }

  function SeedsOf(fs: seq<SeedFunction>): seq<Seed> {
    seq(|fs|, i requires 0 <= i < |fs| => SeedOf(fs[i]))
  }

  /** The seeds whose run succeeded, in order. */
  function Succeeded<T>(all: seq<T>, ok: seq<bool>): seq<T>
    requires |all| == |ok|
  {
    if all == [] then []
    else
      var last := |all| - 1;
      Succeeded(all[..last], ok[..last]) + if ok[last] then [all[last]] else []
  }

  function CountTrue(ok: seq<bool>): nat {
    if ok == [] then 0 else CountTrue(ok[..|ok| - 1]) + if ok[|ok| - 1] then 1 else 0
  }

  lemma {:induction false} AllSucceededIff<T>(all: seq<T>, ok: seq<bool>)
    requires |all| == |ok|
    ensures |Succeeded(all, ok)| == CountTrue(ok) <= |all|
    ensures Succeeded(all, ok) == all <==> CountTrue(ok) == |all|
  {
    if all != [] {
      var last := |all| - 1;
      AllSucceededIff(all[..last], ok[..last]);
      assert all == all[..last] + [all[last]];
    }
  }

  lemma {:induction false} SucceededOneMore(all: seq<Seed>, i: nat, ok: seq<bool>, done: bool, a: Rbac)
    requires i < |all| && |ok| == i
    ensures Succeeded(all[..i + 1], ok + [done])
         == if done then Succeeded(all[..i], ok) + [all[i]] else Succeeded(all[..i], ok)
    ensures RunSeeds(a, Succeeded(all[..i + 1], ok + [done]))
         == if done then RunSeed(RunSeeds(a, Succeeded(all[..i], ok)), all[i]) else RunSeeds(a, Succeeded(all[..i], ok))
    ensures CountTrue(ok + [done]) == CountTrue(ok) + if done then 1 else 0
  {
    var so := Succeeded(all[..i], ok);
    assert all[..i + 1][..i] == all[..i] && (ok + [done])[..i] == ok;
    assert (so + [all[i]])[..|so|] == so && so + [] == so;
  }

  // ---- A run of seed items, one permission code at a time ----

  predicate Inserts(items: seq<Item>, c: Code) {
    exists i :: 0 <= i < |items| && !items[i].kind.External? && items[i].entry.code == c
  }

  /** Whether item `i` grants anything, given whether its code was there at the start. */
  predicate FiresAt(items: seq<Item>, present: bool, i: nat)
    requires i < |items|
  {
    Fires(items[i].kind, present || Inserts(items[..i], items[i].entry.code))
  }

  /** Some item that lists `role` for `c` fires. */
  predicate Reaches(items: seq<Item>, present: bool, c: Code, role: Code) {
    exists i :: 0 <= i < |items| && items[i].entry.code == c && role in items[i].entry.roles && FiresAt(items, present, i)
  }

  lemma InsertsAppend(x: seq<Item>, y: seq<Item>, c: Code)
    ensures Inserts(x + y, c) <==> Inserts(x, c) || Inserts(y, c)
  {
    if Inserts(x, c) {
      var i :| 0 <= i < |x| && !x[i].kind.External? && x[i].entry.code == c;
      assert (x + y)[i] == x[i];
    }
    if Inserts(y, c) {
      var i :| 0 <= i < |y| && !y[i].kind.External? && y[i].entry.code == c;
      assert (x + y)[|x| + i] == y[i];
    }
  }

  /** In `x + y`, the items of `x` fire as in `x`. */
  lemma FiresLeft(x: seq<Item>, y: seq<Item>, present: bool, i: nat)
    requires i < |x|
    ensures (x + y)[i] == x[i] && (FiresAt(x + y, present, i) <==> FiresAt(x, present, i))
  {
    assert (x + y)[..i] == x[..i];
  }

  /** In `x + y`, the items of `y` fire as after `x`. */
  lemma FiresRight(x: seq<Item>, y: seq<Item>, present: bool, i: nat)
    requires i < |y|
    ensures (x + y)[|x| + i] == y[i]
    ensures FiresAt(x + y, present, |x| + i) <==> FiresAt(y, present || Inserts(x, y[i].entry.code), i)
  {
    assert (x + y)[..|x| + i] == x + y[..i];
    InsertsAppend(x, y[..i], y[i].entry.code);
  }

  lemma ReachesAppend(x: seq<Item>, y: seq<Item>, present: bool, c: Code, role: Code)
    ensures Reaches(x + y, present, c, role)
        <==> Reaches(x, present, c, role) || Reaches(y, present || Inserts(x, c), c, role)
  {
    if Reaches(x, present, c, role) {
      var i :| 0 <= i < |x| && x[i].entry.code == c && role in x[i].entry.roles && FiresAt(x, present, i);
      FiresLeft(x, y, present, i);
    }
    if Reaches(y, present || Inserts(x, c), c, role) {
      var i :| 0 <= i < |y| && y[i].entry.code == c && role in y[i].entry.roles && FiresAt(y, present || Inserts(x, c), i);
      FiresRight(x, y, present, i);
    }
    if Reaches(x + y, present, c, role) {
      var i :| 0 <= i < |x + y| && (x + y)[i].entry.code == c && role in (x + y)[i].entry.roles && FiresAt(x + y, present, i);
      if i < |x| {
        FiresLeft(x, y, present, i);
      } else {
        FiresRight(x, y, present, i - |x|);
      }
    }
  }

  /** The run of a list of items, in closed form. */
  lemma {:induction false} RunItemsClosed(a: Rbac, items: seq<Item>)
    ensures RunItems(a, items).roles == a.roles && RunItems(a, items).members == a.members
    ensures forall c :: c in RunItems(a, items).perms <==> c in a.perms || Inserts(items, c)
    ensures forall g: Pair ::
              g in RunItems(a, items).grants <==>
              g in a.grants || (Active(a, g.0) && Reaches(items, g.1 in a.perms, g.1, g.0))
  {
    if items != [] {
      var init, item := items[..|items| - 1], items[|items| - 1];
      assert items == init + [item];
      RunItemsClosed(a, init);
      var b := RunItems(a, init);
      forall c ensures c in RunItems(a, items).perms <==> c in a.perms || Inserts(items, c) {
        InsertsAppend(init, [item], c);
        assert Inserts([item], c) <==> !item.kind.External? && item.entry.code == c;
      }
      forall g: Pair
        ensures g in RunItems(a, items).grants
            <==> g in a.grants || (Active(a, g.0) && Reaches(items, g.1 in a.perms, g.1, g.0))
      {
        ReachesAppend(init, [item], g.1 in a.perms, g.1, g.0);
        LastItem(item, g.1 in a.perms || Inserts(init, g.1), g.1, g.0);
      }
    }
  }

  lemma LastItem(item: Item, present: bool, c: Code, role: Code)
    ensures Reaches([item], present, c, role)
        <==> item.entry.code == c && role in item.entry.roles && Fires(item.kind, present)
  {
    assert [item][..0] == [];
    if item.entry.code == c && role in item.entry.roles && Fires(item.kind, present) {
      assert FiresAt([item], present, 0);
    }
  }

  // ---- What each seed function does, entry by entry ----

  /** No earlier entry has the same code. */
  predicate FirstListed(entries: seq<Entry>, i: nat)
    requires i < |entries|
  {
    forall j :: 0 <= j < i ==> entries[j].code != entries[i].code
  }

  /** The first entry for `code` lists `role`. */
  predicate ListsFirst(entries: seq<Entry>, role: Code, code: Code) {
    exists i :: 0 <= i < |entries| && entries[i].code == code && role in entries[i].roles && FirstListed(entries, i)
  }

  /** A permission that exists is left alone; one that does not is inserted and granted to the
      active roles of the first entry that lists it. */
  lemma MeetingRequestMeaning(a: Rbac, permissions: seq<Entry>)
    ensures var b := RunSeed(a, SeedOf(MeetingRequest(permissions)));
      && b.roles == a.roles && b.members == a.members
      && (forall c :: c in b.perms <==> c in a.perms || exists i :: 0 <= i < |permissions| && permissions[i].code == c)
      && (forall g: Pair :: g in b.grants <==>
            g in a.grants ||
            (Active(a, g.0) && g.1 !in a.perms && ListsFirst(permissions, g.0, g.1)))
  {
    var items := Tagged(NoFallback, permissions);
    RunItemsClosed(a, items);
    forall c ensures Inserts(items, c) <==> exists i :: 0 <= i < |permissions| && permissions[i].code == c {
      if i :| 0 <= i < |permissions| && permissions[i].code == c {
        assert items[i].entry.code == c;
      }
    }
    forall i | 0 <= i < |items| ensures Inserts(items[..i], items[i].entry.code) <==> !FirstListed(permissions, i) {
      if !FirstListed(permissions, i) {
        var j :| 0 <= j < i && permissions[j].code == permissions[i].code;
        assert items[..i][j].entry.code == items[i].entry.code;
      }
    }
    forall g: Pair
      ensures Reaches(items, g.1 in a.perms, g.1, g.0) <==>
              g.1 !in a.perms && ListsFirst(permissions, g.0, g.1)
    {
      if Reaches(items, g.1 in a.perms, g.1, g.0) {
        var i :| 0 <= i < |items| && items[i].entry.code == g.1 && g.0 in items[i].entry.roles &&
                 FiresAt(items, g.1 in a.perms, i);
        assert permissions[i].code == g.1;
      }
      if g.1 !in a.perms {
        forall i | 0 <= i < |permissions| && permissions[i].code == g.1 && g.0 in permissions[i].roles &&
                   FirstListed(permissions, i)
          ensures Reaches(items, false, g.1, g.0)
        {
          assert items[i].entry.code == g.1 && FiresAt(items, false, i);
        }
      }
    }
  }

  /** If the first permission exists nothing happens. Otherwise both are there afterwards, the
      first granted to its active roles, the second to its own if it was missing too. */
  lemma MeetingEndMeaning(a: Rbac, first: Entry, overriding: Entry)
    ensures var b := RunSeed(a, SeedOf(MeetingEnd(first, overriding)));
      if first.code in a.perms then b == a
      else
        && b.perms == a.perms + {first.code, overriding.code} && b.roles == a.roles && b.members == a.members
        && forall g: Pair :: g in b.grants <==>
             g in a.grants || (Active(a, g.0) && g.1 == first.code && g.0 in first.roles) ||
             (Active(a, g.0) && g.1 == overriding.code && g.0 in overriding.roles &&
              overriding.code != first.code && overriding.code !in a.perms)
  {
    var items := [Item(NoFallback, first), Item(NoFallback, overriding)];
    if first.code !in a.perms {
      var mid := GrantRoles(AddPermission(a, first.code), first.roles, first.code);
      assert items[..1] == [items[0]] && items[..1][..0] == [];
      assert RunItems(a, items[..1]) == mid;
      assert RunItems(a, items) == RunItem(mid, items[1]);
    }
  }

  /** Every owned permission ends up granted to its active roles, whether it existed or not; an
      external one is never created, and is granted if it existed or is one of the owned. */
  lemma CameraDomainMeaning(a: Rbac, owned: seq<Entry>, external: seq<Entry>)
    ensures var b := RunSeed(a, SeedOf(CameraDomain(owned, external)));
      && b.roles == a.roles && b.members == a.members
      && (forall c :: c in b.perms <==> c in a.perms || exists i :: 0 <= i < |owned| && owned[i].code == c)
      && (forall g: Pair :: g in b.grants <==>
            || g in a.grants
            || (Active(a, g.0) && exists i :: 0 <= i < |owned| && owned[i].code == g.1 && g.0 in owned[i].roles)
            || (Active(a, g.0) && g.1 in b.perms &&
                exists i :: 0 <= i < |external| && external[i].code == g.1 && g.0 in external[i].roles))
  {
    var mine, others := Tagged(Fallback, owned), Tagged(External, external);
    var mid := RunItems(a, mine);
    RunItemsAppend(a, mine, others);
    OwnedMeaning(a, owned);
    ExternalMeaning(mid, external);
  }

  lemma OwnedMeaning(a: Rbac, owned: seq<Entry>)
    ensures var b := RunItems(a, Tagged(Fallback, owned));
      && b.roles == a.roles && b.members == a.members
      && (forall c :: c in b.perms <==> c in a.perms || exists i :: 0 <= i < |owned| && owned[i].code == c)
      && (forall g: Pair :: g in b.grants <==>
            g in a.grants ||
            (Active(a, g.0) && exists i :: 0 <= i < |owned| && owned[i].code == g.1 && g.0 in owned[i].roles))
  {
    var items := Tagged(Fallback, owned);
    RunItemsClosed(a, items);
    forall c ensures Inserts(items, c) <==> exists i :: 0 <= i < |owned| && owned[i].code == c {
      if i :| 0 <= i < |owned| && owned[i].code == c {
        assert items[i].entry.code == c;
      }
    }
    forall g: Pair
      ensures Reaches(items, g.1 in a.perms, g.1, g.0) <==>
              exists i :: 0 <= i < |owned| && owned[i].code == g.1 && g.0 in owned[i].roles
    {
      if i :| 0 <= i < |owned| && owned[i].code == g.1 && g.0 in owned[i].roles {
        assert items[i].entry.code == g.1 && FiresAt(items, g.1 in a.perms, i);
      }
    }
  }

  lemma ExternalMeaning(a: Rbac, external: seq<Entry>)
    ensures var b := RunItems(a, Tagged(External, external));
      && b.perms == a.perms && b.roles == a.roles && b.members == a.members
      && (forall g: Pair :: g in b.grants <==>
            g in a.grants ||
            (Active(a, g.0) && g.1 in a.perms &&
             exists i :: 0 <= i < |external| && external[i].code == g.1 && g.0 in external[i].roles))
  {
    var items := Tagged(External, external);
    RunItemsClosed(a, items);
    forall g: Pair
      ensures Reaches(items, g.1 in a.perms, g.1, g.0) <==>
              g.1 in a.perms && exists i :: 0 <= i < |external| && external[i].code == g.1 && g.0 in external[i].roles
    {
      if g.1 in a.perms {
        forall i | 0 <= i < |external| && external[i].code == g.1 && g.0 in external[i].roles
          ensures Reaches(items, true, g.1, g.0)
        {
          assert items[i].entry.code == g.1 && FiresAt(items, true, i);
        }
      }
    }
  }

  // ---- Statements ----

  /** A role is looked up, and granted if it is there and active. */
  function RoleStatements(a: Rbac, role: Code): nat {
    if Active(a, role) then 2 else 1
  }

  function RolesStatements(a: Rbac, roles: seq<Code>): nat {
    if roles == [] then 0
    else RolesStatements(a, roles[..|roles| - 1]) + RoleStatements(a, roles[|roles| - 1])
  }

  /** One statement to insert or, for an external item, to look up; a second one for a fallback
      item whose insert made no row; then the grants, if there are to be any. */
  function ItemStatements(a: Rbac, item: Item): nat {
    var present := item.entry.code in a.perms;
    (if item.kind.Fallback? && present then 2 else 1)
    + if Fires(item.kind, present) then RolesStatements(a, item.entry.roles) else 0
  }

  function ItemsStatements(a: Rbac, items: seq<Item>): nat {
    if items == [] then 0
    else
      var init := items[..|items| - 1];
      ItemsStatements(a, init) + ItemStatements(RunItems(a, init), items[|items| - 1])
  }

  /** From the start of the transaction to its commit, both included. */
  function SeedStatements(a: Rbac, seed: Seed): nat {
    if seed.guarded && seed.items != [] && seed.items[0].entry.code in a.perms then 3
    else 2 + ItemsStatements(a, seed.items)
  }

  lemma {:induction false} ItemsStatementsAppend(a: Rbac, x: seq<Item>, y: seq<Item>)
    ensures ItemsStatements(a, x + y) == ItemsStatements(a, x) + ItemsStatements(RunItems(a, x), y)
  {
    if y == [] {
      assert x + y == x;
    } else {
      var init := y[..|y| - 1];
      ItemsStatementsAppend(a, x, init);
      RunItemsAppend(a, x, init);
      assert (x + y)[..|x + y| - 1] == x + init;
    }
  }

  /** None of the `count` statements from number `at` on fails. */
  predicate NoFault(faults: set<nat>, at: nat, count: nat) {
    forall k :: at <= k < at + count ==> k !in faults
  }

  lemma NoFaultInOne(faults: set<nat>, at: nat)
    ensures NoFault(faults, at, 0)
    ensures NoFault(faults, at, 1) <==> at !in faults
    ensures NoFault(faults, at, 2) <==> at !in faults && at + 1 !in faults
  {}

  lemma {:induction false} RolesStatementsSame(a: Rbac, b: Rbac, roles: seq<Code>)
    requires a.roles == b.roles
    ensures RolesStatements(a, roles) == RolesStatements(b, roles)
  {
    if roles != [] {
      RolesStatementsSame(a, b, roles[..|roles| - 1]);
    }
  }

  lemma NoFaultSplits(faults: set<nat>, at: nat, x: nat, y: nat)
    ensures NoFault(faults, at, x + y) <==> NoFault(faults, at, x) && NoFault(faults, at + x, y)
  {}

  /** The statements of one item: those that find the permission, then those that grant it. */
  lemma ItemStatementsSplit(a: Rbac, item: Item, faults: set<nat>, at: nat)
    ensures var e := item.entry;
      var count := if item.kind.Fallback? && e.code in a.perms then 2 else 1;
      var grants := RolesStatements(AddPermission(a, e.code), e.roles);
      if Fires(item.kind, e.code in a.perms) then
        && ItemStatements(a, item) == count + grants
        && (NoFault(faults, at, ItemStatements(a, item)) <==>
              NoFault(faults, at, count) && NoFault(faults, at + count, grants))
      else
        ItemStatements(a, item) == count
  {
    var e := item.entry;
    RolesStatementsSame(a, AddPermission(a, e.code), e.roles);
    NoFaultSplits(faults, at, if item.kind.Fallback? && e.code in a.perms then 2 else 1, RolesStatements(a, e.roles));
  }

  /** The permissions that items may insert, with their names. */
  function InsertNames(items: seq<Item>): seq<(Code, string)> {
    if items == [] then []
    else
      var last := items[|items| - 1];
      InsertNames(items[..|items| - 1]) + if last.kind.External? then [] else [(last.entry.code, last.entry.name)]
  }

  lemma SingleName(item: Item, names: seq<(Code, string)>)
    ensures names + InsertNames([item])
         == if item.kind.External? then names else names + [(item.entry.code, item.entry.name)]
  {
    assert [item][..0] == [];
  }

  lemma {:induction false} TaggedNames(kind: Kind, entries: seq<Entry>)
    ensures InsertNames(Tagged(kind, entries)) == if kind.External? then [] else Names(entries)
  {
    if entries != [] {
      var init := entries[..|entries| - 1];
      TaggedNames(kind, init);
      assert Tagged(kind, entries)[..|entries| - 1] == Tagged(kind, init);
      assert Names(entries) == Names(init) + [(entries[|entries| - 1].code, entries[|entries| - 1].name)];
    }
  }
}
