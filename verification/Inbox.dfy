/** listMyNotifications: one page of the inbox per query, and the batched status lookup. */
module Inbox {
  import opened Options

  type Id = string

  datatype Channel = Email | InApp | Websocket | Sms

  /** `payloadCaseId` is payloadJson?.noShowCaseId. */
  datatype Notification = Notification(id: Id, channel: Channel, recipients: set<Id>, createdAt: int,
                                       isNoShowAlert: bool, payloadCaseId: Option<Id>)

  predicate InInbox(n: Notification, user: Id) {
    user in n.recipients && (n.channel.InApp? || n.channel.Websocket?)
  }

  function InboxOf(table: set<Notification>, user: Id): set<Notification> {
    set n | n in table && InInbox(n, user)
  }

  // ---- Paging over one fixed order ----

  function Min(a: int, b: int): int {
    if a < b then a else b
  }

  /** Where page `p + 1` starts. */
  function Start(p: nat, limit: nat): nat {
    p * limit
  }

  /** `.skip(skip).take(limit)`. */
  function Slice<T>(rows: seq<T>, skip: nat, limit: nat): seq<T> {
    if skip >= |rows| then [] else rows[skip..Min(skip + limit, |rows|)]
  }

  function Page<T>(rows: seq<T>, page: nat, limit: nat): seq<T>
    requires page >= 1
  {
    Slice(rows, Start(page - 1, limit), limit)
  }

  /** `Math.ceil(total / limit)`. */
  function TotalPages(total: nat, limit: nat): nat
    requires limit >= 1
  {
    (total + limit - 1) / limit
  }

  lemma TotalPagesIsCeiling(total: nat, limit: nat)
    requires limit >= 1
    ensures total <= Start(TotalPages(total, limit), limit) < total + limit
  {
    var q, r := (total + limit - 1) / limit, (total + limit - 1) % limit;
    assert total + limit - 1 == q * limit + r;
  }

  lemma StartNext(p: nat, limit: nat)
    ensures Start(p + 1, limit) == Start(p, limit) + limit
  {}

  lemma StartMonotone(p: nat, q: nat, limit: nat)
    requires p <= q
    ensures Start(p, limit) <= Start(q, limit)
  {
    assert q * limit == p * limit + (q - p) * limit;
  }

  function FirstPages<T>(rows: seq<T>, pages: nat, limit: nat): seq<T> {
    if pages == 0 then [] else FirstPages(rows, pages - 1, limit) + Page(rows, pages, limit)
  }

  lemma {:induction false} FirstPagesArePrefix<T>(rows: seq<T>, pages: nat, limit: nat)
    ensures FirstPages(rows, pages, limit) == rows[..Min(Start(pages, limit), |rows|)]
  {
    if pages > 0 {
      FirstPagesArePrefix(rows, pages - 1, limit);
      StartNext(pages - 1, limit);
    }
  }

  /** A page before the last is full. */
  lemma EarlyPageIsFull<T>(rows: seq<T>, p: nat, limit: nat)
    requires limit >= 1 && 1 <= p < TotalPages(|rows|, limit)
    ensures |Page(rows, p, limit)| == limit
  {
    var pages := TotalPages(|rows|, limit);
    TotalPagesIsCeiling(|rows|, limit);
    StartNext(p - 1, limit);
    StartNext(pages - 1, limit);
    StartMonotone(p, pages - 1, limit);
  }

  lemma LatePageIsEmpty<T>(rows: seq<T>, p: nat, limit: nat)
    requires limit >= 1 && p > TotalPages(|rows|, limit)
    ensures Page(rows, p, limit) == []
  {
    TotalPagesIsCeiling(|rows|, limit);
    StartMonotone(TotalPages(|rows|, limit), p - 1, limit);
  }

  /** Pages 1 to totalPages make up the whole list, in order; every page before the last is
      full, the last holds the rest and is not empty, and there is nothing after it. */
  lemma PagesPartition<T>(rows: seq<T>, limit: nat)
    requires limit >= 1
    ensures FirstPages(rows, TotalPages(|rows|, limit), limit) == rows
    ensures forall p: nat :: 1 <= p < TotalPages(|rows|, limit) ==> |Page(rows, p, limit)| == limit
    ensures TotalPages(|rows|, limit) >= 1 ==>
              1 <= |Page(rows, TotalPages(|rows|, limit), limit)|
                == |rows| - Start(TotalPages(|rows|, limit) - 1, limit) <= limit
    ensures forall p: nat :: p > TotalPages(|rows|, limit) ==> Page(rows, p, limit) == []
  {
    var pages := TotalPages(|rows|, limit);
    TotalPagesIsCeiling(|rows|, limit);
    FirstPagesArePrefix(rows, pages, limit);
    if pages >= 1 {
      StartNext(pages - 1, limit);
    }
    forall p: nat | 1 <= p < pages ensures |Page(rows, p, limit)| == limit {
      EarlyPageIsFull(rows, p, limit);
    }
    forall p: nat | p > pages ensures Page(rows, p, limit) == [] {
      LatePageIsEmpty(rows, p, limit);
    }
  }

  // ---- Each page is its own query, and the order is by created_at alone ----

  /** A result the database may return for ORDER BY created_at DESC: rows with the same
      timestamp come in any order. */
  ghost predicate IsOrder(rows: seq<Notification>, inbox: set<Notification>) {
    && (forall n :: n in rows <==> n in inbox)
    && (forall i, j :: 0 <= i < j < |rows| ==> rows[i] != rows[j] && rows[i].createdAt >= rows[j].createdAt)
  }

  function Members(rows: seq<Notification>): set<Notification> {
    set n | n in rows
  }

  lemma {:induction false} PrefixSize(rows: seq<Notification>, k: nat)
    requires k <= |rows| && forall i, j :: 0 <= i < j < |rows| ==> rows[i] != rows[j]
    ensures |Members(rows[..k])| == k
  {
    if k > 0 {
      PrefixSize(rows, k - 1);
      assert Members(rows[..k]) == Members(rows[..k - 1]) + {rows[k - 1]};
      assert rows[k - 1] !in rows[..k - 1];
    }
  }

  lemma SubsetSize<T>(a: set<T>, b: set<T>)
    requires a <= b
    ensures |a| <= |b|
  {
    assert b == a + (b - a);
  }

  /** Two orders of one inbox agree on the timestamp at every position. */
  lemma SameTimestamps(one: seq<Notification>, other: seq<Notification>, inbox: set<Notification>, i: nat)
    requires IsOrder(one, inbox) && IsOrder(other, inbox) && i < |one|
    ensures |one| == |other|
    ensures one[i].createdAt == other[i].createdAt
  {
    PrefixSize(one, |one|);
    PrefixSize(other, |other|);
    assert one[..|one|] == one && other[..|other|] == other;
    assert Members(one) == inbox == Members(other);
    NotLater(one, other, inbox, i);
    NotLater(other, one, inbox, i);
  }

  lemma NotLater(one: seq<Notification>, other: seq<Notification>, inbox: set<Notification>, i: nat)
    requires IsOrder(one, inbox) && IsOrder(other, inbox) && i < |one| == |other|
    ensures one[i].createdAt <= other[i].createdAt
  {
    if one[i].createdAt > other[i].createdAt {
      var a, b := Members(one[..i + 1]), Members(other[..i]);
      forall n | n in a ensures n in b {
        var j :| 0 <= j <= i && one[j] == n;
        assert n.createdAt >= one[i].createdAt;
        assert n in one;
        var k :| 0 <= k < |other| && other[k] == n;
        assert other[k] == other[..i][k];
      }
      PrefixSize(one, i + 1);
      PrefixSize(other, i);
      SubsetSize(a, b);
    }
  }

  /** No page ends inside a group of equal timestamps. */
  ghost predicate NoTieAcrossPages(rows: seq<Notification>, limit: nat) {
    forall p: nat :: 0 < Start(p, limit) < |rows| ==>
      rows[Start(p, limit) - 1].createdAt != rows[Start(p, limit)].createdAt
  }

  /** Every page asked for by its own query, `orders[p - 1]` being the order query `p` used. */
  ghost predicate Queried(orders: seq<seq<Notification>>, inbox: set<Notification>, limit: nat)
    requires limit >= 1
  {
    && |orders| == TotalPages(|inbox|, limit)
    && forall p :: 0 <= p < |orders| ==> IsOrder(orders[p], inbox)
  }

  /** The notification is on exactly one page. */
  ghost predicate ShownOnce(orders: seq<seq<Notification>>, limit: nat, n: Notification)
    requires limit >= 1
  {
    && (exists p :: 0 <= p < |orders| && n in Page(orders[p], p + 1, limit))
    && (forall p, q :: 0 <= p < |orders| && 0 <= q < |orders| && p != q ==>
          !(n in Page(orders[p], p + 1, limit) && n in Page(orders[q], q + 1, limit)))
  }

  lemma OrderSize(rows: seq<Notification>, inbox: set<Notification>)
    requires IsOrder(rows, inbox)
    ensures |rows| == |inbox|
  {
    PrefixSize(rows, |rows|);
    assert rows[..|rows|] == rows;
    assert Members(rows) == inbox;
  }

  lemma BoundarySeparates(rows: seq<Notification>, inbox: set<Notification>, limit: nat, p: nat, i: nat, j: nat)
    requires IsOrder(rows, inbox) && NoTieAcrossPages(rows, limit) && i < Start(p, limit) <= j < |rows|
    ensures rows[i].createdAt != rows[j].createdAt
  {
    var b := Start(p, limit);
    assert rows[b - 1].createdAt > rows[b].createdAt;
  }

  /** Where no tie crosses a page boundary, a notification is on the same page in every order. */
  lemma PageIsDetermined(one: seq<Notification>, other: seq<Notification>, inbox: set<Notification>,
                         limit: nat, p: nat, n: Notification)
    requires limit >= 1 && IsOrder(one, inbox) && IsOrder(other, inbox) && NoTieAcrossPages(one, limit)
    requires n in Page(one, p + 1, limit)
    ensures n in Page(other, p + 1, limit)
  {
    OrderSize(one, inbox);
    OrderSize(other, inbox);
    var lo, hi := Start(p, limit), Min(Start(p, limit) + limit, |one|);
    var i :| 0 <= i < |one| && lo <= i < hi && one[i] == n;
    assert n in one && n in other;
    var j :| 0 <= j < |other| && other[j] == n;
    SameTimestamps(one, other, inbox, j);
    assert one[j].createdAt == one[i].createdAt;
    StartNext(p, limit);
    if j < lo {
      BoundarySeparates(one, inbox, limit, p, j, i);
    }
    if hi <= j {
      BoundarySeparates(one, inbox, limit, p + 1, i, j);
    }
    assert other[lo..hi][j - lo] == n;
  }

  lemma TiesAreShared(one: seq<Notification>, other: seq<Notification>, inbox: set<Notification>, limit: nat)
    requires limit >= 1 && IsOrder(one, inbox) && IsOrder(other, inbox) && NoTieAcrossPages(one, limit)
    ensures NoTieAcrossPages(other, limit)
  {
    OrderSize(one, inbox);
    OrderSize(other, inbox);
    forall p: nat | 0 < Start(p, limit) < |other|
      ensures other[Start(p, limit) - 1].createdAt != other[Start(p, limit)].createdAt
    {
      SameTimestamps(one, other, inbox, Start(p, limit) - 1);
      SameTimestamps(one, other, inbox, Start(p, limit));
    }
  }

  /** Two different pages of one order have nothing in common. */
  lemma PagesAreDisjoint(rows: seq<Notification>, inbox: set<Notification>, limit: nat, p: nat, q: nat,
                         n: Notification)
    requires limit >= 1 && IsOrder(rows, inbox) && p < q
    requires n in Page(rows, p + 1, limit)
    ensures n !in Page(rows, q + 1, limit)
  {
    StartNext(p, limit);
    StartMonotone(p + 1, q, limit);
    var i :| 0 <= i < |rows| && Start(p, limit) <= i < Start(p + 1, limit) && rows[i] == n;
  }

  lemma PageOf(rows: seq<Notification>, limit: nat, i: nat) returns (p: nat)
    requires limit >= 1 && i < |rows|
    ensures p < TotalPages(|rows|, limit) && rows[i] in Page(rows, p + 1, limit)
  {
    p := i / limit;
    var r := i % limit;
    assert i == p * limit + r;
    StartNext(p, limit);
    assert Start(p, limit) <= i < Start(p, limit) + limit;
    assert Page(rows, p + 1, limit)[i - Start(p, limit)] == rows[i];
    TotalPagesIsCeiling(|rows|, limit);
    if p >= TotalPages(|rows|, limit) {
      StartMonotone(TotalPages(|rows|, limit), p, limit);
    }
  }

  lemma UntiedPagesShowOnce(rows: seq<Notification>, inbox: set<Notification>, limit: nat,
                            orders: seq<seq<Notification>>, n: Notification)
    requires limit >= 1 && IsOrder(rows, inbox) && NoTieAcrossPages(rows, limit)
    requires Queried(orders, inbox, limit) && n in inbox
    ensures ShownOnce(orders, limit, n)
  {
    OrderSize(rows, inbox);
    var i :| 0 <= i < |rows| && rows[i] == n;
    var page := PageOf(rows, limit, i);
    PageIsDetermined(rows, orders[page], inbox, limit, page, n);
    forall p, q | 0 <= p < |orders| && 0 <= q < |orders| && p != q
      ensures !(n in Page(orders[p], p + 1, limit) && n in Page(orders[q], q + 1, limit))
    {
      if n in Page(orders[p], p + 1, limit) && n in Page(orders[q], q + 1, limit) {
        TiesAreShared(rows, orders[p], inbox, limit);
        TiesAreShared(rows, orders[q], inbox, limit);
        PageIsDetermined(orders[p], rows, inbox, limit, p, n);
        PageIsDetermined(orders[q], rows, inbox, limit, q, n);
        if p < q {
          PagesAreDisjoint(rows, inbox, limit, p, q, n);
        } else {
          PagesAreDisjoint(rows, inbox, limit, q, p, n);
        }
      }
    }
  }

  lemma SwapKeepsOrder(rows: seq<Notification>, inbox: set<Notification>, b: nat) returns (swapped: seq<Notification>)
    requires IsOrder(rows, inbox) && 0 < b < |rows| && rows[b - 1].createdAt == rows[b].createdAt
    ensures swapped == rows[b - 1 := rows[b]][b := rows[b - 1]] && IsOrder(swapped, inbox)
  {
    swapped := rows[b - 1 := rows[b]][b := rows[b - 1]];
    forall n ensures n in swapped <==> n in rows {
      if n in rows {
        var i :| 0 <= i < |rows| && rows[i] == n;
        assert swapped[if i == b then b - 1 else if i == b - 1 then b else i] == n;
      }
    }
  }

  /** A tie across a page boundary lets the database repeat a notification. */
  lemma TieCanRepeat(rows: seq<Notification>, inbox: set<Notification>, limit: nat, p: nat)
      returns (orders: seq<seq<Notification>>, n: Notification)
    requires limit >= 1 && IsOrder(rows, inbox) && 0 < Start(p, limit) < |rows|
    requires rows[Start(p, limit) - 1].createdAt == rows[Start(p, limit)].createdAt
    ensures Queried(orders, inbox, limit) && n in inbox && !ShownOnce(orders, limit, n)
  {
    var b := Start(p, limit);
    var swapped := SwapKeepsOrder(rows, inbox, b);
    n := rows[b - 1];
    OrderSize(rows, inbox);
    var pages := TotalPages(|rows|, limit);
    TotalPagesIsCeiling(|rows|, limit);
    if p >= pages {
      StartMonotone(pages, p, limit);
    }
    orders := seq(pages, k => if k == p then swapped else rows);
    StartNext(p - 1, limit);
    assert Page(orders[p - 1], p, limit)[limit - 1] == n;
    assert Page(orders[p], p + 1, limit)[0] == n;
  }

  /** Reading all pages of a user's inbox, each through its own query, shows every notification
      exactly once whatever order the database picks, if and only if no page boundary falls
      between two notifications created at the same instant. */
  lemma PagingIsExactIff(table: set<Notification>, user: Id, rows: seq<Notification>, limit: nat)
    requires limit >= 1 && IsOrder(rows, InboxOf(table, user))
    ensures NoTieAcrossPages(rows, limit) <==>
            forall orders, n :: Queried(orders, InboxOf(table, user), limit) && n in table && InInbox(n, user) ==>
              ShownOnce(orders, limit, n)
  {
    var inbox := InboxOf(table, user);
    if NoTieAcrossPages(rows, limit) {
      forall orders, n | Queried(orders, inbox, limit) && n in table && InInbox(n, user)
        ensures ShownOnce(orders, limit, n)
      {
        UntiedPagesShowOnce(rows, inbox, limit, orders, n);
      }
    }
    if !NoTieAcrossPages(rows, limit) {
      var p: nat :| 0 < Start(p, limit) < |rows| &&
                    rows[Start(p, limit) - 1].createdAt == rows[Start(p, limit)].createdAt;
      var orders, n := TieCanRepeat(rows, inbox, limit, p);
    }
  }

  /** The inbox, spelt out. */
  lemma InboxOfIff(table: set<Notification>, user: Id, n: Notification)
    ensures n in InboxOf(table, user)
        <==> n in table && user in n.recipients && n.channel != Email && n.channel != Sms
  {
    match n.channel
    case Email =>
    case InApp =>
    case Websocket =>
    case Sms =>
  }

  /** Newest first, within a page and from page to page. */
  lemma NewestFirst(table: set<Notification>, user: Id, rows: seq<Notification>, limit: nat, p: nat, q: nat, i: nat, j: nat)
    requires 1 <= p <= q && IsOrder(rows, InboxOf(table, user))
    requires i < |Page(rows, p, limit)| && j < |Page(rows, q, limit)| && (p < q || i < j)
    ensures Page(rows, p, limit)[i].createdAt >= Page(rows, q, limit)[j].createdAt
  {
    StartNext(p - 1, limit);
    if p < q {
      StartMonotone(p, q - 1, limit);
    }
    assert Page(rows, p, limit)[i] == rows[Start(p - 1, limit) + i];
    assert Page(rows, q, limit)[j] == rows[Start(q - 1, limit) + j];
  }

  /** A page shows the user's own in-app and websocket notifications and nothing else. */
  lemma PageShowsInboxOnly(table: set<Notification>, user: Id, rows: seq<Notification>, page: nat, limit: nat)
    requires page >= 1 && IsOrder(rows, InboxOf(table, user))
    ensures forall n :: n in Page(rows, page, limit) ==>
              n in table && user in n.recipients && (n.channel.InApp? || n.channel.Websocket?)
  {
    forall n | n in Page(rows, page, limit) ensures n in InboxOf(table, user) {
      assert n in rows;
    }
  }

  // ---- The no-show status beside each notification, looked up once per page ----

  datatype NoShowCase = NoShowCase(detectionStatus: string, snoozeUntil: Option<int>)

  datatype ListItem = ListItem(id: Id, live: Option<NoShowCase>)

  /** The case a list item refers to: only alerts have one, and the empty id counts as none. */
  function CaseIdOf(item: Notification): Option<Id> {
    if item.isNoShowAlert && item.payloadCaseId != Some("") then item.payloadCaseId else None
  }

  function CaseIds(items: seq<Notification>): set<Id> {
    set item | item in items && CaseIdOf(item).Some? :: CaseIdOf(item).value
  }

  /** fetchNoShowLiveStatusMap: no query for a page without case ids, one query otherwise. */
  function LiveStatusMap(items: seq<Notification>, cases: map<Id, NoShowCase>): map<Id, NoShowCase> {
    var ids := CaseIds(items);
    if ids == {} then map[] else map id | id in ids && id in cases :: cases[id]
  }

  function Render(item: Notification, live: map<Id, NoShowCase>): ListItem {
    var id := CaseIdOf(item);
    ListItem(item.id, if id.Some? && id.value in live then Some(live[id.value]) else None)
  }

  function RenderAll(items: seq<Notification>, live: map<Id, NoShowCase>): seq<ListItem> {
    seq(|items|, i requires 0 <= i < |items| => Render(items[i], live))
  }

  /** The answer to the query for page `page`: the batch covers this page only. */
  function Listing(rows: seq<Notification>, page: nat, limit: nat, cases: map<Id, NoShowCase>): seq<ListItem>
    requires page >= 1
  {
    var items := Page(rows, page, limit);
    RenderAll(items, LiveStatusMap(items, cases))
  }

  function FirstListings(rows: seq<Notification>, pages: nat, limit: nat, cases: map<Id, NoShowCase>): seq<ListItem> {
    if pages == 0 then [] else FirstListings(rows, pages - 1, limit, cases) + Listing(rows, pages, limit, cases)
  }

  lemma BatchIsLookup(items: seq<Notification>, cases: map<Id, NoShowCase>)
    ensures RenderAll(items, LiveStatusMap(items, cases)) == RenderAll(items, cases)
  {
    forall i | 0 <= i < |items| ensures Render(items[i], LiveStatusMap(items, cases)) == Render(items[i], cases) {
      var id := CaseIdOf(items[i]);
      if id.Some? {
        assert id.value in CaseIds(items);
      }
    }
  }

  /** One entry of the listing: the item's id, and the status of its case exactly if the item is a
      no-show alert with a case id that is not empty and that the case table has. */
  lemma ListedStatus(rows: seq<Notification>, page: nat, limit: nat, cases: map<Id, NoShowCase>, i: nat)
    requires page >= 1 && i < |Page(rows, page, limit)|
    ensures |Listing(rows, page, limit, cases)| == |Page(rows, page, limit)|
    ensures var item, listed := Page(rows, page, limit)[i], Listing(rows, page, limit, cases)[i];
      && listed.id == item.id
      && (listed.live.Some? <==>
            item.isNoShowAlert && item.payloadCaseId.Some? && item.payloadCaseId.value != "" &&
            item.payloadCaseId.value in cases)
      && (listed.live.Some? ==> listed.live.value == cases[item.payloadCaseId.value])
  {
    BatchIsLookup(Page(rows, page, limit), cases);
  }

  lemma {:induction false} ListingsAreRendering(rows: seq<Notification>, pages: nat, limit: nat,
                                                cases: map<Id, NoShowCase>)
    ensures FirstListings(rows, pages, limit, cases) == RenderAll(FirstPages(rows, pages, limit), cases)
  {
    if pages > 0 {
      ListingsAreRendering(rows, pages - 1, limit, cases);
      BatchIsLookup(Page(rows, pages, limit), cases);
      var before, page := FirstPages(rows, pages - 1, limit), Page(rows, pages, limit);
      RenderAppend(before, page, cases);
      assert FirstListings(rows, pages, limit, cases) == RenderAll(before, cases) + RenderAll(page, cases);
    }
  }

  lemma RenderAppend(x: seq<Notification>, y: seq<Notification>, cases: map<Id, NoShowCase>)
    ensures RenderAll(x + y, cases) == RenderAll(x, cases) + RenderAll(y, cases)
  {
    forall i | 0 <= i < |x + y| ensures RenderAll(x + y, cases)[i] == (RenderAll(x, cases) + RenderAll(y, cases))[i] {}
  }

  /** Read page by page in one order, the inbox is each notification once, in order, with the status its own
      case has in the table: batching per page neither loses a status nor borrows one. */
  lemma InboxReadsLikeOneList(rows: seq<Notification>, limit: nat, cases: map<Id, NoShowCase>)
    requires limit >= 1
    ensures FirstListings(rows, TotalPages(|rows|, limit), limit, cases) == RenderAll(rows, cases)
  {
    PagesPartition(rows, limit);
    ListingsAreRendering(rows, TotalPages(|rows|, limit), limit, cases);
  }

  /** With one query per page, each in its own order and with the statuses of its own moment: if no
      boundary splits a tie, every notification of the inbox is on exactly one page, and there it
      carries the status that its own case had when that page was read. */
  lemma PagesReadTheirOwnQueries(table: set<Notification>, user: Id, rows: seq<Notification>, limit: nat,
                                 orders: seq<seq<Notification>>, cases: seq<map<Id, NoShowCase>>)
    requires limit >= 1 && IsOrder(rows, InboxOf(table, user)) && NoTieAcrossPages(rows, limit)
    requires Queried(orders, InboxOf(table, user), limit) && |cases| == |orders|
    ensures forall n :: n in table && InInbox(n, user) ==> ShownOnce(orders, limit, n)
    ensures forall p :: 0 <= p < |orders| ==>
              Listing(orders[p], p + 1, limit, cases[p]) == RenderAll(Page(orders[p], p + 1, limit), cases[p])
  {
    PagingIsExactIff(table, user, rows, limit);
    forall p | 0 <= p < |orders|
      ensures Listing(orders[p], p + 1, limit, cases[p]) == RenderAll(Page(orders[p], p + 1, limit), cases[p])
    {
      BatchIsLookup(Page(orders[p], p + 1, limit), cases[p]);
    }
  }
}
