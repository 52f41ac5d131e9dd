/** check-duplicate-room-bookings.ts, and the conflict search of meetings.service.ts it explains. */
module BookingAudit {
  import opened Options

  datatype Status = Pending | Approved | Active | Completed | Cancelled | Released

  /** Times are milliseconds; ids are compared as the database compares them. */
  datatype Booking = Booking(id: int, meeting: string, room: string, status: Status, start: int, end: int)

  type Rows = set<Booking>

  /** `id` is the primary key. */
  predicate Keyed(rows: Rows) {
    forall a, b :: a in rows && b in rows && a.id == b.id ==> a == b
  }

  predicate IsLive(b: Booking) {
    b.status in {Pending, Approved, Active}
  }

  predicate IsBlocking(b: Booking) {
    b.status in {Approved, Active}
  }

  function LiveRows(rows: Rows, meeting: string): Rows {
    set b | b in rows && b.meeting == meeting && IsLive(b)
  }

  predicate Overlaps(b: Booking, start: int, end: int) {
    b.start < end && b.end > start
  }

  // ---- The search that moving a meeting makes ----

  /** What `findOne` without an order may answer: any live row of the meeting, if there is one. */
  predicate MayFind(rows: Rows, meeting: string, found: Option<Booking>) {
    match found
    case None => LiveRows(rows, meeting) == {}
    case Some(b) => b in LiveRows(rows, meeting)
  }

  const MIN_DURATION: nat := 15 * 60_000
  const MAX_DURATION: nat := 480 * 60_000

  /** The windows a meeting may be moved to: in the future, 15 minutes to 8 hours long. */
  predicate Permitted(now: int, start: int, end: int) {
    now < start && MIN_DURATION <= end - start <= MAX_DURATION
  }

  /** The bookings that block moving the meeting to `room` from `start` to `end`. */
  function FoundConflicts(rows: Rows, found: Option<Booking>, room: string, start: int, end: int, buffer: nat): Rows {
    set b | b in rows && b.room == room && IsBlocking(b) && !(found.Some? && b.id == found.value.id) &&
            Overlaps(b, start - buffer, end + buffer)
  }

  /** What should block it: the blocking bookings of other meetings. */
  function OthersConflicts(rows: Rows, meeting: string, room: string, start: int, end: int, buffer: nat): Rows {
    set b | b in rows && b.room == room && IsBlocking(b) && b.meeting != meeting &&
            Overlaps(b, start - buffer, end + buffer)
  }

  /** Whatever row is found and wherever the meeting may be moved, only other meetings block it. */
  ghost predicate NeverBlocksItself(rows: Rows, meeting: string, now: int, buffer: nat) {
    forall found, room, start, end :: MayFind(rows, meeting, found) && Permitted(now, start, end) ==>
      FoundConflicts(rows, found, room, start, end, buffer) == OthersConflicts(rows, meeting, room, start, end, buffer)
  }

  /** Some permitted window, widened by the buffer, reaches the booking. For a booking that ends
      after it starts this only says that it is not over, buffer included. */
  predicate IsWithinReach(b: Booking, now: int, buffer: nat) {
    now + 1 < b.end + buffer && b.start - b.end < MAX_DURATION + 2 * buffer - 1
  }

  lemma IsWithinReachIff(b: Booking, now: int, buffer: nat)
    ensures IsWithinReach(b, now, buffer)
        <==> exists start, end :: Permitted(now, start, end) && Overlaps(b, start - buffer, end + buffer)
    ensures forall start, end :: Permitted(now, start, end) <==>
              now < start && 15 * 60_000 <= end - start <= 8 * 60 * 60_000
    ensures b.start < b.end ==> (IsWithinReach(b, now, buffer) <==> now + 1 < b.end + buffer)
  {
    if IsWithinReach(b, now, buffer) {
      var start := b.end + buffer - 1;
      assert Permitted(now, start, start + MAX_DURATION) && Overlaps(b, start - buffer, start + MAX_DURATION + buffer);
    }
  }

  predicate Blocks(b: Booking, now: int, buffer: nat) {
    IsBlocking(b) && IsWithinReach(b, now, buffer)
  }

  /** Several live rows of which at least one blocks. */
  predicate IsAtRisk(rows: Rows, meeting: string, now: int, buffer: nat) {
    |LiveRows(rows, meeting)| > 1 && exists b :: b in LiveRows(rows, meeting) && Blocks(b, now, buffer)
  }

  lemma SingleRow(s: Rows, a: Booking, b: Booking)
    requires |s| <= 1 && a in s && b in s
    ensures a == b
  {
    assert |s - {a}| == 0;
    assert s == {a} + (s - {a});
  }

  lemma SecondRow(s: Rows, a: Booking) returns (b: Booking)
    requires |s| > 1 && a in s
    ensures b in s && b != a
  {
    assert |s - {a}| >= 1;
    b :| b in s - {a};
  }

  lemma SafeNeverBlocks(rows: Rows, meeting: string, now: int, buffer: nat, found: Option<Booking>, b: Booking)
    requires Keyed(rows) && MayFind(rows, meeting, found) && !IsAtRisk(rows, meeting, now, buffer)
    requires b in rows && Blocks(b, now, buffer)
    ensures b.meeting == meeting <==> found.Some? && b.id == found.value.id
  {
    if b.meeting == meeting {
      assert b in LiveRows(rows, meeting);
      SingleRow(LiveRows(rows, meeting), b, found.value);
    }
  }

  lemma RiskyBlocks(rows: Rows, meeting: string, now: int, buffer: nat)
    requires Keyed(rows) && IsAtRisk(rows, meeting, now, buffer)
    ensures !NeverBlocksItself(rows, meeting, now, buffer)
  {
    var left :| left in LiveRows(rows, meeting) && Blocks(left, now, buffer);
    var first := SecondRow(LiveRows(rows, meeting), left);
    IsWithinReachIff(left, now, buffer);
    var start, end :| Permitted(now, start, end) && Overlaps(left, start - buffer, end + buffer);
    assert MayFind(rows, meeting, Some(first));
    assert left in FoundConflicts(rows, Some(first), left.room, start, end, buffer);
    assert left !in OthersConflicts(rows, meeting, left.room, start, end, buffer);
  }

  /** A meeting can collide with its own booking if and only if it has several live rows and one
      of them is approved or active and not over yet. */
  lemma BlocksItselfIff(rows: Rows, meeting: string, now: int, buffer: nat)
    requires Keyed(rows)
    ensures NeverBlocksItself(rows, meeting, now, buffer) <==> !IsAtRisk(rows, meeting, now, buffer)
  {
    if IsAtRisk(rows, meeting, now, buffer) {
      RiskyBlocks(rows, meeting, now, buffer);
    }
    if !IsAtRisk(rows, meeting, now, buffer) {
      forall found, room, start, end | MayFind(rows, meeting, found) && Permitted(now, start, end)
        ensures FoundConflicts(rows, found, room, start, end, buffer)
                == OthersConflicts(rows, meeting, room, start, end, buffer)
      {
        forall b | b in rows && IsBlocking(b) && Overlaps(b, start - buffer, end + buffer)
          ensures b.meeting == meeting <==> found.Some? && b.id == found.value.id
        {
          IsWithinReachIff(b, now, buffer);
          SafeNeverBlocks(rows, meeting, now, buffer, found, b);
        }
      }
    }
  }

  // ---- Query 1: meetings with more than one live row ----

  function Duplicated(rows: Rows): set<string> {
    set b | b in rows && |LiveRows(rows, b.meeting)| > 1 :: b.meeting
  }

  lemma DuplicatedIff(rows: Rows, meeting: string)
    ensures meeting in Duplicated(rows) <==> |LiveRows(rows, meeting)| > 1
  {
    if |LiveRows(rows, meeting)| > 1 {
      var b :| b in LiveRows(rows, meeting);
      assert b in rows && b.meeting == meeting;
    }
  }

  /** The query reports every meeting that can block itself. What it reports beyond those are
      exactly the meetings whose live rows are all pending or over. */
  lemma DuplicatesExplainSelfConflicts(rows: Rows, meeting: string, now: int, buffer: nat)
    requires Keyed(rows)
    ensures !NeverBlocksItself(rows, meeting, now, buffer) ==> meeting in Duplicated(rows)
    ensures meeting in Duplicated(rows) && NeverBlocksItself(rows, meeting, now, buffer) <==>
            |LiveRows(rows, meeting)| > 1 &&
            forall b :: b in LiveRows(rows, meeting) ==> b.status == Pending || !IsWithinReach(b, now, buffer)
  {
    BlocksItselfIff(rows, meeting, now, buffer);
    DuplicatedIff(rows, meeting);
    assert forall b :: b in LiveRows(rows, meeting) ==> (b.status == Pending <==> !IsBlocking(b));
  }

  /** Every meeting with several live rows has one that blocks. */
  ghost predicate NoIdleDuplicates(rows: Rows, now: int, buffer: nat) {
    forall meeting :: |LiveRows(rows, meeting)| > 1 ==>
      exists b :: b in LiveRows(rows, meeting) && Blocks(b, now, buffer)
  }

  /** The report lists exactly the meetings that can block themselves if and only if no meeting
      has several live rows that are all pending or over. An empty report always means that no
      meeting can block itself; a report on a table where none can is empty under the same
      condition. */
  lemma ReportIsExactIff(rows: Rows, now: int, buffer: nat)
    requires Keyed(rows)
    ensures (forall meeting :: meeting in Duplicated(rows) <==> !NeverBlocksItself(rows, meeting, now, buffer))
            <==> NoIdleDuplicates(rows, now, buffer)
    ensures Duplicated(rows) == {} ==> forall meeting :: NeverBlocksItself(rows, meeting, now, buffer)
    ensures (forall meeting :: NeverBlocksItself(rows, meeting, now, buffer)) ==>
              (Duplicated(rows) == {} <==> NoIdleDuplicates(rows, now, buffer))
  {
    forall meeting
      ensures !NeverBlocksItself(rows, meeting, now, buffer) <==> IsAtRisk(rows, meeting, now, buffer)
      ensures meeting in Duplicated(rows) <==> |LiveRows(rows, meeting)| > 1
    {
      BlocksItselfIff(rows, meeting, now, buffer);
      DuplicatedIff(rows, meeting);
    }
  }

  /** Two pending rows of one meeting: reported, yet harmless. */
  lemma PendingDuplicatesAreHarmless() returns (rows: Rows)
    ensures Keyed(rows) && Duplicated(rows) != {}
    ensures forall meeting, now, buffer :: NeverBlocksItself(rows, meeting, now, buffer)
  {
    var one := Booking(1, "weekly", "A1", Pending, 0, 60);
    var two := Booking(2, "weekly", "A1", Pending, 60, 120);
    rows := {one, two};
    assert LiveRows(rows, "weekly") == rows;
    assert |rows| == 2;
    DuplicatedIff(rows, "weekly");
    forall meeting, now, buffer ensures NeverBlocksItself(rows, meeting, now, buffer) {
      BlocksItselfIff(rows, meeting, now, buffer);
    }
  }

  // ---- Query 2: pairs of live bookings of different meetings in one room ----

  predicate Joined(a: Booking, b: Booking) {
    && a.room == b.room && a.meeting != b.meeting && a.id < b.id
    && IsLive(a) && IsLive(b)
    && a.start < b.end && a.end > b.start
  }

  function DoubleBookings(rows: Rows): set<(Booking, Booking)> {
    set a, b | a in rows && b in rows && Joined(a, b) :: (a, b)
  }

  predicate Holds(b: Booking, room: string, instant: int) {
    IsLive(b) && b.room == room && b.start <= instant < b.end
  }

  /** Live bookings of different meetings that hold one room at one instant. */
  ghost predicate Collide(a: Booking, b: Booking) {
    a.meeting != b.meeting && exists instant :: Holds(a, a.room, instant) && Holds(b, a.room, instant)
  }

  predicate Proper(rows: Rows) {
    forall b :: b in rows ==> b.start < b.end
  }

  lemma CollideIff(a: Booking, b: Booking)
    requires a.start < a.end && b.start < b.end && a.id != b.id
    ensures Collide(a, b) <==> Joined(a, b) || Joined(b, a)
  {
    if Joined(a, b) || Joined(b, a) {
      var instant := if a.start < b.start then b.start else a.start;
      assert Holds(a, a.room, instant) && Holds(b, a.room, instant);
    }
  }

  /** Each colliding pair is listed once, in one of its two orders, and nothing else is. */
  lemma CollisionsAreListedOnce(rows: Rows, a: Booking, b: Booking)
    requires Keyed(rows) && Proper(rows) && a in rows && b in rows
    ensures (a, b) in DoubleBookings(rows) || (b, a) in DoubleBookings(rows) <==> Collide(a, b)
    ensures !((a, b) in DoubleBookings(rows) && (b, a) in DoubleBookings(rows))
  {
    if a.id != b.id {
      CollideIff(a, b);
    }
  }

  /** The list is empty if and only if no room is ever held by two meetings at once. */
  lemma NoDoubleBookingIff(rows: Rows)
    requires Keyed(rows) && Proper(rows)
    ensures DoubleBookings(rows) == {} <==>
            forall room, instant, a, b :: a in rows && b in rows && Holds(a, room, instant) && Holds(b, room, instant) ==>
              a.meeting == b.meeting
  {
    if DoubleBookings(rows) == {} {
      forall room, instant, a, b | a in rows && b in rows && Holds(a, room, instant) && Holds(b, room, instant)
        ensures a.meeting == b.meeting
      {
        CollisionsAreListedOnce(rows, a, b);
      }
    } else {
      var pair :| pair in DoubleBookings(rows);
      CollideIff(pair.0, pair.1);
    }
  }

  /** A booking that ends no later than it starts can be listed without sharing an instant. */
  lemma EmptyIntervalIsListed() returns (a: Booking, b: Booking)
    ensures Keyed({a, b}) && (a, b) in DoubleBookings({a, b}) && !Collide(a, b)
  {
    a, b := Booking(1, "weekly", "A1", Active, 30, 30), Booking(2, "review", "A1", Active, 0, 60);
    assert Joined(a, b);
  }
}
