/** The allowed-hours window of a restricted zone, in Vietnamese wall-clock minutes. */
module RestrictedHours {
  import opened Options

  const DAY: nat := 1440

  const MS_PER_MINUTE: nat := 60000

  /** Vietnam is seven hours ahead of UTC and keeps no summer time. */
  const VN_OFFSET: nat := 420

  type MinuteOfDay = m: nat | m < DAY witness 0

  /** `allowFrom` and `allowTo` as minutes of the day; None stands for missing or empty. */
  datatype Window = Window(allowFrom: Option<MinuteOfDay>, allowTo: Option<MinuteOfDay>)

  /** `instant` is in milliseconds since the epoch, before it as well. */
  function VnMinutesOfDay(instant: int): MinuteOfDay {
    (instant / MS_PER_MINUTE + VN_OFFSET) % DAY
  }

  /** Two branches, one for windows that run past midnight. */
  predicate IsWithin(from: MinuteOfDay, to: MinuteOfDay, current: MinuteOfDay) {
    if from <= to then current >= from && current <= to
    else current >= from || current <= to
  }

  predicate IsOutsideAllowedHours(hours: Option<Window>, instant: int) {
    if hours.None? || hours.value.allowFrom.None? || hours.value.allowTo.None? then true
    else !IsWithin(hours.value.allowFrom.value, hours.value.allowTo.value, VnMinutesOfDay(instant))
  }

  /** Minutes from `from` forward to `to` around the clock. */
  function Ahead(from: int, to: int): MinuteOfDay {
    (to - from) % DAY
  }

  /** The two branches are one test on the circle. */
  lemma WithinIsCyclic(from: MinuteOfDay, to: MinuteOfDay, current: MinuteOfDay)
    ensures IsWithin(from, to, current) <==> Ahead(from, current) <= Ahead(from, to)
  {
    assert Ahead(from, current) == if from <= current then current - from else current - from + DAY;
    assert Ahead(from, to) == if from <= to then to - from else to - from + DAY;
  }

  function Turn(m: MinuteOfDay, shift: int): MinuteOfDay {
    (m + shift) % DAY
  }

  lemma TurnKeepsDistance(from: MinuteOfDay, to: MinuteOfDay, shift: int)
    ensures Ahead(Turn(from, shift), Turn(to, shift)) == Ahead(from, to)
  {
    var r := shift % DAY;
    assert shift == DAY * (shift / DAY) + r;
    TurnBy(from, shift / DAY, r);
    TurnBy(to, shift / DAY, r);
  }

  lemma TurnBy(m: MinuteOfDay, q: int, r: MinuteOfDay)
    ensures Turn(m, DAY * q + r) == if m + r < DAY then m + r else m + r - DAY
  {
    AddDays(m + r, q);
  }

  lemma AddDays(x: int, q: int)
    ensures (x + DAY * q) % DAY == x % DAY
  {
    var d, m := x / DAY, x % DAY;
    assert x + DAY * q == DAY * (d + q) + m;
  }

  /** An instant at h:m UTC, of any day before or after the epoch, is at minute 60h + m + 420 of
      the Vietnamese day, counted around the clock. */
  lemma MinuteOfInstant(day: int, h: nat, m: nat, ms: nat)
    requires h < 24 && m < 60 && ms < 60_000
    ensures VnMinutesOfDay(((day * 24 + h) * 60 + m) * 60_000 + ms) == (60 * h + m + 420) % 1440
  {
    var minute := (day * 24 + h) * 60 + m;
    assert (minute * 60_000 + ms) / 60_000 == minute;
    assert minute + 420 == 60 * h + m + 420 + 1440 * day;
    AddDays(60 * h + m + 420, day);
  }

  /** The whole test for an instant at h:m UTC: outside exactly if the clock has moved further from
      the opening than the closing is. Both bounds themselves are inside. */
  lemma OutsideAt(from: MinuteOfDay, to: MinuteOfDay, day: int, h: nat, m: nat, ms: nat)
    requires h < 24 && m < 60 && ms < 60_000
    ensures IsOutsideAllowedHours(Some(Window(Some(from), Some(to))), ((day * 24 + h) * 60 + m) * 60_000 + ms)
        <==> (60 * h + m + 420 - from) % 1440 > (to - from) % 1440
  {
    var x := 60 * h + m + 420;
    var current := x % 1440;
    MinuteOfInstant(day, h, m, ms);
    WithinIsCyclic(from, to, current);
    assert x - from == current - from + 1440 * (x / 1440);
    AddDays(current - from, x / 1440);
  }

  /** Moving the window and the clock together changes nothing. */
  lemma WithinIsRotationInvariant(from: MinuteOfDay, to: MinuteOfDay, current: MinuteOfDay, shift: int)
    ensures IsWithin(Turn(from, shift), Turn(to, shift), Turn(current, shift)) <==> IsWithin(from, to, current)
  {
    WithinIsCyclic(from, to, current);
    WithinIsCyclic(Turn(from, shift), Turn(to, shift), Turn(current, shift));
    TurnKeepsDistance(from, to, shift);
    TurnKeepsDistance(from, current, shift);
  }

  // ---- How much time is outside ----

  /** How many of the `n` minutes from minute `start` of the epoch are outside. */
  function OutsideMinutes(hours: Option<Window>, start: int, n: nat): nat {
    if n == 0 then 0
    else OutsideMinutes(hours, start, n - 1)
         + if IsOutsideAllowedHours(hours, (start + n - 1) * MS_PER_MINUTE) then 1 else 0
  }

  /** A missing bound fails closed, at every instant. */
  lemma MissingBoundIsAlwaysOutside(hours: Option<Window>, start: int, n: nat)
    requires hours.None? || hours.value.allowFrom.None? || hours.value.allowTo.None?
    ensures OutsideMinutes(hours, start, n) == n
  {}

  lemma {:induction false} OutsideSplits(hours: Option<Window>, start: int, n: nat, m: nat)
    ensures OutsideMinutes(hours, start, n + m) == OutsideMinutes(hours, start, n) + OutsideMinutes(hours, start + n, m)
  {
    if m > 0 {
      OutsideSplits(hours, start, n, m - 1);
    }
  }

  lemma MinuteAt(minute: int)
    ensures VnMinutesOfDay(minute * MS_PER_MINUTE) == (minute + VN_OFFSET) % DAY
  {
    assert minute * MS_PER_MINUTE / MS_PER_MINUTE == minute;
  }

  lemma SameTimeNextDay(hours: Option<Window>, minute: int)
    ensures IsOutsideAllowedHours(hours, (minute + DAY) * MS_PER_MINUTE)
        <==> IsOutsideAllowedHours(hours, minute * MS_PER_MINUTE)
  {
    MinuteAt(minute);
    MinuteAt(minute + DAY);
    AddDays(minute + VN_OFFSET, 1);
  }

  /** Any stretch of one day holds the same number of outside minutes. */
  lemma SlideOne(hours: Option<Window>, start: int)
    ensures OutsideMinutes(hours, start + 1, DAY) == OutsideMinutes(hours, start, DAY)
  {
    OutsideSplits(hours, start, 1, DAY - 1);
    OutsideSplits(hours, start + 1, DAY - 1, 1);
    SameTimeNextDay(hours, start);
    assert OutsideMinutes(hours, start, 1) == OutsideMinutes(hours, start, 0)
        + if IsOutsideAllowedHours(hours, start * MS_PER_MINUTE) then 1 else 0;
    assert OutsideMinutes(hours, start + DAY, 1) == OutsideMinutes(hours, start + DAY, 0)
        + if IsOutsideAllowedHours(hours, (start + DAY) * MS_PER_MINUTE) then 1 else 0;
  }

  lemma {:induction false} Slide(hours: Option<Window>, start: int, shift: nat)
    ensures OutsideMinutes(hours, start + shift, DAY) == OutsideMinutes(hours, start, DAY)
  {
    if shift > 0 {
      Slide(hours, start, shift - 1);
      SlideOne(hours, start + shift - 1);
    }
  }

  /** From the minute the window opens, the first `width + 1` minutes are inside and the rest
      of the day is outside. */
  lemma {:induction false} FromOpening(from: MinuteOfDay, to: MinuteOfDay, start: int, n: nat)
    requires n <= DAY && (start + VN_OFFSET) % DAY == from
    ensures OutsideMinutes(Some(Window(Some(from), Some(to))), start, n)
         == if n <= Ahead(from, to) + 1 then 0 else n - Ahead(from, to) - 1
  {
    if n > 0 {
      FromOpening(from, to, start, n - 1);
      AheadOfOpening(from, to, start, n - 1);
    }
  }

  lemma AheadOfOpening(from: MinuteOfDay, to: MinuteOfDay, start: int, n: nat)
    requires n < DAY && (start + VN_OFFSET) % DAY == from
    ensures IsOutsideAllowedHours(Some(Window(Some(from), Some(to))), (start + n) * MS_PER_MINUTE)
        <==> n > Ahead(from, to)
  {
    var current := VnMinutesOfDay((start + n) * MS_PER_MINUTE);
    MinuteAt(start + n);
    WithinIsCyclic(from, to, current);
    AddDays(from + n, (start + VN_OFFSET) / DAY);
    assert current == (from + n) % DAY;
    assert Ahead(from, current) == n;
  }

  lemma OneDay(from: MinuteOfDay, to: MinuteOfDay, start: int)
    ensures OutsideMinutes(Some(Window(Some(from), Some(to))), start, DAY) == DAY - Ahead(from, to) - 1
  {
    var shift := Ahead(start + VN_OFFSET, from);
    OpensAt(start, from);
    Slide(Some(Window(Some(from), Some(to))), start, shift);
    FromOpening(from, to, start + shift, DAY);
  }

  /** Over any `days` whole days, wherever they start, the time outside is exact. */
  lemma {:induction false} OutsideOverWholeDays(from: MinuteOfDay, to: MinuteOfDay, start: int, days: nat)
    ensures OutsideMinutes(Some(Window(Some(from), Some(to))), start, days * DAY)
         == days * (DAY - Ahead(from, to) - 1)
  {
    if days > 0 {
      var before: nat := (days - 1) * DAY;
      assert days * DAY == before + DAY;
      OutsideOverWholeDays(from, to, start, days - 1);
      OutsideSplits(Some(Window(Some(from), Some(to))), start, before, DAY);
      OneDay(from, to, start + before);
      var x := DAY - Ahead(from, to) - 1;
      assert days * x == (days - 1) * x + x;
    }
  }

  lemma OpensAt(day: int, from: MinuteOfDay)
    ensures (day + Ahead(day + VN_OFFSET, from) + VN_OFFSET) % DAY == from
  {
    var x := day + VN_OFFSET;
    var q := (from - x) / DAY;
    assert from - x == DAY * q + Ahead(x, from);
    AddDays(x + Ahead(x, from), q);
  }
}
