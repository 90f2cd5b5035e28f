/**
 * Days and months of a time zone whose clock changes
 * (src/core/utils/zonedMonth.js). Instants and offsets are in milliseconds.
 */
module ZonedTime {

  const DAY: int := 86400000

  // --------------------------------------------------------- the calendar

  /** Days from 1 January 1970 to 1 January of the year (ECMAScript's DayFromYear). */
  function DayFromYear(year: int): int {
    365 * (year - 1970) + (year - 1969) / 4 - (year - 1901) / 100 + (year - 1601) / 400
  }

  predicate Leap(year: int) { year % 4 == 0 && (year % 100 != 0 || year % 400 == 0) }

  function DaysIn(year: int, monthIndex: nat): nat
    requires monthIndex < 12
  {
    if monthIndex == 1 then (if Leap(year) then 29 else 28)
    else if monthIndex in [3, 5, 8, 10] then 30 else 31
  }

  function DaysBefore(year: int, monthIndex: nat): nat
    requires monthIndex <= 12
  {
    if monthIndex == 0 then 0 else DaysBefore(year, monthIndex - 1) + DaysIn(year, monthIndex - 1)
  }

  /** The day `Date.UTC(year, monthIndex, day)` names, with months counted 12 * year + monthIndex: they overflow into years. */
  function DayNumber(month: int, day: int): int {
    DayFromYear(month / 12) + DaysBefore(month / 12, month % 12) + day - 1
  }

  lemma LeapYears(year: int)
    ensures DayFromYear(year + 1) == DayFromYear(year) + if Leap(year) then 366 else 365
  {
    QuotientSteps(year - 1969, 4);
    QuotientSteps(year - 1901, 100);
    QuotientSteps(year - 1601, 400);
  }

  lemma QuotientSteps(x: int, n: int)
    requires n == 4 || n == 100 || n == 400
    ensures (x + 1) / n == x / n + if (x + 1) % n == 0 then 1 else 0
  {
    if n == 4 {
      assert (x + 1) / 4 == x / 4 + if (x + 1) % 4 == 0 then 1 else 0;
    } else if n == 100 {
      assert (x + 1) / 100 == x / 100 + if (x + 1) % 100 == 0 then 1 else 0;
    }
  }

  lemma MonthsFollow(month: int)
    ensures DayNumber(month + 1, 1) == DayNumber(month, 1) + DaysIn(month / 12, month % 12)
  {
    var year, k := month / 12, month % 12;
    if k == 11 {
      assert (month + 1) / 12 == year + 1 && (month + 1) % 12 == 0;
      LeapYears(year);
      YearLength(year);
    } else {
      assert (month + 1) / 12 == year && (month + 1) % 12 == k + 1;
    }
  }

  lemma YearLength(year: int)
    ensures DaysBefore(year, 12) == if Leap(year) then 366 else 365
  {
    assert DaysBefore(year, 1) == 31;
    assert DaysBefore(year, 2) == 31 + DaysIn(year, 1);
    assert DaysBefore(year, 4) == DaysBefore(year, 2) + 61;
    assert DaysBefore(year, 6) == DaysBefore(year, 4) + 61;
    assert DaysBefore(year, 8) == DaysBefore(year, 6) + 62;
    assert DaysBefore(year, 10) == DaysBefore(year, 8) + 61;
    assert DaysBefore(year, 12) == DaysBefore(year, 10) + 61;
  }

  /** A day as `Intl` reads it off the clock: months count from 1. */
  datatype Date = Date(year: int, month: int, day: int)

  /** How long each month is but February of a leap year. */
  const LENGTHS: seq<int> := [31, 28, 31, 30, 31, 30, 31, 31, 30, 31, 30, 31]

  function LastDay(year: int, month: int): int
    requires 1 <= month <= 12
  {
    if month == 2 && (year % 400 == 0 || (year % 4 == 0 && year % 100 != 0)) then 29 else LENGTHS[month - 1]
  }

  predicate IsDate(d: Date) { 1 <= d.month <= 12 && 1 <= d.day <= LastDay(d.year, d.month) }

  function NextDay(d: Date): (n: Date)
    requires IsDate(d)
    ensures IsDate(n)
  {
    if d.day < LastDay(d.year, d.month) then d.(day := d.day + 1)
    else if d.month < 12 then Date(d.year, d.month + 1, 1)
    else Date(d.year + 1, 1, 1)
  }

  function DayBefore(d: Date): (b: Date)
    requires IsDate(d)
    ensures IsDate(b) && NextDay(b) == d
  {
    if d.day > 1 then d.(day := d.day - 1)
    else if d.month > 1 then Date(d.year, d.month - 1, LastDay(d.year, d.month - 1))
    else Date(d.year - 1, 12, 31)
  }

  /** The day so many days after 1 January 1970, counted one by one. */
  function DateOf(days: int): (d: Date)
    ensures IsDate(d)
    decreases if days < 0 then -days else days
  {
    if days == 0 then Date(1970, 1, 1)
    else if days > 0 then NextDay(DateOf(days - 1))
    else DayBefore(DateOf(days + 1))
  }

  /** What `Date.UTC` makes of a date, in days. */
  function UtcDay(d: Date): int { DayNumber(MonthIndex(d.year, d.month), d.day) }

  /** Months count from that of the year 0. */
  function MonthIndex(year: int, month: int): int { 12 * year + month - 1 }

  lemma MonthParts(year: int, month: int)
    requires 1 <= month <= 12
    ensures MonthIndex(year, month) / 12 == year && MonthIndex(year, month) % 12 == month - 1
    ensures DaysIn(year, month - 1) == LastDay(year, month)
  {
  }

  lemma DayInMonth(month: int, day: int)
    ensures DayNumber(month, day) == DayNumber(month, 1) + day - 1
  {
  }

  lemma MonthEnds(year: int, month: int)
    requires 1 <= month <= 12
    ensures DayNumber(MonthIndex(year, month) + 1, 1) == DayNumber(MonthIndex(year, month), LastDay(year, month)) + 1
  {
    MonthParts(year, month);
    MonthsFollow(MonthIndex(year, month));
    DayInMonth(MonthIndex(year, month), LastDay(year, month));
  }

  lemma DayFollows(month: int, day: int)
    ensures DayNumber(month, day + 1) == DayNumber(month, day) + 1
  {
  }

  /** `Date.UTC` counts the next day of the calendar one day later. */
  lemma NextDayIsOneMore(d: Date)
    requires IsDate(d)
    ensures UtcDay(NextDay(d)) == UtcDay(d) + 1
  {
    if d.day < LastDay(d.year, d.month) {
      DayFollows(MonthIndex(d.year, d.month), d.day);
    } else {
      MonthEnds(d.year, d.month);
      assert MonthIndex(NextDay(d).year, NextDay(d).month) == MonthIndex(d.year, d.month) + 1;
    }
  }

  lemma DateFollows(days: int)
    ensures DateOf(days + 1) == NextDay(DateOf(days))
  {
  }

  lemma {:induction false} CountsUp(f: int -> int, n: int)
    requires f(0) == 0 && forall k :: f(k + 1) == f(k) + 1
    ensures f(n) == n
    decreases if n < 0 then -n else n
  {
    if n > 0 {
      CountsUp(f, n - 1);
      assert f(n - 1 + 1) == f(n - 1) + 1;
    } else if n < 0 {
      CountsUp(f, n + 1);
      assert f(n + 1) == f(n) + 1;
    }
  }

  lemma FirstDayIsZero()
    ensures UtcDay(Date(1970, 1, 1)) == 0
  {
    assert MonthIndex(1970, 1) == 23640;
    assert 23640 / 12 == 1970 && 23640 % 12 == 0;
    assert DaysBefore(1970, 0) == 0 && DayFromYear(1970) == 0;
  }

  /** `Date.UTC` counts the days of the calendar, before 1970 and after. */
  lemma UtcCountsDays(days: int)
    ensures UtcDay(DateOf(days)) == days
  {
    FirstDayIsZero();
    forall k ensures UtcDay(DateOf(k + 1)) == UtcDay(DateOf(k)) + 1 {
      DateFollows(k);
      NextDayIsOneMore(DateOf(k));
    }
    CountsUp(n => UtcDay(DateOf(n)), days);
  }

  // ------------------------------------------------------------- the zone

  datatype Change = Change(at: int, offset: int)

  /** An offset to start from, and the changes since, in time order. */
  datatype Zone = Zone(base: int, changes: seq<Change>)

  function Before(z: Zone, i: nat): int
    requires i <= |z.changes|
  {
    if i == 0 then z.base else z.changes[i - 1].offset
  }

  predicate OffsetOk(offset: int) { -DAY < offset < DAY && offset % 1000 == 0 }

  predicate ChangeOk(z: Zone, i: nat)
    requires i < |z.changes|
  {
    && OffsetOk(z.changes[i].offset) && -DAY < z.changes[i].offset - Before(z, i) < DAY
    && (i > 0 ==> z.changes[i].at - z.changes[i - 1].at >= 3 * DAY)
  }

  /** Offsets of whole seconds and under a day, changes under a day and three days apart. */
  ghost predicate Valid(z: Zone) {
    OffsetOk(z.base) && forall i: nat {:trigger ChangeOk(z, i)} :: i < |z.changes| ==> ChangeOk(z, i)
  }

  lemma OffsetInRange(z: Zone, i: nat)
    requires Valid(z) && i <= |z.changes|
    ensures OffsetOk(Before(z, i))
  {
    if i > 0 { assert ChangeOk(z, i - 1); }
  }

  function OffsetAt(z: Zone, t: int): int
    decreases |z.changes|
  {
    if z.changes == [] then z.base
    else
      var last := |z.changes| - 1;
      if t >= z.changes[last].at then z.changes[last].offset else OffsetAt(z.(changes := z.changes[..last]), t)
  }

  /** What the clocks of the zone show, counted like an instant. */
  function Local(z: Zone, t: int): int { t + OffsetAt(z, t) }

  /** The date the clocks show: the first three of `zonedParts`. */
  function Parts(z: Zone, t: int): Date { DateOf(DayOf(z, t)) }

  /** `offsetMs`: the clock read in whole seconds, less the instant cut to whole seconds. */
  function OffsetMs(z: Zone, t: int): int { Local(z, t) / 1000 * 1000 - t / 1000 * 1000 }

  function ZonedMidnight(z: Zone, wall: int): int {
    var guess := wall - OffsetMs(z, wall);
    wall - OffsetMs(z, guess)
  }

  /** DAY is written out where it multiplies or divides, which keeps the arithmetic linear for the verifier. */
  function Wall(day: int): int { day * 86400000 }

  /** The day `t` falls on in the zone. */
  function DayOf(z: Zone, t: int): int { Local(z, t) / 86400000 }

  function StartOf(z: Zone, day: int): int { ZonedMidnight(z, Wall(day)) }

  /** `zonedMidnight` of a date, with months counted 12 * year + monthIndex. */
  function MidnightOf(z: Zone, month: int, day: int): int { ZonedMidnight(z, Wall(DayNumber(month, day))) }

  datatype Window = Window(start: int, end: int)

  predicate Holds(w: Window, t: int) { w.start <= t < w.end }

  function WindowOf(z: Zone, p: Date): Window {
    Window(MidnightOf(z, MonthIndex(p.year, p.month), p.day), MidnightOf(z, MonthIndex(p.year, p.month), p.day + 1))
  }

  function DayWindow(z: Zone, now: int): Window { WindowOf(z, Parts(z, now)) }

  lemma WindowOfIs(z: Zone, p: Date, days: int)
    requires UtcDay(p) == days
    ensures WindowOf(z, p) == Window(StartOf(z, days), StartOf(z, days + 1))
  {
    DayFollows(MonthIndex(p.year, p.month), p.day);
  }

  lemma DayWindowIs(z: Zone, now: int)
    ensures DayWindow(z, now) == Window(StartOf(z, DayOf(z, now)), StartOf(z, DayOf(z, now) + 1))
  {
    UtcCountsDays(DayOf(z, now));
    WindowOfIs(z, Parts(z, now), DayOf(z, now));
  }

  // ------------------------------------------------- offsets near a midnight

  lemma {:induction false} OffsetIs(z: Zone, t: int, i: nat)
    requires Valid(z) && i <= |z.changes|
    requires (i > 0 ==> z.changes[i - 1].at <= t) && (i < |z.changes| ==> t < z.changes[i].at)
    ensures OffsetAt(z, t) == Before(z, i)
    decreases |z.changes|
  {
    if i < |z.changes| {
      var init := z.(changes := z.changes[..|z.changes| - 1]);
      InOrder(z, i, |z.changes| - 1);
      forall k: nat | k < |init.changes| ensures ChangeOk(init, k) {
        assert ChangeOk(z, k);
      }
      OffsetIs(init, t, i);
    }
  }

  lemma {:induction false} InOrder(z: Zone, i: nat, j: nat)
    requires Valid(z) && i <= j < |z.changes|
    ensures z.changes[i].at <= z.changes[j].at
    decreases j
  {
    if i < j {
      assert ChangeOk(z, j);
      InOrder(z, i, j - 1);
    }
  }

  /** Within a day of `wall` the offset is `a` until `at` and `b` from then on. */
  ghost predicate Around(z: Zone, wall: int, at: int, a: int, b: int) {
    && (forall t :: wall - DAY <= t <= wall + DAY ==> OffsetAt(z, t) == if t < at then a else b)
    && -DAY < a < DAY && -DAY < b < DAY && -DAY < b - a < DAY
  }

  lemma AroundChange(z: Zone, wall: int, i: nat)
    requires Valid(z) && i < |z.changes| && wall - DAY < z.changes[i].at <= wall + DAY
    ensures Around(z, wall, z.changes[i].at, Before(z, i), Before(z, i + 1))
  {
    assert ChangeOk(z, i);
    assert i > 0 ==> ChangeOk(z, i - 1);
    assert i + 1 < |z.changes| ==> ChangeOk(z, i + 1);
    forall t | wall - DAY <= t <= wall + DAY
      ensures OffsetAt(z, t) == if t < z.changes[i].at then Before(z, i) else Before(z, i + 1)
    {
      OffsetIs(z, t, if t < z.changes[i].at then i else i + 1);
    }
  }

  lemma AroundNone(z: Zone, wall: int, i: nat)
    requires Valid(z) && i <= |z.changes|
    requires (i > 0 ==> z.changes[i - 1].at <= wall - DAY) && (i < |z.changes| ==> wall + DAY < z.changes[i].at)
    ensures Around(z, wall, wall, Before(z, i), Before(z, i))
  {
    OffsetInRange(z, i);
    forall t | wall - DAY <= t <= wall + DAY ensures OffsetAt(z, t) == Before(z, i) {
      OffsetIs(z, t, i);
    }
  }

  /** How many changes have been made by `t`. */
  function MadeBy(z: Zone, t: int): (i: nat)
    ensures i <= |z.changes| && (i > 0 ==> z.changes[i - 1].at <= t) && (i < |z.changes| ==> t < z.changes[i].at)
    decreases |z.changes|
  {
    if z.changes == [] then 0
    else
      var last := |z.changes| - 1;
      if t >= z.changes[last].at then last + 1 else MadeBy(z.(changes := z.changes[..last]), t)
  }

  /** The clock in whole seconds is what `Date.UTC` makes of the date and the time of day it shows. */
  lemma ClockThroughUtc(z: Zone, t: int)
    ensures Wall(UtcDay(Parts(z, t))) + Local(z, t) % 86400000 / 1000 * 1000 == Local(z, t) / 1000 * 1000
  {
    UtcCountsDays(DayOf(z, t));
    WholeSeconds(Local(z, t));
  }

  lemma WholeSeconds(clock: int)
    ensures Wall(clock / 86400000) + clock % 86400000 / 1000 * 1000 == clock / 1000 * 1000
  {
  }

  lemma OffsetMsIsOffset(z: Zone, t: int)
    requires Valid(z)
    ensures OffsetMs(z, t) == OffsetAt(z, t) && -DAY < OffsetAt(z, t) < DAY
  {
    OffsetIs(z, t, MadeBy(z, t));
    OffsetInRange(z, MadeBy(z, t));
  }

  /** The two steps of `zonedMidnight`, with at most one change near. */
  lemma MidnightNear(z: Zone, wall: int, at: int, a: int, b: int)
    requires Valid(z) && Around(z, wall, at, a, b)
    ensures ZonedMidnight(z, wall) ==
      if wall < at then (if wall - a < at then wall - a else wall - b)
      else if wall - b < at then wall - a else wall - b
  {
    OffsetMsIsOffset(z, wall);
    OffsetMsIsOffset(z, wall - OffsetAt(z, wall));
  }

  // ----------------------------------------- when midnight is well placed

  /** The clock skips or repeats this midnight, and the two steps still find where the day starts. */
  predicate GoodAt(at: int, a: int, b: int, wall: int) {
    && (at + a <= wall < at + b ==> wall == at + a && a >= 0)
    && (at + b <= wall < at + a ==> wall == at + b && b < 0)
  }

  ghost predicate GoodDay(z: Zone, day: int) {
    forall i: nat :: i < |z.changes| ==> GoodChange(z, i, day)
  }

  predicate GoodChange(z: Zone, i: nat, day: int)
    requires i < |z.changes|
  {
    GoodAt(z.changes[i].at, Before(z, i), Before(z, i + 1), Wall(day))
  }

  /** `StartOf` splits time: before it the zone is on an earlier day, from it on it is not. */
  ghost predicate Splits(z: Zone, day: int) {
    forall now: int :: StartOf(z, day) <= now <==> Wall(day) <= Local(z, now)
  }

  lemma SplitsNear(z: Zone, wall: int, at: int, a: int, b: int, now: int)
    requires Valid(z) && Around(z, wall, at, a, b) && GoodAt(at, a, b, wall)
    ensures ZonedMidnight(z, wall) <= now <==> wall <= Local(z, now)
  {
    MidnightNear(z, wall, at, a, b);
    OffsetMsIsOffset(z, now);
  }

  lemma GoodDaySplits(z: Zone, day: int)
    requires Valid(z) && GoodDay(z, day)
    ensures Splits(z, day)
  {
    var wall := Wall(day);
    var i := MadeBy(z, wall + DAY);
    forall now: int ensures StartOf(z, day) <= now <==> wall <= Local(z, now) {
      if i > 0 && z.changes[i - 1].at > wall - DAY {
        AroundChange(z, wall, i - 1);
        assert GoodChange(z, i - 1, day);
        SplitsNear(z, wall, z.changes[i - 1].at, Before(z, i - 1), Before(z, i), now);
      } else {
        AroundNone(z, wall, i);
        SplitsNear(z, wall, wall, Before(z, i), Before(z, i), now);
      }
    }
  }

  /** A badly placed midnight leaves an instant of the day before or after on the wrong side of it. */
  lemma BadMidnight(z: Zone, day: int, i: nat) returns (now: int)
    requires Valid(z) && i < |z.changes|
    requires !GoodChange(z, i, day)
    ensures if now < StartOf(z, day) then DayOf(z, now) == day else DayOf(z, now) == day - 1
  {
    var wall, at, a, b := Wall(day), z.changes[i].at, Before(z, i), Before(z, i + 1);
    assert ChangeOk(z, i);
    OffsetInRange(z, i);
    AroundChange(z, wall, i);
    MidnightNear(z, wall, at, a, b);
    var start := StartOf(z, day);
    now := if a < b then (if wall < at then at - 1 else at) else if start <= at - 1 then at else at - 1;
    assert -DAY <= Local(z, now) - wall < DAY && (Local(z, now) < wall <==> start <= now);
  }

  ghost predicate EveryDayHoldsItsInstants(z: Zone) {
    forall now: int :: Holds(DayWindow(z, now), now)
  }

  lemma DayOfIs(z: Zone, t: int, day: int)
    ensures DayOf(z, t) == day <==> Wall(day) <= Local(z, t) < Wall(day + 1)
  {
  }

  /**
   * `dayWindow(now)` contains `now`, for every `now`, exactly when no change of
   * the clock skips or repeats a midnight but in the two ways of `GoodAt`.
   */
  lemma DayWindowsHold(z: Zone)
    requires Valid(z)
    ensures EveryDayHoldsItsInstants(z) <==> forall day :: GoodDay(z, day)
  {
    if day: int :| !GoodDay(z, day) {
      var now := BadDay(z, day);
      DayWindowIs(z, now);
      assert !Holds(DayWindow(z, now), now);
    } else {
      forall now: int ensures Holds(DayWindow(z, now), now) {
        var day := DayOf(z, now);
        DayWindowIs(z, now);
        GoodDaySplits(z, day);
        GoodDaySplits(z, day + 1);
        DayOfIs(z, now, day);
      }
    }
  }

  lemma JumpUnderADay(z: Zone, t: int)
    requires Valid(z)
    ensures Local(z, t) - Local(z, t - 1) <= DAY
  {
    var i := MadeBy(z, t);
    OffsetIs(z, t, i);
    if i > 0 && z.changes[i - 1].at == t {
      assert ChangeOk(z, i - 1);
      assert i > 1 ==> ChangeOk(z, i - 2);
      OffsetIs(z, t - 1, i - 1);
    } else {
      OffsetIs(z, t - 1, i);
    }
  }

  lemma SpanTiles(z: Zone, first: int, next: int)
    requires Valid(z) && GoodDay(z, first) && GoodDay(z, next) && first < next
    ensures StartOf(z, first) < StartOf(z, next)
    ensures forall now: int :: Holds(Window(StartOf(z, first), StartOf(z, next)), now) <==> first <= DayOf(z, now) < next
  {
    GoodDaySplits(z, first);
    GoodDaySplits(z, next);
    forall now: int
      ensures (Wall(first) <= Local(z, now) <==> first <= DayOf(z, now)) && (Wall(next) <= Local(z, now) <==> next <= DayOf(z, now))
    {
      DayOfIs(z, now, DayOf(z, now));
    }
    JumpUnderADay(z, StartOf(z, next));
    assert StartOf(z, first) <= StartOf(z, next) - 1;
  }

  /** A day's window holds the instants of that day and no others, and days follow each other without gap or overlap. */
  lemma DaysTile(z: Zone, day: int)
    requires Valid(z) && GoodDay(z, day) && GoodDay(z, day + 1)
    ensures StartOf(z, day) < StartOf(z, day + 1)
    ensures forall now: int :: Holds(Window(StartOf(z, day), StartOf(z, day + 1)), now) <==> DayOf(z, now) == day
    ensures forall now: int :: DayOf(z, now) == day ==> DayWindow(z, now) == Window(StartOf(z, day), StartOf(z, day + 1))
  {
    SpanTiles(z, day, day + 1);
    forall now: int | DayOf(z, now) == day ensures DayWindow(z, now) == Window(StartOf(z, day), StartOf(z, day + 1)) {
      DayWindowIs(z, now);
    }
  }

  /** A day whose midnight the clock skips starts at the change itself. */
  lemma MissingMidnight(z: Zone, day: int, i: nat)
    requires Valid(z) && i < |z.changes| && GoodDay(z, day)
    requires z.changes[i].at + Before(z, i) <= Wall(day) < z.changes[i].at + Before(z, i + 1)
    ensures StartOf(z, day) == z.changes[i].at
    ensures forall t: int :: Local(z, t) != Wall(day)
  {
    var wall, at, a, b := Wall(day), z.changes[i].at, Before(z, i), Before(z, i + 1);
    assert ChangeOk(z, i);
    OffsetInRange(z, i);
    AroundChange(z, wall, i);
    MidnightNear(z, wall, at, a, b);
    assert GoodChange(z, i, day);
    forall t: int ensures Local(z, t) != wall {
      OffsetMsIsOffset(z, t);
    }
  }

  predicate IsMidnight(wall: int) { wall % 86400000 == 0 }

  /** The clock reads midnight, on an old offset that is not behind UTC, at the change. */
  predicate ChangeAtMidnight(z: Zone, i: nat)
    requires i < |z.changes|
  {
    0 <= Before(z, i) && IsMidnight(z.changes[i].at + Before(z, i))
  }

  ghost predicate ChangesAtMidnight(z: Zone) {
    forall i: nat :: i < |z.changes| ==> ChangeAtMidnight(z, i)
  }

  /** Egypt's summer time is of this kind: its days are all right. */
  lemma MidnightChangesAreGood(z: Zone, day: int)
    requires Valid(z) && ChangesAtMidnight(z)
    ensures GoodDay(z, day)
  {
    forall i: nat | i < |z.changes| ensures GoodChange(z, i, day) {
      assert ChangeOk(z, i) && ChangeAtMidnight(z, i);
      MidnightChangeIsGood(z.changes[i].at, Before(z, i), Before(z, i + 1), day);
    }
  }

  lemma MidnightChangeIsGood(at: int, a: int, b: int, day: int)
    requires IsMidnight(at + a) && 0 <= a && -DAY < b - a < DAY
    ensures GoodAt(at, a, b, Wall(day))
  {
    var k := (at + a) / 86400000;
    assert at + a == Wall(k);
    if k < day { assert Wall(k + 1) <= Wall(day); }
    if day < k { assert Wall(day) <= Wall(k - 1); }
  }

  /** Three hours behind UTC, then two, from what was to be the midnight that ends day 9. */
  const AHEAD: Zone := Zone(-10800000, [Change(874800000, -7200000)])

  lemma DayTenStartsEarly()
    ensures Valid(AHEAD) && DayOf(AHEAD, 874799999) == 9 && StartOf(AHEAD, 10) == 871200000
  {
    assert ChangeOk(AHEAD, 0);
    AroundChange(AHEAD, Wall(10), 0);
    MidnightNear(AHEAD, Wall(10), 874800000, -10800000, -7200000);
    assert OffsetAt(AHEAD, 874799999) == -10800000;
  }

  /** Behind UTC a clock put forward at midnight breaks the day before: its window ends an hour early. */
  lemma ForwardAtMidnightBehindUtc()
    ensures Valid(AHEAD) && DayOf(AHEAD, 874799999) == 9 && DayWindow(AHEAD, 874799999).end == 874799999 + 1 - 3600000
    ensures !EveryDayHoldsItsInstants(AHEAD)
  {
    DayTenStartsEarly();
    DayWindowIs(AHEAD, 874799999);
    assert !Holds(DayWindow(AHEAD, 874799999), 874799999);
  }

  // -------------------------------------------------------------- months

  predicate InMonth(month: int, day: int) { DayNumber(month, 1) <= day < DayNumber(month + 1, 1) }

  /** The month `now` falls in, in the zone. */
  function MonthOf(z: Zone, now: int): int { MonthIndex(Parts(z, now).year, Parts(z, now).month) }

  function MonthWindowOf(z: Zone, p: Date): Window {
    Window(MidnightOf(z, MonthIndex(p.year, p.month), 1), MidnightOf(z, MonthIndex(p.year, p.month + 1), 1))
  }

  function MonthWindow(z: Zone, now: int): Window { MonthWindowOf(z, Parts(z, now)) }

  lemma {:induction false} MonthsInOrder(month: int, later: int)
    requires month <= later
    ensures DayNumber(month, 1) <= DayNumber(later, 1)
    decreases later - month
  {
    if month < later {
      MonthsFollow(later - 1);
      MonthsInOrder(month, later - 1);
    }
  }

  lemma MonthsDisjoint(day: int, m: int, n: int)
    requires InMonth(m, day) && InMonth(n, day)
    ensures m >= n
  {
    if m < n { MonthsInOrder(m + 1, n); }
  }

  lemma DayIsInItsMonth(month: int, day: int, last: int)
    requires 1 <= day <= last && DayNumber(month + 1, 1) == DayNumber(month, last) + 1
    ensures InMonth(month, DayNumber(month, day))
  {
    DayInMonth(month, day);
    DayInMonth(month, last);
  }

  /** The date's month is the one whose days include it. */
  lemma DateIsInItsMonth(d: Date)
    requires IsDate(d)
    ensures InMonth(MonthIndex(d.year, d.month), UtcDay(d))
  {
    MonthEnds(d.year, d.month);
    DayIsInItsMonth(MonthIndex(d.year, d.month), d.day, LastDay(d.year, d.month));
  }

  lemma DateInMonth(days: int)
    ensures InMonth(MonthIndex(DateOf(days).year, DateOf(days).month), days)
  {
    UtcCountsDays(days);
    DateIsInItsMonth(DateOf(days));
  }

  ghost predicate EveryMonthHoldsItsInstants(z: Zone) {
    forall now: int :: Holds(MonthWindow(z, now), now)
  }

  /** The days the months start on. */
  ghost predicate GoodMonth(z: Zone, month: int) { GoodDay(z, DayNumber(month, 1)) }

  /** The clocks show a date of the month. */
  predicate ShowsMonth(z: Zone, now: int, month: int) {
    Parts(z, now).year == month / 12 && Parts(z, now).month == month % 12 + 1
  }

  lemma ShowsMonthIs(z: Zone, now: int, month: int)
    ensures ShowsMonth(z, now, month) <==> DayNumber(month, 1) <= DayOf(z, now) < DayNumber(month + 1, 1)
    ensures ShowsMonth(z, now, month) <==> MonthOf(z, now) == month
  {
    MonthOfIs(z, now, month);
    MonthParts(Parts(z, now).year, Parts(z, now).month);
  }

  function MonthSpan(z: Zone, month: int): Window {
    Window(StartOf(z, DayNumber(month, 1)), StartOf(z, DayNumber(month + 1, 1)))
  }

  lemma MonthWindowIs(z: Zone, now: int)
    ensures MonthWindow(z, now) == MonthSpan(z, MonthOf(z, now))
  {
    MonthWindowOfIs(z, Parts(z, now));
  }

  lemma MonthWindowOfIs(z: Zone, p: Date)
    ensures MonthWindowOf(z, p) == MonthSpan(z, MonthIndex(p.year, p.month))
  {
    assert MonthIndex(p.year, p.month + 1) == MonthIndex(p.year, p.month) + 1;
  }

  /** A month's window holds the instants whose date is of that month and no others, and ends where the next begins. */
  lemma MonthsTile(z: Zone, month: int)
    requires Valid(z) && GoodMonth(z, month) && GoodMonth(z, month + 1)
    ensures MonthSpan(z, month).start < MonthSpan(z, month).end == MonthSpan(z, month + 1).start
    ensures forall now: int :: Holds(MonthSpan(z, month), now) <==> ShowsMonth(z, now, month)
    ensures forall now: int :: ShowsMonth(z, now, month) ==> MonthWindow(z, now) == MonthSpan(z, month)
  {
    FirstOfMonth(month);
    SpanTiles(z, DayNumber(month, 1), DayNumber(month + 1, 1));
    forall now: int
      ensures Holds(MonthSpan(z, month), now) <==> ShowsMonth(z, now, month)
      ensures ShowsMonth(z, now, month) ==> MonthWindow(z, now) == MonthSpan(z, month)
    {
      ShowsMonthIs(z, now, month);
      MonthWindowIs(z, now);
    }
  }

  lemma MonthOfIs(z: Zone, now: int, month: int)
    ensures MonthOf(z, now) == month <==> DayNumber(month, 1) <= DayOf(z, now) < DayNumber(month + 1, 1)
  {
    var day := DayOf(z, now);
    DateInMonth(day);
    if InMonth(month, day) {
      MonthsDisjoint(day, MonthOf(z, now), month);
      MonthsDisjoint(day, month, MonthOf(z, now));
    }
  }

  lemma BadMonth(z: Zone, month: int) returns (now: int)
    requires Valid(z) && !GoodMonth(z, month)
    ensures !Holds(MonthWindow(z, now), now)
  {
    var first := DayNumber(month, 1);
    now := BadDay(z, first);
    if now < StartOf(z, first) {
      MonthOfFirst(z, month, now);
    } else {
      MonthOfDayBefore(z, month, now);
    }
  }

  lemma BadDay(z: Zone, day: int) returns (now: int)
    requires Valid(z) && !GoodDay(z, day)
    ensures if now < StartOf(z, day) then DayOf(z, now) == day else DayOf(z, now) == day - 1
  {
    var i: nat :| i < |z.changes| && !GoodChange(z, i, day);
    now := BadMidnight(z, day, i);
  }

  lemma MonthOfFirst(z: Zone, month: int, now: int)
    requires DayOf(z, now) == DayNumber(month, 1)
    ensures MonthOf(z, now) == month
  {
    FirstOfMonth(month);
    MonthOfIs(z, now, month);
  }

  lemma MonthOfDayBefore(z: Zone, month: int, now: int)
    requires DayOf(z, now) == DayNumber(month, 1) - 1
    ensures MonthOf(z, now) + 1 == month
  {
    DayBeforeMonth(month);
    MonthOfIs(z, now, month - 1);
  }

  lemma DayBeforeMonth(month: int)
    ensures InMonth(month - 1, DayNumber(month, 1) - 1)
  {
    MonthsFollow(month - 1);
  }

  lemma FirstOfMonth(month: int)
    ensures InMonth(month, DayNumber(month, 1))
  {
    MonthsFollow(month);
  }

  lemma MonthHolds(z: Zone, now: int)
    requires Valid(z) && GoodMonth(z, MonthOf(z, now)) && GoodMonth(z, MonthOf(z, now) + 1)
    ensures Holds(MonthWindow(z, now), now)
  {
    MonthsTile(z, MonthOf(z, now));
    ShowsMonthIs(z, now, MonthOf(z, now));
  }

  ghost predicate EveryMonthGood(z: Zone) { forall month: int :: GoodMonth(z, month) }

  /** `monthWindow(now)` contains `now`, for every `now`, exactly when every month starts on a day of well placed midnight. */
  lemma MonthWindowsHold(z: Zone)
    requires Valid(z)
    ensures EveryMonthHoldsItsInstants(z) <==> EveryMonthGood(z)
  {
    if EveryMonthGood(z) {
      forall now: int ensures Holds(MonthWindow(z, now), now) {
        MonthHolds(z, now);
      }
    } else {
      var month :| !GoodMonth(z, month);
      var now := BadMonth(z, month);
    }
  }
}
