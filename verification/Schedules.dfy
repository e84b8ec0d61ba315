/** Calendar months in a schedule's own time zone, when each one's report falls due, and
    which months a schedule owes. */
module Schedules {
  import opened Prelude
  import opened BusinessCalendar

  const MAX_PERIODS_PER_RUN := 12

  // -- months ----------------------------------------------------------------

  datatype Month = Month(year: int, month: int)

  predicate MonthOk(m: Month) {
    1 <= m.month <= 12 && 1 <= m.year
  }

  function NextMonth(m: Month): Month {
    Month(m.year + (if m.month == 12 then 1 else 0), m.month % 12 + 1)
  }

  function PreviousMonth(m: Month): Month {
    if m.month == 1 then Month(m.year - 1, 12) else Month(m.year, m.month - 1)
  }

  /** Months in a row have consecutive numbers. */
  function MonthNumber(m: Month): int {
    m.year * 12 + m.month - 1
  }

  predicate Leap(year: int) {
    year % 4 == 0 && (year % 100 != 0 || year % 400 == 0)
  }

  function DaysBeforeYear(year: int): int {
    365 * (year - 1) + (year - 1) / 4 - (year - 1) / 100 + (year - 1) / 400
  }

  function DaysIn(m: Month): int {
    if m.month == 2 then (if Leap(m.year) then 29 else 28)
    else if m.month in {4, 6, 9, 11} then 30
    else 31
  }

  function DaysBeforeMonth(month: int): int
    requires 1 <= month <= 12
  {
    match month
    case 1 => 0
    case 2 => 31
    case 3 => 59
    case 4 => 90
    case 5 => 120
    case 6 => 151
    case 7 => 181
    case 8 => 212
    case 9 => 243
    case 10 => 273
    case 11 => 304
    case _ => 334
  }

  // The ordinal of 1970-01-01, where days are counted from.
  const EPOCH := 719_163

  /** The first day of a month. */
  function FirstDay(m: Month): int
    requires MonthOk(m)
  {
    DaysBeforeYear(m.year) + DaysBeforeMonth(m.month) + (if m.month > 2 && Leap(m.year) then 1 else 0) + 1 - EPOCH
  }

  lemma YearLength(y: int)
    requires 1 <= y
    ensures DaysBeforeYear(y + 1) == DaysBeforeYear(y) + (if Leap(y) then 366 else 365)
  {
    Fourths(y);
    Hundredths(y);
    FourHundredths(y);
  }

  lemma Fourths(y: int)
    ensures y / 4 == (y - 1) / 4 + (if y % 4 == 0 then 1 else 0)
  {
  }

  lemma Hundredths(y: int)
    ensures y / 100 == (y - 1) / 100 + (if y % 100 == 0 then 1 else 0)
    ensures y % 100 == 0 ==> y % 4 == 0
  {
  }

  lemma FourHundredths(y: int)
    ensures y / 400 == (y - 1) / 400 + (if y % 400 == 0 then 1 else 0)
    ensures y % 400 == 0 ==> y % 100 == 0
  {
  }

  /** A month ends where the next one begins. */
  lemma MonthsAdjoin(m: Month)
    requires MonthOk(m)
    ensures MonthOk(NextMonth(m)) && FirstDay(NextMonth(m)) == FirstDay(m) + DaysIn(m)
    ensures MonthNumber(NextMonth(m)) == MonthNumber(m) + 1
  {
    NextMonthIs(m);
    hide NextMonth, FirstDay, DaysIn;
    if m.month == 12 {
      DecemberAdjoins(m.year);
    } else {
      WithinYearAdjoins(m);
    }
  }

  lemma NextMonthIs(m: Month)
    requires MonthOk(m)
    ensures NextMonth(m) == if m.month == 12 then Month(m.year + 1, 1) else Month(m.year, m.month + 1)
  {
  }

  lemma DecemberAdjoins(year: int)
    requires 1 <= year
    ensures FirstDay(Month(year + 1, 1)) == FirstDay(Month(year, 12)) + DaysIn(Month(year, 12))
  {
    YearLength(year);
    hide DaysBeforeYear, Leap;
  }

  lemma WithinYearAdjoins(m: Month)
    requires MonthOk(m) && m.month <= 11
    ensures FirstDay(Month(m.year, m.month + 1)) == FirstDay(m) + DaysIn(m)
  {
    TableAdjoins(m);
    hide DaysBeforeYear, DaysBeforeMonth, DaysIn, Leap;
  }

  lemma TableAdjoins(m: Month)
    requires 1 <= m.month <= 11
    ensures DaysBeforeMonth(m.month + 1) + (if m.month + 1 > 2 && Leap(m.year) then 1 else 0)
         == DaysBeforeMonth(m.month) + (if m.month > 2 && Leap(m.year) then 1 else 0) + DaysIn(m)
  {
    hide Leap;
  }

  /** The month before is the one that holds the day before the first. */
  lemma PreviousHoldsTheDayBefore(m: Month)
    requires MonthOk(m) && m != Month(1, 1)
    ensures MonthOk(PreviousMonth(m)) && NextMonth(PreviousMonth(m)) == m
    ensures FirstDay(PreviousMonth(m)) <= FirstDay(m) - 1 < FirstDay(NextMonth(PreviousMonth(m)))
  {
    MonthsAdjoin(PreviousMonth(m));
  }

  // -- their bounds in a zone ------------------------------------------------

  /** Local time differs from UTC by less than a day. */
  ghost predicate OffsetsBounded(z: Zone) {
    forall d: int, t: int :: 0 <= t < DAY ==> OffsetBounded(z, d, t)
  }

  ghost predicate OffsetBounded(z: Zone, d: int, t: int) {
    -DAY < z.utc(d, t) - (d * DAY + t) < DAY
  }

  /** A month as a half-open interval, from its first local midnight to the next's. */
  function MonthBounds(m: Month, z: Zone): Interval
    requires MonthOk(m)
  {
    MonthsAdjoin(m);
    Interval(z.utc(FirstDay(m), 0), z.utc(FirstDay(NextMonth(m)), 0))
  }

  /** Consecutive months tile time: each begins at the instant the one before it ends,
      and none is empty. */
  lemma MonthBoundsTile(m: Month, z: Zone)
    requires MonthOk(m) && MonthOk(NextMonth(m)) && OffsetsBounded(z)
    ensures MonthBounds(m, z).end == MonthBounds(NextMonth(m), z).start
    ensures MonthBounds(m, z).start < MonthBounds(m, z).end
  {
    MonthsAdjoin(m);
    assert DaysIn(m) >= 28;
    hide *;
    DaysApart(z, FirstDay(m), 0, FirstDay(NextMonth(m)), 0);
    BoundsAre(m, z);
    BoundsAre(NextMonth(m), z);
  }

  lemma BoundsAre(m: Month, z: Zone)
    requires MonthOk(m)
    ensures MonthOk(NextMonth(m)) && MonthBounds(m, z) == Interval(z.utc(FirstDay(m), 0), z.utc(FirstDay(NextMonth(m)), 0))
  {
    MonthsAdjoin(m);
    hide FirstDay;
  }

  /** Times weeks apart on the local calendar are as far apart in the same order. */
  lemma DaysApart(z: Zone, d: int, t: int, e: int, u: int)
    requires OffsetsBounded(z) && 0 <= t < DAY && 0 <= u < DAY && d + 28 <= e
    ensures z.utc(d, t) < z.utc(e, u)
  {
    assert OffsetBounded(z, d, t) && OffsetBounded(z, e, u);
  }

  lemma {:induction false} FirstDaysOrdered(m: Month, n: Month)
    requires MonthOk(m) && MonthOk(n) && MonthNumber(m) < MonthNumber(n)
    ensures FirstDay(m) + 28 <= FirstDay(n)
    decreases MonthNumber(n) - MonthNumber(m)
  {
    MonthsAdjoin(m);
    if NextMonth(m) != n {
      FirstDaysOrdered(NextMonth(m), n);
    }
  }

  /** An instant belongs to at most one month. */
  lemma MonthsDisjoint(m: Month, n: Month, z: Zone, x: int)
    requires MonthOk(m) && MonthOk(n) && OffsetsBounded(z)
    requires MonthBounds(m, z).Contains(x) && MonthBounds(n, z).Contains(x)
    ensures m == n
  {
    if MonthNumber(m) < MonthNumber(n) {
      BoundsOrdered(m, n, z);
    } else if MonthNumber(n) < MonthNumber(m) {
      BoundsOrdered(n, m, z);
    }
  }

  lemma {:induction false} BoundsOrdered(m: Month, n: Month, z: Zone)
    requires MonthOk(m) && MonthOk(n) && OffsetsBounded(z) && MonthNumber(m) < MonthNumber(n)
    ensures MonthBounds(m, z).end <= MonthBounds(n, z).start && MonthBounds(m, z).start < MonthBounds(n, z).start
    decreases MonthNumber(n) - MonthNumber(m)
  {
    MonthsAdjoin(m);
    MonthBoundsTile(m, z);
    if NextMonth(m) != n {
      BoundsOrdered(NextMonth(m), n, z);
    }
  }

  // -- when a month is due ---------------------------------------------------

  datatype Schedule = Schedule(zone: Zone, dayOfMonth: int, hour: int, created: Month, last: Option<Month>, failed: seq<Month>)

  ghost predicate ScheduleOk(s: Schedule) {
    && OffsetsBounded(s.zone)
    && 1 <= s.dayOfMonth <= 28 && 0 <= s.hour <= 23
    && MonthOk(s.created) && 2 <= s.created.year
    && (s.last.Some? ==> MonthOk(s.last.value))
  }

  /** When the export of a month falls due: in the month after it. */
  function FireTime(s: Schedule, m: Month): int
    requires MonthOk(m)
  {
    MonthsAdjoin(m);
    s.zone.utc(FirstDay(NextMonth(m)) + s.dayOfMonth - 1, s.hour * 3600 * SECOND)
  }

  /** Later months fall due later, each strictly, and none before it has ended. */
  lemma FireTimesOrdered(s: Schedule, m: Month, n: Month)
    requires ScheduleOk(s) && MonthOk(m) && MonthOk(n) && MonthNumber(m) < MonthNumber(n)
    ensures FireTime(s, m) < FireTime(s, n)
  {
    MonthsAdjoin(m);
    MonthsAdjoin(n);
    FirstDaysOrdered(NextMonth(m), NextMonth(n));
    hide FirstDay, NextMonth, MonthNumber;
    var t := s.hour * 3600 * SECOND;
    DaysApart(s.zone, FirstDay(NextMonth(m)) + s.dayOfMonth - 1, t, FirstDay(NextMonth(n)) + s.dayOfMonth - 1, t);
  }

  /** Only closed months fall due. */
  lemma DueMonthsAreClosed(s: Schedule, m: Month)
    requires ScheduleOk(s) && ZoneOk(s.zone) && MonthOk(m)
    ensures MonthBounds(m, s.zone).end <= FireTime(s, m)
  {
    MonthsAdjoin(m);
    hide FirstDay, NextMonth;
    MidnightsInOrder(s.zone, FirstDay(NextMonth(m)), FirstDay(NextMonth(m)) + s.dayOfMonth - 1);
    assert s.zone.utc(FirstDay(NextMonth(m)) + s.dayOfMonth - 1, 0) <= FireTime(s, m);
  }

  lemma {:induction false} MidnightsInOrder(z: Zone, d: int, e: int)
    requires ZoneOk(z) && d <= e
    ensures z.utc(d, 0) <= z.utc(e, 0)
    decreases e - d
  {
    if d < e {
      MidnightsInOrder(z, d, e - 1);
      assert z.utc(e - 1, 0) <= z.utc(e - 1 + 1, 0);
    }
  }

  // -- which months are owed -------------------------------------------------

  /** The month the schedule has delivered up to: the last one delivered, or the month
      before the one it was created in. */
  function Anchor(s: Schedule): Month {
    if s.last.Some? then s.last.value else PreviousMonth(s.created)
  }

  predicate Owed(s: Schedule, now: int, m: Month) {
    MonthOk(m) && MonthNumber(Anchor(s)) < MonthNumber(m) && FireTime(s, m) <= now && m !in s.failed
  }

  ghost predicate AscendingMonths(ms: seq<Month>) {
    forall i, j :: 0 <= i < j < |ms| ==> MonthNumber(ms[i]) < MonthNumber(ms[j])
  }

  /** The earliest owed months, at most twelve of them. */
  ghost predicate EarliestOwed(s: Schedule, now: int, owed: seq<Month>) {
    && |owed| <= MAX_PERIODS_PER_RUN
    && AscendingMonths(owed)
    && (forall i :: 0 <= i < |owed| ==> Owed(s, now, owed[i]))
    && (forall m :: Owed(s, now, m) && m !in owed ==>
          |owed| == MAX_PERIODS_PER_RUN && MonthNumber(owed[MAX_PERIODS_PER_RUN - 1]) < MonthNumber(m))
  }

  lemma SameNumberSameMonth(m: Month, n: Month)
    requires MonthOk(m) && MonthOk(n) && MonthNumber(m) == MonthNumber(n)
    ensures m == n
  {
  }

  lemma AnchorOk(s: Schedule)
    requires ScheduleOk(s)
    ensures MonthOk(Anchor(s)) && MonthOk(NextMonth(Anchor(s))) && MonthNumber(NextMonth(Anchor(s))) == MonthNumber(Anchor(s)) + 1
  {
    MonthsAdjoin(Anchor(s));
  }

  /** What the walk has found once it has passed every month before `month`. */
  ghost predicate FoundBefore(s: Schedule, now: int, month: Month, owed: seq<Month>) {
    && AscendingMonths(owed)
    && (forall i :: 0 <= i < |owed| ==> Owed(s, now, owed[i]) && MonthNumber(owed[i]) < MonthNumber(month))
    && (forall m :: Owed(s, now, m) && MonthNumber(m) < MonthNumber(month) ==> m in owed)
  }

  lemma FoundMore(s: Schedule, now: int, month: Month, owed: seq<Month>)
    requires ScheduleOk(s) && MonthOk(month) && MonthNumber(Anchor(s)) < MonthNumber(month)
    requires FoundBefore(s, now, month, owed) && FireTime(s, month) <= now
    ensures FoundBefore(s, now, NextMonth(month), if month in s.failed then owed else owed + [month])
  {
    MonthsAdjoin(month);
    var more := if month in s.failed then owed else owed + [month];
    forall m | Owed(s, now, m) && MonthNumber(m) < MonthNumber(NextMonth(month)) ensures m in more {
      if MonthNumber(m) == MonthNumber(month) {
        SameNumberSameMonth(m, month);
        assert more[|owed|] == month;
      }
    }
  }

  /** The walk over months ends, and returns exactly the earliest twelve that are due,
      not delivered and not abandoned. */
  method PeriodsOwed(s: Schedule, now: int) returns (owed: seq<Month>)
    requires ScheduleOk(s)
    ensures EarliestOwed(s, now, owed)
  {
    hide FireTime, FirstDay, ScheduleOk, FoundBefore;
    AnchorOk(s);
    owed := [];
    var month := NextMonth(Anchor(s));
    FoundNothing(s, now);
    while FireTime(s, month) <= now
      invariant MonthOk(month) && MonthNumber(Anchor(s)) < MonthNumber(month)
      invariant FoundBefore(s, now, month, owed) && |owed| < MAX_PERIODS_PER_RUN
      decreases now - FireTime(s, month)
    {
      FoundMore(s, now, month, owed);
      if month !in s.failed {
        owed := owed + [month];
      }
      MonthsAdjoin(month);
      FireTimesOrdered(s, month, NextMonth(month));
      month := NextMonth(month);
      if |owed| >= MAX_PERIODS_PER_RUN {
        FoundEnough(s, now, month, owed);
        return;
      }
    }
    FoundAll(s, now, month, owed);
  }

  lemma FoundNothing(s: Schedule, now: int)
    requires ScheduleOk(s)
    ensures FoundBefore(s, now, NextMonth(Anchor(s)), [])
  {
    AnchorOk(s);
  }

  lemma FoundEnough(s: Schedule, now: int, month: Month, owed: seq<Month>)
    requires FoundBefore(s, now, month, owed) && |owed| == MAX_PERIODS_PER_RUN
    ensures EarliestOwed(s, now, owed)
  {
    hide Owed;
  }

  lemma FoundAll(s: Schedule, now: int, month: Month, owed: seq<Month>)
    requires ScheduleOk(s) && MonthOk(month) && FoundBefore(s, now, month, owed) && |owed| < MAX_PERIODS_PER_RUN
    requires now < FireTime(s, month)
    ensures EarliestOwed(s, now, owed)
  {
    forall m | Owed(s, now, m) ensures m in owed {
      if MonthNumber(month) < MonthNumber(m) {
        FireTimesOrdered(s, month, m);
      } else if MonthNumber(month) == MonthNumber(m) {
        SameNumberSameMonth(m, month);
      }
    }
  }

  /** There is only one such list. */
  lemma EarliestOwedUnique(s: Schedule, now: int, a: seq<Month>, b: seq<Month>)
    requires EarliestOwed(s, now, a) && EarliestOwed(s, now, b)
    ensures a == b
  {
    hide EarliestOwed;
    EarliestPrefix(s, now, a, b, |a|);
    EarliestPrefix(s, now, b, a, |b|);
  }

  lemma {:induction false} EarliestPrefix(s: Schedule, now: int, a: seq<Month>, b: seq<Month>, n: nat)
    requires EarliestOwed(s, now, a) && EarliestOwed(s, now, b) && n <= |a|
    ensures n <= |b| && a[..n] == b[..n]
  {
    if n > 0 {
      EarliestPrefix(s, now, a, b, n - 1);
      NotAfter(s, now, a, b, n - 1);
      NotAfter(s, now, b, a, n - 1);
      SameNumberSameMonth(a[n - 1], b[n - 1]);
    }
  }

  /** Where two such lists agree so far, the one's next month is no later than the other's. */
  lemma NotAfter(s: Schedule, now: int, a: seq<Month>, b: seq<Month>, k: nat)
    requires EarliestOwed(s, now, a) && EarliestOwed(s, now, b)
    requires k < |a| && k <= |b| && a[..k] == b[..k]
    ensures k < |b| && MonthNumber(b[k]) <= MonthNumber(a[k]) && MonthOk(a[k]) && MonthOk(b[k])
  {
    hide Owed, MonthNumber;
    assert Owed(s, now, a[k]);
    OwedMonth(s, now, a[k]);
    forall j | 0 <= j < k ensures a[j] == b[j] {
      assert a[..k][j] == b[..k][j];
    }
    if a[k] in b {
      var j :| 0 <= j < |b| && b[j] == a[k];
    }
    if k < |b| {
      OwedMonth(s, now, b[k]);
    }
  }

  lemma OwedMonth(s: Schedule, now: int, m: Month)
    requires Owed(s, now, m)
    ensures MonthOk(m)
  {
  }
}
