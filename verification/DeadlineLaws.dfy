/** What the two walks promise each other and their callers. */
module DeadlineLaws {
  import opened Prelude
  import opened Counting
  import opened BusinessCalendar
  import opened Pauses
  import opened Deadlines

  // -- the round trip --------------------------------------------------------

  /** A deadline is the least instant by which the window has passed. */
  lemma DeadlineIsLeast(cal: Calendar, start: int, window: int, pauses: PauseList, d: int)
    requires DeadlineOf(cal, start, window, pauses) == Ok(d)
    ensures start < d <= Horizon(cal, start)
    ensures BusinessTime(cal, pauses, start, d) == window
    ensures forall e :: start <= e < d ==> BusinessTime(cal, pauses, start, e) < window
  {
    forall e | start <= e < d ensures BusinessTime(cal, pauses, start, e) < window {
      LeastIsLeast(Counts(cal, pauses), start, Horizon(cal, start), window, e);
    }
  }

  /** Measuring up to the deadline gives the window back, except on a calendar whose
      next 366 days are all closed: the measurement then fails although the walk
      had found the deadline on the first day. */
  lemma RoundTrip(cal: Calendar, start: int, window: int, pauses: PauseList, d: int)
    requires CalendarOk(cal)
    requires DeadlineOf(cal, start, window, pauses) == Ok(d)
    ensures TimeBetween(cal, start, d, pauses)
         == if ShutsForAYear(cal, start) then Err(ImpossibleCalendar) else Ok(window)
  {
    DeadlineIsLeast(cal, start, window, pauses, d);
    if ShutsForAYear(cal, start) && OpensFirstAtOrAfter(cal, start, d) {
      NothingBeforeOpening(cal, start, pauses, d);
    }
  }

  lemma NothingBeforeOpening(cal: Calendar, start: int, pauses: PauseList, d: int)
    requires CalendarOk(cal) && OpensFirstAtOrAfter(cal, start, d) && start <= d
    ensures BusinessTime(cal, pauses, start, d) == 0
  {
    AroundSegment(cal, start, pauses, 0);
    FrontierOrdered(cal, start, 0, 0);
    CountSplit(Counts(cal, pauses), start, d, ClippedDay(cal, start, 0).value.start);
  }

  function UtcZone(): Zone {
    Zone((d, t) => d * DAY + t, x => x / DAY)
  }

  function NextDays(): seq<int> {
    seq(MAX_DAYS, i => i + 1)
  }

  /** Open on day 0 only: the next 366 days are holidays. */
  function OneDayCalendar(): Calendar {
    Calendar(UtcZone(), map[], set d | d in NextDays(), true)
  }

  lemma NextDaysAre(d: int)
    ensures d in NextDays() <==> 1 <= d <= MAX_DAYS
  {
    var days := NextDays();
    if 1 <= d <= MAX_DAYS {
      assert days[d - 1] == d;
    }
  }

  lemma OneDaySegment(d: int)
    ensures SegmentFor(OneDayCalendar(), d)
         == if 1 <= d <= MAX_DAYS then None else Some(Interval(d * DAY, (d + 1) * DAY))
  {
    NextDaysAre(d);
    hide NextDays;
    assert UtcZone().utc(d, 0) == d * DAY && UtcZone().utc(d + 1, 0) == (d + 1) * DAY;
  }

  lemma OneDayOk()
    ensures CalendarOk(OneDayCalendar()) && FirstDay(OneDayCalendar(), 0) == 0
  {
    hide NextDays;
  }

  lemma OneDayCalendarShuts()
    ensures CalendarOk(OneDayCalendar()) && ShutsForAYear(OneDayCalendar(), 0)
    ensures SegmentFor(OneDayCalendar(), 0) == Some(Interval(0, DAY))
  {
    OneDayOk();
    OneDaySegment(0);
    hide OneDayCalendar, SegmentFor, CalendarOk;
    var cal := OneDayCalendar();
    forall k | 1 <= k < MAX_DAYS + 1 ensures ClosedDay(cal, FirstDay(cal, 0), k) {
      OneDaySegment(k);
    }
  }

  /** The round trip does fail somewhere: a one-tick window on that calendar. */
  lemma RoundTripCanFail()
    ensures CalendarOk(OneDayCalendar())
    ensures DeadlineOf(OneDayCalendar(), 0, 1, []) == Ok(1)
    ensures TimeBetween(OneDayCalendar(), 0, 1, []) == Err(ImpossibleCalendar)
  {
    hide OneDayCalendar, Count, CalendarOk, SegmentFor, ShutsForAYear, DeadlineOf, TimeBetween, Horizon;
    OneDayCalendarShuts();
    var cal := OneDayCalendar();
    OneDayHorizon();
    assert !ClosedDay(cal, FirstDay(cal, 0), 0);
    assert InSegment(cal, 0, 0);
    OneTick(cal, 0);
    RoundTrip(cal, 0, 1, [], 1);
  }

  lemma OneTick(cal: Calendar, start: int)
    requires Open(cal, start) && !NeverOpens(cal, start) && start < Horizon(cal, start)
    ensures DeadlineOf(cal, start, 1, []) == Ok(start + 1)
  {
    CountAll(Counts(cal, []), start, start + 1);
    DeadlineIs(cal, start, 1, [], start + 1);
  }

  lemma OneDayHorizon()
    ensures FirstDay(OneDayCalendar(), 0) == 0 && Horizon(OneDayCalendar(), 0) == 367 * DAY
  {
    hide NextDays;
  }

  /** The other way round: from a measurement, the walk finds an instant no later,
      and exactly the measured end when the instant before it counts. */
  lemma MeasuredThenWalked(cal: Calendar, start: int, end: int, pauses: PauseList)
    requires CalendarOk(cal) && end <= Horizon(cal, start)
    requires TimeBetween(cal, start, end, pauses).Ok? && TimeBetween(cal, start, end, pauses).value > 0
    ensures var r := DeadlineOf(cal, start, TimeBetween(cal, start, end, pauses).value, pauses);
            && r.Ok? && r.value <= end
            && (r.value == end <==> Counts(cal, pauses)(end - 1))
            && BusinessTime(cal, pauses, r.value, end) == 0
  {
    var w := TimeBetween(cal, start, end, pauses).value;
    CountSplit(Counts(cal, pauses), start, end, Horizon(cal, start));
    LeastBefore(Counts(cal, pauses), start, end, Horizon(cal, start));
  }

  lemma LeastBefore(p: int -> bool, a: int, e: int, h: int)
    requires a < e <= h && 0 < Count(p, a, e) <= Count(p, a, h)
    ensures var d := Least(p, a, h, Count(p, a, e));
            d <= e && Count(p, d, e) == 0 && (d == e <==> p(e - 1))
  {
    var w := Count(p, a, e);
    var d := Least(p, a, h, w);
    if e < d {
      LeastIsLeast(p, a, h, w, e);
    }
    CountSplit(p, a, d, e);
    if d < e && p(e - 1) {
      CountZero(p, d, e, e - 1);
    }
  }

  /** There is no deadline exactly when no instant the walk can see completes the
      window, or nothing opens in the first 366 days. */
  lemma NoDeadlineExactlyWhen(cal: Calendar, start: int, window: int, pauses: PauseList)
    requires CalendarOk(cal) && 0 < window
    ensures DeadlineOf(cal, start, window, pauses).Err?
       <==> NeverOpens(cal, start)
            || forall e :: start <= e <= Horizon(cal, start) ==> BusinessTime(cal, pauses, start, e) < window
    ensures DeadlineOf(cal, start, window, pauses) == Err(DeadlineUncomputable)
        ==> !NeverOpens(cal, start) && !ShutsForAYear(cal, start)
  {
    var p, h := Counts(cal, pauses), Horizon(cal, start);
    if Available(cal, pauses, start) < window {
      forall e | start <= e <= h ensures BusinessTime(cal, pauses, start, e) < window {
        CountSplit(p, start, e, h);
      }
    } else {
      assert start <= h;
      assert BusinessTime(cal, pauses, start, h) >= window;
    }
  }

  // -- additivity ------------------------------------------------------------

  /** How far the walk from `moment` sees of what lies after `b` and before `c`. */
  ghost function SeenTo(cal: Calendar, moment: int, b: int, c: int): int {
    Max(b, Min(c, Horizon(cal, moment)))
  }

  /** Business time adds up across an instant, although the second measurement starts
      its own walk at that instant's local day, exactly when nothing counts between
      where the two walks stop seeing; so always up to both horizons. */
  lemma AdditiveExactlyWhen(cal: Calendar, pauses: PauseList, a: int, b: int, c: int)
    requires a <= b <= c
    requires TimeBetween(cal, a, b, pauses).Ok? && TimeBetween(cal, b, c, pauses).Ok? && TimeBetween(cal, a, c, pauses).Ok?
    ensures var first, second := SeenTo(cal, a, b, c), SeenTo(cal, b, b, c);
            (TimeBetween(cal, a, c, pauses).value == TimeBetween(cal, a, b, pauses).value + TimeBetween(cal, b, c, pauses).value
             <==> BusinessTime(cal, pauses, Min(first, second), Max(first, second)) == 0)
    ensures c <= Horizon(cal, a) && c <= Horizon(cal, b) ==> SeenTo(cal, a, b, c) == SeenTo(cal, b, b, c)
  {
    hide Horizon, Counts;
    var p, first, second := Counts(cal, pauses), SeenTo(cal, a, b, c), SeenTo(cal, b, b, c);
    if b <= Horizon(cal, a) {
      CountSplit(p, a, b, first);
    }
    CountSplit(p, b, Min(first, second), Max(first, second));
  }

  /** A longer window never ends at or before a shorter one. */
  lemma WindowsOrdered(cal: Calendar, start: int, w1: int, w2: int, pauses: PauseList)
    requires 0 < w1 < w2 && DeadlineOf(cal, start, w2, pauses).Ok?
    ensures DeadlineOf(cal, start, w1, pauses).Ok?
    ensures DeadlineOf(cal, start, w1, pauses).value < DeadlineOf(cal, start, w2, pauses).value
  {
    var d1, d2 := DeadlineOf(cal, start, w1, pauses).value, DeadlineOf(cal, start, w2, pauses).value;
    if d2 < d1 {
      LeastIsLeast(Counts(cal, pauses), start, Horizon(cal, start), w1, d2);
    }
  }

  // -- pauses as a set of instants -------------------------------------------

  ghost predicate SamePauses(p: PauseList, q: PauseList) {
    forall x :: Paused(p, x) <==> Paused(q, x)
  }

  lemma SameBusinessTime(cal: Calendar, p: PauseList, q: PauseList, a: int, b: int)
    requires SamePauses(p, q)
    ensures BusinessTime(cal, p, a, b) == BusinessTime(cal, q, a, b)
  {
    CountAgree(Counts(cal, p), Counts(cal, q), a, b);
  }

  /** Only the set of paused instants matters, to either walk. */
  lemma OnlyPausedInstantsMatter(cal: Calendar, start: int, window: int, end: int, p: PauseList, q: PauseList)
    requires SamePauses(p, q)
    ensures DeadlineOf(cal, start, window, p) == DeadlineOf(cal, start, window, q)
    ensures TimeBetween(cal, start, end, p) == TimeBetween(cal, start, end, q)
  {
    var h := Horizon(cal, start);
    SameBusinessTime(cal, p, q, start, h);
    SameBusinessTime(cal, p, q, start, Min(end, h));
    if DeadlineOf(cal, start, window, p).Ok? {
      var d := DeadlineOf(cal, start, window, p).value;
      SameBusinessTime(cal, p, q, start, d);
      assert Counts(cal, q)(d - 1);
      LeastUnique(Counts(cal, q), start, h, window, d);
    }
  }

  /** More pauses never bring a deadline forward, and never make one computable. */
  lemma MorePausesNeverEarlier(cal: Calendar, start: int, window: int, p: PauseList, q: PauseList)
    requires forall x :: Paused(p, x) ==> Paused(q, x)
    requires DeadlineOf(cal, start, window, q).Ok?
    ensures DeadlineOf(cal, start, window, p).Ok?
    ensures DeadlineOf(cal, start, window, p).value <= DeadlineOf(cal, start, window, q).value
  {
    var h, d := Horizon(cal, start), DeadlineOf(cal, start, window, q).value;
    CountMonotone(Counts(cal, q), Counts(cal, p), start, h);
    CountMonotone(Counts(cal, q), Counts(cal, p), start, d);
    if d < DeadlineOf(cal, start, window, p).value {
      LeastIsLeast(Counts(cal, p), start, h, window, d);
    }
  }

  lemma LongerListPausesMore(p: PauseList, iv: (int, int))
    ensures forall x :: Paused(p, x) ==> Paused(p + [iv], x)
  {
    forall x { PausedAppend(p, iv, x); }
  }

  /** One more pause leaves a deadline where it is exactly when it takes no business
      time away before that deadline. */
  lemma PauseMovesDeadlineExactlyWhen(cal: Calendar, start: int, window: int, p: PauseList, iv: (int, int))
    requires DeadlineOf(cal, start, window, p).Ok?
    ensures var d := DeadlineOf(cal, start, window, p).value;
            (DeadlineOf(cal, start, window, p + [iv]) == Ok(d) <==> BusinessTime(cal, p, Max(start, iv.0), Min(iv.1, d)) == 0)
  {
    var d := DeadlineOf(cal, start, window, p).value;
    var q := p + [iv];
    var a, b := Max(start, iv.0), Min(iv.1, d);
    LongerListPausesMore(p, iv);
    if BusinessTime(cal, p, a, b) == 0 {
      forall x | start <= x < d ensures Counts(cal, p)(x) == Counts(cal, q)(x) {
        PausedAppend(p, iv, x);
        if iv.0 <= x < iv.1 {
          CountZero(Counts(cal, p), a, b, x);
        }
      }
      CountAgree(Counts(cal, p), Counts(cal, q), start, d);
      DeadlineIs(cal, start, window, q, d);
    } else if DeadlineOf(cal, start, window, q) == Ok(d) {
      RemovedByPause(cal, start, p, iv, a, b, d);
    }
  }

  lemma RemovedByPause(cal: Calendar, start: int, p: PauseList, iv: (int, int), a: int, b: int, d: int)
    requires start <= a < b <= d && iv.0 <= a && b <= iv.1
    ensures BusinessTime(cal, p + [iv], start, d) + BusinessTime(cal, p, a, b) <= BusinessTime(cal, p, start, d)
  {
    var f, g := Counts(cal, p), Counts(cal, p + [iv]);
    forall x { PausedAppend(p, iv, x); }
    CountSplit(f, start, a, d);
    CountSplit(f, a, b, d);
    CountSplit(g, start, a, d);
    CountSplit(g, a, b, d);
    CountNone(g, a, b);
    CountMonotone(g, f, start, a);
    CountMonotone(g, f, b, d);
  }

  // -- elapsed fraction ------------------------------------------------------

  /** The share of a window that has been used, clamped to between 0 and 1. */
  ghost function FractionOf(cal: Calendar, start: int, now: int, deadline: int,
          pauses: PauseList): Result<real, DeadlineError> {
    var total := TimeBetween(cal, start, deadline, pauses);
    if total.Err? then Err(total.error)
    else if total.value <= 0 then Ok(1.0)
    else
      var used := TimeBetween(cal, start, now, pauses);
      if used.Err? then Err(used.error) else Ok(Clamp(used.value as real / total.value as real))
  }

  function Clamp(x: real): real {
    if x > 1.0 then 1.0 else if x < 0.0 then 0.0 else x
  }

  method ElapsedFraction(start: int, now: int, deadline: int, cal: Calendar, pauses: PauseList)
    returns (r: Result<real, DeadlineError>)
    requires CalendarOk(cal)
    ensures r == FractionOf(cal, start, now, deadline, pauses)
  {
    var total := BusinessTimeBetween(start, deadline, cal, pauses);
    if total.Err? {
      return Err(total.error);
    }
    if total.value <= 0 {
      return Ok(1.0);
    }
    var used := BusinessTimeBetween(start, now, cal, pauses);
    if used.Err? {
      return Err(used.error);
    }
    return Ok(Clamp(used.value as real / total.value as real));
  }

  lemma QuotientReachesOne(a: int, b: int)
    requires 0 <= a && 0 < b
    ensures a as real / b as real >= 1.0 <==> a >= b
    ensures a as real / b as real >= 0.0
  {
    var q := a as real / b as real;
    assert q * b as real == a as real;
  }

  lemma QuotientMonotone(a: int, c: int, b: int)
    requires 0 <= a <= c && 0 < b
    ensures a as real / b as real <= c as real / b as real
  {
    var q, r := a as real / b as real, c as real / b as real;
    assert q * b as real <= r * b as real;
  }

  /** The used share reaches 1 exactly at the deadline. */
  lemma FractionReachesOneAtDeadline(cal: Calendar, start: int, window: int, pauses: PauseList, now: int)
    requires CalendarOk(cal) && DeadlineOf(cal, start, window, pauses).Ok?
    requires FractionOf(cal, start, now, DeadlineOf(cal, start, window, pauses).value, pauses).Ok?
    ensures var d := DeadlineOf(cal, start, window, pauses).value;
            var f := FractionOf(cal, start, now, d, pauses).value;
            0.0 <= f <= 1.0 && (f == 1.0 <==> now >= d)
  {
    var d := DeadlineOf(cal, start, window, pauses).value;
    DeadlineIsLeast(cal, start, window, pauses, d);
    RoundTrip(cal, start, window, pauses, d);
    var used := TimeBetween(cal, start, now, pauses).value;
    if now >= d {
      CountSplit(Counts(cal, pauses), start, d, Min(now, Horizon(cal, start)));
    } else if start < now {
      assert Min(now, Horizon(cal, start)) == now;
      assert BusinessTime(cal, pauses, start, now) < window;
    }
    QuotientReachesOne(used, window);
  }

  /** The used share never goes down as time passes. */
  lemma FractionMonotone(cal: Calendar, start: int, pauses: PauseList, deadline: int, now: int, later: int)
    requires CalendarOk(cal) && now <= later
    requires FractionOf(cal, start, now, deadline, pauses).Ok? && FractionOf(cal, start, later, deadline, pauses).Ok?
    ensures FractionOf(cal, start, now, deadline, pauses).value <= FractionOf(cal, start, later, deadline, pauses).value
  {
    var total := TimeBetween(cal, start, deadline, pauses);
    if total.Ok? && total.value > 0 {
      var a, b := TimeBetween(cal, start, now, pauses).value, TimeBetween(cal, start, later, pauses).value;
      if start < now && start <= Min(now, Horizon(cal, start)) {
        CountSplit(Counts(cal, pauses), start, Min(now, Horizon(cal, start)), Min(later, Horizon(cal, start)));
      }
      QuotientMonotone(a, b, total.value);
    }
  }
}
