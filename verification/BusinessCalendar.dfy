/** Business calendars and the day-by-day walk over their open segments. */
module BusinessCalendar {
  import opened Prelude

  // Instants and times of day are whole microseconds, the resolution of the
  // timestamps they stand for.
  const SECOND := 1_000_000
  const DAY := 86_400 * SECOND

  datatype Interval = Interval(start: int, end: int) {
    function Duration(): int {
      Max(end - start, 0)
    }

    predicate Contains(x: int) {
      start <= x < end
    }

    /** The common part, or nothing when the two do not overlap. */
    function Intersect(other: Interval): (r: Option<Interval>)
      ensures forall x :: Contains(x) && other.Contains(x) <==> r.Some? && r.value.Contains(x)
      ensures r.Some? ==> r.value.start < r.value.end
    {
      var s := Max(start, other.start);
      var e := Min(end, other.end);
      if e > s then Some(Interval(s, e)) else None
    }
  }

  /** A time zone: the instant of a local day and time of day, and the local day
      of an instant. Days are numbered from 1970-01-01. */
  datatype Zone = Zone(utc: (int, int) -> int, localDay: int -> int)

  /** What the arithmetic needs of a zone table: a day's times fall between its
      midnight and the next, and no instant precedes the midnight of its own local
      day. */
  ghost predicate ZoneOk(z: Zone) {
    && (forall d: int, t: int :: 0 <= t < DAY ==> z.utc(d, 0) <= z.utc(d, t) <= z.utc(d + 1, 0))
    && (forall x: int :: z.utc(z.localDay(x), 0) <= x)
  }

  datatype Calendar = Calendar(zone: Zone, hours: map<int, (int, int)>, holidays: set<int>, alwaysOpen: bool)

  datatype CalendarError = NoOpenWeekday | BadHours

  predicate ValidHours(hours: map<int, (int, int)>) {
    forall w :: w in hours ==> 0 <= w <= 6 && 0 <= hours[w].0 < hours[w].1 < DAY
  }

  /** The construction check: a calendar that could never elapse is refused. */
  function MakeCalendar(zone: Zone, hours: map<int, (int, int)>, holidays: set<int>, alwaysOpen: bool)
    : Result<Calendar, CalendarError>
  {
    if alwaysOpen then Ok(Calendar(zone, hours, holidays, alwaysOpen))
    else if hours == map[] then Err(NoOpenWeekday)
    else if !ValidHours(hours) then Err(BadHours)
    else Ok(Calendar(zone, hours, holidays, alwaysOpen))
  }

  /** A 24-hour calendar in the same zone. */
  function Continuous(zone: Zone): Calendar {
    Calendar(zone, map[], {}, true)
  }

  ghost predicate CalendarOk(cal: Calendar) {
    && ZoneOk(cal.zone)
    && (cal.alwaysOpen || (cal.hours != map[] && ValidHours(cal.hours)))
  }

  /** A calendar is refused exactly when the walk over it could not be relied on. */
  lemma RefusedExactlyWhenUnusable(zone: Zone, hours: map<int, (int, int)>, holidays: set<int>, alwaysOpen: bool)
    requires ZoneOk(zone)
    ensures MakeCalendar(zone, hours, holidays, alwaysOpen).Ok? <==> CalendarOk(Calendar(zone, hours, holidays, alwaysOpen))
    ensures MakeCalendar(zone, hours, holidays, alwaysOpen).Ok? ==>
              MakeCalendar(zone, hours, holidays, alwaysOpen).value == Calendar(zone, hours, holidays, alwaysOpen)
    ensures MakeCalendar(zone, hours, holidays, alwaysOpen).Ok? <==>
            alwaysOpen || (|hours| > 0 && forall w :: w in hours ==>
              0 <= w <= 6 && 0 <= hours[w].0 && hours[w].0 < hours[w].1 && hours[w].1 < 86_400_000_000)
  {
    assert |hours| == 0 ==> hours == map[];
  }

  // 1970-01-01 was a Thursday, and Monday is weekday 0.
  function Weekday(day: int): int {
    (day + 3) % 7
  }

  /** The open segment of one local day, resolved in local time and then placed in UTC. */
  function SegmentFor(cal: Calendar, day: int): Option<Interval> {
    if day in cal.holidays then None
    else if cal.alwaysOpen then NonEmpty(cal.zone.utc(day, 0), cal.zone.utc(day + 1, 0))
    else
      var w := Weekday(day);
      if w !in cal.hours then None
      else NonEmpty(cal.zone.utc(day, cal.hours[w].0), cal.zone.utc(day, cal.hours[w].1))
  }

  function NonEmpty(s: int, e: int): Option<Interval> {
    if e > s then Some(Interval(s, e)) else None
  }

  ghost function Midnight(cal: Calendar, day: int): int {
    cal.zone.utc(day, 0)
  }

  lemma {:induction false} MidnightsOrdered(cal: Calendar, d: int, e: int)
    requires CalendarOk(cal) && d <= e
    ensures Midnight(cal, d) <= Midnight(cal, e)
    decreases e - d
  {
    if d < e {
      MidnightsOrdered(cal, d, e - 1);
      assert cal.zone.utc(e - 1, 0) <= cal.zone.utc(e - 1 + 1, 0);
    }
  }

  /** Every day's segment lies inside that day, so successive days give ordered,
      non-overlapping segments. */
  lemma SegmentInsideDay(cal: Calendar, d: int)
    requires CalendarOk(cal) && SegmentFor(cal, d).Some?
    ensures var s := SegmentFor(cal, d).value;
            Midnight(cal, d) <= s.start < s.end <= Midnight(cal, d + 1)
  {
    if !cal.alwaysOpen {
      var w := Weekday(d);
      assert cal.zone.utc(d, 0) <= cal.zone.utc(d, cal.hours[w].0);
      assert cal.zone.utc(d, cal.hours[w].1) <= cal.zone.utc(d + 1, 0);
    }
  }

  ghost predicate InSegment(cal: Calendar, d: int, x: int) {
    SegmentFor(cal, d).Some? && SegmentFor(cal, d).value.Contains(x)
  }

  /** Whether the business is open at an instant, on any day whatsoever. */
  ghost predicate Open(cal: Calendar, x: int) {
    exists d :: InSegment(cal, d, x)
  }

  /** Between two midnights, only that day's segment can be open. */
  lemma OpenWithinDay(cal: Calendar, d: int, x: int)
    requires CalendarOk(cal) && Midnight(cal, d) <= x < Midnight(cal, d + 1)
    ensures Open(cal, x) <==> InSegment(cal, d, x)
  {
    if Open(cal, x) {
      var e :| InSegment(cal, e, x);
      SegmentInsideDay(cal, e);
      if e < d {
        MidnightsOrdered(cal, e + 1, d);
      } else if d < e {
        MidnightsOrdered(cal, d + 1, e);
      }
    }
  }

  // -- the segment walk ------------------------------------------------------

  const MAX_DAYS := 366

  ghost function FirstDay(cal: Calendar, moment: int): int {
    cal.zone.localDay(moment)
  }

  /** The midnight that ends the last day a walk from `moment` looks at. */
  ghost function Horizon(cal: Calendar, moment: int): int {
    Midnight(cal, FirstDay(cal, moment) + MAX_DAYS + 1)
  }

  /** How many days in a row, just before day `first + n`, have no segment. */
  ghost function ClosedRun(cal: Calendar, first: int, n: nat): nat {
    if n == 0 || SegmentFor(cal, first + n - 1).Some? then 0
    else 1 + ClosedRun(cal, first, n - 1)
  }

  predicate ClosedDay(cal: Calendar, first: int, k: int) {
    SegmentFor(cal, first + k).None?
  }

  /** No run of 366 closed days has been met in the first `n` days. */
  ghost predicate NoLongClosure(cal: Calendar, first: int, n: nat) {
    forall i: nat :: i <= n ==> ClosedRun(cal, first, i) < MAX_DAYS
  }

  ghost predicate ClosedDays(cal: Calendar, first: int, lo: int, hi: int) {
    forall k :: lo <= k < hi ==> ClosedDay(cal, first, k)
  }

  lemma {:induction false} ClosedRunMeaning(cal: Calendar, first: int, n: nat)
    ensures ClosedRun(cal, first, n) <= n
    ensures ClosedDays(cal, first, n - ClosedRun(cal, first, n), n)
    ensures ClosedRun(cal, first, n) < n ==> SegmentFor(cal, first + n - ClosedRun(cal, first, n) - 1).Some?
  {
    if n > 0 && SegmentFor(cal, first + n - 1).None? {
      ClosedRunMeaning(cal, first, n - 1);
      var r := ClosedRun(cal, first, n - 1);
      assert ClosedRun(cal, first, n) == r + 1;
    }
  }

  /** The first 366 days have no business time at all. */
  ghost predicate NeverOpens(cal: Calendar, moment: int) {
    ClosedDays(cal, FirstDay(cal, moment), 0, MAX_DAYS)
  }

  /** The 366 days after the first have none. */
  ghost predicate ShutsForAYear(cal: Calendar, moment: int) {
    ClosedDays(cal, FirstDay(cal, moment), 1, MAX_DAYS + 1)
  }

  /** The part of a segment from `moment` on. */
  function ClipFrom(segment: Interval, moment: int): Option<Interval> {
    NonEmpty(Max(segment.start, moment), segment.end)
  }

  ghost function ClippedDay(cal: Calendar, moment: int, k: int): Option<Interval> {
    match SegmentFor(cal, FirstDay(cal, moment) + k)
    case None => None
    case Some(s) => ClipFrom(s, moment)
  }

  /** No day from `was` up to `now` has anything left after clipping. */
  ghost predicate NothingClipped(cal: Calendar, moment: int, was: int, now: int) {
    forall k :: was <= k < now ==> ClippedDay(cal, moment, k).None?
  }

  /** The walk went from day `was` to the first day with something to yield. */
  ghost predicate YieldedDay(cal: Calendar, moment: int, was: int, now: int, segment: Interval) {
    && 0 <= was < now <= MAX_DAYS + 1
    && ClippedDay(cal, moment, now - 1) == Some(segment)
    && NothingClipped(cal, moment, was, now - 1)
  }

  lemma ClosedRunStep(cal: Calendar, first: int, n: nat)
    requires NoLongClosure(cal, first, n)
    ensures ClosedRun(cal, first, n) < MAX_DAYS
    ensures ClosedRun(cal, first, n + 1) == if SegmentFor(cal, first + n).Some? then 0 else ClosedRun(cal, first, n) + 1
    ensures ClosedRun(cal, first, n + 1) < MAX_DAYS ==> NoLongClosure(cal, first, n + 1)
  {
  }

  datatype Step = Yielded(segment: Interval) | Exhausted | NoBusinessTime

  /** The walk as an object, advanced one yielded segment at a time. */
  class SegmentWalk {
    const cal: Calendar
    const moment: int
    const first: int
    var offset: nat
    var closed: nat

    ghost predicate Valid()
      reads this
    {
      && first == FirstDay(cal, moment)
      && offset <= MAX_DAYS + 1
      && closed == ClosedRun(cal, first, offset)
      && NoLongClosure(cal, first, offset)
    }

    constructor (cal: Calendar, moment: int)
      ensures Valid() && this.cal == cal && this.moment == moment && offset == 0
    {
      this.cal := cal;
      this.moment := moment;
      this.first := cal.zone.localDay(moment);
      this.offset := 0;
      this.closed := 0;
    }

    /** The next segment, or why there is none. Days passed over yield nothing. */
    method Next() returns (s: Step)
      requires Valid()
      modifies this
      ensures s.NoBusinessTime? || Valid()
      ensures offset <= MAX_DAYS + 1 && NoLongClosure(cal, FirstDay(cal, moment), offset)
      ensures s.Yielded? ==> YieldedDay(cal, moment, old(offset), offset, s.segment)
      ensures !s.Yielded? ==> old(offset) <= offset && NothingClipped(cal, moment, old(offset), offset)
      ensures s.Exhausted? ==> offset == MAX_DAYS + 1
      ensures s.NoBusinessTime? ==> offset <= MAX_DAYS && ClosedRun(cal, FirstDay(cal, moment), offset + 1) == MAX_DAYS
    {
      hide ClosedRun, NoLongClosure, FirstDay;
      while offset <= MAX_DAYS
        invariant Valid() && old(offset) <= offset
        invariant NothingClipped(cal, moment, old(offset), offset)
        decreases MAX_DAYS + 1 - offset
      {
        ClosedRunStep(cal, first, offset);
        var segment := SegmentFor(cal, first + offset);
        if segment.None? {
          closed := closed + 1;
          if closed > MAX_DAYS - 1 {
            return NoBusinessTime;
          }
          offset := offset + 1;
        } else {
          closed := 0;
          var clipped := ClipFrom(segment.value, moment);
          offset := offset + 1;
          if clipped.Some? {
            return Yielded(clipped.value);
          }
        }
      }
      return Exhausted;
    }
  }
}
