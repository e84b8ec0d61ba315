/** A plain setting for concrete runs: UTC, always open, a one-hour acknowledgement
    and a 24-hour resolution, no warnings. */
module Witness {
  import opened Prelude
  import opened Counting
  import opened BusinessCalendar
  import opened Pauses
  import opened Deadlines
  import opened DeadlineLaws
  import opened Clocks

  const HOUR := 3600 * SECOND
  const SIGHT := 366 * DAY

  const AGENT := Actor("user", "ada")

  function PlainCalendar(): Calendar {
    Continuous(UtcZone())
  }

  function PlainPolicy(): Policy {
    Policy(60, 24, false, PlainCalendar(), [])
  }

  lemma PlainPolicyOk()
    ensures PolicyOk(PlainPolicy()) && CalendarFor(PlainPolicy()) == PlainCalendar()
  {
  }

  lemma PlainSegment(day: int)
    ensures SegmentFor(PlainCalendar(), day) == Some(Interval(day * DAY, (day + 1) * DAY))
  {
  }

  lemma PlainOpen(x: int)
    ensures Open(PlainCalendar(), x)
  {
    PlainSegment(x / DAY);
    assert InSegment(PlainCalendar(), x / DAY, x);
  }

  /** A walk on it never fails and sees at least 366 days ahead. */
  lemma PlainWalk(moment: int)
    ensures !NeverOpens(PlainCalendar(), moment) && !ShutsForAYear(PlainCalendar(), moment)
    ensures Horizon(PlainCalendar(), moment) >= moment + SIGHT
  {
    var first := FirstDay(PlainCalendar(), moment);
    PlainSegment(first);
    PlainSegment(first + 1);
    assert !ClosedDay(PlainCalendar(), first, 0) && !ClosedDay(PlainCalendar(), first, 1);
  }

  lemma UnpausedSpan(pauses: PauseList, a: int, b: int)
    requires a <= b && forall x :: a <= x < b ==> !Pauses.Paused(pauses, x)
    ensures BusinessTime(PlainCalendar(), pauses, a, b) == b - a
  {
    forall x | a <= x < b ensures Counts(PlainCalendar(), pauses)(x) {
      PlainOpen(x);
    }
    CountAll(Counts(PlainCalendar(), pauses), a, b);
  }

  /** A window begun `gap` before the pauses end is over that much later. */
  lemma PlainDeadlineAfter(start: int, gap: nat, window: int, pauses: PauseList)
    requires 0 < window && gap + window <= SIGHT
    requires forall x :: start <= x < start + gap ==> Pauses.Paused(pauses, x)
    requires forall x :: start + gap <= x < start + gap + window ==> !Pauses.Paused(pauses, x)
    ensures DeadlineOf(PlainCalendar(), start, window, pauses) == Ok(start + gap + window)
  {
    hide PlainCalendar, Count, NeverOpens, Horizon, Pauses.Paused;
    PlainWalk(start);
    var d := start + gap + window;
    CountNone(Counts(PlainCalendar(), pauses), start, start + gap);
    UnpausedSpan(pauses, start + gap, d);
    CountSplit(Counts(PlainCalendar(), pauses), start, start + gap, d);
    PlainOpen(d - 1);
    DeadlineIs(PlainCalendar(), start, window, pauses, d);
  }

  lemma PlainDeadline(start: int, window: int)
    requires 0 < window <= SIGHT
    ensures DeadlineOf(PlainCalendar(), start, window, []) == Ok(start + window)
  {
    PlainDeadlineAfter(start, 0, window, []);
  }

  lemma PlainMeasure(pauses: PauseList, a: int, b: int)
    requires a <= b <= a + SIGHT && forall x :: a <= x < b ==> !Pauses.Paused(pauses, x)
    ensures TimeBetween(PlainCalendar(), a, b, pauses) == Ok(b - a)
  {
    hide PlainCalendar, Count, NeverOpens, Horizon, ShutsForAYear;
    PlainWalk(a);
    UnpausedSpan(pauses, a, b);
  }

  // -- a started clock -------------------------------------------------------

  function PlainClock(startedAt: int): Clock {
    Clock(PlainPolicy(), startedAt, Running, None, [], None,
          [Row(0, Acknowledgement, None, startedAt + HOUR, None, true),
           Row(1, Resolution, None, startedAt + DAY, None, true)], 2,
          [Event(EvStarted, startedAt, "", 86_400)])
  }

  function PlainWants(): seq<Want> {
    [Want(Acknowledgement, None, HOUR), Want(Resolution, None, DAY)]
  }

  lemma PlainWanted()
    ensures Wanted(PlainPolicy()) == PlainWants()
  {
  }

  lemma PlainFires(startedAt: int)
    ensures FiresAll(PlainCalendar(), startedAt, [], PlainWants()) == Ok([startedAt + HOUR, startedAt + DAY])
  {
    hide DeadlineOf, PlainCalendar;
    var wants, cal := PlainWants(), PlainCalendar();
    PlainDeadline(startedAt, HOUR);
    PlainDeadline(startedAt, DAY);
    assert FiresAll(cal, startedAt, [], wants[1..][1..]) == Ok([]);
    assert FiresAll(cal, startedAt, [], wants[1..]) == Ok([startedAt + DAY] + []);
    assert FiresAll(cal, startedAt, [], wants) == Ok([startedAt + HOUR] + ([startedAt + DAY] + []));
    assert [startedAt + HOUR] + ([startedAt + DAY] + []) == [startedAt + HOUR, startedAt + DAY];
  }

  lemma PlainMaterialised(startedAt: int, now: int)
    ensures Materialise(NewClock(PlainPolicy(), startedAt), now) == Ok(PlainClock(startedAt).(events := []))
  {
    hide FiresAll, PlainCalendar, CalendarFor, Wanted, UpsertAll;
    PlainPolicyOk();
    PlainWanted();
    PlainFires(startedAt);
    PlainRows(NewClock(PlainPolicy(), startedAt), PlainWants(), [startedAt + HOUR, startedAt + DAY]);
  }

  lemma PlainRows(c: Clock, wants: seq<Want>, fires: seq<int>)
    requires |wants| == |fires| == 2 && c.rows == [] && c.nextRow == 0 && wants[0].kind != wants[1].kind
    ensures UpsertAll(c, wants, fires)
         == c.(rows := [Row(0, wants[0].kind, wants[0].threshold, fires[0], None, true),
                        Row(1, wants[1].kind, wants[1].threshold, fires[1], None, true)], nextRow := 2)
  {
    var d := Upsert(c, wants[0], fires[0]);
    assert FindRow(d.rows, wants[1]) == 1;
    assert UpsertAll(Upsert(d, wants[1], fires[1]), wants[2..], fires[2..]) == Upsert(d, wants[1], fires[1]);
    assert wants[1..][1..] == wants[2..] && fires[1..][1..] == fires[2..];
  }

  /** The rows of that clock, and what is left before its deadline. */
  lemma PlainRemaining(c: Clock, startedAt: int, at: int)
    requires c.policy == PlainPolicy() && c.rows == PlainClock(startedAt).rows
    requires startedAt <= at <= startedAt + DAY
    requires forall x :: at <= x < startedAt + DAY ==> !Pauses.Paused(PausesOf(c, at), x)
    ensures RemainingSeconds(c, at) == Ok((startedAt + DAY - at) / SECOND)
  {
    hide PlainCalendar, Continuous, Pauses.Paused, PausesOf, TimeBetween;
    PlainPolicyOk();
    PlainMeasure(PausesOf(c, at), at, startedAt + DAY);
    assert ResolutionRow(c.rows[1..]) == Some(c.rows[1]);
  }

  lemma PlainStart(startedAt: int, now: int)
    ensures Start(PlainPolicy(), startedAt, now, AGENT) == Ok(PlainClock(startedAt))
  {
    hide Materialise, RemainingSeconds;
    PlainMaterialised(startedAt, now);
    var c := PlainClock(startedAt).(events := []);
    PlainRemaining(c, startedAt, startedAt);
    assert Record(c, EvStarted, startedAt, "", AGENT).Ok?;
    assert c.events + [Event(EvStarted, startedAt, "", 86_400)] == PlainClock(startedAt).events;
  }
}
