/** What the rows of a clock mean, in terms of its policy and of the instants at which it runs. */
module ClockMeaning {
  import opened Prelude
  import opened Counting
  import opened BusinessCalendar
  import opened Pauses
  import opened Deadlines
  import opened DeadlineLaws
  import opened Clocks
  import opened ClockRows
  import opened ClockLaws
  import opened Witness
  import CalendarLaws
  import ClockTime
  import Schedules

  /** The clock runs at an instant: within the policy's opening hours if it keeps to them,
      and otherwise always; and never while paused. */
  ghost predicate RunsAt(c: Clock, x: int) {
    (c.policy.businessHoursOnly ==> Open(c.policy.calendar, x)) && !Pauses.Paused(c.intervals, x)
  }

  /** How many of the instants from `a` to `b` the clock runs at. */
  ghost function Ran(c: Clock, a: int, b: int): nat {
    Count(x => RunsAt(c, x), a, b)
  }

  /** `d` is the first instant by which the clock has run for that long. */
  ghost predicate DueAfter(c: Clock, window: int, d: int) {
    c.startedAt < d && Ran(c, c.startedAt, d) == window && forall e :: c.startedAt <= e < d ==> Ran(c, c.startedAt, e) < window
  }

  lemma RunsMeans(c: Clock, x: int)
    requires ZoneOk(c.policy.calendar.zone) && Schedules.OffsetsBounded(c.policy.calendar.zone)
    ensures RunsAt(c, x) <==> Counts(CalendarFor(c.policy), c.intervals)(x)
  {
    if !c.policy.businessHoursOnly {
      CalendarLaws.ContinuousIsOpen(c.policy.calendar.zone, x);
    }
  }

  lemma RanIsBusinessTime(c: Clock, a: int, b: int)
    requires ZoneOk(c.policy.calendar.zone) && Schedules.OffsetsBounded(c.policy.calendar.zone)
    ensures Ran(c, a, b) == BusinessTime(CalendarFor(c.policy), c.intervals, a, b)
  {
    hide RunsAt, CalendarFor, ZoneOk, Schedules.OffsetsBounded;
    forall x | a <= x < b ensures RunsAt(c, x) <==> Counts(CalendarFor(c.policy), c.intervals)(x) {
      RunsMeans(c, x);
    }
    CountAgree(x => RunsAt(c, x), Counts(CalendarFor(c.policy), c.intervals), a, b);
  }

  lemma DeadlineIsDue(c: Clock, window: int, d: int)
    requires ZoneOk(c.policy.calendar.zone) && Schedules.OffsetsBounded(c.policy.calendar.zone)
    requires DeadlineOf(CalendarFor(c.policy), c.startedAt, window, c.intervals) == Ok(d)
    ensures DueAfter(c, window, d)
  {
    hide CalendarFor, ZoneOk, Schedules.OffsetsBounded, Ran, BusinessTime;
    DeadlineIsLeast(CalendarFor(c.policy), c.startedAt, window, c.intervals, d);
    forall e ensures Ran(c, c.startedAt, e) == BusinessTime(CalendarFor(c.policy), c.intervals, c.startedAt, e) {
      RanIsBusinessTime(c, c.startedAt, e);
    }
  }

  /** In every run: an unfired row that a pause can move is the acknowledgement, the resolution
      or a warning of the policy, and shows the first instant by which the clock has run for
      the policy's minutes, for its hours, or for that percentage of its hours. */
  lemma UnfiredRowShows(c: Clock, i: nat)
    requires Inv(c) && Schedules.OffsetsBounded(c.policy.calendar.zone)
    requires i < |c.rows| && c.rows[i].pausable && c.rows[i].firedAt.None?
    ensures match c.rows[i].kind
            case Acknowledgement => c.rows[i].threshold == None && DueAfter(c, c.policy.ackMinutes * 60_000_000, c.rows[i].firesAt)
            case Resolution =>
              c.rows[i].threshold == None && DueAfter(c, c.policy.resolutionHours * 3_600_000_000, c.rows[i].firesAt)
            case Warning =>
              && c.rows[i].threshold.Some? && 0 < c.rows[i].threshold.value < 100
              && c.rows[i].threshold.value in c.policy.thresholds
              && DueAfter(c, c.policy.resolutionHours * c.rows[i].threshold.value * 36_000_000, c.rows[i].firesAt)
            case _ => false
  {
    assert WantedRow(c.policy, c.rows[i]);
    var k :| 0 <= k < |Wanted(c.policy)| && Matches(c.rows[i], Wanted(c.policy)[k]);
    assert PureDeadline(c, Wanted(c.policy)[k]) == Ok(c.rows[i].firesAt);
    WantedIs(c.policy, k);
    hide Wanted, Inv, DueAfter, DeadlineOf, CalendarFor, AckWindow, ResolutionWindow, Schedules.OffsetsBounded;
    DeadlineIsDue(c, Wanted(c.policy)[k].window, c.rows[i].firesAt);
  }

  lemma WantedIs(p: Policy, k: nat)
    requires k < |Wanted(p)|
    ensures var w := Wanted(p)[k];
            match w.kind
            case Acknowledgement => k == 0 && w.threshold == None && w.window == p.ackMinutes * 60_000_000
            case Resolution => k == 1 && w.threshold == None && w.window == p.resolutionHours * 3_600_000_000
            case Warning =>
              && w.threshold.Some? && w.threshold.value in p.thresholds && 0 < w.threshold.value < 100
              && w.window == p.resolutionHours * w.threshold.value * 36_000_000
            case _ => false
  {
    var ts := SortedSet(p.thresholds);
    SortedSetAscends(p.thresholds);
    WarningWantsDistinct(p, ts);
    if k >= 2 {
      WindowExact(p, WarningWants(p, ts)[k - 2].threshold.value);
    }
  }

  lemma WindowExact(p: Policy, t: int)
    ensures WarningWindow(p, t) == p.resolutionHours * t * 36_000_000
  {
    assert ResolutionWindow(p) * t == p.resolutionHours * t * 36_000_000 * 100;
  }

  lemma {:induction false} WarningListed(p: Policy, ts: seq<int>, t: int) returns (k: nat)
    requires t in ts && 0 < t < 100
    ensures k < |WarningWants(p, ts)| && WarningWants(p, ts)[k].kind == Warning && WarningWants(p, ts)[k].threshold == Some(t)
  {
    if ts[0] == t {
      k := 0;
    } else {
      var j := WarningListed(p, ts[1..], t);
      k := j + |WarningWants(p, ts)| - |WarningWants(p, ts[1..])|;
    }
  }

  ghost predicate RowFor(c: Clock, i: nat, kind: Kind, threshold: Option<int>) {
    i < |c.rows| && c.rows[i].kind == kind && c.rows[i].threshold == threshold && c.rows[i].pausable
  }

  /** Until it stops, a clock has an acknowledgement row, a resolution row and a row for every
      threshold its policy lists between 0 and 100, each exactly once. */
  lemma EveryDeadlineHasARow(c: Clock)
    requires Inv(c) && c.state != Stopped
    ensures exists i: nat :: RowFor(c, i, Acknowledgement, None)
    ensures exists i: nat :: RowFor(c, i, Resolution, None)
    ensures forall t :: t in c.policy.thresholds && 0 < t < 100 ==> exists i: nat :: RowFor(c, i, Warning, Some(t))
    ensures forall i: nat, j: nat, kind, threshold :: RowFor(c, i, kind, threshold) && RowFor(c, j, kind, threshold) ==> i == j
  {
    InvRows(c);
    FirstWanted(c.policy);
    hide Wanted, Inv, RowsOk;
    RowFound(c, 0);
    RowFound(c, 1);
    forall t | t in c.policy.thresholds && 0 < t < 100 ensures exists i: nat :: RowFor(c, i, Warning, Some(t)) {
      var k := ListedWanted(c.policy, t);
      RowFound(c, k);
    }
    forall i: nat, j: nat, kind, threshold | RowFor(c, i, kind, threshold) && RowFor(c, j, kind, threshold) ensures i == j {
      OnlyRow(c, i, j);
    }
  }

  lemma InvRows(c: Clock)
    requires Inv(c)
    ensures RowsOk(c.rows, c.nextRow)
  {
  }

  lemma OnlyRow(c: Clock, i: nat, j: nat)
    requires RowsOk(c.rows, c.nextRow) && i < |c.rows| && j < |c.rows| && c.rows[i].pausable && c.rows[j].pausable
    requires c.rows[i].kind == c.rows[j].kind && c.rows[i].threshold == c.rows[j].threshold
    ensures i == j
  {
  }

  lemma FirstWanted(p: Policy)
    ensures |Wanted(p)| >= 2
    ensures Wanted(p)[0].kind == Acknowledgement && Wanted(p)[0].threshold == None
    ensures Wanted(p)[1].kind == Resolution && Wanted(p)[1].threshold == None
  {
  }

  lemma ListedWanted(p: Policy, t: int) returns (k: nat)
    requires t in p.thresholds && 0 < t < 100
    ensures k < |Wanted(p)| && Wanted(p)[k].kind == Warning && Wanted(p)[k].threshold == Some(t)
  {
    SortedSetAscends(p.thresholds);
    k := WarningListed(p, SortedSet(p.thresholds), t);
    k := k + 2;
  }

  lemma RowFound(c: Clock, k: nat)
    requires Inv(c) && c.state != Stopped && k < |Wanted(c.policy)|
    ensures exists i: nat :: RowFor(c, i, Wanted(c.policy)[k].kind, Wanted(c.policy)[k].threshold)
  {
    hide Wanted, InStep, RowsKnown, RowsOk;
    var i := FindRow(c.rows, Wanted(c.policy)[k]);
    assert RowFor(c, i, Wanted(c.policy)[k].kind, Wanted(c.policy)[k].threshold);
  }

  // -- a clock just started --------------------------------------------------

  ghost predicate AllFresh(rows: seq<Row>) {
    forall i :: 0 <= i < |rows| ==> rows[i].pausable && rows[i].firedAt.None?
  }

  lemma {:induction false} FreshStays(c: Clock, wants: seq<Want>, fires: seq<int>)
    requires |wants| == |fires| && AllFresh(c.rows)
    ensures AllFresh(UpsertAll(c, wants, fires).rows)
    ensures UpsertAll(c, wants, fires)
         == c.(rows := UpsertAll(c, wants, fires).rows, nextRow := UpsertAll(c, wants, fires).nextRow)
    decreases |wants|
  {
    if wants != [] {
      FreshStays(Upsert(c, wants[0], fires[0]), wants[1..], fires[1..]);
    }
  }

  /** A started clock runs, has not been paused, and has logged its start with what is left;
      none of its rows has fired, and all of them are its policy's. */
  lemma StartedClock(policy: Policy, startedAt: int, now: int, actor: Actor)
    requires PolicyOk(policy) && Start(policy, startedAt, now, actor).Ok?
    ensures var c := Start(policy, startedAt, now, actor).value;
            && Inv(c) && AllFresh(c.rows) && c.policy == policy && c.startedAt == startedAt
            && c.state == Running && c.pausedAt == None && c.intervals == [] && c.stoppedAt == None
            && |c.events| == 1 && c.events[0].kind == EvStarted && c.events[0].occurredAt == startedAt
            && RemainingSeconds(c, startedAt) == Ok(c.events[0].remaining)
  {
    hide Inv, RemainingSeconds, Materialise, AllFresh;
    StartInv(policy, startedAt, now, actor);
    WrittenClock(policy, startedAt, now);
    var written := Materialise(NewClock(policy, startedAt), now).value;
    var c := Start(policy, startedAt, now, actor).value;
    ClockTime.EventsApart(written, c.events, startedAt);
  }

  lemma WrittenClock(policy: Policy, startedAt: int, now: int)
    requires Materialise(NewClock(policy, startedAt), now).Ok?
    ensures var c := Materialise(NewClock(policy, startedAt), now).value;
            AllFresh(c.rows) && c == NewClock(policy, startedAt).(rows := c.rows, nextRow := c.nextRow)
  {
    hide FiresAll, Wanted, UpsertAll, CalendarFor;
    var c := NewClock(policy, startedAt);
    var fires := FiresAll(CalendarFor(policy), startedAt, PausesOf(c, now), Wanted(policy)).value;
    FreshStays(c, Wanted(policy), fires);
  }

  // -- what each operation writes --------------------------------------------

  /** A clock is paused exactly when there is a reason, it runs, what is left can be computed and
      somebody is named; its pause begins then, and is logged with reason and time left. */
  lemma PauseWrites(c: Clock, reason: string, actor: Actor, at: int)
    ensures var paused := c.(state := Paused, pausedAt := Some(at));
            && (Pause(c, reason, actor, at).Ok?
                <==> !Blank(reason) && c.state == Running && RemainingSeconds(paused, at).Ok? && ActorOk(actor))
            && (Pause(c, reason, actor, at).Ok? ==>
                  Pause(c, reason, actor, at).value
                  == paused.(events := c.events + [Event(EvPaused, at, reason, RemainingSeconds(paused, at).value)]))
  {
    hide RemainingSeconds, Blank, ActorOk;
  }

  /** A resume closes the open pause and keeps it, starts the clock again, and is logged after
      the rows are rewritten; nothing but the rows changes otherwise. */
  lemma ResumeWrites(c: Clock, reason: string, actor: Actor, at: int, now: int)
    requires Resume(c, reason, actor, at, now).Ok?
    ensures !Blank(reason) && c.state == Paused && c.pausedAt.Some? && ActorOk(actor)
    ensures var d := Resume(c, reason, actor, at, now).value;
            && d.state == Running && d.pausedAt == None && d.intervals == c.intervals + [(c.pausedAt.value, at)]
            && d.policy == c.policy && d.startedAt == c.startedAt && d.stoppedAt == c.stoppedAt
            && |d.events| == |c.events| + 1 && d.events[..|c.events|] == c.events
            && var e := d.events[|c.events|];
               && e == Event(EvResumed, at, reason, e.remaining) && RemainingSeconds(d, at) == Ok(e.remaining)
  {
    hide RemainingSeconds, Blank, ActorOk, FiresAll, UpsertAll, Wanted;
    var again := c.(intervals := c.intervals + [(c.pausedAt.value, at)], state := Running, pausedAt := None);
    var written := Materialise(again, now).value;
    WrittenRows(again, now);
    ClockTime.EventsApart(written, Resume(c, reason, actor, at, now).value.events, at);
  }

  lemma WrittenRows(c: Clock, now: int)
    requires Materialise(c, now).Ok?
    ensures var d := Materialise(c, now).value; d == c.(rows := d.rows, nextRow := d.nextRow)
  {
    hide FiresAll, Wanted, UpsertAll, CalendarFor;
    OnlyRowsWritten(c, Wanted(c.policy), FiresAll(CalendarFor(c.policy), c.startedAt, PausesOf(c, now), Wanted(c.policy)).value);
  }

  lemma {:induction false} OnlyRowsWritten(c: Clock, wants: seq<Want>, fires: seq<int>)
    requires |wants| == |fires|
    ensures UpsertAll(c, wants, fires)
         == c.(rows := UpsertAll(c, wants, fires).rows, nextRow := UpsertAll(c, wants, fires).nextRow)
    decreases |wants|
  {
    if wants != [] {
      OnlyRowsWritten(Upsert(c, wants[0], fires[0]), wants[1..], fires[1..]);
    }
  }

  /** A stop keeps exactly the rows that fired and any reopen window, and is logged; a paused
      clock's open pause is not closed. */
  lemma StopWrites(c: Clock, actor: Actor, at: int)
    requires Stop(c, actor, at).Ok?
    ensures var d := Stop(c, actor, at).value;
            && ActorOk(actor) && d.state == Stopped && d.stoppedAt == Some(at)
            && d.pausedAt == c.pausedAt && d.intervals == c.intervals && d.policy == c.policy && d.startedAt == c.startedAt
            && (forall r :: r in d.rows <==> r in c.rows && (r.firedAt.Some? || r.kind == ReopenWindow))
            && |d.events| == |c.events| + 1 && d.events[..|c.events|] == c.events
            && d.events[|c.events|].kind == EvStopped && d.events[|c.events|].occurredAt == at
  {
    KeepOnStopMembers(c.rows);
    hide RemainingSeconds, ActorOk, KeepOnStop;
  }

  /** A row fires when it has not, its instant has come and the clock has not stopped: a breach
      if it is the acknowledgement or the resolution, a warning otherwise. */
  lemma FireWrites(c: Clock, i: nat, now: int)
    ensures if i < |c.rows| && c.rows[i].firedAt.None? && c.rows[i].firesAt <= now && c.state != Stopped then
              Fire(c, i, now)
              == c.(rows := c.rows[i := c.rows[i].(firedAt := Some(now))],
                    events := c.events + [Event(if c.rows[i].kind == Acknowledgement || c.rows[i].kind == Resolution
                                                then EvBreached else EvWarned, now, "", 0)])
            else Fire(c, i, now) == c
  {
  }

  /** A card scheme's window is counted in days of 24 hours from the chargeback, with warnings
      at half, four fifths and nineteen twentieths of it; no pause moves any of them. */
  lemma SchemeWrites(c: Clock, chargebackAt: int, days: nat)
    requires forall i :: 0 <= i < |c.rows| ==> c.rows[i].kind != SchemeWarning
    ensures var n, hour := c.nextRow, 3_600_000_000;
            && OpenScheme(c, chargebackAt, days).rows
               == c.rows + [Row(n, SchemeRepresentment, None, chargebackAt + days * 24 * hour, None, false),
                            Row(n + 1, SchemeWarning, Some(50), chargebackAt + days * 12 * hour, None, false),
                            Row(n + 2, SchemeWarning, Some(80), chargebackAt + days * 24 * hour * 4 / 5, None, false),
                            Row(n + 3, SchemeWarning, Some(95), chargebackAt + days * 24 * hour * 19 / 20, None, false)]
            && OpenScheme(c, chargebackAt, days)
               == c.(rows := OpenScheme(c, chargebackAt, days).rows, nextRow := n + 4)
  {
    var window := days * DAY;
    assert window * 50 / 100 == days * 12 * 3_600_000_000;
    assert window * 80 / 100 == window * 4 / 5 && window * 95 / 100 == window * 19 / 20;
    var c0 := AddUnpausable(c, SchemeRepresentment, None, chargebackAt + window);
    var c1 := AddUnpausable(c0, SchemeWarning, Some(50), chargebackAt + window * 50 / 100);
    var c2 := AddUnpausable(c1, SchemeWarning, Some(80), chargebackAt + window * 80 / 100);
    assert |c0.rows| == |c.rows| + 1 && |c1.rows| == |c.rows| + 2 && |c2.rows| == |c.rows| + 3;
  }

  // -- two policies over one office ------------------------------------------

  /** An hour to acknowledge and 24 to resolve, over the calendar of an office. */
  function OfficePolicy(businessHoursOnly: bool): Policy {
    Policy(60, 24, businessHoursOnly, CalendarLaws.Office({}), [])
  }

  const STARTED := CalendarLaws.FRIDAY * DAY + CalendarLaws.FIVE - CalendarLaws.HALF_HOUR

  /** Started on Friday at half past four, in business hours: Monday at half past nine, and
      Wednesday at half past four. Round the clock: Friday at half past five, and Saturday at
      half past four, whatever the office's hours. */
  lemma OfficeClocks(now: int)
    ensures var c := Start(OfficePolicy(true), STARTED, now, AGENT);
            && c.Ok? && |c.value.rows| == 2
            && c.value.rows[0].kind == Acknowledgement
            && c.value.rows[0].firesAt == (CalendarLaws.FRIDAY + 3) * DAY + CalendarLaws.NINE + CalendarLaws.HALF_HOUR
            && c.value.rows[1].kind == Resolution
            && c.value.rows[1].firesAt == (CalendarLaws.FRIDAY + 5) * DAY + CalendarLaws.FIVE - CalendarLaws.HALF_HOUR
    ensures var c := Start(OfficePolicy(false), STARTED, now, AGENT);
            && c.Ok? && |c.value.rows| == 2
            && c.value.rows[0].kind == Acknowledgement && c.value.rows[0].firesAt == STARTED + HOUR
            && c.value.rows[1].kind == Resolution && c.value.rows[1].firesAt == STARTED + DAY
  {
    CalendarLaws.AnHourOverTheWeekend();
    CalendarLaws.ThreeWorkingDays();
    PlainDeadline(STARTED, HOUR);
    PlainDeadline(STARTED, DAY);
    OfficeCalendars();
    hide Start, CalendarFor, CalendarLaws.Office, DeadlineOf, NeverOpens, ShutsForAYear, PlainCalendar;
    var weekdays := CalendarLaws.Office({});
    TwoRows(OfficePolicy(true), weekdays, (CalendarLaws.FRIDAY + 3) * DAY + CalendarLaws.NINE + CalendarLaws.HALF_HOUR,
            (CalendarLaws.FRIDAY + 5) * DAY + CalendarLaws.FIVE - CalendarLaws.HALF_HOUR, now);
    TwoRows(OfficePolicy(false), PlainCalendar(), STARTED + HOUR, STARTED + DAY, now);
  }

  lemma OfficeCalendars()
    ensures CalendarFor(OfficePolicy(true)) == CalendarLaws.Office({}) && CalendarFor(OfficePolicy(false)) == PlainCalendar()
    ensures !NeverOpens(CalendarLaws.Office({}), STARTED) && !ShutsForAYear(CalendarLaws.Office({}), STARTED)
    ensures !NeverOpens(PlainCalendar(), STARTED) && !ShutsForAYear(PlainCalendar(), STARTED)
  {
    assert CalendarFor(OfficePolicy(false)) == Continuous(CalendarLaws.Office({}).zone);
    hide SegmentFor;
    PlainWalk(STARTED);
    OfficeOpens();
  }

  lemma OfficeOpens()
    ensures !NeverOpens(CalendarLaws.Office({}), STARTED) && !ShutsForAYear(CalendarLaws.Office({}), STARTED)
  {
    assert !ClosedDay(CalendarLaws.Office({}), CalendarLaws.FRIDAY, 3);
    assert STARTED / DAY == CalendarLaws.FRIDAY;
  }

  /** Starting on a policy with no warnings writes its two deadlines. */
  lemma TwoRows(p: Policy, cal: Calendar, ack: int, resolution: int, now: int)
    requires p.thresholds == [] && CalendarFor(p) == cal && !NeverOpens(cal, STARTED) && !ShutsForAYear(cal, STARTED)
    requires DeadlineOf(cal, STARTED, AckWindow(p), []) == Ok(ack)
    requires DeadlineOf(cal, STARTED, ResolutionWindow(p), []) == Ok(resolution)
    requires STARTED <= resolution
    ensures var c := Start(p, STARTED, now, AGENT);
            && c.Ok? && |c.value.rows| == 2
            && c.value.rows[0].kind == Acknowledgement && c.value.rows[0].firesAt == ack
            && c.value.rows[1].kind == Resolution && c.value.rows[1].firesAt == resolution
  {
    hide Materialise, DeadlineOf, NeverOpens, ShutsForAYear, CalendarFor, AckWindow, ResolutionWindow;
    TwoWritten(p, cal, ack, resolution, now);
    var written := Materialise(NewClock(p, STARTED), now).value;
    assert ResolutionRow(written.rows[1..]) == Some(written.rows[1]);
    assert ResolutionRow(written.rows) == Some(written.rows[1]);
  }

  lemma TwoWritten(p: Policy, cal: Calendar, ack: int, resolution: int, now: int)
    requires p.thresholds == [] && CalendarFor(p) == cal
    requires DeadlineOf(cal, STARTED, AckWindow(p), []) == Ok(ack)
    requires DeadlineOf(cal, STARTED, ResolutionWindow(p), []) == Ok(resolution)
    ensures Materialise(NewClock(p, STARTED), now)
         == Ok(NewClock(p, STARTED).(rows := [Row(0, Acknowledgement, None, ack, None, true),
                                              Row(1, Resolution, None, resolution, None, true)], nextRow := 2))
  {
    var wants := [Want(Acknowledgement, None, AckWindow(p)), Want(Resolution, None, ResolutionWindow(p))];
    assert Wanted(p) == wants;
    hide Wanted, DeadlineOf, CalendarFor, AckWindow, ResolutionWindow, FiresAll, UpsertAll;
    TwoFires(cal, wants, ack, resolution);
    PlainRows(NewClock(p, STARTED), wants, [ack, resolution]);
  }

  lemma TwoFires(cal: Calendar, wants: seq<Want>, ack: int, resolution: int)
    requires |wants| == 2
    requires DeadlineOf(cal, STARTED, wants[0].window, []) == Ok(ack)
    requires DeadlineOf(cal, STARTED, wants[1].window, []) == Ok(resolution)
    ensures FiresAll(cal, STARTED, [], wants) == Ok([ack, resolution])
  {
    hide DeadlineOf;
    assert FiresAll(cal, STARTED, [], wants[1..][1..]) == Ok([]);
    assert FiresAll(cal, STARTED, [], wants[1..]) == Ok([resolution] + []);
    assert FiresAll(cal, STARTED, [], wants) == Ok([ack] + ([resolution] + []));
    assert [ack] + ([resolution] + []) == [ack, resolution];
  }
}
