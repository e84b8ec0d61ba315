/** Time left on a clock, the order of its deadlines, and the nightly check of its
    rows against the arithmetic. */
module ClockTime {
  import opened Prelude
  import opened Counting
  import opened BusinessCalendar
  import opened Pauses
  import opened Deadlines
  import opened DeadlineLaws
  import opened Clocks
  import opened ClockRows
  import opened ClockLaws
  import opened ClockHistory
  import opened Witness

  // -- every clock that was ever started -------------------------------------

  /** Some run of a started clock leads here. */
  ghost predicate Reachable(c: Clock) {
    exists policy, startedAt, now, actor, actions: seq<Action> ::
      PolicyOk(policy) && Start(policy, startedAt, now, actor).Ok?
      && c == Run(Start(policy, startedAt, now, actor).value, actions)
  }

  lemma ReachableOk(c: Clock)
    requires Reachable(c)
    ensures Inv(c) && LogAgrees(c)
  {
    var policy, startedAt, now, actor, actions: seq<Action> :|
      PolicyOk(policy) && Start(policy, startedAt, now, actor).Ok?
      && c == Run(Start(policy, startedAt, now, actor).value, actions);
    StartInv(policy, startedAt, now, actor);
    StartLog(policy, startedAt, now, actor);
    RunInv(Start(policy, startedAt, now, actor).value, actions);
    RunLog(Start(policy, startedAt, now, actor).value, actions);
  }

  // -- the order of deadlines ------------------------------------------------

  lemma WarningWindowsOrdered(p: Policy, t1: int, t2: int)
    requires 0 < p.resolutionHours && 0 < t1 < t2 <= 100
    ensures 0 < WarningWindow(p, t1) < WarningWindow(p, t2)
    ensures t2 == 100 ==> WarningWindow(p, t2) == ResolutionWindow(p)
  {
    WarningWindowExact(p, t1);
    WarningWindowExact(p, t2);
    assert p.resolutionHours * t1 < p.resolutionHours * t2;
    assert 0 < p.resolutionHours * t1;
  }

  /** A percentage of whole hours is a whole number of ticks. */
  lemma WarningWindowExact(p: Policy, t: int)
    ensures WarningWindow(p, t) == p.resolutionHours * t * (36 * SECOND)
  {
    var n := p.resolutionHours * t * (36 * SECOND);
    assert ResolutionWindow(p) * t == n * 100;
  }

  /** Warnings fall in the order of their thresholds, all before the resolution deadline. */
  lemma WarningsInOrder(c: Clock, t1: int, t2: int)
    requires 0 < c.policy.resolutionHours && 0 < t1 < t2 < 100
    requires PureDeadline(c, Want(Resolution, None, ResolutionWindow(c.policy))).Ok?
    ensures var d1 := PureDeadline(c, Want(Warning, Some(t1), WarningWindow(c.policy, t1)));
            var d2 := PureDeadline(c, Want(Warning, Some(t2), WarningWindow(c.policy, t2)));
            var d := PureDeadline(c, Want(Resolution, None, ResolutionWindow(c.policy)));
            d1.Ok? && d2.Ok? && d1.value < d2.value < d.value
  {
    var cal, p := CalendarFor(c.policy), c.policy;
    WarningWindowsOrdered(p, t1, t2);
    WarningWindowsOrdered(p, t2, 100);
    WindowsOrdered(cal, c.startedAt, WarningWindow(p, t2), ResolutionWindow(p), c.intervals);
    WindowsOrdered(cal, c.startedAt, WarningWindow(p, t1), WarningWindow(p, t2), c.intervals);
  }

  // -- time left -------------------------------------------------------------

  ghost function Signed(p: int -> bool, a: int, b: int): int {
    Count(p, a, b) - Count(p, b, a)
  }

  /** Business time since the start, negative before it. */
  ghost function Elapsed(c: Clock, at: int): int {
    Signed(Counts(CalendarFor(c.policy), c.intervals), c.startedAt, at)
  }

  /** Whole seconds, towards zero. */
  function WholeSeconds(ticks: int): int {
    if ticks >= 0 then ticks / SECOND else -((-ticks) / SECOND)
  }

  lemma {:induction false} ResolutionRowFound(rows: seq<Row>, i: nat)
    requires i < |rows| && rows[i].kind == Resolution
    requires forall j :: 0 <= j < |rows| && rows[j].kind == Resolution ==> j == i
    ensures ResolutionRow(rows) == Some(rows[i])
  {
    if i > 0 {
      assert rows[0].kind != Resolution;
      assert forall j :: 0 <= j < |rows[1..]| ==> rows[1..][j] == rows[j + 1];
      ResolutionRowFound(rows[1..], i - 1);
    }
  }

  /** A clock that has not stopped has exactly one resolution row, and while it has
      not fired it shows the pure deadline. */
  lemma ResolutionInStep(c: Clock)
    requires Inv(c) && c.state != Stopped
    ensures ResolutionRow(c.rows).Some?
    ensures forall j, k :: 0 <= j < k < |c.rows| ==> c.rows[j].kind != Resolution || c.rows[k].kind != Resolution
    ensures var r := ResolutionRow(c.rows).value;
            r in c.rows
            && (r.firedAt.None? ==> PureDeadline(c, Want(Resolution, None, ResolutionWindow(c.policy))) == Ok(r.firesAt))
  {
    WantedDistinct(c.policy);
    var w := Wanted(c.policy)[1];
    assert w == Want(Resolution, None, ResolutionWindow(c.policy));
    var i := FindRow(c.rows, w);
    assert i < |c.rows| && Matches(c.rows[i], w);
    forall j | 0 <= j < |c.rows| && c.rows[j].kind == Resolution ensures j == i {
      assert c.rows[j].pausable;
      var k :| 0 <= k < |Wanted(c.policy)| && Matches(c.rows[j], Wanted(c.policy)[k]);
      assert k == 1;
    }
    ResolutionRowFound(c.rows, i);
  }

  lemma SignedSplit(p: int -> bool, s: int, at: int, d: int)
    requires s < d
    ensures Count(p, s, d) == Signed(p, s, at) + Signed(p, at, d)
  {
    if at < s {
      CountSplit(p, at, s, d);
    } else if at <= d {
      CountSplit(p, s, at, d);
    } else {
      CountSplit(p, s, d, at);
    }
  }

  /** The business time that the walk measuring from `at` to the deadline `d`, or back,
      cannot see: it lies past that walk's horizon. */
  ghost function Unseen(c: Clock, at: int, d: int): int {
    var cal, from, to := CalendarFor(c.policy), Min(at, d), Max(at, d);
    var u: int := BusinessTime(cal, c.intervals, Max(from, Min(to, Horizon(cal, from))), to);
    if at <= d then u else -u
  }

  /** Conservation: on a running clock whose resolution row has not fired, what is
      left is the resolution window less what has elapsed, before the deadline and
      past it alike; a walk that meets its horizon first reports that much less. */
  lemma RemainingIsWindowLessElapsed(c: Clock, at: int)
    requires Inv(c) && c.state == Running
    requires ResolutionRow(c.rows).Some? ==> ResolutionRow(c.rows).value.firedAt.None?
    requires RemainingSeconds(c, at).Ok?
    ensures ResolutionRow(c.rows).Some?
    ensures var d := ResolutionRow(c.rows).value.firesAt;
            && RemainingSeconds(c, at).value == WholeSeconds(ResolutionWindow(c.policy) - Elapsed(c, at) - Unseen(c, at, d))
            && (Max(at, d) <= Horizon(CalendarFor(c.policy), Min(at, d)) ==> Unseen(c, at, d) == 0)
  {
    hide *;
    ResolutionInStep(c);
    var d := ResolutionRow(c.rows).value.firesAt;
    WindowSplit(c, at, d);
    RemainingIsSigned(c, at, d);
    if Max(at, d) <= Horizon(CalendarFor(c.policy), Min(at, d)) { UnseenNothing(c, at, d); }
  }

  lemma WindowSplit(c: Clock, at: int, d: int)
    requires PureDeadline(c, Want(Resolution, None, ResolutionWindow(c.policy))) == Ok(d)
    ensures ResolutionWindow(c.policy) == Elapsed(c, at) + Signed(Counts(CalendarFor(c.policy), c.intervals), at, d)
  {
    var cal := CalendarFor(c.policy);
    hide Count, CalendarFor, ResolutionWindow, DeadlineOf;
    DeadlineIsLeast(cal, c.startedAt, ResolutionWindow(c.policy), c.intervals, d);
    SignedSplit(Counts(cal, c.intervals), c.startedAt, at, d);
  }

  lemma UnseenNothing(c: Clock, at: int, d: int)
    requires Max(at, d) <= Horizon(CalendarFor(c.policy), Min(at, d))
    ensures Unseen(c, at, d) == 0
  {
  }

  lemma RemainingIsSigned(c: Clock, at: int, d: int)
    requires c.state == Running && RemainingSeconds(c, at).Ok?
    requires ResolutionRow(c.rows).Some? && ResolutionRow(c.rows).value.firesAt == d
    ensures RemainingSeconds(c, at).value
         == WholeSeconds(Signed(Counts(CalendarFor(c.policy), c.intervals), at, d) - Unseen(c, at, d))
  {
    hide Horizon;
    var cal, p, from, to := CalendarFor(c.policy), Counts(CalendarFor(c.policy), c.intervals), Min(at, d), Max(at, d);
    CountSplit(p, from, Max(from, Min(to, Horizon(cal, from))), to);
  }

  // -- time left while paused ------------------------------------------------

  /** Outside the open pause, adding it changes nothing. */
  lemma OpenPauseApart(c: Clock, at: int, a: int, b: int)
    requires c.state == Paused && c.pausedAt.Some? && c.pausedAt.value <= at
    requires at <= a || b <= c.pausedAt.value
    ensures BusinessTime(CalendarFor(c.policy), PausesOf(c, at), a, b) == BusinessTime(CalendarFor(c.policy), c.intervals, a, b)
  {
    hide CalendarFor;
    var cal, iv := CalendarFor(c.policy), (c.pausedAt.value, at);
    forall x | a <= x < b ensures Counts(cal, c.intervals)(x) == Counts(cal, c.intervals + [iv])(x) {
      PausedAppend(c.intervals, iv, x);
    }
    CountAgree(Counts(cal, c.intervals), Counts(cal, c.intervals + [iv]), a, b);
  }

  /** Inside it nothing counts. */
  lemma OpenPauseHolds(c: Clock, at: int, a: int, b: int)
    requires c.state == Paused && c.pausedAt.Some? && c.pausedAt.value <= a && b <= at
    ensures BusinessTime(CalendarFor(c.policy), PausesOf(c, at), a, b) == 0
  {
    hide CalendarFor;
    var cal, iv := CalendarFor(c.policy), (c.pausedAt.value, Max(c.pausedAt.value, at));
    forall x | a <= x < b ensures !Counts(cal, PausesOf(c, at))(x) {
      PausedAppend(c.intervals, iv, x);
    }
    CountNone(Counts(cal, PausesOf(c, at)), a, b);
  }

  ghost function PausedLeft(c: Clock, at: int, d: int): int
    requires c.pausedAt.Some?
  {
    var cal := CalendarFor(c.policy);
    if at <= d then BusinessTime(cal, c.intervals, at, Min(d, Horizon(cal, at))) / SECOND
    else -(BusinessTime(cal, c.intervals, d, Min(c.pausedAt.value, Horizon(cal, d))) / SECOND)
  }

  /** What a paused clock reads. Up to the deadline it is what is left from that very
      instant; past it, it is what had passed between the deadline and the pause, or
      nothing, whatever the instant. */
  lemma PausedReading(c: Clock, at: int)
    requires Inv(c) && c.state == Paused && c.pausedAt.value <= at && RemainingSeconds(c, at).Ok?
    ensures ResolutionRow(c.rows).Some?
    ensures RemainingSeconds(c, at).value == PausedLeft(c, at, ResolutionRow(c.rows).value.firesAt)
  {
    PauseIsMarked(c);
    ResolutionInStep(c);
    hide Inv, Horizon, BusinessTime, PausesOf, CalendarFor;
    var cal, d := CalendarFor(c.policy), ResolutionRow(c.rows).value.firesAt;
    if at <= d {
      OpenPauseApart(c, at, at, Min(d, Horizon(cal, at)));
    } else {
      PausedPast(c, at, d, Min(at, Horizon(cal, d)));
    }
  }

  lemma PauseIsMarked(c: Clock)
    requires Inv(c) && c.state == Paused
    ensures c.pausedAt.Some?
  {
  }

  lemma PausedPast(c: Clock, at: int, d: int, to: int)
    requires c.state == Paused && c.pausedAt.Some? && c.pausedAt.value <= at && d < at && to <= at
    ensures BusinessTime(CalendarFor(c.policy), PausesOf(c, at), d, to)
         == BusinessTime(CalendarFor(c.policy), c.intervals, d, Min(c.pausedAt.value, to))
  {
    hide PausesOf, CalendarFor;
    var p, counts := c.pausedAt.value, Counts(CalendarFor(c.policy), PausesOf(c, at));
    OpenPauseApart(c, at, d, Min(p, to));
    OpenPauseHolds(c, at, Max(p, d), to);
    if d <= p <= to {
      CountSplit(counts, d, p, to);
    }
  }

  /** Remaining time is not frozen by a pause: between two readings it never rises, and
      it falls exactly when a whole second of business time lies between them before
      the deadline. From the deadline on nothing changes it any more. */
  lemma PausedReadingFallsExactlyWhen(c: Clock, t1: int, t2: int)
    requires Inv(c) && c.state == Paused && c.pausedAt.value <= t1 <= t2
    requires RemainingSeconds(c, t1).Ok? && RemainingSeconds(c, t2).Ok?
    requires ResolutionRow(c.rows).Some? ==> SeesDeadline(c, t1, ResolutionRow(c.rows).value.firesAt)
    requires ResolutionRow(c.rows).Some? ==> SeesDeadline(c, t2, ResolutionRow(c.rows).value.firesAt)
    ensures ResolutionRow(c.rows).Some?
    ensures var cal, d := CalendarFor(c.policy), ResolutionRow(c.rows).value.firesAt;
            var from, to := Min(t1, d), Min(t2, d);
            && RemainingSeconds(c, t2).value <= RemainingSeconds(c, t1).value
            && (RemainingSeconds(c, t2).value < RemainingSeconds(c, t1).value
                <==> BusinessTime(cal, c.intervals, from, d) % SECOND < BusinessTime(cal, c.intervals, from, to))
  {
    hide *;
    PauseIsMarked(c);
    PausedReading(c, t1);
    PausedReading(c, t2);
    PausedLeftFalls(c, t1, t2, ResolutionRow(c.rows).value.firesAt);
  }

  lemma PausedLeftFalls(c: Clock, t1: int, t2: int, d: int)
    requires c.pausedAt.Some? && c.pausedAt.value <= t1 <= t2 && SeesDeadline(c, t1, d) && SeesDeadline(c, t2, d)
    ensures var cal, from, to := CalendarFor(c.policy), Min(t1, d), Min(t2, d);
            && PausedLeft(c, t2, d) <= PausedLeft(c, t1, d)
            && (PausedLeft(c, t2, d) < PausedLeft(c, t1, d)
                <==> BusinessTime(cal, c.intervals, from, d) % SECOND < BusinessTime(cal, c.intervals, from, to))
  {
    hide Horizon, CalendarFor, Counts;
    var cal, from, to := CalendarFor(c.policy), Min(t1, d), Min(t2, d);
    CountSplit(Counts(cal, c.intervals), from, to, d);
    WholeSecondCrossed(BusinessTime(cal, c.intervals, from, d), BusinessTime(cal, c.intervals, from, to));
  }

  lemma WholeSecondCrossed(all: nat, gone: nat)
    requires gone <= all
    ensures (all - gone) / SECOND <= all / SECOND
    ensures (all - gone) / SECOND < all / SECOND <==> all % SECOND < gone
  {
  }

  /** A walk from an instant before the deadline reaches it. */
  ghost predicate SeesDeadline(c: Clock, at: int, d: int) {
    at <= d ==> d <= Horizon(CalendarFor(c.policy), at)
  }

  function PausedWitness(): Clock {
    PlainClock(0).(state := Paused, pausedAt := Some(0),
                   events := PlainClock(0).events + [Event(EvPaused, 0, "papers", 86_400)])
  }

  lemma WitnessReadings(at: int)
    requires 0 <= at <= DAY
    ensures RemainingSeconds(PausedWitness(), at) == Ok((DAY - at) / SECOND)
  {
    forall x | at <= x < DAY ensures !Pauses.Paused(PausesOf(PausedWitness(), at), x) {
      PausedAppend([], (0, at), x);
    }
    PlainRemaining(PausedWitness(), 0, at);
  }

  lemma WitnessPauses()
    ensures Pause(PlainClock(0), "papers", AGENT, 0) == Ok(PausedWitness())
  {
    hide RemainingSeconds, PlainPolicy, Continuous;
    WitnessReadings(0);
    EventsApart(PausedWitness(), PlainClock(0).events, 0);
    var reason := "papers";
    assert !IsSpace(reason[0]);
  }

  lemma EventsApart(c: Clock, events: seq<Event>, at: int)
    ensures RemainingSeconds(c.(events := events), at) == RemainingSeconds(c, at)
  {
    hide TimeBetween;
  }

  lemma OneAction(c: Clock, a: Action)
    ensures Run(c, [a]) == Apply(c, a)
  {
    assert Run(Apply(c, a), [a][1..]) == Apply(c, a);
  }

  lemma WitnessReached()
    ensures Reachable(PausedWitness())
  {
    PlainPolicyOk();
    PlainStart(0, 0);
    WitnessPauses();
    OneAction(PlainClock(0), DoPause("papers", AGENT, 0));
    hide PlainPolicy, Pause, Run, Start, PlainClock, PausedWitness, PolicyOk;
    assert PausedWitness() == Run(Start(PlainPolicy(), 0, 0, AGENT).value, [DoPause("papers", AGENT, 0)]);
  }

  /** A clock paused at its start reads a second less a second later. */
  lemma PausedReadingDoesFall()
    ensures Reachable(PausedWitness()) && PausedWitness().state == Paused
    ensures RemainingSeconds(PausedWitness(), 0) == Ok(86_400)
    ensures RemainingSeconds(PausedWitness(), SECOND) == Ok(86_399)
  {
    hide Reachable, RemainingSeconds, PlainPolicy;
    WitnessReached();
    WitnessReadings(0);
    WitnessReadings(SECOND);
  }

  // -- reconciliation --------------------------------------------------------

  /** The window behind a row, or none for a row the policy does not define. */
  function WindowFor(r: Row, p: Policy): Option<int> {
    match r.kind
    case Acknowledgement => Some(AckWindow(p))
    case Resolution => Some(ResolutionWindow(p))
    case Warning => if r.threshold.Some? && r.threshold.value != 0 then Some(WarningWindow(p, r.threshold.value)) else None
    case _ => None
  }

  datatype Mismatch = Mismatch(rowId: nat, stored: int, recomputed: int)

  datatype Reconciled = Reconciled(checked: nat, mismatches: seq<Mismatch>)

  /** The check of one clock's unfired rows, in order, or the first failure. */
  ghost function ReconcileRows(c: Clock, now: int, rows: seq<Row>): Result<Reconciled, DeadlineError> {
    if rows == [] then Ok(Reconciled(0, []))
    else
      match ReconcileRows(c, now, rows[..|rows| - 1])
      case Err(e) => Err(e)
      case Ok(before) => CheckRow(c, now, rows[|rows| - 1], before)
  }

  ghost function CheckRow(c: Clock, now: int, r: Row, before: Reconciled): Result<Reconciled, DeadlineError> {
    if r.firedAt.Some? then Ok(before)
    else if WindowFor(r, c.policy).None? then Ok(before.(checked := before.checked + 1))
    else
      match DeadlineOf(CalendarFor(c.policy), c.startedAt, WindowFor(r, c.policy).value, PausesOf(c, now))
      case Err(e) => Err(e)
      case Ok(d) =>
        if d == r.firesAt then Ok(before.(checked := before.checked + 1))
        else Ok(Reconciled(before.checked + 1, before.mismatches + [Mismatch(r.id, r.firesAt, d)]))
  }

  lemma NoRowsClean(c: Clock, now: int, rows: seq<Row>)
    ensures ReconcileRows(c, now, rows[..0]) == Ok(Reconciled(0, []))
  {
  }

  lemma ReconcileNext(c: Clock, now: int, rows: seq<Row>, i: nat)
    requires i < |rows| && ReconcileRows(c, now, rows[..i]).Ok?
    ensures ReconcileRows(c, now, rows[..i + 1]) == CheckRow(c, now, rows[i], ReconcileRows(c, now, rows[..i]).value)
  {
    assert rows[..i + 1][..i] == rows[..i];
  }

  method ReconcileClock(c: Clock, now: int) returns (r: Result<Reconciled, DeadlineError>)
    requires PolicyOk(c.policy)
    ensures r == ReconcileRows(c, now, c.rows)
  {
    var cal, pauses := CalendarFor(c.policy), PausesOf(c, now);
    var checked, mismatches := 0, [];
    hide ReconcileRows, DeadlineOf, WindowFor;
    assert ReconcileRows(c, now, c.rows[..0]) == Ok(Reconciled(0, [])) by { NoRowsClean(c, now, c.rows); }
    for i := 0 to |c.rows|
      invariant ReconcileRows(c, now, c.rows[..i]) == Ok(Reconciled(checked, mismatches))
    {
      var row := c.rows[i];
      ReconcileNext(c, now, c.rows, i);
      if row.firedAt.None? {
        checked := checked + 1;
        var window := WindowFor(row, c.policy);
        if window.Some? {
          var recomputed := ComputeDeadline(c.startedAt, window.value, cal, pauses);
          if recomputed.Err? {
            FailsFromHere(c, now, c.rows, i);
            return Err(recomputed.error);
          }
          if recomputed.value != row.firesAt {
            mismatches := mismatches + [Mismatch(row.id, row.firesAt, recomputed.value)];
          }
        }
      }
    }
    assert c.rows[..|c.rows|] == c.rows;
    return Ok(Reconciled(checked, mismatches));
  }

  lemma {:induction false} FailsFromHere(c: Clock, now: int, rows: seq<Row>, i: nat)
    requires i < |rows| && ReconcileRows(c, now, rows[..i + 1]).Err?
    ensures ReconcileRows(c, now, rows) == ReconcileRows(c, now, rows[..i + 1])
  {
    if i + 1 < |rows| {
      var n := |rows| - 1;
      assert rows[..n][..i + 1] == rows[..i + 1];
      FailsFromHere(c, now, rows[..n], i);
    } else {
      assert rows[..i + 1] == rows;
    }
  }

  function Unfired(rows: seq<Row>): nat {
    if rows == [] then 0
    else Unfired(rows[..|rows| - 1]) + (if rows[|rows| - 1].firedAt.None? then 1 else 0)
  }

  /** The window the check uses for a wanted row is the window it was written with. */
  lemma WindowForWanted(p: Policy, r: Row, k: nat)
    requires k < |Wanted(p)| && Matches(r, Wanted(p)[k])
    ensures WindowFor(r, p) == Some(Wanted(p)[k].window)
  {
    SortedSetAscends(p.thresholds);
    WarningWantsDistinct(p, SortedSet(p.thresholds));
  }

  /** A row in step passes the check. */
  lemma CleanRow(c: Clock, now: int, i: nat, before: Reconciled)
    requires Inv(c) && c.state == Running && i < |c.rows|
    ensures CheckRow(c, now, c.rows[i], before)
         == Ok(before.(checked := before.checked + (if c.rows[i].firedAt.None? then 1 else 0)))
  {
    hide Wanted, CalendarFor, DeadlineOf, RowsOk, Complete;
    var r := c.rows[i];
    if r.firedAt.None? && WindowFor(r, c.policy).Some? {
      assert r.pausable;
      var k :| 0 <= k < |Wanted(c.policy)| && Matches(r, Wanted(c.policy)[k]);
      WindowForWanted(c.policy, r, k);
      assert PureDeadline(c, Wanted(c.policy)[k]) == Ok(r.firesAt);
    }
  }

  lemma {:induction false} CleanRows(c: Clock, now: int, rows: seq<Row>)
    requires Inv(c) && c.state == Running
    requires forall r :: r in rows ==> r in c.rows
    ensures ReconcileRows(c, now, rows) == Ok(Reconciled(Unfired(rows), []))
  {
    hide Inv, CheckRow;
    if rows != [] {
      var n := |rows| - 1;
      CleanRows(c, now, rows[..n]);
      assert rows[n] in rows;
      var i :| 0 <= i < |c.rows| && c.rows[i] == rows[n];
      CleanRow(c, now, i, Reconciled(Unfired(rows[..n]), []));
    }
  }

  /** No run of the clock's operations can make the check report a running clock:
      it examines every unfired row, fails on none and finds nothing. */
  lemma ReconcileFindsNothing(c: Clock, now: int)
    requires Reachable(c) && c.state == Running
    ensures ReconcileRows(c, now, c.rows) == Ok(Reconciled(Unfired(c.rows), []))
  {
    ReachableOk(c);
    CleanRows(c, now, c.rows);
  }

  ghost predicate Reports(r: Reconciled, rowId: nat) {
    exists k :: 0 <= k < |r.mismatches| && r.mismatches[k].rowId == rowId
  }

  /** A check that gets through reports a row exactly when the row has not fired and its
      recomputed instant is another one. */
  lemma {:induction false} ReportsExactly(c: Clock, now: int, rows: seq<Row>, i: nat)
    requires ReconcileRows(c, now, rows).Ok? && i < |rows|
    requires forall j, k :: 0 <= j < k < |rows| ==> rows[j].id < rows[k].id
    ensures Reports(ReconcileRows(c, now, rows).value, rows[i].id)
       <==> rows[i].firedAt.None? && WindowFor(rows[i], c.policy).Some?
            && DeadlineOf(CalendarFor(c.policy), c.startedAt, WindowFor(rows[i], c.policy).value, PausesOf(c, now))
               != Ok(rows[i].firesAt)
  {
    hide DeadlineOf, CalendarFor, WindowFor, PausesOf;
    var n := |rows| - 1;
    var before, after := ReconcileRows(c, now, rows[..n]).value, ReconcileRows(c, now, rows).value;
    ReportedOf(c, now, rows[..n]);
    if Reports(before, rows[i].id) {
      var k :| 0 <= k < |before.mismatches| && before.mismatches[k].rowId == rows[i].id;
      assert after.mismatches[k] == before.mismatches[k];
    }
    if i < n {
      ReportsExactly(c, now, rows[..n], i);
    } else if |after.mismatches| > |before.mismatches| {
      assert after.mismatches[|before.mismatches|].rowId == rows[n].id;
    }
  }

  /** Only rows that were looked at are reported. */
  lemma {:induction false} ReportedOf(c: Clock, now: int, rows: seq<Row>)
    requires ReconcileRows(c, now, rows).Ok?
    ensures forall m :: m in ReconcileRows(c, now, rows).value.mismatches ==> exists j :: 0 <= j < |rows| && rows[j].id == m.rowId
  {
    hide DeadlineOf, CalendarFor, WindowFor, PausesOf;
    if rows != [] {
      var n := |rows| - 1;
      ReportedOf(c, now, rows[..n]);
      forall m | m in ReconcileRows(c, now, rows).value.mismatches
        ensures exists j :: 0 <= j < |rows| && rows[j].id == m.rowId
      {
        if m in ReconcileRows(c, now, rows[..n]).value.mismatches {
          var j :| 0 <= j < |rows[..n]| && rows[..n][j].id == m.rowId;
          assert rows[j].id == m.rowId;
        } else {
          assert rows[n].id == m.rowId;
        }
      }
    }
  }

  /** A paused clock is measured with its open pause added, so the check reports an
      unfired row exactly when that pause holds business time before the instant it
      shows. */
  lemma PausedRowReportedExactlyWhen(c: Clock, now: int, i: nat)
    requires Inv(c) && c.state == Paused && i < |c.rows| && c.rows[i].pausable && c.rows[i].firedAt.None?
    requires ReconcileRows(c, now, c.rows).Ok?
    ensures c.pausedAt.Some?
    ensures Reports(ReconcileRows(c, now, c.rows).value, c.rows[i].id) <==> 0 < PausedBefore(c, now, c.rows[i].firesAt)
  {
    assert WantedRow(c.policy, c.rows[i]);
    var k :| 0 <= k < |Wanted(c.policy)| && Matches(c.rows[i], Wanted(c.policy)[k]);
    WindowForWanted(c.policy, c.rows[i], k);
    ReportsExactly(c, now, c.rows, i);
    RecomputedExactlyWhen(c, now, i, k);
  }

  /** The business time the open pause holds before an instant. */
  ghost function PausedBefore(c: Clock, now: int, d: int): nat
    requires c.pausedAt.Some?
  {
    BusinessTime(CalendarFor(c.policy), c.intervals, Max(c.startedAt, c.pausedAt.value), Min(Max(c.pausedAt.value, now), d))
  }

  lemma RecomputedExactlyWhen(c: Clock, now: int, i: nat, k: nat)
    requires Inv(c) && c.state == Paused && i < |c.rows| && k < |Wanted(c.policy)|
    requires Matches(c.rows[i], Wanted(c.policy)[k]) && c.rows[i].firedAt.None?
    ensures c.pausedAt.Some?
    ensures var recomputed := DeadlineOf(CalendarFor(c.policy), c.startedAt, Wanted(c.policy)[k].window, PausesOf(c, now));
            (recomputed == Ok(c.rows[i].firesAt) <==> PausedBefore(c, now, c.rows[i].firesAt) == 0)
  {
    assert PureDeadline(c, Wanted(c.policy)[k]) == Ok(c.rows[i].firesAt);
    PauseMovesDeadlineExactlyWhen(CalendarFor(c.policy), c.startedAt, Wanted(c.policy)[k].window, c.intervals,
                                  (c.pausedAt.value, Max(c.pausedAt.value, now)));
  }

  /** It does report one: the clock paused at its start, checked a second later. */
  lemma PausedRowIsReported()
    ensures Reachable(PausedWitness()) && PausedWitness().state == Paused
    ensures ReconcileRows(PausedWitness(), SECOND, PausedWitness().rows)
         == Ok(Reconciled(2, [Mismatch(0, HOUR, HOUR + SECOND), Mismatch(1, DAY, DAY + SECOND)]))
  {
    WitnessReached();
    hide Reachable, PlainPolicy, CheckRow, PausesOf, ReconcileRows, PlainClock;
    var c, rows := PausedWitness(), PlainClock(0).rows;
    WitnessChecked();
    NoRowsClean(c, SECOND, rows);
    ReconcileNext(c, SECOND, rows, 0);
    ReconcileNext(c, SECOND, rows, 1);
    assert rows[..2] == rows;
  }

  lemma WitnessChecked()
    ensures PausedWitness().rows == PlainClock(0).rows && |PlainClock(0).rows| == 2
    ensures var c, rows := PausedWitness(), PlainClock(0).rows;
            var one := Reconciled(1, [Mismatch(0, HOUR, HOUR + SECOND)]);
            && CheckRow(c, SECOND, rows[0], Reconciled(0, [])) == Ok(one)
            && CheckRow(c, SECOND, rows[1], one)
               == Ok(Reconciled(2, [Mismatch(0, HOUR, HOUR + SECOND), Mismatch(1, DAY, DAY + SECOND)]))
  {
    WitnessRecomputed(HOUR);
    WitnessRecomputed(DAY);
    hide PausesOf, CalendarFor, DeadlineOf, PlainCalendar;
    var first, second := Mismatch(0, HOUR, HOUR + SECOND), Mismatch(1, DAY, DAY + SECOND);
    assert [] + [first] == [first] && [first] + [second] == [first, second];
  }

  lemma WitnessRecomputed(window: int)
    requires 0 < window <= DAY
    ensures DeadlineOf(CalendarFor(PlainPolicy()), 0, window, PausesOf(PausedWitness(), SECOND)) == Ok(window + SECOND)
  {
    hide PlainPolicy, CalendarFor, Pauses.Paused, DeadlineOf, PausesOf, PausedWitness;
    PlainPolicyOk();
    forall x ensures Pauses.Paused(PausesOf(PausedWitness(), SECOND), x) <==> 0 <= x < SECOND {
      WitnessPausedAt(x);
    }
    PlainDeadlineAfter(0, SECOND, window, PausesOf(PausedWitness(), SECOND));
  }

  lemma WitnessPausedAt(x: int)
    ensures Pauses.Paused(PausesOf(PausedWitness(), SECOND), x) <==> 0 <= x < SECOND
  {
    hide PlainPolicy;
    PausedAppend([], (0, SECOND), x);
    assert PausesOf(PausedWitness(), SECOND) == [] + [(0, SECOND)];
  }

  /** The check of every clock that has not stopped. */
  ghost function ReconcileAll(clocks: seq<Clock>, now: int): Result<Reconciled, DeadlineError> {
    if clocks == [] then Ok(Reconciled(0, []))
    else
      var n := |clocks| - 1;
      match ReconcileAll(clocks[..n], now)
      case Err(e) => Err(e)
      case Ok(before) =>
        if clocks[n].state == Stopped then Ok(before)
        else
          match ReconcileRows(clocks[n], now, clocks[n].rows)
          case Err(e) => Err(e)
          case Ok(r) => Ok(Reconciled(before.checked + r.checked, before.mismatches + r.mismatches))
  }

  /** A tenant none of whose clocks is paused gets a clean bill of health. */
  lemma {:induction false} ReconcileAllFindsNothing(clocks: seq<Clock>, now: int)
    requires forall i :: 0 <= i < |clocks| ==> Reachable(clocks[i]) && clocks[i].state != Paused
    ensures ReconcileAll(clocks, now).Ok? && ReconcileAll(clocks, now).value.mismatches == []
  {
    if clocks != [] {
      var n := |clocks| - 1;
      ReconcileAllFindsNothing(clocks[..n], now);
      if clocks[n].state == Running {
        ReconcileFindsNothing(clocks[n], now);
      }
    }
  }
}
