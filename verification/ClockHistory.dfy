/** How a clock's rows and log relate to its past, in every run. */
module ClockHistory {
  import opened Prelude
  import opened Counting
  import opened BusinessCalendar
  import opened Pauses
  import opened Deadlines
  import opened DeadlineLaws
  import opened Clocks
  import opened ClockRows
  import opened ClockLaws

  // -- rows only ever move later ---------------------------------------------

  /** The same row at an earlier and a later time: never due sooner, never moved
      once fired, and never moved at all if it is not pausable. */
  ghost predicate RowHistory(r: Row, r': Row) {
    && r' == r.(firesAt := r'.firesAt, firedAt := r'.firedAt)
    && r.firesAt <= r'.firesAt
    && (r.firedAt.Some? ==> r' == r)
    && (!r.pausable ==> r'.firesAt == r.firesAt)
  }

  ghost predicate HasPast(c: Clock, r': Row) {
    exists i :: 0 <= i < |c.rows| && RowHistory(c.rows[i], r')
  }

  /** `d` is a later state of `c`: its rows are `c`'s or new, and none that had fired is gone. */
  ghost predicate Later(c: Clock, d: Clock) {
    && c.nextRow <= d.nextRow
    && (forall j :: 0 <= j < |d.rows| && d.rows[j].id < c.nextRow ==> HasPast(c, d.rows[j]))
    && (forall i :: 0 <= i < |c.rows| && c.rows[i].firedAt.Some? ==> c.rows[i] in d.rows)
  }

  lemma LaterTransitive(c: Clock, d: Clock, e: Clock)
    requires Later(c, d) && Later(d, e)
    ensures Later(c, e)
  {
    forall j | 0 <= j < |e.rows| && e.rows[j].id < c.nextRow ensures HasPast(c, e.rows[j]) {
      assert HasPast(d, e.rows[j]);
      var m :| 0 <= m < |d.rows| && RowHistory(d.rows[m], e.rows[j]);
      assert HasPast(c, d.rows[m]);
      var i :| 0 <= i < |c.rows| && RowHistory(c.rows[i], d.rows[m]);
      assert RowHistory(c.rows[i], e.rows[j]);
    }
    forall i | 0 <= i < |c.rows| && c.rows[i].firedAt.Some? ensures c.rows[i] in e.rows {
      var m :| 0 <= m < |d.rows| && d.rows[m] == c.rows[i];
      assert d.rows[m] in e.rows;
    }
  }

  /** Rows kept in place, with new ones after them. */
  lemma LaterByIndex(c: Clock, d: Clock)
    requires RowsOk(d.rows, d.nextRow) && |c.rows| <= |d.rows| && c.nextRow <= d.nextRow
    requires forall i :: 0 <= i < |c.rows| ==> RowHistory(c.rows[i], d.rows[i])
    requires forall i :: |c.rows| <= i < |d.rows| ==> c.nextRow <= d.rows[i].id
    ensures Later(c, d)
  {
    forall j | 0 <= j < |d.rows| && d.rows[j].id < c.nextRow ensures HasPast(c, d.rows[j]) {
      assert RowHistory(c.rows[j], d.rows[j]);
    }
    forall i | 0 <= i < |c.rows| && c.rows[i].firedAt.Some? ensures c.rows[i] in d.rows {
      assert RowHistory(c.rows[i], d.rows[i]);
      assert d.rows[i] == c.rows[i];
    }
  }

  lemma {:induction false} NewRowsHaveNewIds(c: Clock, wants: seq<Want>, fires: seq<int>)
    requires |wants| == |fires|
    ensures var d := UpsertAll(c, wants, fires);
            && |c.rows| <= |d.rows| && c.nextRow <= d.nextRow
            && (forall i :: |c.rows| <= i < |d.rows| ==> c.nextRow <= d.rows[i].id)
    decreases |wants|
  {
    if wants != [] {
      var c1 := Upsert(c, wants[0], fires[0]);
      NewRowsHaveNewIds(c1, wants[1..], fires[1..]);
      KeepsId(c1, wants[1..], fires[1..]);
    }
  }

  lemma {:induction false} KeepsId(c: Clock, wants: seq<Want>, fires: seq<int>)
    requires |wants| == |fires|
    ensures var d := UpsertAll(c, wants, fires);
            |c.rows| <= |d.rows| && forall i :: 0 <= i < |c.rows| ==> d.rows[i].id == c.rows[i].id
    decreases |wants|
  {
    if wants != [] {
      KeepsId(Upsert(c, wants[0], fires[0]), wants[1..], fires[1..]);
    }
  }

  /** Resuming moves a deadline only later, and touches no fired or unpausable row. */
  lemma ResumeMovesLater(c: Clock, reason: string, actor: Actor, at: int, now: int)
    requires Inv(c) && Resume(c, reason, actor, at, now).Ok?
    ensures var d := Resume(c, reason, actor, at, now).value;
            && |c.rows| <= |d.rows|
            && (forall i :: 0 <= i < |c.rows| ==> RowHistory(c.rows[i], d.rows[i]))
            && (forall i :: 0 <= i < |c.rows| && (!c.rows[i].pausable || c.rows[i].firedAt.Some?) ==> d.rows[i] == c.rows[i])
            && Later(c, d)
  {
    var iv := (c.pausedAt.value, at);
    var c0 := c.(intervals := c.intervals + [iv], state := Running, pausedAt := None);
    var wants := Wanted(c.policy);
    var fires := FiresAll(CalendarFor(c.policy), c.startedAt, c0.intervals, wants).value;
    var d := Resume(c, reason, actor, at, now).value;
    WantedDistinct(c.policy);
    UpsertAllEffect(c0, wants, fires);
    FiresAllMeaning(CalendarFor(c.policy), c.startedAt, c0.intervals, wants);
    NewRowsHaveNewIds(c0, wants, fires);
    LongerListPausesMore(c.intervals, iv);
    forall i | 0 <= i < |c.rows| ensures RowHistory(c.rows[i], d.rows[i]) {
      assert Moved(c.rows[i], d.rows[i], wants, fires);
      if d.rows[i] != c.rows[i] {
        var k :| 0 <= k < |wants| && Matches(c.rows[i], wants[k]) && d.rows[i] == c.rows[i].(firesAt := fires[k]);
        MorePausesNeverEarlier(CalendarFor(c.policy), c.startedAt, wants[k].window, c.intervals, c0.intervals);
        assert PureDeadline(c, wants[k]) == Ok(c.rows[i].firesAt);
      }
    }
    forall i | 0 <= i < |c.rows| ensures !c.rows[i].pausable || c.rows[i].firedAt.Some? ==> d.rows[i] == c.rows[i] {
      assert Moved(c.rows[i], d.rows[i], wants, fires);
    }
    LaterByIndex(c, d);
  }

  lemma StopLater(c: Clock, actor: Actor, at: int)
    requires Inv(c) && Stop(c, actor, at).Ok?
    ensures Later(c, Stop(c, actor, at).value)
  {
    var d := Stop(c, actor, at).value;
    KeepOnStopMembers(c.rows);
    forall j | 0 <= j < |d.rows| ensures HasPast(c, d.rows[j]) {
      assert d.rows[j] in d.rows;
      var i :| 0 <= i < |c.rows| && c.rows[i] == d.rows[j];
      assert RowHistory(c.rows[i], d.rows[j]);
    }
  }

  lemma FireLater(c: Clock, row: nat, now: int)
    requires Inv(c)
    ensures Later(c, Fire(c, row, now))
  {
    FireInv(c, row, now);
    LaterByIndex(c, Fire(c, row, now));
  }

  lemma AddUnpausableLater(c: Clock, kind: Kind, threshold: Option<int>, firesAt: int)
    requires Inv(c) && kind in {SchemeRepresentment, SchemeWarning}
    ensures Inv(AddUnpausable(c, kind, threshold, firesAt)) && Later(c, AddUnpausable(c, kind, threshold, firesAt))
  {
    AddUnpausableInv(c, kind, threshold, firesAt);
    LaterByIndex(c, AddUnpausable(c, kind, threshold, firesAt));
  }

  lemma OpenSchemeLater(c: Clock, chargebackAt: int, days: nat)
    requires Inv(c)
    ensures Later(c, OpenScheme(c, chargebackAt, days))
  {
    hide Inv, Later, AddUnpausable;
    var window := days * DAY;
    AddUnpausableLater(c, SchemeRepresentment, None, chargebackAt + window);
    var c0 := AddUnpausable(c, SchemeRepresentment, None, chargebackAt + window);
    AddUnpausableLater(c0, SchemeWarning, Some(50), chargebackAt + window * 50 / 100);
    var c1 := AddUnpausable(c0, SchemeWarning, Some(50), chargebackAt + window * 50 / 100);
    AddUnpausableLater(c1, SchemeWarning, Some(80), chargebackAt + window * 80 / 100);
    var c2 := AddUnpausable(c1, SchemeWarning, Some(80), chargebackAt + window * 80 / 100);
    AddUnpausableLater(c2, SchemeWarning, Some(95), chargebackAt + window * 95 / 100);
    var c3 := AddUnpausable(c2, SchemeWarning, Some(95), chargebackAt + window * 95 / 100);
    LaterTransitive(c, c0, c1);
    LaterTransitive(c, c1, c2);
    LaterTransitive(c, c2, c3);
  }

  lemma LaterReflexive(c: Clock, d: Clock)
    requires RowsOk(c.rows, c.nextRow) && d.rows == c.rows && d.nextRow == c.nextRow
    ensures Later(c, d)
  {
    LaterByIndex(c, d);
  }

  lemma ApplyLater(c: Clock, a: Action)
    requires Inv(c)
    ensures Later(c, Apply(c, a))
  {
    match a
    case DoPause(reason, actor, at) => LaterReflexive(c, Apply(c, a));
    case DoResume(reason, actor, at, now) =>
      if Resume(c, reason, actor, at, now).Ok? { ResumeMovesLater(c, reason, actor, at, now); } else { LaterReflexive(c, c); }
    case DoStop(actor, at) =>
      if Stop(c, actor, at).Ok? { StopLater(c, actor, at); } else { LaterReflexive(c, c); }
    case DoFire(row, now) => FireLater(c, row, now);
    case DoScheme(chargebackAt, days) => OpenSchemeLater(c, chargebackAt, days);
    case DoMassStop(now) => LaterReflexive(c, Apply(c, a));
  }

  lemma {:induction false} RunLater(c: Clock, actions: seq<Action>)
    requires Inv(c)
    ensures Inv(Run(c, actions)) && Later(c, Run(c, actions))
    decreases |actions|
  {
    if actions == [] {
      LaterReflexive(c, c);
    } else {
      var c1 := Apply(c, actions[0]);
      ApplyInv(c, actions[0]);
      ApplyLater(c, actions[0]);
      RunLater(c1, actions[1..]);
      LaterTransitive(c, c1, Run(c, actions));
    }
  }

  /** In every run, a row is never due earlier than it was, never moves once it has
      fired, and if it is not pausable never moves at all. */
  lemma NoRowMovesEarlier(c: Clock, actions: seq<Action>, i: nat, j: nat)
    requires Inv(c) && i < |c.rows| && j < |Run(c, actions).rows|
    requires c.rows[i].id == Run(c, actions).rows[j].id
    ensures RowHistory(c.rows[i], Run(c, actions).rows[j])
  {
    RunLater(c, actions);
    var d := Run(c, actions);
    assert HasPast(c, d.rows[j]);
    var m :| 0 <= m < |c.rows| && RowHistory(c.rows[m], d.rows[j]);
    assert m == i;
  }

  // -- the event log ---------------------------------------------------------

  datatype Replayed = Replayed(state: State, pausedAt: Option<int>, intervals: PauseList)

  function ReplayOne(s: Replayed, e: Event): Replayed {
    match e.kind
    case EvStarted => Replayed(Running, None, [])
    case EvPaused => Replayed(Paused, Some(e.occurredAt), s.intervals)
    case EvResumed =>
      Replayed(Running, None, if s.pausedAt.Some? then s.intervals + [(s.pausedAt.value, e.occurredAt)] else s.intervals)
    case EvStopped => s.(state := Stopped)
    case EvWarned => s
    case EvBreached => s
  }

  /** Replay the log in the order it was written. */
  function Replay(events: seq<Event>): Replayed {
    if events == [] then Replayed(Running, None, [])
    else ReplayOne(Replay(events[..|events| - 1]), events[|events| - 1])
  }

  lemma ReplayAppend(events: seq<Event>, e: Event)
    ensures Replay(events + [e]) == ReplayOne(Replay(events), e)
  {
    assert (events + [e])[..|events|] == events;
  }

  /** The stored state is a view of the log. */
  ghost predicate LogAgrees(c: Clock) {
    Replay(c.events) == Replayed(c.state, c.pausedAt, c.intervals)
  }

  lemma {:induction false} UpsertAllKeepsRest(c: Clock, wants: seq<Want>, fires: seq<int>)
    requires |wants| == |fires|
    ensures var d := UpsertAll(c, wants, fires);
            d == c.(rows := d.rows, nextRow := d.nextRow)
    decreases |wants|
  {
    if wants != [] {
      UpsertAllKeepsRest(Upsert(c, wants[0], fires[0]), wants[1..], fires[1..]);
    }
  }

  lemma MaterialiseKeepsRest(c: Clock, now: int)
    requires Materialise(c, now).Ok?
    ensures var d := Materialise(c, now).value;
            d == c.(rows := d.rows, nextRow := d.nextRow)
  {
    var fires := FiresAll(CalendarFor(c.policy), c.startedAt, PausesOf(c, now), Wanted(c.policy)).value;
    UpsertAllKeepsRest(c, Wanted(c.policy), fires);
  }

  lemma StartLog(policy: Policy, startedAt: int, now: int, actor: Actor)
    requires Start(policy, startedAt, now, actor).Ok?
    ensures LogAgrees(Start(policy, startedAt, now, actor).value)
  {
    MaterialiseKeepsRest(NewClock(policy, startedAt), now);
    ReplayAppend([], Start(policy, startedAt, now, actor).value.events[0]);
  }

  lemma ApplyLog(c: Clock, a: Action)
    requires LogAgrees(c) && PauseMarked(c)
    ensures LogAgrees(Apply(c, a))
  {
    match a
    case DoPause(reason, actor, at) =>
      if Pause(c, reason, actor, at).Ok? { OneEventLog(c, Apply(c, a)); }
    case DoResume(reason, actor, at, now) =>
      if Resume(c, reason, actor, at, now).Ok? { ResumeLog(c, reason, actor, at, now); }
    case DoStop(actor, at) =>
      if Stop(c, actor, at).Ok? { OneEventLog(c, Apply(c, a)); }
    case DoFire(row, now) =>
      if Due(c, row, now) { OneEventLog(c, Apply(c, a)); }
    case DoScheme(chargebackAt, days) =>
    case DoMassStop(now) =>
      if c.state != Stopped { OneEventLog(c, Apply(c, a)); }
  }

  /** An operation that wrote one event. */
  lemma OneEventLog(c: Clock, d: Clock)
    requires LogAgrees(c) && |d.events| == |c.events| + 1 && d.events[..|c.events|] == c.events
    requires ReplayOne(Replayed(c.state, c.pausedAt, c.intervals), d.events[|c.events|])
          == Replayed(d.state, d.pausedAt, d.intervals)
    ensures LogAgrees(d)
  {
    assert d.events == c.events + [d.events[|c.events|]];
    ReplayAppend(c.events, d.events[|c.events|]);
  }

  lemma ResumeLog(c: Clock, reason: string, actor: Actor, at: int, now: int)
    requires LogAgrees(c) && Resume(c, reason, actor, at, now).Ok?
    ensures LogAgrees(Resume(c, reason, actor, at, now).value)
  {
    hide LogAgrees, Materialise, RemainingSeconds;
    MaterialiseKeepsRest(c.(intervals := c.intervals + [(c.pausedAt.value, at)], state := Running, pausedAt := None), now);
    OneEventLog(c, Resume(c, reason, actor, at, now).value);
  }

  /** In every run, replaying the log gives back the clock's state, when it was
      paused, and every closed pause. */
  lemma {:induction false} RunLog(c: Clock, actions: seq<Action>)
    requires Inv(c) && LogAgrees(c)
    ensures LogAgrees(Run(c, actions))
    decreases |actions|
  {
    if actions != [] {
      ApplyInv(c, actions[0]);
      ApplyLog(c, actions[0]);
      RunLog(Apply(c, actions[0]), actions[1..]);
    }
  }
}
