/** What holds of a clock in every run of its operations. */
module ClockLaws {
  import opened Prelude
  import opened Counting
  import opened BusinessCalendar
  import opened Pauses
  import opened Deadlines
  import opened DeadlineLaws
  import opened Clocks
  import opened ClockRows

  // -- the invariant ---------------------------------------------------------

  /** What the pure arithmetic says about a wanted deadline of this clock. */
  ghost function PureDeadline(c: Clock, w: Want): Result<int, DeadlineError> {
    DeadlineOf(CalendarFor(c.policy), c.startedAt, w.window, c.intervals)
  }

  /** Every unfired row the policy asks for shows what the arithmetic says for the
      closed pauses. */
  ghost predicate InStep(c: Clock) {
    forall i, k :: 0 <= i < |c.rows| && 0 <= k < |Wanted(c.policy)| ==>
      Matches(c.rows[i], Wanted(c.policy)[k]) && c.rows[i].firedAt.None? ==>
        PureDeadline(c, Wanted(c.policy)[k]) == Ok(c.rows[i].firesAt)
  }

  ghost predicate WantedRow(p: Policy, r: Row) {
    exists k :: 0 <= k < |Wanted(p)| && Matches(r, Wanted(p)[k])
  }

  /** Pausable rows are the policy's, and the others a card scheme's. */
  ghost predicate RowsKnown(c: Clock) {
    forall i :: 0 <= i < |c.rows| ==>
      if c.rows[i].pausable then WantedRow(c.policy, c.rows[i]) else c.rows[i].kind in {SchemeRepresentment, SchemeWarning}
  }

  /** Until it stops, a clock has a row for everything its policy asks for. */
  ghost predicate Complete(c: Clock) {
    c.state != Stopped ==> forall k :: 0 <= k < |Wanted(c.policy)| ==> FindRow(c.rows, Wanted(c.policy)[k]) < |c.rows|
  }

  ghost predicate PauseMarked(c: Clock) {
    && (c.state == Running ==> c.pausedAt.None?)
    && (c.state == Paused ==> c.pausedAt.Some?)
  }

  ghost predicate Inv(c: Clock) {
    && PolicyOk(c.policy)
    && RowsOk(c.rows, c.nextRow)
    && InStep(c)
    && RowsKnown(c)
    && Complete(c)
    && PauseMarked(c)
  }

  // -- materialising ---------------------------------------------------------

  /** Writing the deadlines of a clock that is not paused brings it into step. */
  lemma MaterialiseBringsIntoStep(c: Clock, now: int)
    requires RowsOk(c.rows, c.nextRow) && RowsKnown(c) && c.state == Running
    requires Materialise(c, now).Ok?
    ensures var d := Materialise(c, now).value;
            && d == c.(rows := d.rows, nextRow := d.nextRow)
            && RowsOk(d.rows, d.nextRow) && InStep(d) && RowsKnown(d) && Complete(d)
  {
    var wants := Wanted(c.policy);
    var fires := FiresAll(CalendarFor(c.policy), c.startedAt, c.intervals, wants).value;
    var d := Materialise(c, now).value;
    WantedDistinct(c.policy);
    UpsertAllEffect(c, wants, fires);
    FiresAllMeaning(CalendarFor(c.policy), c.startedAt, c.intervals, wants);
    ShownMeansInStep(d, fires);
    FollowKnown(c, d, fires);
    assert forall k :: 0 <= k < |wants| ==> Shows(d.rows, wants[k], fires[k]);
  }

  lemma ShownMeansInStep(d: Clock, fires: seq<int>)
    requires |fires| == |Wanted(d.policy)| && RowsOk(d.rows, d.nextRow)
    requires forall k :: 0 <= k < |fires| ==> Shows(d.rows, Wanted(d.policy)[k], fires[k])
    requires forall k :: 0 <= k < |fires| ==> PureDeadline(d, Wanted(d.policy)[k]) == Ok(fires[k])
    ensures InStep(d)
  {
    var wants := Wanted(d.policy);
    forall i, k | 0 <= i < |d.rows| && 0 <= k < |wants| && Matches(d.rows[i], wants[k]) && d.rows[i].firedAt.None?
      ensures PureDeadline(d, wants[k]) == Ok(d.rows[i].firesAt)
    {
      assert Shows(d.rows, wants[k], fires[k]);
      var j := FindRow(d.rows, wants[k]);
      assert j <= i;
    }
  }

  lemma FollowKnown(c: Clock, d: Clock, fires: seq<int>)
    requires RowsKnown(c) && c.policy == d.policy && |fires| == |Wanted(c.policy)|
    requires RowsFollow(c.rows, d.rows, Wanted(c.policy), fires)
    ensures RowsKnown(d)
  {
    var wants := Wanted(c.policy);
    forall i | 0 <= i < |d.rows|
      ensures if d.rows[i].pausable then WantedRow(d.policy, d.rows[i])
              else d.rows[i].kind in {SchemeRepresentment, SchemeWarning}
    {
      if i < |c.rows| {
        assert Moved(c.rows[i], d.rows[i], wants, fires);
        if d.rows[i].pausable {
          var k :| 0 <= k < |wants| && Matches(c.rows[i], wants[k]);
          assert Matches(d.rows[i], wants[k]);
        }
      } else {
        assert Created(d.rows[i], wants);
      }
    }
  }

  // -- every operation keeps the invariant -----------------------------------

  lemma StartInv(policy: Policy, startedAt: int, now: int, actor: Actor)
    requires PolicyOk(policy) && Start(policy, startedAt, now, actor).Ok?
    ensures Inv(Start(policy, startedAt, now, actor).value)
  {
    MaterialiseBringsIntoStep(NewClock(policy, startedAt), now);
  }

  lemma ResumeInv(c: Clock, reason: string, actor: Actor, at: int, now: int)
    requires Inv(c) && Resume(c, reason, actor, at, now).Ok?
    ensures Inv(Resume(c, reason, actor, at, now).value)
  {
    MaterialiseBringsIntoStep(c.(intervals := c.intervals + [(c.pausedAt.value, at)], state := Running, pausedAt := None), now);
  }

  lemma {:induction false} KeepOnStopMembers(rows: seq<Row>)
    ensures forall r :: r in KeepOnStop(rows) <==> r in rows && (r.firedAt.Some? || r.kind == ReopenWindow)
  {
    if rows != [] {
      KeepOnStopMembers(rows[1..]);
      assert rows == [rows[0]] + rows[1..];
    }
  }

  /** `r` comes before every row of `rows`, and stands for something else. */
  ghost predicate Ahead(r: Row, rows: seq<Row>) {
    forall j :: 0 <= j < |rows| ==>
      r.id < rows[j].id && (r.pausable && rows[j].pausable ==> r.kind != rows[j].kind || r.threshold != rows[j].threshold)
  }

  lemma AheadPrepends(r: Row, rows: seq<Row>, nextRow: nat)
    requires RowsOk(rows, nextRow) && r.id < nextRow && Ahead(r, rows)
    ensures RowsOk([r] + rows, nextRow)
  {
  }

  lemma {:induction false} KeepOnStopKeeps(rows: seq<Row>, nextRow: nat)
    requires RowsOk(rows, nextRow)
    ensures RowsOk(KeepOnStop(rows), nextRow)
  {
    if rows != [] {
      assert RowsOk(rows[1..], nextRow) && Ahead(rows[0], rows[1..]);
      KeepOnStopKeeps(rows[1..], nextRow);
      var rest := KeepOnStop(rows[1..]);
      KeepOnStopMembers(rows[1..]);
      forall j | 0 <= j < |rest| ensures rest[j] in rows[1..] {
        assert rest[j] in rest;
      }
      hide RowsOk;
      assert Ahead(rows[0], rest);
      AheadPrepends(rows[0], rest, nextRow);
    }
  }

  lemma StopInv(c: Clock, actor: Actor, at: int)
    requires Inv(c) && Stop(c, actor, at).Ok?
    ensures Inv(Stop(c, actor, at).value)
  {
    KeepOnStopKeeps(c.rows, c.nextRow);
    KeepOnStopMembers(c.rows);
    var d := Stop(c, actor, at).value;
    forall i | 0 <= i < |d.rows| ensures d.rows[i] in c.rows {
      assert d.rows[i] in d.rows;
    }
  }

  lemma SameRowsFound(rows: seq<Row>, rows': seq<Row>, w: Want)
    requires |rows| <= |rows'|
    requires forall i :: 0 <= i < |rows| ==> Matches(rows[i], w) == Matches(rows'[i], w)
    requires FindRow(rows, w) < |rows|
    ensures FindRow(rows', w) < |rows'|
  {
    var i := FindRow(rows, w);
    FoundFirst(rows', w, i);
  }

  lemma FireInv(c: Clock, row: nat, now: int)
    requires Inv(c)
    ensures Inv(Fire(c, row, now))
  {
    var d := Fire(c, row, now);
    forall i, k | 0 <= i < |c.rows| && 0 <= k < |Wanted(c.policy)|
      ensures Matches(d.rows[i], Wanted(c.policy)[k]) == Matches(c.rows[i], Wanted(c.policy)[k])
    {
    }
    forall k | 0 <= k < |Wanted(c.policy)| && c.state != Stopped ensures FindRow(d.rows, Wanted(c.policy)[k]) < |d.rows| {
      SameRowsFound(c.rows, d.rows, Wanted(c.policy)[k]);
    }
    forall i | 0 <= i < |d.rows| && d.rows[i].pausable ensures WantedRow(c.policy, d.rows[i]) {
      var k :| 0 <= k < |Wanted(c.policy)| && Matches(c.rows[i], Wanted(c.policy)[k]);
      assert Matches(d.rows[i], Wanted(c.policy)[k]);
    }
  }

  lemma AddUnpausableInv(c: Clock, kind: Kind, threshold: Option<int>, firesAt: int)
    requires Inv(c) && kind in {SchemeRepresentment, SchemeWarning}
    ensures Inv(AddUnpausable(c, kind, threshold, firesAt))
  {
    hide Wanted, CalendarFor, DeadlineOf, PolicyOk;
    var d := AddUnpausable(c, kind, threshold, firesAt);
    forall k | 0 <= k < |Wanted(c.policy)| && c.state != Stopped ensures FindRow(d.rows, Wanted(c.policy)[k]) < |d.rows| {
      SameRowsFound(c.rows, d.rows, Wanted(c.policy)[k]);
    }
  }

  lemma OpenSchemeInv(c: Clock, chargebackAt: int, days: nat)
    requires Inv(c)
    ensures Inv(OpenScheme(c, chargebackAt, days))
  {
    hide Inv, AddUnpausable;
    var window := days * DAY;
    AddUnpausableInv(c, SchemeRepresentment, None, chargebackAt + window);
    var c0 := AddUnpausable(c, SchemeRepresentment, None, chargebackAt + window);
    AddUnpausableInv(c0, SchemeWarning, Some(50), chargebackAt + window * 50 / 100);
    var c1 := AddUnpausable(c0, SchemeWarning, Some(50), chargebackAt + window * 50 / 100);
    AddUnpausableInv(c1, SchemeWarning, Some(80), chargebackAt + window * 80 / 100);
    var c2 := AddUnpausable(c1, SchemeWarning, Some(80), chargebackAt + window * 80 / 100);
    AddUnpausableInv(c2, SchemeWarning, Some(95), chargebackAt + window * 95 / 100);
  }

  lemma ApplyInv(c: Clock, a: Action)
    requires Inv(c)
    ensures Inv(Apply(c, a))
  {
    match a
    case DoPause(reason, actor, at) =>
    case DoResume(reason, actor, at, now) =>
      if Resume(c, reason, actor, at, now).Ok? { ResumeInv(c, reason, actor, at, now); }
    case DoStop(actor, at) =>
      if Stop(c, actor, at).Ok? { StopInv(c, actor, at); }
    case DoFire(row, now) => FireInv(c, row, now);
    case DoScheme(chargebackAt, days) => OpenSchemeInv(c, chargebackAt, days);
    case DoMassStop(now) =>
  }

  /** In every run, each unfired row the policy asks for equals the pure deadline for
      the closed pauses. */
  lemma {:induction false} RunInv(c: Clock, actions: seq<Action>)
    requires Inv(c)
    ensures Inv(Run(c, actions))
    decreases |actions|
  {
    if actions != [] {
      ApplyInv(c, actions[0]);
      RunInv(Apply(c, actions[0]), actions[1..]);
    }
  }
}
