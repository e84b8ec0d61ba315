/** The clock as the object whose fields the operations update, each one inside a
    transaction that is rolled back when it fails. */
module ClockObject {
  import opened Prelude
  import opened BusinessCalendar
  import opened Pauses
  import opened Deadlines
  import opened Clocks

  ghost function Prepend(done: seq<int>, rest: Result<seq<int>, DeadlineError>): Result<seq<int>, DeadlineError> {
    match rest
    case Err(e) => Err(e)
    case Ok(ds) => Ok(done + ds)
  }

  /** One more instant computed, or the failure that ends the list. */
  lemma FiresNext(cal: Calendar, startedAt: int, pauses: PauseList, wants: seq<Want>, done: seq<int>, i: nat)
    requires i < |wants|
    ensures var d := DeadlineOf(cal, startedAt, wants[i].window, pauses);
            Prepend(done, FiresAll(cal, startedAt, pauses, wants[i..]))
              == (if d.Ok? then Prepend(done + [d.value], FiresAll(cal, startedAt, pauses, wants[i + 1..])) else Err(d.error))
  {
    hide DeadlineOf;
    assert wants[i..][1..] == wants[i + 1..];
    var d := DeadlineOf(cal, startedAt, wants[i].window, pauses);
    var rest := FiresAll(cal, startedAt, pauses, wants[i + 1..]);
    if d.Ok? && rest.Ok? {
      assert done + ([d.value] + rest.value) == (done + [d.value]) + rest.value;
    }
  }

  lemma FiresEnds(cal: Calendar, startedAt: int, pauses: PauseList, wants: seq<Want>, done: seq<int>)
    ensures Prepend([], FiresAll(cal, startedAt, pauses, wants)) == FiresAll(cal, startedAt, pauses, wants)
    ensures Prepend(done, FiresAll(cal, startedAt, pauses, wants[|wants|..])) == Ok(done)
  {
    var all := FiresAll(cal, startedAt, pauses, wants);
    if all.Ok? {
      assert [] + all.value == all.value;
    }
    assert done + [] == done;
  }

  method ComputeAll(cal: Calendar, startedAt: int, pauses: PauseList, wants: seq<Want>)
    returns (r: Result<seq<int>, DeadlineError>)
    requires CalendarOk(cal)
    ensures r == FiresAll(cal, startedAt, pauses, wants)
  {
    hide DeadlineOf, FiresAll, Prepend, CalendarOk;
    var fires: seq<int> := [];
    assert wants[0..] == wants;
    FiresEnds(cal, startedAt, pauses, wants, []);
    for i := 0 to |wants|
      invariant FiresAll(cal, startedAt, pauses, wants) == Prepend(fires, FiresAll(cal, startedAt, pauses, wants[i..]))
    {
      FiresNext(cal, startedAt, pauses, wants, fires, i);
      var d := ComputeDeadline(startedAt, wants[i].window, cal, pauses);
      if d.Err? {
        return Err(d.error);
      }
      fires := fires + [d.value];
    }
    FiresEnds(cal, startedAt, pauses, wants, fires);
    return Ok(fires);
  }

  class SLAClock {
    const policy: Policy
    const startedAt: int
    var state: State
    var pausedAt: Option<int>
    var intervals: PauseList
    var stoppedAt: Option<int>
    var rows: seq<Row>
    var nextRow: nat
    var events: seq<Event>

    function View(): Clock
      reads this
    {
      Clock(policy, startedAt, state, pausedAt, intervals, stoppedAt, rows, nextRow, events)
    }

    constructor (policy: Policy, startedAt: int)
      ensures View() == NewClock(policy, startedAt)
    {
      this.policy, this.startedAt := policy, startedAt;
      state, pausedAt, intervals, stoppedAt := Running, None, [], None;
      rows, nextRow, events := [], 0, [];
    }

    /** Put the stored fields back, as a rolled-back transaction does. */
    method Rollback(saved: Clock)
      requires saved.policy == policy && saved.startedAt == startedAt
      modifies this
      ensures View() == saved
    {
      state, pausedAt, intervals, stoppedAt := saved.state, saved.pausedAt, saved.intervals, saved.stoppedAt;
      rows, nextRow, events := saved.rows, saved.nextRow, saved.events;
    }

    method FirstRow(w: Want) returns (i: nat)
      ensures i == FindRow(rows, w)
    {
      i := 0;
      while i < |rows| && !Matches(rows[i], w)
        invariant i <= |rows|
        invariant FindRow(rows, w) == i + FindRow(rows[i..], w)
      {
        assert rows[i..][1..] == rows[i + 1..];
        i := i + 1;
      }
    }

    method WriteRow(w: Want, firesAt: int)
      modifies this
      ensures View() == Upsert(old(View()), w, firesAt)
    {
      var i := FirstRow(w);
      if i == |rows| {
        rows := rows + [Row(nextRow, w.kind, w.threshold, firesAt, None, true)];
        nextRow := nextRow + 1;
      } else if rows[i].firedAt.None? && rows[i].firesAt != firesAt {
        rows := rows[i := rows[i].(firesAt := firesAt)];
      }
    }

    method WriteRows(wants: seq<Want>, fires: seq<int>)
      requires |wants| == |fires|
      modifies this
      ensures View() == UpsertAll(old(View()), wants, fires)
    {
      for i := 0 to |wants|
        invariant UpsertAll(old(View()), wants, fires) == UpsertAll(View(), wants[i..], fires[i..])
      {
        assert wants[i..][1..] == wants[i + 1..] && fires[i..][1..] == fires[i + 1..];
        WriteRow(wants[i], fires[i]);
      }
    }

    /** Compute every deadline first, then write the rows. */
    method MaterialiseDeadlines(now: int) returns (failed: Option<ClockError>)
      requires PolicyOk(policy)
      modifies this
      ensures match Materialise(old(View()), now)
              case Ok(d) => failed == None && View() == d
              case Err(e) => failed == Some(e) && View() == old(View())
    {
      var wants := Wanted(policy);
      var fires := ComputeAll(CalendarFor(policy), startedAt, PausesOf(View(), now), wants);
      if fires.Err? {
        return Some(DeadlineFailed(fires.error));
      }
      WriteRows(wants, fires.value);
      return None;
    }

    method FirstResolutionRow() returns (r: Option<Row>)
      ensures r == ResolutionRow(rows)
    {
      for i := 0 to |rows|
        invariant ResolutionRow(rows) == ResolutionRow(rows[i..])
      {
        assert rows[i..][1..] == rows[i + 1..];
        if rows[i].kind == Resolution {
          return Some(rows[i]);
        }
      }
      return None;
    }

    method Remaining(at: int) returns (r: Result<int, DeadlineError>)
      requires PolicyOk(policy)
      ensures r == RemainingSeconds(View(), at)
    {
      assert CalendarOk(CalendarFor(policy));
      hide TimeBetween, CalendarOk;
      var row := FirstResolutionRow();
      if row.None? {
        return Ok(0);
      }
      var cal, pauses := CalendarFor(policy), PausesOf(View(), at);
      if at <= row.value.firesAt {
        var t := BusinessTimeBetween(at, row.value.firesAt, cal, pauses);
        return if t.Ok? then Ok(t.value / SECOND) else Err(t.error);
      } else {
        var t := BusinessTimeBetween(row.value.firesAt, at, cal, pauses);
        return if t.Ok? then Ok(-(t.value / SECOND)) else Err(t.error);
      }
    }

    method RecordEvent(kind: EventKind, at: int, reason: string, actor: Actor) returns (failed: Option<ClockError>)
      requires PolicyOk(policy)
      modifies this
      ensures match Record(old(View()), kind, at, reason, actor)
              case Ok(d) => failed == None && View() == d
              case Err(e) => failed == Some(e) && View() == old(View())
    {
      var remaining := Remaining(at);
      if remaining.Err? {
        return Some(DeadlineFailed(remaining.error));
      }
      if !ActorOk(actor) {
        return Some(ActorRequired);
      }
      events := events + [Event(kind, at, reason, remaining.value)];
      return None;
    }

    method PauseClock(reason: string, actor: Actor, at: int) returns (failed: Option<ClockError>)
      requires PolicyOk(policy)
      modifies this
      ensures match Pause(old(View()), reason, actor, at)
              case Ok(d) => failed == None && View() == d
              case Err(e) => failed == Some(e) && View() == old(View())
    {
      if Blank(reason) {
        return Some(ReasonRequired);
      }
      if state != Running {
        return Some(ClockStateError(state));
      }
      var saved := View();
      state := Paused;
      pausedAt := Some(at);
      failed := RecordEvent(EvPaused, at, reason, actor);
      if failed.Some? {
        Rollback(saved);
      }
    }

    method ResumeClock(reason: string, actor: Actor, at: int, now: int) returns (failed: Option<ClockError>)
      requires PolicyOk(policy)
      modifies this
      ensures match Resume(old(View()), reason, actor, at, now)
              case Ok(d) => failed == None && View() == d
              case Err(e) => failed == Some(e) && View() == old(View())
    {
      if Blank(reason) {
        return Some(ReasonRequired);
      }
      if state != Paused || pausedAt.None? {
        return Some(ClockStateError(state));
      }
      var saved := View();
      intervals := intervals + [(pausedAt.value, at)];
      state := Running;
      pausedAt := None;
      failed := MaterialiseDeadlines(now);
      if failed.None? {
        failed := RecordEvent(EvResumed, at, reason, actor);
      }
      if failed.Some? {
        Rollback(saved);
      }
    }

    method DeleteUnfired()
      modifies this`rows
      ensures rows == KeepOnStop(old(rows))
    {
      var kept: seq<Row> := [];
      for i := 0 to |rows|
        invariant rows == old(rows) && KeepOnStop(rows) == kept + KeepOnStop(rows[i..])
      {
        assert rows[i..][1..] == rows[i + 1..];
        if rows[i].firedAt.Some? || rows[i].kind == ReopenWindow {
          kept := kept + [rows[i]];
        }
      }
      rows := kept;
    }

    method StopClock(actor: Actor, at: int) returns (failed: Option<ClockError>)
      requires PolicyOk(policy)
      modifies this
      ensures match Stop(old(View()), actor, at)
              case Ok(d) => failed == None && View() == d
              case Err(e) => failed == Some(e) && View() == old(View())
    {
      var saved := View();
      state := Stopped;
      stoppedAt := Some(at);
      DeleteUnfired();
      failed := RecordEvent(EvStopped, at, "", actor);
      if failed.Some? {
        Rollback(saved);
      }
    }
  }

  /** Create a clock, its rows and its first event, or nothing at all. */
  method StartClock(policy: Policy, startedAt: int, now: int, actor: Actor)
    returns (clock: SLAClock, failed: Option<ClockError>)
    requires PolicyOk(policy)
    ensures fresh(clock)
    ensures match Start(policy, startedAt, now, actor)
            case Ok(d) => failed == None && clock.View() == d
            case Err(e) => failed == Some(e)
  {
    clock := new SLAClock(policy, startedAt);
    failed := clock.MaterialiseDeadlines(now);
    if failed.None? {
      failed := clock.RecordEvent(EvStarted, startedAt, "", actor);
    }
  }
}
