/** The case as the object whose fields a transition updates, together with its clock,
    inside a transaction that is rolled back when any part of it fails. */
module DisputeObject {
  import opened Prelude
  import opened BusinessCalendar
  import opened Pauses
  import opened Deadlines
  import opened Clocks
  import opened ClockObject
  import opened Disputes
  import Vault

  class Case {
    var status: Status
    var acknowledgedAt: Option<int>
    var closedAt: Option<int>
    var finding: Option<Finding>
    var ackDeadline: int
    var resolutionDeadline: int
    var tracks: set<string>
    var trail: seq<Note>
    const clock: SLAClock

    function View(): Dispute
      reads this, clock
    {
      Dispute(status, acknowledgedAt, closedAt, finding, ackDeadline, resolutionDeadline, tracks, clock.View(), trail)
    }

    constructor (clock: SLAClock, ackDeadline: int, resolutionDeadline: int)
      ensures this.clock == clock
      ensures View() == Dispute(Submitted, None, None, None, ackDeadline, resolutionDeadline, {}, clock.View(), [])
    {
      status, acknowledgedAt, closedAt, finding := Submitted, None, None, None;
      this.ackDeadline, this.resolutionDeadline := ackDeadline, resolutionDeadline;
      tracks, trail := {}, [];
      this.clock := clock;
    }

    method Rollback(saved: Dispute)
      requires saved.clock.policy == clock.policy && saved.clock.startedAt == clock.startedAt
      modifies this, clock
      ensures View() == saved
    {
      status, acknowledgedAt, closedAt, finding := saved.status, saved.acknowledgedAt, saved.closedAt, saved.finding;
      ackDeadline, resolutionDeadline := saved.ackDeadline, saved.resolutionDeadline;
      tracks, trail := saved.tracks, saved.trail;
      clock.Rollback(saved.clock);
    }

    method LastRow(kind: Kind) returns (r: Option<Row>)
      ensures r == RowOf(clock.rows, kind)
    {
      r := None;
      for i := 0 to |clock.rows|
        invariant r == RowOf(clock.rows[..i], kind)
      {
        assert clock.rows[..i + 1][..i] == clock.rows[..i];
        if clock.rows[i].kind == kind {
          r := Some(clock.rows[i]);
        }
      }
      assert clock.rows[..|clock.rows|] == clock.rows;
    }

    method SyncDeadlines()
      modifies this
      ensures View() == Sync(old(View()))
    {
      var ack := LastRow(Acknowledgement);
      var resolution := LastRow(Resolution);
      if ack.Some? && ackDeadline != ack.value.firesAt {
        ackDeadline := ack.value.firesAt;
      }
      if resolution.Some? && resolutionDeadline != resolution.value.firesAt {
        resolutionDeadline := resolution.value.firesAt;
      }
    }

    method ApplyClockEffect(effect: Effect, reason: string, actor: Actor, at: int, now: int)
      returns (failed: Option<ClockError>)
      requires PolicyOk(clock.policy)
      modifies clock
      ensures match ApplyEffect(old(clock.View()), effect, reason, actor, at, now)
              case Ok(c) => failed == None && clock.View() == c
              case Err(e) => failed == Some(e) && clock.View() == old(clock.View())
    {
      match effect
      case NoEffect => failed := None;
      case PauseEffect => failed := clock.PauseClock(reason, actor, at);
      case ResumeEffect => failed := clock.ResumeClock(reason, actor, at, now);
      case StopEffect =>
        failed := None;
        if clock.state != Stopped {
          failed := clock.StopClock(actor, at);
        }
    }

    method AppendNote(trigger: string, from: Status, reason: string, actor: Actor, at: int)
      returns (failed: Option<CaseError>)
      requires PolicyOk(clock.policy)
      modifies this
      ensures match Noted(old(View()), trigger, from, reason, actor, at)
              case Ok(d) => failed == None && View() == d
              case Err(e) => failed == Some(e) && View() == old(View())
    {
      var remaining := clock.Remaining(at);
      if remaining.Err? {
        return Some(ClockFailed(DeadlineFailed(remaining.error)));
      }
      if !ActorOk(actor) {
        return Some(ClockFailed(ActorRequired));
      }
      trail := trail + [Note(trigger, from, status, reason, remaining.value, actor, at)];
      return None;
    }

    /** Everything a move writes, once it has not been refused. */
    method WriteMove(to: Status, rule: Rule, actor: Actor, reason: string, at: int, now: int)
      returns (failed: Option<CaseError>)
      requires PolicyOk(clock.policy)
      modifies this, clock
      ensures match ApplyEffect(old(clock.View()), rule.effect, reason, actor, at, now)
              case Err(e) => failed == Some(ClockFailed(e))
              case Ok(c) =>
                match Noted(Sync(Stamped(old(View()), to, at).(clock := c)), rule.trigger, old(status), reason, actor, at)
                case Err(e) => failed == Some(e)
                case Ok(d) => failed == None && View() == d
    {
      hide RemainingSeconds, RowOf, Pause, Resume, Stop;
      var previous := status;
      status := to;
      if to == Acknowledged && acknowledgedAt == None {
        acknowledgedAt := Some(at);
      }
      if to in TERMINAL {
        closedAt := Some(at);
      }
      var refused := ApplyClockEffect(rule.effect, reason, actor, at, now);
      if refused.Some? {
        return Some(ClockFailed(refused.value));
      }
      SyncDeadlines();
      failed := AppendNote(rule.trigger, previous, reason, actor, at);
    }

    method TransitionTo(to: Status, actor: Actor, reason: string, at: int, now: int) returns (failed: Option<CaseError>)
      requires PolicyOk(clock.policy)
      modifies this, clock
      ensures match Transition(old(View()), to, actor, reason, at, now)
              case Ok(d) => failed == None && View() == d
              case Err(e) => failed == Some(e) && View() == old(View())
    {
      hide Find, Blank, ApplyEffect, Noted, Sync, Stamped;
      var rule := Find(status, to);
      if rule.None? {
        return Some(IllegalTransition);
      }
      if rule.value.needsReason && Blank(reason) {
        return Some(ReasonMissing);
      }
      if actor.kind !in rule.value.actors {
        return Some(ActorNotPermitted);
      }
      if to in TERMINAL && tracks != {} {
        return Some(ExternalTrackOpen);
      }
      var saved := View();
      failed := WriteMove(to, rule.value, actor, reason, at, now);
      if failed.Some? {
        Rollback(saved);
      }
    }

    method ResolveCase(outcome: string, notes: string, refund: Option<int>, actor: Actor, at: int, now: int)
      returns (failed: Option<CaseError>)
      requires PolicyOk(clock.policy)
      modifies this, clock
      ensures match Resolve(old(View()), outcome, notes, refund, actor, at, now)
              case Ok(d) => failed == None && View() == d
              case Err(e) => failed == Some(e) && View() == old(View())
    {
      if outcome !in OUTCOMES {
        return Some(UnknownOutcome);
      }
      if Blank(notes) {
        return Some(ReasonMissing);
      }
      hide Transition, Blank;
      var saved := View();
      finding := Some(Finding(outcome, notes, refund, at));
      failed := TransitionTo(Resolved, actor, notes, at, now);
      if failed.Some? {
        Rollback(saved);
      }
    }

    /** The part of a mass finding that falls on this case. */
    method ResolveByMass(outcome: string, notes: string, refund: Option<int>, actor: Actor, now: int)
      returns (applied: bool)
      modifies this, clock
      ensures View() == MassResolve(old(View()), outcome, notes, refund, actor, now)
      ensures applied <==> old(status) in APPLICABLE_FROM
    {
      if status !in APPLICABLE_FROM {
        return false;
      }
      finding := Some(Finding(outcome, notes, refund, now));
      trail := trail + [Note("resolve", status, Resolved, notes, 0, actor, now)];
      status := Resolved;
      if clock.state != Stopped {
        clock.state := Stopped;
        clock.stoppedAt := Some(now);
        clock.events := clock.events + [Event(EvStopped, now, "", 0)];
      }
      return true;
    }
  }

  /** File a case: its clock first, then the case that carries the clock's deadlines, with
      its description as it was sealed. */
  method FileDispute(policy: Policy, submittedAt: int, now: int, actor: Actor, sealed: Result<string, Vault.VaultError>)
    returns (r: Option<Case>, failed: Option<CaseError>)
    requires PolicyOk(policy)
    ensures match File(policy, submittedAt, now, actor, if sealed.Err? then Some(sealed.error) else None)
            case Ok(d) => r.Some? && failed == None && r.value.View() == d && fresh(r.value) && fresh(r.value.clock)
            case Err(e) => r == None && failed == Some(e)
  {
    if actor.kind != "system" && actor.id == "" {
      return None, Some(FilerUnnamed);
    }
    hide Start;
    var clock, refused := StartClock(policy, submittedAt, now, actor);
    if refused.Some? {
      return None, Some(ClockFailed(refused.value));
    }
    if sealed.Err? {
      return None, Some(SealingFailed(sealed.error));
    }
    var case_ := new Case(clock, 0, 0);
    case_.SyncDeadlines();
    return Some(case_), None;
  }
}
