/** The rules of a case, pair by pair: who may make which move, when a reason is asked for,
    what each move writes, and that the audit trail of every run obeys them. */
module DisputeRules {
  import opened Prelude
  import opened Clocks
  import opened Disputes
  import Vault

  /** The thirteen moves there are, each with its trigger. */
  ghost predicate Permitted(from: Status, to: Status, trigger: string) {
    || (from == Submitted && to == Acknowledged && trigger == "acknowledge")
    || (from == Submitted && to == Investigating && trigger == "pick_up")
    || (from == Acknowledged && to == Investigating && trigger == "pick_up")
    || (from == Investigating && to == AwaitingCustomer && trigger == "request_information")
    || (from == AwaitingCustomer && to == Investigating && trigger == "customer_responded")
    || (from == AwaitingCustomer && to == AutoClosed && trigger == "auto_close")
    || (from == Investigating && to == Escalated && trigger == "escalate")
    || (from == Escalated && to == Investigating && trigger == "de_escalate")
    || (from == Investigating && to == Resolved && trigger == "resolve")
    || (from == Escalated && to == Resolved && trigger == "resolve")
    || (from == Resolved && to == Reopened && trigger == "reopen")
    || (from == Reopened && to == Investigating && trigger == "pick_up")
    || (from == Resolved && to == Closed && trigger == "close")
  }

  ghost predicate IsMove(from: Status, to: Status) {
    exists trigger :: Permitted(from, to, trigger)
  }

  /** Only the system closes a case automatically, only it or a user closes one; users, the
      system and integrations alike may make every other move. */
  ghost predicate MayMake(to: Status, kind: string) {
    kind == "system" || (kind == "user" && to != AutoClosed) || (kind == "api_key" && to != AutoClosed && to != Closed)
  }

  /** A reason is asked for pausing and resuming, closing automatically, escalating and going
      back from it, resolving and reopening. */
  ghost predicate AsksWhy(from: Status, to: Status) {
    || to == AwaitingCustomer || from == AwaitingCustomer
    || to == Escalated || (from == Escalated && to == Investigating)
    || to == Resolved || to == Reopened
  }

  ghost predicate Ends(to: Status) {
    to == Closed || to == AutoClosed
  }

  lemma TableIs(from: Status, to: Status)
    ensures Find(from, to).Some? <==> IsMove(from, to)
    ensures Find(from, to).Some? ==>
              && Permitted(from, to, Find(from, to).value.trigger)
              && (Find(from, to).value.needsReason <==> AsksWhy(from, to))
              && forall kind :: kind in Find(from, to).value.actors <==> MayMake(to, kind)
  {
    if Find(from, to).Some? {
      assert Permitted(from, to, Find(from, to).value.trigger);
    }
  }

  /** When a move is refused, and with what, in the order of the checks; any other goes ahead. */
  lemma RefusedExactlyWhen(d: Dispute, to: Status, actor: Actor, reason: string)
    ensures Refused(d, to, actor, reason)
         == if !IsMove(d.status, to) then Some(IllegalTransition)
            else if AsksWhy(d.status, to) && Blank(reason) then Some(ReasonMissing)
            else if !MayMake(to, actor.kind) then Some(ActorNotPermitted)
            else if Ends(to) && d.tracks != {} then Some(ExternalTrackOpen)
            else None
  {
    TableIs(d.status, to);
    hide Find, IsMove, Permitted, MayMake, AsksWhy, Blank;
  }

  // -- what a move writes ----------------------------------------------------

  /** A move that goes through sets the status; the first acknowledgement and the closing are
      stamped with its instant and nothing else is; and its note says all of it. */
  lemma MoveWrites(d: Dispute, to: Status, actor: Actor, reason: string, at: int, now: int)
    requires Transition(d, to, actor, reason, at, now).Ok?
    ensures var after := Transition(d, to, actor, reason, at, now).value;
            && after.status == to && after.finding == d.finding && after.tracks == d.tracks
            && after.acknowledgedAt == (if to == Acknowledged && d.acknowledgedAt.None? then Some(at) else d.acknowledgedAt)
            && after.closedAt == (if to == Closed || to == AutoClosed then Some(at) else d.closedAt)
            && |after.trail| == |d.trail| + 1 && after.trail[..|d.trail|] == d.trail
            && var note := after.trail[|d.trail|];
               && note.from == d.status && note.to == to && Permitted(d.status, to, note.trigger)
               && note.reason == reason && note.actor == actor && note.at == at
               && RemainingSeconds(after.clock, at) == Ok(note.remaining)
  {
    TableIs(d.status, to);
    hide Find, Permitted, RemainingSeconds, ApplyEffect, RowOf, Blank, ActorOk;
  }

  /** And what it does to the clock: asking the customer pauses it, their answer resumes it,
      resolving and closing stop it unless it has stopped, and no other move touches it. */
  lemma MoveTouchesClock(d: Dispute, to: Status, actor: Actor, reason: string, at: int, now: int)
    requires Transition(d, to, actor, reason, at, now).Ok?
    ensures var clock := Transition(d, to, actor, reason, at, now).value.clock;
            if to == AwaitingCustomer then Pause(d.clock, reason, actor, at) == Ok(clock)
            else if d.status == AwaitingCustomer && to == Investigating then Resume(d.clock, reason, actor, at, now) == Ok(clock)
            else if to == Resolved || to == Closed || to == AutoClosed then
              if d.clock.state == Stopped then clock == d.clock else Stop(d.clock, actor, at) == Ok(clock)
            else clock == d.clock
  {
    hide RemainingSeconds, RowOf, Blank, ActorOk, Pause, Resume, Stop;
  }

  /** A finding has one of four outcomes and notes, and is kept with what was said. */
  lemma ResolveWrites(d: Dispute, outcome: string, notes: string, refund: Option<int>, actor: Actor, at: int, now: int)
    ensures outcome !in {"upheld", "rejected", "partial", "withdrawn"} <==>
              Resolve(d, outcome, notes, refund, actor, at, now) == Err(UnknownOutcome)
    ensures Resolve(d, outcome, notes, refund, actor, at, now).Ok? ==>
              && !Blank(notes)
              && Resolve(d, outcome, notes, refund, actor, at, now).value.status == Resolved
              && Resolve(d, outcome, notes, refund, actor, at, now).value.finding == Some(Finding(outcome, notes, refund, at))
  {
    hide Find, RemainingSeconds, ApplyEffect, RowOf, Blank, ActorOk;
  }

  /** A mass finding resolves exactly the cases being investigated or escalated, tracks and
      queue columns aside; the clock stops where it had not, and its rows stay. */
  lemma MassResolveWrites(d: Dispute, outcome: string, notes: string, refund: Option<int>, actor: Actor, now: int)
    ensures var after := MassResolve(d, outcome, notes, refund, actor, now);
            if d.status == Investigating || d.status == Escalated then
              && after.status == Resolved && after.finding == Some(Finding(outcome, notes, refund, now))
              && after.trail == d.trail + [Note("resolve", d.status, Resolved, notes, 0, actor, now)]
              && after.clock.state == Stopped && after.clock.rows == d.clock.rows
              && (if d.clock.state == Stopped then after.clock == d.clock
                  else after.clock.stoppedAt == Some(now) && after.clock.events == d.clock.events + [Event(EvStopped, now, "", 0)])
              && after.acknowledgedAt == d.acknowledgedAt && after.closedAt == d.closedAt && after.tracks == d.tracks
              && after.ackDeadline == d.ackDeadline && after.resolutionDeadline == d.resolutionDeadline
            else after == d
  {
  }

  // -- every run -------------------------------------------------------------

  /** A move on record: one of the thirteen, made by someone who may, named unless it is the
      system, with a reason where one is asked for. */
  ghost predicate Lawful(note: Note) {
    && Permitted(note.from, note.to, note.trigger) && MayMake(note.to, note.actor.kind)
    && (note.actor.kind == "system" || note.actor.id != "")
    && (AsksWhy(note.from, note.to) ==> !Blank(note.reason))
  }

  ghost predicate AllLawful(trail: seq<Note>) {
    forall i :: 0 <= i < |trail| ==> Lawful(trail[i])
  }

  lemma StepLawful(d: Dispute, m: Move)
    requires AllLawful(d.trail)
    ensures AllLawful(Step(d, m).trail)
  {
    EveryMoveIsNoted(d, m);
    var after := Step(d, m);
    hide Step, Blank, Find, RemainingSeconds, Permitted, MayMake, AsksWhy;
    if after.status != d.status {
      TableIs(d.status, after.status);
      assert after.trail == after.trail[..|d.trail|] + [after.trail[|d.trail|]];
    }
  }

  /** In every run of a filed case, every note in its audit trail is of a lawful move. */
  lemma {:induction false} EveryNoteIsLawful(d: Dispute, moves: seq<Move>)
    requires AllLawful(d.trail)
    ensures AllLawful(History(d, moves).trail)
    decreases |moves|
  {
    hide Step, AllLawful;
    var n := |moves|;
    if n > 0 {
      EveryNoteIsLawful(d, moves[..n - 1]);
      StepLawful(History(d, moves[..n - 1]), moves[n - 1]);
    }
  }

  lemma FiledNotesAreLawful(policy: Policy, submittedAt: int, now: int, actor: Actor, unsealed: Option<Vault.VaultError>,
          moves: seq<Move>)
    requires File(policy, submittedAt, now, actor, unsealed).Ok?
    ensures AllLawful(History(File(policy, submittedAt, now, actor, unsealed).value, moves).trail)
  {
    hide Start, RowOf, History;
    EveryNoteIsLawful(File(policy, submittedAt, now, actor, unsealed).value, moves);
  }
}
