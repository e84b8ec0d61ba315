/** A case: its transition table, what each move does to its clock and its queue
    columns, and what holds of it in every run. */
module Disputes {
  import opened Prelude
  import opened BusinessCalendar
  import opened Deadlines
  import opened Clocks
  import opened ClockRows
  import opened ClockLaws
  import opened Witness
  import Vault

  datatype Status =
    | Submitted | Acknowledged | Investigating | AwaitingCustomer | Escalated | Resolved | Reopened | Closed | AutoClosed

  datatype Effect = NoEffect | PauseEffect | ResumeEffect | StopEffect

  datatype Rule = Rule(trigger: string, effect: Effect, needsReason: bool, actors: set<string>)

  const ANYONE := {"user", "system", "api_key"}

  /** The table of permitted moves. */
  function Find(source: Status, target: Status): Option<Rule> {
    match source
    case Submitted =>
      if target == Acknowledged then Some(Rule("acknowledge", NoEffect, false, ANYONE))
      else if target == Investigating then Some(Rule("pick_up", NoEffect, false, ANYONE))
      else None
    case Acknowledged =>
      if target == Investigating then Some(Rule("pick_up", NoEffect, false, ANYONE)) else None
    case Investigating =>
      if target == AwaitingCustomer then Some(Rule("request_information", PauseEffect, true, ANYONE))
      else if target == Escalated then Some(Rule("escalate", NoEffect, true, ANYONE))
      else if target == Resolved then Some(Rule("resolve", StopEffect, true, ANYONE))
      else None
    case AwaitingCustomer =>
      if target == Investigating then Some(Rule("customer_responded", ResumeEffect, true, ANYONE))
      else if target == AutoClosed then Some(Rule("auto_close", StopEffect, true, {"system"}))
      else None
    case Escalated =>
      if target == Investigating then Some(Rule("de_escalate", NoEffect, true, ANYONE))
      else if target == Resolved then Some(Rule("resolve", StopEffect, true, ANYONE))
      else None
    case Resolved =>
      if target == Reopened then Some(Rule("reopen", NoEffect, true, ANYONE))
      else if target == Closed then Some(Rule("close", StopEffect, false, {"system", "user"}))
      else None
    case Reopened =>
      if target == Investigating then Some(Rule("pick_up", NoEffect, false, ANYONE)) else None
    case Closed => None
    case AutoClosed => None
  }

  const TERMINAL := {Closed, AutoClosed}

  const OUTCOMES := {"upheld", "rejected", "partial", "withdrawn"}

  // -- the case --------------------------------------------------------------

  // What the audit trail keeps of a move.
  datatype Note = Note(trigger: string, from: Status, to: Status, reason: string, remaining: int, actor: Actor, at: int)

  datatype Finding = Finding(outcome: string, notes: string, refund: Option<int>, at: int)

  // A track is known by the identifier of its row, so two with one body and reference differ.
  datatype Dispute = Dispute(status: Status, acknowledgedAt: Option<int>, closedAt: Option<int>, finding: Option<Finding>,
                             ackDeadline: int, resolutionDeadline: int, tracks: set<string>, clock: Clock, trail: seq<Note>)

  datatype CaseError =
    | IllegalTransition
    | ReasonMissing
    | ActorNotPermitted
    | ExternalTrackOpen
    | UnknownOutcome
    | FilerUnnamed
    | ClockFailed(why: ClockError)
    | SealingFailed(refused: Vault.VaultError)

  /** The last row of a kind, if there is one. */
  function RowOf(rows: seq<Row>, kind: Kind): (r: Option<Row>)
    ensures r.Some? ==> r.value in rows && r.value.kind == kind
    ensures r.None? ==> forall i :: 0 <= i < |rows| ==> rows[i].kind != kind
  {
    if rows == [] then None
    else if rows[|rows| - 1].kind == kind then Some(rows[|rows| - 1])
    else RowOf(rows[..|rows| - 1], kind)
  }

  function InStepWith(column: int, row: Option<Row>): int {
    if row.None? then column else row.value.firesAt
  }

  /** Bring the queue columns into step with the deadline rows there are. */
  function Sync(d: Dispute): Dispute {
    d.(ackDeadline := InStepWith(d.ackDeadline, RowOf(d.clock.rows, Acknowledgement)),
       resolutionDeadline := InStepWith(d.resolutionDeadline, RowOf(d.clock.rows, Resolution)))
  }

  /** A new case with its clock started, or nothing. Its description is sealed for its
      subject, which may be refused. */
  ghost function File(policy: Policy, submittedAt: int, now: int, actor: Actor, unsealed: Option<Vault.VaultError>)
    : Result<Dispute, CaseError>
  {
    if actor.kind != "system" && actor.id == "" then Err(FilerUnnamed)
    else
      match Start(policy, submittedAt, now, actor)
      case Err(e) => Err(ClockFailed(e))
      case Ok(clock) =>
        if unsealed.Some? then Err(SealingFailed(unsealed.value))
        else Ok(Sync(Dispute(Submitted, None, None, None, 0, 0, {}, clock, [])))
  }

  // -- moving a case ---------------------------------------------------------

  ghost function ApplyEffect(c: Clock, effect: Effect, reason: string, actor: Actor, at: int,
          now: int): Result<Clock, ClockError> {
    match effect
    case NoEffect => Ok(c)
    case PauseEffect => Pause(c, reason, actor, at)
    case ResumeEffect => Resume(c, reason, actor, at, now)
    case StopEffect => if c.state == Stopped then Ok(c) else Stop(c, actor, at)
  }

  function Stamped(d: Dispute, to: Status, at: int): Dispute {
    d.(status := to,
       acknowledgedAt := if to == Acknowledged && d.acknowledgedAt.None? then Some(at) else d.acknowledgedAt,
       closedAt := if to in TERMINAL then Some(at) else d.closedAt)
  }

  /** Why a move is refused before anything is written. */
  function Refused(d: Dispute, to: Status, actor: Actor, reason: string): Option<CaseError> {
    var rule := Find(d.status, to);
    if rule.None? then Some(IllegalTransition)
    else if rule.value.needsReason && Blank(reason) then Some(ReasonMissing)
    else if actor.kind !in rule.value.actors then Some(ActorNotPermitted)
    else if to in TERMINAL && d.tracks != {} then Some(ExternalTrackOpen)
    else None
  }

  /** The audit record of a move, which also says what is left on the clock. */
  ghost function Noted(d: Dispute, trigger: string, from: Status, reason: string, actor: Actor,
          at: int): Result<Dispute, CaseError> {
    match RemainingSeconds(d.clock, at)
    case Err(e) => Err(ClockFailed(DeadlineFailed(e)))
    case Ok(remaining) =>
      if !ActorOk(actor) then Err(ClockFailed(ActorRequired))
      else Ok(d.(trail := d.trail + [Note(trigger, from, d.status, reason, remaining, actor, at)]))
  }

  ghost function Transition(d: Dispute, to: Status, actor: Actor, reason: string, at: int,
          now: int): Result<Dispute, CaseError> {
    match Refused(d, to, actor, reason)
    case Some(e) => Err(e)
    case None =>
      var rule := Find(d.status, to).value;
      match ApplyEffect(d.clock, rule.effect, reason, actor, at, now)
      case Err(e) => Err(ClockFailed(e))
      case Ok(clock) => Noted(Sync(Stamped(d, to, at).(clock := clock)), rule.trigger, d.status, reason, actor, at)
  }

  ghost function Resolve(d: Dispute, outcome: string, notes: string, refund: Option<int>, actor: Actor, at: int,
          now: int)
    : Result<Dispute, CaseError>
  {
    if outcome !in OUTCOMES then Err(UnknownOutcome)
    else if Blank(notes) then Err(ReasonMissing)
    else Transition(d.(finding := Some(Finding(outcome, notes, refund, at))), Resolved, actor, notes, at, now)
  }

  const APPLICABLE_FROM := {Investigating, Escalated}

  /** What a mass finding does to one of its member cases: the rows stay, and so do the
      queue columns. A case that cannot be resolved is left as it is. */
  function MassResolve(d: Dispute, outcome: string, notes: string, refund: Option<int>, actor: Actor,
          now: int): Dispute {
    if d.status !in APPLICABLE_FROM then d
    else
      d.(finding := Some(Finding(outcome, notes, refund, now)), status := Resolved, clock := MassStop(d.clock, now),
         trail := d.trail + [Note("resolve", d.status, Resolved, notes, 0, actor, now)])
  }

  /** What is asked of a mass finding before it reaches any case: a known outcome, notes and
      a person who made it. */
  predicate FindingOk(outcome: string, notes: string, actor: Actor) {
    outcome in OUTCOMES && !Blank(notes) && actor.kind == "user" && ActorOk(actor)
  }

  // -- runs ------------------------------------------------------------------

  datatype Move =
    | DoTransition(to: Status, actor: Actor, reason: string, at: int, now: int)
    | DoResolve(outcome: string, notes: string, refund: Option<int>, actor: Actor, at: int, now: int)
    | DoMassResolve(outcome: string, notes: string, refund: Option<int>, actor: Actor, now: int)
    | DoFireRow(row: nat, now: int)
    | DoOpenScheme(chargebackAt: int, days: nat)
    | DoOpenTrack(track: string)
    | DoCloseTrack(track: string)

  ghost function Kept(r: Result<Dispute, CaseError>, d: Dispute): Dispute {
    if r.Ok? then r.value else d
  }

  /** One move; one that is refused, or fails on the way, changes nothing. */
  ghost function Step(d: Dispute, m: Move): Dispute {
    match m
    case DoTransition(to, actor, reason, at, now) => Kept(Transition(d, to, actor, reason, at, now), d)
    case DoResolve(outcome, notes, refund, actor, at, now) => Kept(Resolve(d, outcome, notes, refund, actor, at, now), d)
    case DoMassResolve(outcome, notes, refund, actor, now) =>
      if FindingOk(outcome, notes, actor) then MassResolve(d, outcome, notes, refund, actor, now) else d
    case DoFireRow(row, now) => d.(clock := Fire(d.clock, row, now))
    case DoOpenScheme(chargebackAt, days) => d.(clock := OpenScheme(d.clock, chargebackAt, days))
    case DoOpenTrack(track) => d.(tracks := d.tracks + {track})
    case DoCloseTrack(track) => d.(tracks := d.tracks - {track})
  }

  ghost function History(d: Dispute, moves: seq<Move>): Dispute {
    var n := |moves|;
    if n == 0 then d else Step(History(d, moves[..n - 1]), moves[n - 1])
  }

  // -- the invariant ---------------------------------------------------------

  /** What a case's status says about its clock. */
  predicate Fits(status: Status, state: State) {
    match status
    case Submitted => state == Running
    case Acknowledged => state == Running
    case AwaitingCustomer => state == Paused
    case Investigating => state != Paused
    case Escalated => state != Paused
    case _ => state == Stopped
  }

  /** Each acknowledgement or resolution row there is equals its queue column. */
  ghost predicate ColumnsInStep(d: Dispute) {
    forall i :: 0 <= i < |d.clock.rows| ==>
      && (d.clock.rows[i].kind == Acknowledgement ==> d.clock.rows[i].firesAt == d.ackDeadline)
      && (d.clock.rows[i].kind == Resolution ==> d.clock.rows[i].firesAt == d.resolutionDeadline)
  }

  /** The notes lead from the first status to the present one, move by move. */
  ghost predicate TrailLeads(trail: seq<Note>, status: Status) {
    && status == StatusAfter(trail, |trail|)
    && (forall i :: 0 <= i < |trail| ==> trail[i].from == StatusAfter(trail, i))
  }

  /** The status the first `n` notes lead to. */
  function StatusAfter(trail: seq<Note>, n: nat): Status
    requires n <= |trail|
  {
    if n == 0 then Submitted else trail[n - 1].to
  }

  ghost predicate CaseInv(d: Dispute) {
    && Inv(d.clock)
    && Fits(d.status, d.clock.state)
    && ColumnsInStep(d)
    && TrailLeads(d.trail, d.status)
  }

  /** There is at most one acknowledgement row, and at most one resolution row. */
  lemma OneRowEach(c: Clock, i: nat, j: nat)
    requires RowsOk(c.rows, c.nextRow) && RowsKnown(c)
    requires i < |c.rows| && j < |c.rows|
    requires c.rows[i].kind == c.rows[j].kind && c.rows[i].kind in {Acknowledgement, Resolution}
    ensures i == j
  {
    WantedThreshold(c.policy, c.rows[i]);
    WantedThreshold(c.policy, c.rows[j]);
  }

  lemma WantedThreshold(p: Policy, r: Row)
    requires WantedRow(p, r) && r.kind in {Acknowledgement, Resolution}
    ensures r.threshold == None
  {
    SortedSetAscends(p.thresholds);
    WarningWantsDistinct(p, SortedSet(p.thresholds));
  }

  lemma SyncInStep(d: Dispute)
    requires RowsOk(d.clock.rows, d.clock.nextRow) && RowsKnown(d.clock)
    ensures ColumnsInStep(Sync(d))
  {
    hide RowsOk, RowsKnown, RowOf;
    var rows := d.clock.rows;
    forall i | 0 <= i < |rows| && rows[i].kind in {Acknowledgement, Resolution}
      ensures RowOf(rows, rows[i].kind) == Some(rows[i])
    {
      assert RowOf(rows, rows[i].kind).Some?;
      var j :| 0 <= j < |rows| && rows[j] == RowOf(rows, rows[i].kind).value;
      OneRowEach(d.clock, i, j);
    }
  }

  /** The pausable clock never refuses the effect the table asks of it, one case aside. */
  lemma EffectState(c: Clock, effect: Effect, reason: string, actor: Actor, at: int, now: int)
    requires Inv(c) && ApplyEffect(c, effect, reason, actor, at, now).Ok?
    ensures var d := ApplyEffect(c, effect, reason, actor, at, now).value;
            && Inv(d)
            && match effect
               case NoEffect => d == c
               case PauseEffect => d.state == Paused
               case ResumeEffect => d.state == Running
               case StopEffect => d.state == Stopped
  {
    match effect
    case NoEffect =>
    case PauseEffect => ApplyInv(c, DoPause(reason, actor, at));
    case ResumeEffect => ResumeState(c, reason, actor, at, now);
    case StopEffect => if c.state != Stopped { StopInv(c, actor, at); }
  }

  lemma ResumeState(c: Clock, reason: string, actor: Actor, at: int, now: int)
    requires Inv(c) && Resume(c, reason, actor, at, now).Ok?
    ensures var d := Resume(c, reason, actor, at, now).value; Inv(d) && d.state == Running
  {
    ResumeInv(c, reason, actor, at, now);
    var resumed := c.(intervals := c.intervals + [(c.pausedAt.value, at)], state := Running, pausedAt := None);
    MaterialiseBringsIntoStep(resumed, now);
  }

  /** The table sends each status where the clock's state after the effect fits. */
  lemma TableFits(source: Status, target: Status, before: State, after: State)
    requires Fits(source, before) && Find(source, target).Some?
    requires match Find(source, target).value.effect
             case NoEffect => after == before
             case PauseEffect => after == Paused
             case ResumeEffect => after == Running
             case StopEffect => after == Stopped
    ensures Fits(target, after)
  {
  }

  lemma TransitionKeeps(d: Dispute, to: Status, actor: Actor, reason: string, at: int, now: int)
    requires CaseInv(d) && Transition(d, to, actor, reason, at, now).Ok?
    ensures CaseInv(Transition(d, to, actor, reason, at, now).value)
  {
    hide Find, Inv, RemainingSeconds, RowOf, ApplyEffect, Fits;
    var rule := Find(d.status, to).value;
    EffectState(d.clock, rule.effect, reason, actor, at, now);
    var clock := ApplyEffect(d.clock, rule.effect, reason, actor, at, now).value;
    TableFits(d.status, to, d.clock.state, clock.state);
    InvRows(clock);
    SyncInStep(Stamped(d, to, at).(clock := clock));
    var after := Transition(d, to, actor, reason, at, now).value;
    TrailExtends(d.trail, d.status, after.trail[|d.trail|]);
  }

  lemma TrailExtends(trail: seq<Note>, status: Status, note: Note)
    requires TrailLeads(trail, status) && note.from == status
    ensures TrailLeads(trail + [note], note.to)
  {
    var longer := trail + [note];
    forall i | 0 <= i < |longer| ensures longer[i].from == StatusAfter(longer, i) {
      assert StatusAfter(longer, i) == StatusAfter(trail, i);
    }
  }

  lemma InvRows(c: Clock)
    requires Inv(c)
    ensures RowsOk(c.rows, c.nextRow) && RowsKnown(c)
  {
  }

  lemma MassResolveKeeps(d: Dispute, outcome: string, notes: string, refund: Option<int>, actor: Actor, now: int)
    requires CaseInv(d)
    ensures CaseInv(MassResolve(d, outcome, notes, refund, actor, now))
  {
    ApplyInv(d.clock, DoMassStop(now));
    hide Inv, TrailLeads;
    TrailExtends(d.trail, d.status, Note("resolve", d.status, Resolved, notes, 0, actor, now));
  }

  lemma FireRowKeeps(d: Dispute, row: nat, now: int)
    requires CaseInv(d)
    ensures CaseInv(d.(clock := Fire(d.clock, row, now)))
  {
    FireInv(d.clock, row, now);
    hide Inv, Fits, TrailLeads;
  }

  lemma SchemeKeeps(d: Dispute, chargebackAt: int, days: nat)
    requires CaseInv(d)
    ensures CaseInv(d.(clock := OpenScheme(d.clock, chargebackAt, days)))
  {
    OpenSchemeInv(d.clock, chargebackAt, days);
    SchemeRows(d.clock, chargebackAt, days);
    hide Inv, OpenScheme, Fits, TrailLeads;
    var rows := OpenScheme(d.clock, chargebackAt, days).rows;
    assert forall i :: 0 <= i < |d.clock.rows| ==> rows[i] == d.clock.rows[i];
  }

  lemma SchemeRows(c: Clock, chargebackAt: int, days: nat)
    ensures var d := OpenScheme(c, chargebackAt, days);
            && d.state == c.state && |c.rows| <= |d.rows|
            && (forall i :: 0 <= i < |c.rows| ==> d.rows[i] == c.rows[i])
            && (forall i :: |c.rows| <= i < |d.rows| ==> d.rows[i].kind in {SchemeRepresentment, SchemeWarning})
  {
  }

  lemma StepKeeps(d: Dispute, m: Move)
    requires CaseInv(d)
    ensures CaseInv(Step(d, m))
  {
    hide CaseInv, Transition, MassResolve, Fire, OpenScheme;
    match m
    case DoTransition(to, actor, reason, at, now) =>
      if Transition(d, to, actor, reason, at, now).Ok? { TransitionKeeps(d, to, actor, reason, at, now); }
    case DoResolve(outcome, notes, refund, actor, at, now) =>
      if Resolve(d, outcome, notes, refund, actor, at, now).Ok? {
        FindingApart(d, Some(Finding(outcome, notes, refund, at)), d.tracks);
        TransitionKeeps(d.(finding := Some(Finding(outcome, notes, refund, at))), Resolved, actor, notes, at, now);
      }
    case DoMassResolve(outcome, notes, refund, actor, now) => MassResolveKeeps(d, outcome, notes, refund, actor, now);
    case DoFireRow(row, now) => FireRowKeeps(d, row, now);
    case DoOpenScheme(chargebackAt, days) => SchemeKeeps(d, chargebackAt, days);
    case DoOpenTrack(track) => FindingApart(d, d.finding, d.tracks + {track});
    case DoCloseTrack(track) => FindingApart(d, d.finding, d.tracks - {track});
  }

  lemma FindingApart(d: Dispute, finding: Option<Finding>, tracks: set<string>)
    requires CaseInv(d)
    ensures CaseInv(d.(finding := finding, tracks := tracks))
  {
    hide Inv, Fits, TrailLeads;
  }

  lemma FiledKeeps(policy: Policy, submittedAt: int, now: int, actor: Actor, unsealed: Option<Vault.VaultError>)
    requires PolicyOk(policy) && File(policy, submittedAt, now, actor, unsealed).Ok?
    ensures CaseInv(File(policy, submittedAt, now, actor, unsealed).value)
  {
    StartedRuns(policy, submittedAt, now, actor);
    hide Inv, RowOf, Start;
    var clock := Start(policy, submittedAt, now, actor).value;
    InvRows(clock);
    SyncInStep(Dispute(Submitted, None, None, None, 0, 0, {}, clock, []));
  }

  lemma StartedRuns(policy: Policy, startedAt: int, now: int, actor: Actor)
    requires PolicyOk(policy) && Start(policy, startedAt, now, actor).Ok?
    ensures var c := Start(policy, startedAt, now, actor).value; Inv(c) && c.state == Running
  {
    StartInv(policy, startedAt, now, actor);
    hide Inv, RowsOk, RowsKnown, InStep, Complete, RemainingSeconds;
    MaterialiseBringsIntoStep(NewClock(policy, startedAt), now);
  }

  /** In every run of a filed case its status and its clock agree, its queue columns
      equal its rows, and its audit trail leads to its status. */
  lemma {:induction false} EveryRunKeeps(d: Dispute, moves: seq<Move>)
    requires CaseInv(d)
    ensures CaseInv(History(d, moves))
    decreases |moves|
  {
    hide CaseInv, Step;
    var n := |moves|;
    if n > 0 {
      EveryRunKeeps(d, moves[..n - 1]);
      StepKeeps(History(d, moves[..n - 1]), moves[n - 1]);
    }
  }

  /** What that says of a case filed through the service, wherever its life has led. */
  lemma FiledCaseInEveryRun(policy: Policy, submittedAt: int, now: int, actor: Actor, unsealed: Option<Vault.VaultError>,
          moves: seq<Move>)
    requires PolicyOk(policy) && File(policy, submittedAt, now, actor, unsealed).Ok?
    ensures var d := History(File(policy, submittedAt, now, actor, unsealed).value, moves);
            && (d.status == AwaitingCustomer <==> d.clock.state == Paused)
            && (d.status in {Submitted, Acknowledged} ==> d.clock.state == Running)
            && (d.status in {Resolved, Reopened, Closed, AutoClosed} ==> d.clock.state == Stopped)
            && ColumnsInStep(d) && TrailLeads(d.trail, d.status) && Inv(d.clock)
  {
    FiledKeeps(policy, submittedAt, now, actor, unsealed);
    hide File, Inv, ColumnsInStep, TrailLeads, History;
    EveryRunKeeps(File(policy, submittedAt, now, actor, unsealed).value, moves);
  }

  // -- what a move does ------------------------------------------------------

  /** A case changes status only along the table, by someone the table allows, with a
      reason where it asks for one, leaving exactly one note of it with what is left on
      the clock; and never into a terminal status while an external track is open. */
  lemma EveryMoveIsNoted(d: Dispute, m: Move)
    ensures var after := Step(d, m);
            if after.status == d.status then after.trail == d.trail
            else
              && |after.trail| == |d.trail| + 1 && after.trail[..|d.trail|] == d.trail
              && var note := after.trail[|d.trail|];
                 && note.from == d.status && note.to == after.status
                 && Find(d.status, after.status).Some?
                 && note.trigger == Find(d.status, after.status).value.trigger
                 && note.actor.kind in Find(d.status, after.status).value.actors && ActorOk(note.actor)
                 && (Find(d.status, after.status).value.needsReason ==> !Blank(note.reason))
                 && (m.DoTransition? || m.DoResolve? ==> RemainingSeconds(after.clock, note.at) == Ok(note.remaining))
                 && (after.status in TERMINAL ==> d.tracks == {})
  {
    hide RemainingSeconds, ApplyEffect, Fire, OpenScheme, Blank, ActorOk;
  }

  /** A case refuses a pause for its clock's state exactly when it is being
      investigated again after a reopening; no other move ever meets a clock in the
      wrong state. */
  lemma ClockRefusesExactlyWhen(d: Dispute, to: Status, actor: Actor, reason: string, at: int, now: int)
    requires CaseInv(d)
    ensures var r := Transition(d, to, actor, reason, at, now);
            (r.Err? && r.error.ClockFailed? && r.error.why.ClockStateError?
             <==> Refused(d, to, actor, reason).None? && d.clock.state == Stopped
                  && d.status == Investigating && to == AwaitingCustomer)
  {
    hide RemainingSeconds, Materialise, RowOf, RowsOk, InStep, RowsKnown, Complete, ColumnsInStep, TrailLeads, KeepOnStop;
    if Refused(d, to, actor, reason).None? {
      EffectOf(d.status, to);
      var c := d.clock;
      var intervals := if c.pausedAt.Some? then c.intervals + [(c.pausedAt.value, at)] else [];
      MaterialiseError(c.(intervals := intervals, state := Running, pausedAt := None), now);
    }
  }

  lemma MaterialiseError(c: Clock, now: int)
    ensures Materialise(c, now).Err? ==> Materialise(c, now).error.DeadlineFailed?
  {
  }

  lemma EffectOf(source: Status, target: Status)
    requires Find(source, target).Some?
    ensures var effect := Find(source, target).value.effect;
            && (effect == PauseEffect <==> source == Investigating && target == AwaitingCustomer)
            && (effect == ResumeEffect <==> source == AwaitingCustomer && target == Investigating)
    ensures Find(source, target).value.effect == PauseEffect ==> Find(source, target).value.needsReason
    ensures Find(source, target).value.effect == ResumeEffect ==> Find(source, target).value.needsReason
  {
  }

  /** Once stopped, a case's clock never runs again: whatever happens to the case
      afterwards, it is never again waiting for the customer. */
  lemma {:induction false} StoppedForGood(d: Dispute, moves: seq<Move>)
    requires CaseInv(d) && d.clock.state == Stopped
    ensures History(d, moves).clock.state == Stopped && History(d, moves).status != AwaitingCustomer
    decreases |moves|
  {
    hide CaseInv, Step;
    var n := |moves|;
    if n > 0 {
      StoppedForGood(d, moves[..n - 1]);
      EveryRunKeeps(d, moves[..n - 1]);
      StoppedStep(History(d, moves[..n - 1]), moves[n - 1]);
    }
    EveryRunKeeps(d, moves);
    StoppedFits(History(d, moves));
  }

  lemma StoppedFits(d: Dispute)
    requires CaseInv(d) && d.clock.state == Stopped
    ensures d.status != AwaitingCustomer
  {
    hide Inv, ColumnsInStep, TrailLeads;
  }

  lemma StoppedStep(d: Dispute, m: Move)
    requires d.clock.state == Stopped
    ensures Step(d, m).clock.state == Stopped
  {
    hide RemainingSeconds, Materialise, RowOf, Find, KeepOnStop;
    if m.DoOpenScheme? {
      SchemeRows(d.clock, m.chargebackAt, m.days);
    }
  }

  /** Acknowledging a case leaves its clock as it was: an acknowledgement deadline that
      has not fired stays armed. */
  lemma AcknowledgingLeavesTheClock(d: Dispute, actor: Actor, reason: string, at: int, now: int)
    requires Transition(d, Acknowledged, actor, reason, at, now).Ok?
    ensures Transition(d, Acknowledged, actor, reason, at, now).value.clock == d.clock
    ensures d.acknowledgedAt.None? ==> Transition(d, Acknowledged, actor, reason, at, now).value.acknowledgedAt == Some(at)
  {
    AcknowledgingHasNoEffect(d.status);
    hide RemainingSeconds, RowOf, ActorOk, Blank, Find;
  }

  lemma AcknowledgingHasNoEffect(s: Status)
    ensures Find(s, Acknowledged).Some? ==> Find(s, Acknowledged).value.effect == NoEffect
  {
  }

  // -- open tracks over whole runs -------------------------------------------

  ghost predicate ClosesFrom(moves: seq<Move>, i: nat, track: string) {
    exists j :: i <= j < |moves| && moves[j] == DoCloseTrack(track)
  }

  /** The `i`-th move opens the track, and no later one closes it. */
  ghost predicate OpensForGood(moves: seq<Move>, i: nat, track: string) {
    i < |moves| && moves[i] == DoOpenTrack(track) && !ClosesFrom(moves, i + 1, track)
  }

  lemma OneMoreMove(moves: seq<Move>, m: Move, i: nat, track: string)
    requires i <= |moves|
    ensures ClosesFrom(moves + [m], i, track) <==> ClosesFrom(moves, i, track) || m == DoCloseTrack(track)
    ensures i < |moves| ==>
              (OpensForGood(moves + [m], i, track) <==> OpensForGood(moves, i, track) && m != DoCloseTrack(track))
  {
    forall k: nat | k <= |moves|
      ensures ClosesFrom(moves + [m], k, track) <==> ClosesFrom(moves, k, track) || m == DoCloseTrack(track)
    {
      assert (moves + [m])[|moves|] == m;
      if ClosesFrom(moves, k, track) {
        var j :| k <= j < |moves| && moves[j] == DoCloseTrack(track);
        assert (moves + [m])[j] == moves[j];
      }
    }
  }

  /** After any history a track is open exactly when some move of it opened the track
      and none after that closed it, or it was open before and no move closed it. */
  lemma {:induction false} TrackOpenExactlyWhen(d: Dispute, moves: seq<Move>, track: string)
    ensures track in History(d, moves).tracks
       <==> (exists i: nat :: OpensForGood(moves, i, track)) || (track in d.tracks && !ClosesFrom(moves, 0, track))
    decreases |moves|
  {
    hide Transition, Resolve, MassResolve;
    var n := |moves|;
    if n > 0 {
      var before, m := moves[..n - 1], moves[n - 1];
      assert before + [m] == moves;
      TrackOpenExactlyWhen(d, before, track);
      OneMoreMove(before, m, 0, track);
      forall i: nat ensures OpensForGood(moves, i, track)
                       <==> (OpensForGood(before, i, track) && m != DoCloseTrack(track))
                            || (i == n - 1 && m == DoOpenTrack(track))
      {
        if i < n - 1 { OneMoreMove(before, m, i, track); }
      }
      TracksMove(History(d, before), m);
      if m == DoOpenTrack(track) {
        assert OpensForGood(moves, n - 1, track);
      }
    }
  }

  /** Only opening and closing tracks touches them. */
  lemma TracksMove(d: Dispute, m: Move)
    ensures Step(d, m).tracks
         == match m
            case DoOpenTrack(track) => d.tracks + {track}
            case DoCloseTrack(track) => d.tracks - {track}
            case _ => d.tracks
  {
    hide RemainingSeconds, ApplyEffect, Fire, OpenScheme, Blank, ActorOk, MassStop, Find;
  }

  /** A terminal case never leaves its status. */
  lemma TerminalStays(d: Dispute, m: Move)
    requires d.status in TERMINAL
    ensures Step(d, m).status == d.status
  {
    hide RemainingSeconds, ApplyEffect, Fire, OpenScheme, Blank, ActorOk, MassStop;
  }

  /** The `k`-th move is the one that closes the case. */
  ghost predicate ClosesCase(d: Dispute, moves: seq<Move>, k: nat) {
    k < |moves| && History(d, moves[..k]).status !in TERMINAL && History(d, moves[..k + 1]).status in TERMINAL
  }

  /** Once closed, a case has exactly the open tracks that were opened after the move
      that closed it and not closed since: none was open at that move. */
  lemma {:induction false} ClosedCaseTracksExactlyWhen(d: Dispute, moves: seq<Move>, k: nat, track: string)
    requires ClosesCase(d, moves, k)
    ensures History(d, moves).status in TERMINAL
    ensures track in History(d, moves).tracks <==> exists i: nat :: k < i && OpensForGood(moves, i, track)
    decreases |moves|
  {
    hide Step;
    var n := |moves| - 1;
    var before, m := moves[..n], moves[n];
    assert before + [m] == moves && before[..k] == moves[..k];
    if k == n {
      var open := History(d, before);
      assert moves[..k + 1] == moves;
      EveryMoveIsNoted(open, m);
      TracksMove(open, m);
      ClosingIsNoTrackMove(open, m);
    } else {
      assert before[..k + 1] == moves[..k + 1];
      ClosedCaseTracksExactlyWhen(d, before, k, track);
      TerminalStays(History(d, before), m);
      TracksMove(History(d, before), m);
      forall i: nat ensures OpensForGood(moves, i, track)
                       <==> (OpensForGood(before, i, track) && m != DoCloseTrack(track)) || (i == n && m == DoOpenTrack(track))
      {
        if i < n { OneMoreMove(before, m, i, track); }
      }
      if m == DoOpenTrack(track) {
        assert OpensForGood(moves, n, track);
      }
    }
  }

  lemma ClosingIsNoTrackMove(d: Dispute, m: Move)
    requires d.status !in TERMINAL && Step(d, m).status in TERMINAL
    ensures !m.DoOpenTrack? && !m.DoCloseTrack?
  {
    hide Transition, Resolve, MassResolve;
  }

  /** A case that was filed and is closed was closed by exactly one move. */
  lemma {:induction false} ClosedByOneMove(d: Dispute, moves: seq<Move>) returns (k: nat)
    requires d.status !in TERMINAL && History(d, moves).status in TERMINAL
    ensures ClosesCase(d, moves, k)
    ensures forall j: nat :: ClosesCase(d, moves, j) ==> j == k
    decreases |moves|
  {
    hide Step;
    var n := |moves| - 1;
    var before := moves[..n];
    assert moves[..n + 1] == moves;
    if History(d, before).status !in TERMINAL {
      k := n;
      forall j: nat | ClosesCase(d, moves, j) ensures j == k {
        if j < n {
          assert before[..j] == moves[..j] && before[..j + 1] == moves[..j + 1];
          ClosedCaseTracksExactlyWhen(d, before, j, "");
        }
      }
    } else {
      k := ClosedByOneMove(d, before);
      assert before[..k] == moves[..k] && before[..k + 1] == moves[..k + 1];
      forall j: nat | ClosesCase(d, moves, j) ensures j == k {
        assert j < n;
        assert before[..j] == moves[..j] && before[..j + 1] == moves[..j + 1];
        assert ClosesCase(d, before, j);
      }
    }
  }

  // -- two lives of one case -------------------------------------------------

  lemma OneMoreStep(d: Dispute, moves: seq<Move>, m: Move)
    ensures History(d, moves + [m]) == Step(History(d, moves), m)
  {
    assert (moves + [m])[..|moves|] == moves;
  }

  function MoveTo(to: Status, reason: string): Move {
    DoTransition(to, AGENT, reason, 0, 0)
  }

  lemma Goes(d: Dispute, to: Status, reason: string, c: Clock)
    requires Refused(d, to, AGENT, reason).None?
    requires ApplyEffect(d.clock, Find(d.status, to).value.effect, reason, AGENT, 0, 0) == Ok(c)
    requires RemainingSeconds(c, 0).Ok?
    ensures var after := Step(d, MoveTo(to, reason));
            after.status == to && after.clock == c && after.tracks == d.tracks
  {
    hide RemainingSeconds, Find, ApplyEffect, RowOf;
  }

  function Resolving(): seq<Move> {
    [MoveTo(Investigating, ""), MoveTo(Resolved, "done")]
  }

  lemma PlainFiled()
    ensures PolicyOk(PlainPolicy()) && File(PlainPolicy(), 0, 0, AGENT, None).Ok?
    ensures var d := File(PlainPolicy(), 0, 0, AGENT, None).value;
            d.status == Submitted && d.tracks == {} && d.clock == PlainClock(0) && d.acknowledgedAt.None?
  {
    PlainPolicyOk();
    PlainStart(0, 0);
    hide Start, PlainPolicy, RowOf;
  }

  lemma PickedAndResolved(d: Dispute)
    requires d.status == Submitted && d.clock == PlainClock(0)
    ensures var after := Step(Step(d, MoveTo(Investigating, "")), MoveTo(Resolved, "done"));
            after.status == Resolved && after.tracks == d.tracks && after.clock == StoppedWitness()
  {
    hide Start, PlainPolicy, RemainingSeconds, RowOf, Step, PlainClock;
    PlainReads();
    Goes(d, Investigating, "", d.clock);
    StopsPlain();
    var reason := "done";
    assert !IsSpace(reason[0]);
    Goes(Step(d, MoveTo(Investigating, "")), Resolved, reason, StoppedWitness());
  }

  lemma PlainReads()
    ensures RemainingSeconds(PlainClock(0), 0).Ok? && PlainClock(0).state == Running
  {
    hide PlainPolicy, RemainingSeconds;
    PlainRemaining(PlainClock(0), 0, 0);
  }

  /** A case filed, picked up and resolved: its clock has stopped and kept no row. */
  lemma FiledAndResolved()
    ensures PolicyOk(PlainPolicy()) && File(PlainPolicy(), 0, 0, AGENT, None).Ok?
    ensures var d := History(File(PlainPolicy(), 0, 0, AGENT, None).value, Resolving());
            d.status == Resolved && d.tracks == {} && d.clock.state == Stopped && d.clock.rows == []
  {
    PlainFiled();
    var filed := File(PlainPolicy(), 0, 0, AGENT, None).value;
    PickedAndResolved(filed);
    hide File, PlainPolicy, Step, PlainClock;
    OneMoreStep(filed, [], MoveTo(Investigating, ""));
    OneMoreStep(filed, [MoveTo(Investigating, "")], MoveTo(Resolved, "done"));
    assert [MoveTo(Investigating, "")] + [MoveTo(Resolved, "done")] == Resolving();
    assert [] + [MoveTo(Investigating, "")] == [MoveTo(Investigating, "")];
  }

  function StoppedWitness(): Clock {
    var c := PlainClock(0);
    c.(state := Stopped, stoppedAt := Some(0), rows := [], events := c.events + [Event(EvStopped, 0, "", 0)])
  }

  lemma StopsPlain()
    ensures Stop(PlainClock(0), AGENT, 0) == Ok(StoppedWitness())
    ensures RemainingSeconds(StoppedWitness(), 0) == Ok(0)
  {
    hide TimeBetween, PlainPolicy;
    assert KeepOnStop(PlainClock(0).rows[1..][1..]) == [];
    assert KeepOnStop(PlainClock(0).rows[1..]) == [];
  }

  /** Closed with no track open, and yet one is open on it after the next move. */
  lemma TrackOnClosedCase()
    ensures PolicyOk(PlainPolicy()) && File(PlainPolicy(), 0, 0, AGENT, None).Ok?
    ensures var filed := File(PlainPolicy(), 0, 0, AGENT, None).value;
            var moves := Resolving() + [MoveTo(Closed, "")] + [DoOpenTrack("ombudsman")];
            && ClosesCase(filed, moves, 2) && History(filed, moves[..3]).tracks == {}
            && History(filed, moves).status == Closed && History(filed, moves).tracks == {"ombudsman"}
  {
    FiledAndResolved();
    hide File, PlainPolicy, RowOf, Transition;
    var filed := File(PlainPolicy(), 0, 0, AGENT, None).value;
    var resolved := History(filed, Resolving());
    NothingLeft(resolved.clock);
    Goes(resolved, Closed, "", resolved.clock);
    OneMoreStep(filed, Resolving(), MoveTo(Closed, ""));
    OneMoreStep(filed, Resolving() + [MoveTo(Closed, "")], DoOpenTrack("ombudsman"));
    var moves := Resolving() + [MoveTo(Closed, "")] + [DoOpenTrack("ombudsman")];
    assert |Resolving()| == 2;
    assert moves[..2] == Resolving() && moves[..3] == Resolving() + [MoveTo(Closed, "")];
  }

  lemma NothingLeft(c: Clock)
    requires c.rows == []
    ensures RemainingSeconds(c, 0) == Ok(0)
  {
  }

  /** Resolved, reopened and being investigated again, the case cannot ask its customer
      for anything: the pause is refused for the state of its clock. */
  lemma ReopenedCannotWait()
    ensures PolicyOk(PlainPolicy()) && File(PlainPolicy(), 0, 0, AGENT, None).Ok?
    ensures var filed := File(PlainPolicy(), 0, 0, AGENT, None).value;
            var d := History(filed, Resolving() + [MoveTo(Reopened, "new papers")] + [MoveTo(Investigating, "")]);
            && d.status == Investigating && Find(d.status, AwaitingCustomer).Some?
            && Transition(d, AwaitingCustomer, AGENT, "papers", 0, 0) == Err(ClockFailed(ClockStateError(Stopped)))
  {
    FiledAndResolved();
    hide File, PlainPolicy, RowOf, Resolving, Step, StoppedWitness;
    var filed := File(PlainPolicy(), 0, 0, AGENT, None).value;
    var resolved := History(filed, Resolving());
    var reason := "new papers";
    PickedAgain(resolved, reason);
    OneMoreStep(filed, Resolving(), MoveTo(Reopened, reason));
    OneMoreStep(filed, Resolving() + [MoveTo(Reopened, reason)], MoveTo(Investigating, ""));
    CannotWait(Step(Step(resolved, MoveTo(Reopened, reason)), MoveTo(Investigating, "")));
  }

  lemma PickedAgain(d: Dispute, reason: string)
    requires d.status == Resolved && d.clock.rows == [] && reason == "new papers"
    ensures var after := Step(Step(d, MoveTo(Reopened, reason)), MoveTo(Investigating, ""));
            after.status == Investigating && after.clock == d.clock
  {
    hide RowOf, Step, RemainingSeconds;
    NothingLeft(d.clock);
    assert !IsSpace(reason[0]);
    Goes(d, Reopened, reason, d.clock);
    Goes(Step(d, MoveTo(Reopened, reason)), Investigating, "", d.clock);
  }

  lemma CannotWait(d: Dispute)
    requires d.status == Investigating && d.clock.state == Stopped
    ensures Find(d.status, AwaitingCustomer).Some?
    ensures Transition(d, AwaitingCustomer, AGENT, "papers", 0, 0) == Err(ClockFailed(ClockStateError(Stopped)))
  {
    hide RowOf, RemainingSeconds;
    var papers := "papers";
    assert !IsSpace(papers[0]);
  }

  /** Acknowledged at once, and in breach of its acknowledgement deadline an hour later. */
  lemma AcknowledgedAndBreached()
    ensures PolicyOk(PlainPolicy()) && File(PlainPolicy(), 0, 0, AGENT, None).Ok?
    ensures var filed := File(PlainPolicy(), 0, 0, AGENT, None).value;
            var d := History(filed, [MoveTo(Acknowledged, "")] + [DoFireRow(0, HOUR)]);
            && d.status == Acknowledged && d.acknowledgedAt == Some(0)
            && |d.clock.rows| > 0 && d.clock.rows[0] == Row(0, Acknowledgement, None, HOUR, Some(HOUR), true)
            && d.clock.events == filed.clock.events + [Event(EvBreached, HOUR, "", 0)]
  {
    PlainFiled();
    hide File, PlainPolicy, RowOf, History;
    var filed, move := File(PlainPolicy(), 0, 0, AGENT, None).value, MoveTo(Acknowledged, "");
    AcknowledgedAtOnce(filed);
    assert History(filed, []) == filed by { NoMoves(filed); }
    hide Step;
    OneMoreStep(filed, [], move);
    assert [] + [move] == [move];
    OneMoreStep(filed, [move], DoFireRow(0, HOUR));
    BreachedLater(Step(filed, move));
  }

  lemma NoMoves(d: Dispute)
    ensures History(d, []) == d
  {
  }

  lemma AcknowledgedAtOnce(d: Dispute)
    requires d.status == Submitted && d.acknowledgedAt.None? && d.clock == PlainClock(0)
    ensures var after := Step(d, MoveTo(Acknowledged, ""));
            after.status == Acknowledged && after.acknowledgedAt == Some(0) && after.clock == d.clock
  {
    PlainReads();
    hide RemainingSeconds, RowOf, PlainClock;
  }

  lemma BreachedLater(d: Dispute)
    requires d.status == Acknowledged && d.acknowledgedAt == Some(0) && d.clock == PlainClock(0)
    ensures var after := Step(d, DoFireRow(0, HOUR));
            && after.status == d.status && after.acknowledgedAt == d.acknowledgedAt
            && |after.clock.rows| > 0 && after.clock.rows[0] == Row(0, Acknowledgement, None, HOUR, Some(HOUR), true)
            && after.clock.events == d.clock.events + [Event(EvBreached, HOUR, "", 0)]
  {
    hide PlainPolicy;
  }
}
