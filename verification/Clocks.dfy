/** The regulatory clock: what starting, pausing, resuming and stopping do to its
    state, its materialised deadline rows and its event log. */
module Clocks {
  import opened Prelude
  import opened BusinessCalendar
  import opened Pauses
  import opened Deadlines

  // -- policy terms ----------------------------------------------------------

  datatype Policy = Policy(ackMinutes: int, resolutionHours: int, businessHoursOnly: bool,
                           calendar: Calendar, thresholds: seq<int>)

  ghost predicate PolicyOk(p: Policy) {
    CalendarOk(p.calendar)
  }

  function CalendarFor(p: Policy): Calendar {
    if p.businessHoursOnly then p.calendar else Continuous(p.calendar.zone)
  }

  function AckWindow(p: Policy): int {
    p.ackMinutes * 60 * SECOND
  }

  function ResolutionWindow(p: Policy): int {
    p.resolutionHours * 3600 * SECOND
  }

  function WarningWindow(p: Policy, threshold: int): int {
    ResolutionWindow(p) * threshold / 100
  }

  function InsertUnique(x: int, xs: seq<int>): seq<int> {
    if xs == [] || x < xs[0] then [x] + xs
    else if x == xs[0] then xs
    else [xs[0]] + InsertUnique(x, xs[1..])
  }

  /** The distinct values, ascending. */
  function SortedSet(xs: seq<int>): seq<int> {
    if xs == [] then [] else InsertUnique(xs[0], SortedSet(xs[1..]))
  }

  // -- the clock -------------------------------------------------------------

  datatype Kind = Acknowledgement | Resolution | Warning | AutoClose | ReopenWindow | SchemeRepresentment | SchemeWarning

  datatype Row = Row(id: nat, kind: Kind, threshold: Option<int>, firesAt: int, firedAt: Option<int>, pausable: bool)

  datatype State = Running | Paused | Stopped

  datatype EventKind = EvStarted | EvPaused | EvResumed | EvWarned | EvBreached | EvStopped

  datatype Event = Event(kind: EventKind, occurredAt: int, reason: string, remaining: int)

  datatype Clock = Clock(policy: Policy, startedAt: int, state: State, pausedAt: Option<int>, intervals: PauseList,
                         stoppedAt: Option<int>, rows: seq<Row>, nextRow: nat, events: seq<Event>)

  datatype ClockError = ReasonRequired | ClockStateError(state: State) | ActorRequired | DeadlineFailed(why: DeadlineError)

  /** The closed pauses, plus the open one up to `at` while the clock is paused. */
  function PausesOf(c: Clock, at: int): PauseList {
    if c.state == Paused && c.pausedAt.Some? then c.intervals + [(c.pausedAt.value, Max(c.pausedAt.value, at))]
    else c.intervals
  }

  // -- materialised deadlines ------------------------------------------------

  datatype Want = Want(kind: Kind, threshold: Option<int>, window: int)

  function WarningWants(p: Policy, ts: seq<int>): seq<Want> {
    if ts == [] then []
    else (if 0 < ts[0] < 100 then [Want(Warning, Some(ts[0]), WarningWindow(p, ts[0]))] else []) + WarningWants(p, ts[1..])
  }

  /** The deadlines a policy implies, in the order they are written. */
  function Wanted(p: Policy): seq<Want> {
    [Want(Acknowledgement, None, AckWindow(p)), Want(Resolution, None, ResolutionWindow(p))]
    + WarningWants(p, SortedSet(p.thresholds))
  }

  predicate Matches(r: Row, w: Want) {
    r.pausable && r.kind == w.kind && r.threshold == w.threshold
  }

  /** The position of the first row for a wanted deadline, or the number of rows. */
  function FindRow(rows: seq<Row>, w: Want): (i: nat)
    ensures i <= |rows|
    ensures i < |rows| ==> Matches(rows[i], w)
    ensures forall j :: 0 <= j < i ==> !Matches(rows[j], w)
  {
    if rows == [] || Matches(rows[0], w) then 0 else 1 + FindRow(rows[1..], w)
  }

  /** Create the row, or move it if it has not fired. A fired row is history. */
  function Upsert(c: Clock, w: Want, firesAt: int): Clock {
    var i := FindRow(c.rows, w);
    if i == |c.rows| then
      c.(rows := c.rows + [Row(c.nextRow, w.kind, w.threshold, firesAt, None, true)], nextRow := c.nextRow + 1)
    else if c.rows[i].firedAt.None? && c.rows[i].firesAt != firesAt then
      c.(rows := c.rows[i := c.rows[i].(firesAt := firesAt)])
    else c
  }

  function UpsertAll(c: Clock, wants: seq<Want>, fires: seq<int>): Clock
    requires |wants| == |fires|
    decreases |wants|
  {
    if wants == [] then c else UpsertAll(Upsert(c, wants[0], fires[0]), wants[1..], fires[1..])
  }

  /** Every wanted deadline's instant, or the first failure. */
  ghost function FiresAll(cal: Calendar, start: int, pauses: PauseList,
          wants: seq<Want>): (r: Result<seq<int>, DeadlineError>)
    ensures r.Ok? ==> |r.value| == |wants|
  {
    if wants == [] then Ok([])
    else
      match DeadlineOf(cal, start, wants[0].window, pauses)
      case Err(e) => Err(e)
      case Ok(d) =>
        match FiresAll(cal, start, pauses, wants[1..])
        case Err(e) => Err(e)
        case Ok(ds) => Ok([d] + ds)
  }

  ghost function Materialise(c: Clock, now: int): Result<Clock, ClockError> {
    match FiresAll(CalendarFor(c.policy), c.startedAt, PausesOf(c, now), Wanted(c.policy))
    case Err(e) => Err(DeadlineFailed(e))
    case Ok(fires) => Ok(UpsertAll(c, Wanted(c.policy), fires))
  }

  // -- events ----------------------------------------------------------------

  function ResolutionRow(rows: seq<Row>): Option<Row> {
    if rows == [] then None else if rows[0].kind == Resolution then Some(rows[0]) else ResolutionRow(rows[1..])
  }

  /** Whole business seconds left before the resolution deadline, negative past it. */
  ghost function RemainingSeconds(c: Clock, at: int): Result<int, DeadlineError> {
    match ResolutionRow(c.rows)
    case None => Ok(0)
    case Some(row) =>
      var cal, pauses := CalendarFor(c.policy), PausesOf(c, at);
      if at <= row.firesAt then
        match TimeBetween(cal, at, row.firesAt, pauses)
        case Err(e) => Err(e)
        case Ok(t) => Ok(t / SECOND)
      else
        match TimeBetween(cal, row.firesAt, at, pauses)
        case Err(e) => Err(e)
        case Ok(t) => Ok(-(t / SECOND))
  }

  ghost function Record(c: Clock, kind: EventKind, at: int, reason: string, actor: Actor): Result<Clock, ClockError> {
    match RemainingSeconds(c, at)
    case Err(e) => Err(DeadlineFailed(e))
    case Ok(remaining) =>
      if !ActorOk(actor) then Err(ActorRequired)
      else Ok(c.(events := c.events + [Event(kind, at, reason, remaining)]))
  }

  // -- operations ------------------------------------------------------------

  function NewClock(policy: Policy, startedAt: int): Clock {
    Clock(policy, startedAt, Running, None, [], None, [], 0, [])
  }

  /** Start a clock; nothing is created when a deadline cannot be computed. */
  ghost function Start(policy: Policy, startedAt: int, now: int, actor: Actor): Result<Clock, ClockError> {
    match Materialise(NewClock(policy, startedAt), now)
    case Err(e) => Err(e)
    case Ok(c) => Record(c, EvStarted, startedAt, "", actor)
  }

  ghost function Pause(c: Clock, reason: string, actor: Actor, at: int): Result<Clock, ClockError> {
    if Blank(reason) then Err(ReasonRequired)
    else if c.state != Running then Err(ClockStateError(c.state))
    else Record(c.(state := Paused, pausedAt := Some(at)), EvPaused, at, reason, actor)
  }

  ghost function Resume(c: Clock, reason: string, actor: Actor, at: int, now: int): Result<Clock, ClockError> {
    if Blank(reason) then Err(ReasonRequired)
    else if c.state != Paused || c.pausedAt.None? then Err(ClockStateError(c.state))
    else
      match Materialise(c.(intervals := c.intervals + [(c.pausedAt.value, at)], state := Running, pausedAt := None), now)
      case Err(e) => Err(e)
      case Ok(d) => Record(d, EvResumed, at, reason, actor)
  }

  function KeepOnStop(rows: seq<Row>): seq<Row> {
    if rows == [] then []
    else (if rows[0].firedAt.Some? || rows[0].kind == ReopenWindow then [rows[0]] else []) + KeepOnStop(rows[1..])
  }

  ghost function Stop(c: Clock, actor: Actor, at: int): Result<Clock, ClockError> {
    Record(c.(state := Stopped, stoppedAt := Some(at), rows := KeepOnStop(c.rows)), EvStopped, at, "", actor)
  }

  /** The row a sweep at `now` may fire: due, unfired, on a clock not stopped. */
  predicate Due(c: Clock, i: nat, now: int) {
    i < |c.rows| && c.rows[i].firedAt.None? && c.rows[i].firesAt <= now && c.state != Stopped
  }

  function Fire(c: Clock, i: nat, now: int): Clock {
    if !Due(c, i, now) then c
    else
      var kind := if c.rows[i].kind in {Acknowledgement, Resolution} then EvBreached else EvWarned;
      c.(rows := c.rows[i := c.rows[i].(firedAt := Some(now))], events := c.events + [Event(kind, now, "", 0)])
  }

  /** A row the unique (kind, threshold) constraint does not refuse. */
  function AddUnpausable(c: Clock, kind: Kind, threshold: Option<int>, firesAt: int): Clock {
    if threshold.Some? && exists i :: 0 <= i < |c.rows| && c.rows[i].kind == kind && c.rows[i].threshold == threshold then c
    else c.(rows := c.rows + [Row(c.nextRow, kind, threshold, firesAt, None, false)], nextRow := c.nextRow + 1)
  }

  /** A card scheme's own window, in wall-clock days, on the same clock. */
  function OpenScheme(c: Clock, chargebackAt: int, days: nat): Clock {
    var window := days * DAY;
    var c0 := AddUnpausable(c, SchemeRepresentment, None, chargebackAt + window);
    var c1 := AddUnpausable(c0, SchemeWarning, Some(50), chargebackAt + window * 50 / 100);
    var c2 := AddUnpausable(c1, SchemeWarning, Some(80), chargebackAt + window * 80 / 100);
    AddUnpausable(c2, SchemeWarning, Some(95), chargebackAt + window * 95 / 100)
  }

  /** What a mass resolution does: the rows stay. */
  function MassStop(c: Clock, now: int): Clock {
    if c.state == Stopped then c
    else c.(state := Stopped, stoppedAt := Some(now), events := c.events + [Event(EvStopped, now, "", 0)])
  }

  // -- runs ------------------------------------------------------------------

  datatype Action =
    | DoPause(reason: string, actor: Actor, at: int)
    | DoResume(reason: string, actor: Actor, at: int, now: int)
    | DoStop(actor: Actor, at: int)
    | DoFire(row: nat, now: int)
    | DoScheme(chargebackAt: int, days: nat)
    | DoMassStop(now: int)

  ghost function OrElse(r: Result<Clock, ClockError>, c: Clock): Clock {
    if r.Ok? then r.value else c
  }

  /** One action; one that fails is rolled back and changes nothing. */
  ghost function Apply(c: Clock, a: Action): Clock {
    match a
    case DoPause(reason, actor, at) => OrElse(Pause(c, reason, actor, at), c)
    case DoResume(reason, actor, at, now) => OrElse(Resume(c, reason, actor, at, now), c)
    case DoStop(actor, at) => OrElse(Stop(c, actor, at), c)
    case DoFire(row, now) => Fire(c, row, now)
    case DoScheme(chargebackAt, days) => OpenScheme(c, chargebackAt, days)
    case DoMassStop(now) => MassStop(c, now)
  }

  ghost function Run(c: Clock, actions: seq<Action>): Clock
    decreases |actions|
  {
    if actions == [] then c else Run(Apply(c, actions[0]), actions[1..])
  }
}
