/** The monthly report runner, requests people make themselves, and the dispatcher that
    sends what either has queued, in any interleaving. */
module ReportRuns {
  import opened Prelude
  import opened BusinessCalendar
  import opened Schedules
  import DeadlineLaws
  import Json

  const MAX_ATTEMPTS_PER_PERIOD := 3

  // How often the dispatcher tries one row.
  const MAX_SENDS := 6

  datatype RowStatus = Waiting | Sent | Failed

  datatype OutRow = OutRow(status: RowStatus, sends: nat)

  // What a delivery is about: the bounds as written, and whom it goes to.
  datatype Period = Period(from: string, to: string, addresses: multiset<string>)

  datatype Key = Key(period: Period, attempt: nat)

  // What does not change about a schedule while it runs.
  datatype Plan = Plan(zone: Zone, dayOfMonth: int, hour: int, created: Month, stamp: int -> string, recipients: seq<string>)

  datatype Runner =
    | Resting
    | Walking(months: seq<Month>)
    | Looked(months: seq<Month>, seen: seq<RowStatus>)

  datatype System = System(outbox: map<Key, OutRow>, last: Option<Month>, failed: seq<Month>, runner: Runner)

  datatype Step =
    | Start(now: int, owed: seq<Month>)
    | Look
    | Act(deliverable: bool)
    | Crash
    | Request(from: string, to: string, addresses: seq<string>)
    | Dispatch(key: Key, accepted: bool)

  function ScheduleOf(plan: Plan, s: System): Schedule {
    Schedule(plan.zone, plan.dayOfMonth, plan.hour, plan.created, s.last, s.failed)
  }

  function PeriodOf(plan: Plan, m: Month): Period
    requires MonthOk(m)
  {
    var bounds := MonthBounds(m, plan.zone);
    Period(plan.stamp(bounds.start), plan.stamp(bounds.end), multiset(plan.recipients))
  }

  function GetOrCreate(outbox: map<Key, OutRow>, key: Key): map<Key, OutRow> {
    if key in outbox then outbox else outbox[key := OutRow(Waiting, 0)]
  }

  /** The rows opened for a period so far, in the order of their attempts. */
  function Attempts(outbox: map<Key, OutRow>, p: Period, n: nat): seq<RowStatus> {
    if n == 0 then []
    else Attempts(outbox, p, n - 1) + (if Key(p, n - 1) in outbox then [outbox[Key(p, n - 1)].status] else [])
  }

  /** One more try at a row: sent, to be tried again, or parked. */
  function Tried(r: OutRow, accepted: bool): OutRow {
    if r.status != Waiting then r
    else if accepted then OutRow(Sent, r.sends + 1)
    else if r.sends + 1 >= MAX_SENDS then OutRow(Failed, r.sends + 1)
    else OutRow(Waiting, r.sends + 1)
  }

  /** What the runner does about a month once it has looked at its rows. */
  function Advance(plan: Plan, s: System, month: Month, rest: seq<Month>, seen: seq<RowStatus>,
          deliverable: bool): System
    requires MonthOk(month)
  {
    if Sent in seen then s.(last := Some(month), runner := Walking(rest))
    else if Waiting in seen then s.(runner := Walking(rest))
    else if |seen| >= MAX_ATTEMPTS_PER_PERIOD then s.(failed := s.failed + [month], runner := Walking(rest))
    else if !deliverable then s.(runner := Resting)
    else s.(outbox := GetOrCreate(s.outbox, Key(PeriodOf(plan, month), |seen|)), runner := Resting)
  }

  /** One step of the runner, of a person, or of the dispatcher; one that is not due
      changes nothing. */
  ghost function Apply(plan: Plan, s: System, step: Step): System {
    match step
    case Start(now, owed) =>
      if s.runner == Resting && EarliestOwed(ScheduleOf(plan, s), now, owed) then s.(runner := Walking(owed)) else s
    case Look =>
      if s.runner.Walking? && s.runner.months != [] && MonthOk(s.runner.months[0]) then
        s.(runner := Looked(s.runner.months, Attempts(s.outbox, PeriodOf(plan, s.runner.months[0]), MAX_ATTEMPTS_PER_PERIOD)))
      else if s.runner == Walking([]) then s.(runner := Resting)
      else s
    case Act(deliverable) =>
      if s.runner.Looked? && s.runner.months != [] && MonthOk(s.runner.months[0]) then
        Advance(plan, s, s.runner.months[0], s.runner.months[1..], s.runner.seen, deliverable)
      else s
    case Crash => s.(runner := Resting)
    case Request(from, to, addresses) => s.(outbox := GetOrCreate(s.outbox, Key(Period(from, to, multiset(addresses)), 0)))
    case Dispatch(key, accepted) => if key in s.outbox then s.(outbox := s.outbox[key := Tried(s.outbox[key], accepted)]) else s
  }

  ghost function Run(plan: Plan, s: System, steps: seq<Step>): System {
    var n := |steps|;
    if n == 0 then s else Apply(plan, Run(plan, s, steps[..n - 1]), steps[n - 1])
  }

  const NEW := System(map[], None, [], Resting)

  // -- the invariant ---------------------------------------------------------

  ghost predicate PlanOk(plan: Plan) {
    ScheduleOk(ScheduleOf(plan, NEW))
  }

  function Prior(k: Key): Key
    requires k.attempt > 0
  {
    k.(attempt := k.attempt - 1)
  }

  ghost predicate RowOk(outbox: map<Key, OutRow>, k: Key)
    requires k in outbox
  {
    && k.attempt < MAX_ATTEMPTS_PER_PERIOD
    && (outbox[k].status == Failed ==> outbox[k].sends >= MAX_SENDS)
    && (k.attempt > 0 ==> Prior(k) in outbox && outbox[Prior(k)].status == Failed)
  }

  /** A second or third attempt is opened only once the one before it has failed. */
  ghost predicate Chained(outbox: map<Key, OutRow>) {
    forall k :: k in outbox ==> RowOk(outbox, k)
  }

  /** What was seen of a period's rows still stands, as far as it is final. */
  ghost predicate SeenStands(outbox: map<Key, OutRow>, p: Period, seen: seq<RowStatus>) {
    && |seen| <= MAX_ATTEMPTS_PER_PERIOD
    && (forall n :: 0 <= n < |seen| ==> SeenAt(outbox, p, seen, n))
  }

  ghost predicate SeenAt(outbox: map<Key, OutRow>, p: Period, seen: seq<RowStatus>, n: nat)
    requires n < |seen|
  {
    Key(p, n) in outbox && (seen[n] != Waiting ==> outbox[Key(p, n)].status == seen[n])
  }

  /** The months still ahead of the runner: owed when it started, and still after the anchor. */
  ghost predicate Ahead(plan: Plan, s: System, months: seq<Month>) {
    && AscendingMonths(months)
    && (forall i :: 0 <= i < |months| ==>
          MonthOk(months[i]) && MonthNumber(Anchor(ScheduleOf(plan, s))) < MonthNumber(months[i]) && months[i] !in s.failed)
  }

  ghost predicate RunnerOk(plan: Plan, s: System) {
    match s.runner
    case Resting => true
    case Walking(months) => Ahead(plan, s, months)
    case Looked(months, seen) => Ahead(plan, s, months) && months != [] && SeenStands(s.outbox, PeriodOf(plan, months[0]), seen)
  }

  ghost predicate SentSomewhere(outbox: map<Key, OutRow>, p: Period) {
    exists k :: k in outbox && k.period == p && outbox[k].status == Sent
  }

  /** Every attempt at the period there will ever be has failed. */
  ghost predicate AllFailed(outbox: map<Key, OutRow>, p: Period) {
    forall n :: 0 <= n < MAX_ATTEMPTS_PER_PERIOD ==> FailedAt(outbox, p, n)
  }

  ghost predicate FailedAt(outbox: map<Key, OutRow>, p: Period, n: nat) {
    Key(p, n) in outbox && outbox[Key(p, n)].status == Failed
  }

  ghost predicate ProgressOk(plan: Plan, s: System) {
    && (s.last.Some? ==> MonthOk(s.last.value) && SentSomewhere(s.outbox, PeriodOf(plan, s.last.value)))
    && (forall i :: 0 <= i < |s.failed| ==> MonthOk(s.failed[i]) && AllFailed(s.outbox, PeriodOf(plan, s.failed[i])))
  }

  ghost predicate Inv(plan: Plan, s: System) {
    Chained(s.outbox) && RunnerOk(plan, s) && ProgressOk(plan, s)
  }

  /** Rows are only added, and a row that was sent or has failed stays so. */
  ghost predicate Later(a: map<Key, OutRow>, b: map<Key, OutRow>) {
    forall k :: k in a ==> k in b && (a[k].status != Waiting ==> b[k] == a[k])
  }

  lemma LaterKeeps(plan: Plan, s: System, outbox: map<Key, OutRow>)
    requires RunnerOk(plan, s) && ProgressOk(plan, s) && Later(s.outbox, outbox)
    ensures RunnerOk(plan, s.(outbox := outbox)) && ProgressOk(plan, s.(outbox := outbox))
  {
    hide MonthOk, MonthNumber, Anchor, PeriodOf;
    var t := s.(outbox := outbox);
    if s.last.Some? {
      var k :| k in s.outbox && k.period == PeriodOf(plan, s.last.value) && s.outbox[k].status == Sent;
      assert k in outbox && outbox[k].status == Sent;
    }
    forall i | 0 <= i < |s.failed| ensures AllFailed(outbox, PeriodOf(plan, s.failed[i])) {
      var p := PeriodOf(plan, s.failed[i]);
      forall n | 0 <= n < MAX_ATTEMPTS_PER_PERIOD ensures FailedAt(outbox, p, n) {
        assert FailedAt(s.outbox, p, n);
      }
    }
    if s.runner.Looked? {
      var p := PeriodOf(plan, s.runner.months[0]);
      forall n | 0 <= n < |s.runner.seen| ensures SeenAt(outbox, p, s.runner.seen, n) {
        assert SeenAt(s.outbox, p, s.runner.seen, n);
      }
    }
  }

  lemma CreateKeeps(outbox: map<Key, OutRow>, key: Key)
    requires Chained(outbox) && key.attempt < MAX_ATTEMPTS_PER_PERIOD
    requires key.attempt > 0 ==> Prior(key) in outbox && outbox[Prior(key)].status == Failed
    ensures Chained(GetOrCreate(outbox, key)) && Later(outbox, GetOrCreate(outbox, key))
  {
    var after := GetOrCreate(outbox, key);
    forall k | k in after ensures RowOk(after, k) {
      assert k in outbox ==> RowOk(outbox, k);
    }
  }

  lemma TryKeeps(outbox: map<Key, OutRow>, key: Key, accepted: bool)
    requires Chained(outbox) && key in outbox
    ensures var after := outbox[key := Tried(outbox[key], accepted)]; Chained(after) && Later(outbox, after)
  {
    var after := outbox[key := Tried(outbox[key], accepted)];
    forall k | k in after ensures RowOk(after, k) {
      assert RowOk(outbox, k);
    }
  }

  /** The rows the runner finds are its attempts 0, 1 and so on, with none missing. */
  lemma AttemptsFound(outbox: map<Key, OutRow>, p: Period)
    requires Chained(outbox)
    ensures var seen := Attempts(outbox, p, MAX_ATTEMPTS_PER_PERIOD);
            && SeenStands(outbox, p, seen)
            && (|seen| < MAX_ATTEMPTS_PER_PERIOD ==> Key(p, |seen|) !in outbox)
  {
    assert Key(p, 2) in outbox ==> RowOk(outbox, Key(p, 2)) && Prior(Key(p, 2)) == Key(p, 1);
    assert Key(p, 1) in outbox ==> RowOk(outbox, Key(p, 1)) && Prior(Key(p, 1)) == Key(p, 0);
    AttemptsUpTo(outbox, p);
  }

  lemma AttemptsUpTo(outbox: map<Key, OutRow>, p: Period)
    ensures Attempts(outbox, p, 3)
         == (if Key(p, 0) in outbox then [outbox[Key(p, 0)].status] else [])
          + (if Key(p, 1) in outbox then [outbox[Key(p, 1)].status] else [])
          + (if Key(p, 2) in outbox then [outbox[Key(p, 2)].status] else [])
  {
    assert Attempts(outbox, p, 0) == [];
    assert Attempts(outbox, p, 1) == (if Key(p, 0) in outbox then [outbox[Key(p, 0)].status] else []);
  }

  lemma AheadRest(plan: Plan, s: System, months: seq<Month>)
    requires Ahead(plan, s, months) && months != []
    ensures Ahead(plan, s, months[1..])
    ensures forall i :: 0 <= i < |months[1..]| ==>
              MonthNumber(months[0]) < MonthNumber(months[1..][i]) && months[1..][i] != months[0]
  {
  }

  lemma AdvanceKeeps(plan: Plan, s: System, month: Month, rest: seq<Month>, seen: seq<RowStatus>, deliverable: bool)
    requires Inv(plan, s) && s.runner == Looked([month] + rest, seen) && MonthOk(month)
    ensures Inv(plan, Advance(plan, s, month, rest, seen, deliverable))
  {
    var months := [month] + rest;
    assert months[1..] == rest && months[0] == month;
    AheadRest(plan, s, months);
    var p := PeriodOf(plan, month);
    hide PeriodOf, MonthNumber, Chained;
    if Sent in seen {
      var n :| 0 <= n < |seen| && seen[n] == Sent;
      assert SeenAt(s.outbox, p, seen, n);
      assert SentSomewhere(s.outbox, p);
    } else if Waiting in seen {
    } else if |seen| >= MAX_ATTEMPTS_PER_PERIOD {
      forall n | 0 <= n < MAX_ATTEMPTS_PER_PERIOD ensures FailedAt(s.outbox, p, n) {
        assert SeenAt(s.outbox, p, seen, n) && seen[n] in seen;
      }
    } else if deliverable {
      if |seen| > 0 {
        assert SeenAt(s.outbox, p, seen, |seen| - 1) && seen[|seen| - 1] in seen;
      }
      CreateKeeps(s.outbox, Key(p, |seen|));
      LaterKeeps(plan, s.(runner := Resting), GetOrCreate(s.outbox, Key(p, |seen|)));
    }
  }

  lemma StartKeeps(plan: Plan, s: System, now: int, owed: seq<Month>)
    requires Inv(plan, s) && EarliestOwed(ScheduleOf(plan, s), now, owed)
    ensures Inv(plan, s.(runner := Walking(owed)))
  {
    hide Chained, FireTime, MonthNumber, AllFailed, SentSomewhere;
    var t := s.(runner := Walking(owed));
    forall i | 0 <= i < |owed|
      ensures MonthOk(owed[i]) && MonthNumber(Anchor(ScheduleOf(plan, t))) < MonthNumber(owed[i]) && owed[i] !in t.failed
    {
      assert Owed(ScheduleOf(plan, s), now, owed[i]);
    }
  }

  lemma LookKeeps(plan: Plan, s: System)
    requires Inv(plan, s)
    ensures Inv(plan, Apply(plan, s, Look))
  {
    if s.runner.Walking? && s.runner.months != [] && MonthOk(s.runner.months[0]) {
      AttemptsFound(s.outbox, PeriodOf(plan, s.runner.months[0]));
    }
    hide Chained, Attempts, PeriodOf, MonthNumber, SeenStands, AllFailed, SentSomewhere, MonthOk;
  }

  lemma ActKeeps(plan: Plan, s: System, deliverable: bool)
    requires Inv(plan, s)
    ensures Inv(plan, Apply(plan, s, Act(deliverable)))
  {
    hide Inv, Advance;
    if s.runner.Looked? && s.runner.months != [] && MonthOk(s.runner.months[0]) {
      assert [s.runner.months[0]] + s.runner.months[1..] == s.runner.months;
      AdvanceKeeps(plan, s, s.runner.months[0], s.runner.months[1..], s.runner.seen, deliverable);
    }
  }

  lemma OutboxKeeps(plan: Plan, s: System, outbox: map<Key, OutRow>)
    requires Inv(plan, s) && Chained(outbox) && Later(s.outbox, outbox)
    ensures Inv(plan, s.(outbox := outbox))
  {
    LaterKeeps(plan, s, outbox);
    hide Chained, RunnerOk, ProgressOk, Later;
  }

  lemma StepKeeps(plan: Plan, s: System, step: Step)
    requires Inv(plan, s)
    ensures Inv(plan, Apply(plan, s, step))
  {
    assert Chained(s.outbox);
    hide Inv, Chained, Later, EarliestOwed, Advance, Attempts, PeriodOf, MonthOk, Tried, GetOrCreate;
    match step
    case Start(now, owed) =>
      if s.runner == Resting && EarliestOwed(ScheduleOf(plan, s), now, owed) { StartKeeps(plan, s, now, owed); }
    case Look => LookKeeps(plan, s);
    case Act(deliverable) => ActKeeps(plan, s, deliverable);
    case Crash => CrashKeeps(plan, s);
    case Request(from, to, addresses) =>
      var key := Key(Period(from, to, multiset(addresses)), 0);
      CreateKeeps(s.outbox, key);
      OutboxKeeps(plan, s, GetOrCreate(s.outbox, key));
    case Dispatch(key, accepted) =>
      if key in s.outbox {
        TryKeeps(s.outbox, key, accepted);
        OutboxKeeps(plan, s, s.outbox[key := Tried(s.outbox[key], accepted)]);
      }
  }

  lemma CrashKeeps(plan: Plan, s: System)
    requires Inv(plan, s)
    ensures Inv(plan, s.(runner := Resting))
  {
    hide Chained, AllFailed, SentSomewhere;
  }

  lemma {:induction false} RunKeeps(plan: Plan, steps: seq<Step>)
    requires PlanOk(plan)
    ensures Inv(plan, Run(plan, NEW, steps))
    decreases |steps|
  {
    var n := |steps|;
    if n > 0 {
      RunKeeps(plan, steps[..n - 1]);
      StepKeeps(plan, Run(plan, NEW, steps[..n - 1]), steps[n - 1]);
      hide Inv, Apply;
    }
  }

  // -- what follows in every run ---------------------------------------------

  lemma {:induction false} EarlierFailed(outbox: map<Key, OutRow>, k: Key, n: nat)
    requires Chained(outbox) && k in outbox && n < k.attempt
    ensures FailedAt(outbox, k.period, n)
    decreases k.attempt
  {
    assert RowOk(outbox, k);
    if n < k.attempt - 1 {
      EarlierFailed(outbox, Prior(k), n);
    } else {
      assert Prior(k) == Key(k.period, n);
    }
  }

  /** A period never has two rows that are not parked, whoever asked for them. */
  lemma OneLiveRow(plan: Plan, steps: seq<Step>, j: Key, k: Key)
    requires PlanOk(plan) && j.period == k.period
    requires var outbox := Run(plan, NEW, steps).outbox;
             j in outbox && k in outbox && outbox[j].status != Failed && outbox[k].status != Failed
    ensures j == k
  {
    RunKeeps(plan, steps);
    var outbox := Run(plan, NEW, steps).outbox;
    OneLive(outbox, j, k);
  }

  lemma OneLive(outbox: map<Key, OutRow>, j: Key, k: Key)
    requires Chained(outbox) && j in outbox && k in outbox && j.period == k.period
    requires outbox[j].status != Failed && outbox[k].status != Failed
    ensures j == k
  {
    if j.attempt < k.attempt {
      EarlierFailed(outbox, k, j.attempt);
    } else if k.attempt < j.attempt {
      EarlierFailed(outbox, j, k.attempt);
    }
  }

  /** This step marks a row of the period as sent. */
  ghost predicate MarksSent(s: System, step: Step, p: Period) {
    step.Dispatch? && step.accepted && step.key in s.outbox && step.key.period == p && s.outbox[step.key].status == Waiting
  }

  /** How many times a run marks a row of the period as sent. */
  ghost function SentMarks(plan: Plan, steps: seq<Step>, p: Period): nat {
    var n := |steps|;
    if n == 0 then 0
    else SentMarks(plan, steps[..n - 1], p) + (if MarksSent(Run(plan, NEW, steps[..n - 1]), steps[n - 1], p) then 1 else 0)
  }

  /** In every interleaving, a period is marked sent at most once; exactly once when one
      of its rows is. */
  lemma {:induction false} SentAtMostOnce(plan: Plan, steps: seq<Step>, p: Period)
    requires PlanOk(plan)
    ensures SentMarks(plan, steps, p) == if SentSomewhere(Run(plan, NEW, steps).outbox, p) then 1 else 0
    decreases |steps|
  {
    var n := |steps|;
    if n > 0 {
      SentAtMostOnce(plan, steps[..n - 1], p);
      RunKeeps(plan, steps[..n - 1]);
      SentStep(plan, Run(plan, NEW, steps[..n - 1]), steps[n - 1], p);
      hide Inv, Apply, MarksSent, SentSomewhere;
    }
  }

  lemma SentStep(plan: Plan, s: System, step: Step, p: Period)
    requires Inv(plan, s)
    ensures var after := Apply(plan, s, step);
            && (MarksSent(s, step, p) ==> !SentSomewhere(s.outbox, p) && SentSomewhere(after.outbox, p))
            && (!MarksSent(s, step, p) ==> (SentSomewhere(after.outbox, p) <==> SentSomewhere(s.outbox, p)))
  {
    hide RunnerOk, ProgressOk, Attempts, PeriodOf, MonthOk, EarliestOwed;
    var after := Apply(plan, s, step);
    if MarksSent(s, step, p) {
      assert after.outbox[step.key].status == Sent;
      if SentSomewhere(s.outbox, p) {
        var k :| k in s.outbox && k.period == p && s.outbox[k].status == Sent;
        OneLive(s.outbox, k, step.key);
      }
    } else {
      hide Chained;
      if SentSomewhere(s.outbox, p) {
        var k :| k in s.outbox && k.period == p && s.outbox[k].status == Sent;
        assert k in after.outbox && after.outbox[k].status == Sent;
      }
      if SentSomewhere(after.outbox, p) {
        var k :| k in after.outbox && k.period == p && after.outbox[k].status == Sent;
        assert k in s.outbox && s.outbox[k].status == Sent;
      }
    }
  }

  /** Progress is only ever recorded forwards, and only for a month that was sent; and a
      month is given up only after three attempts at it have each failed six times. */
  lemma ProgressIsEarned(plan: Plan, steps: seq<Step>, step: Step)
    requires PlanOk(plan)
    ensures var s := Run(plan, NEW, steps);
            var after := Apply(plan, s, step);
            && (after.last != s.last ==>
                  && after.last.Some? && MonthOk(after.last.value)
                  && MonthNumber(Anchor(ScheduleOf(plan, s))) < MonthNumber(after.last.value)
                  && SentSomewhere(s.outbox, PeriodOf(plan, after.last.value)))
            && (after.failed != s.failed ==>
                  && |after.failed| == |s.failed| + 1 && s.failed == after.failed[..|s.failed|]
                  && var m := after.failed[|s.failed|];
                     && MonthOk(m) && m !in s.failed
                     && AllFailed(s.outbox, PeriodOf(plan, m)) && SixEach(s.outbox, PeriodOf(plan, m)))
  {
    RunKeeps(plan, steps);
    var s := Run(plan, NEW, steps);
    StepKeeps(plan, s, step);
    hide EarliestOwed, Attempts, Run;
    if step.Act? && s.runner.Looked? && MonthOk(s.runner.months[0]) {
      LookedProgress(plan, s);
    }
    hide PeriodOf, MonthNumber, Chained;
  }

  ghost predicate SixEach(outbox: map<Key, OutRow>, p: Period) {
    forall n :: 0 <= n < MAX_ATTEMPTS_PER_PERIOD ==> FailedAt(outbox, p, n) && outbox[Key(p, n)].sends >= MAX_SENDS
  }

  lemma LookedProgress(plan: Plan, s: System)
    requires Inv(plan, s) && s.runner.Looked? && MonthOk(s.runner.months[0])
    ensures var month, p := s.runner.months[0], PeriodOf(plan, s.runner.months[0]);
            && MonthNumber(Anchor(ScheduleOf(plan, s))) < MonthNumber(month) && month !in s.failed
            && (Sent in s.runner.seen ==> SentSomewhere(s.outbox, p))
            && (Sent !in s.runner.seen && Waiting !in s.runner.seen && |s.runner.seen| >= MAX_ATTEMPTS_PER_PERIOD ==>
                  AllFailed(s.outbox, p) && SixEach(s.outbox, p))
  {
    var p, seen := PeriodOf(plan, s.runner.months[0]), s.runner.seen;
    hide PeriodOf, MonthNumber;
    if Sent in seen {
      var n :| 0 <= n < |seen| && seen[n] == Sent;
      assert SeenAt(s.outbox, p, seen, n);
    } else if Waiting !in seen && |seen| >= MAX_ATTEMPTS_PER_PERIOD {
      forall n | 0 <= n < MAX_ATTEMPTS_PER_PERIOD ensures FailedAt(s.outbox, p, n) && s.outbox[Key(p, n)].sends >= MAX_SENDS {
        assert SeenAt(s.outbox, p, seen, n) && seen[n] in seen;
        assert RowOk(s.outbox, Key(p, n));
      }
    }
  }

  // -- months a run steps over -----------------------------------------------

  datatype MonthState = Delivered | InFlight | UsedUp | Open

  /** What the runner will make of a month. */
  function StateOf(outbox: map<Key, OutRow>, p: Period): MonthState {
    var seen := Attempts(outbox, p, MAX_ATTEMPTS_PER_PERIOD);
    if Sent in seen then Delivered
    else if Waiting in seen then InFlight
    else if |seen| >= MAX_ATTEMPTS_PER_PERIOD then UsedUp
    else Open
  }

  /** The runner looks at its next month and acts on it, with nothing in between. */
  ghost function Visit(plan: Plan, s: System, deliverable: bool): System {
    Apply(plan, Apply(plan, s, Look), Act(deliverable))
  }

  /** A run that nothing interrupts, to its end. */
  ghost function Finish(plan: Plan, s: System, deliverable: bool): System
    decreases if s.runner.Walking? then |s.runner.months| else 0
  {
    if s.runner.Walking? && s.runner.months != [] && MonthOk(s.runner.months[0]) then
      VisitMoves(plan, s, deliverable);
      Finish(plan, Visit(plan, s, deliverable), deliverable)
    else s
  }

  lemma VisitMoves(plan: Plan, s: System, deliverable: bool)
    requires s.runner.Walking? && s.runner.months != [] && MonthOk(s.runner.months[0])
    ensures var p, rest := PeriodOf(plan, s.runner.months[0]), s.runner.months[1..];
            Visit(plan, s, deliverable) ==
              match StateOf(s.outbox, p)
              case Delivered => s.(last := Some(s.runner.months[0]), runner := Walking(rest))
              case InFlight => s.(runner := Walking(rest))
              case UsedUp => s.(failed := s.failed + [s.runner.months[0]], runner := Walking(rest))
              case Open =>
                var next := Key(p, |Attempts(s.outbox, p, MAX_ATTEMPTS_PER_PERIOD)|);
                if deliverable then s.(outbox := GetOrCreate(s.outbox, next), runner := Resting)
                else s.(runner := Resting)
  {
    hide Attempts, PeriodOf, MonthOk, GetOrCreate;
  }

  ghost predicate MonthsOk(months: seq<Month>) {
    forall i :: 0 <= i < |months| ==> MonthOk(months[i])
  }

  /** Where an uninterrupted run finds its last delivered month, or -1. */
  function LastDelivered(plan: Plan, outbox: map<Key, OutRow>, months: seq<Month>): int
    requires MonthsOk(months)
  {
    if months == [] || StateOf(outbox, PeriodOf(plan, months[0])) == Open then -1
    else
      var later := LastDelivered(plan, outbox, months[1..]);
      if later >= 0 then later + 1
      else if StateOf(outbox, PeriodOf(plan, months[0])) == Delivered then 0
      else -1
  }

  /** The months such a run gives up. */
  function GivenUp(plan: Plan, outbox: map<Key, OutRow>, months: seq<Month>): seq<Month>
    requires MonthsOk(months)
  {
    if months == [] || StateOf(outbox, PeriodOf(plan, months[0])) == Open then []
    else
      (if StateOf(outbox, PeriodOf(plan, months[0])) == UsedUp then [months[0]] else []) + GivenUp(plan, outbox, months[1..])
  }

  /** The run gets as far as this month, and finds it delivered. */
  ghost predicate ReachesDelivered(plan: Plan, outbox: map<Key, OutRow>, months: seq<Month>, j: nat)
    requires MonthsOk(months) && j < |months|
  {
    && StateOf(outbox, PeriodOf(plan, months[j])) == Delivered
    && (forall k :: 0 <= k < j ==> StateOf(outbox, PeriodOf(plan, months[k])) != Open)
  }

  lemma {:induction false} LastDeliveredIs(plan: Plan, outbox: map<Key, OutRow>, months: seq<Month>)
    requires MonthsOk(months)
    ensures var l := LastDelivered(plan, outbox, months);
            && -1 <= l < |months| && (l >= 0 ==> ReachesDelivered(plan, outbox, months, l))
            && (forall j: nat :: l < j < |months| ==> !ReachesDelivered(plan, outbox, months, j))
    decreases |months|
  {
    hide StateOf, PeriodOf;
    if months != [] {
      var rest := months[1..];
      LastDeliveredIs(plan, outbox, rest);
      assert forall k :: 0 <= k < |rest| ==> rest[k] == months[k + 1];
      forall j: nat | 0 < j < |months| && ReachesDelivered(plan, outbox, months, j)
        ensures ReachesDelivered(plan, outbox, rest, j - 1)
      {
      }
      if LastDelivered(plan, outbox, months) > 0 {
        ReachesShift(plan, outbox, months, LastDelivered(plan, outbox, rest));
      }
    }
  }

  lemma ReachesShift(plan: Plan, outbox: map<Key, OutRow>, months: seq<Month>, j: nat)
    requires MonthsOk(months) && months != [] && j < |months[1..]| && ReachesDelivered(plan, outbox, months[1..], j)
    requires StateOf(outbox, PeriodOf(plan, months[0])) != Open
    ensures ReachesDelivered(plan, outbox, months, j + 1)
  {
    hide StateOf, PeriodOf;
    forall k | 0 <= k < j + 1 ensures StateOf(outbox, PeriodOf(plan, months[k])) != Open {
      assert k > 0 ==> months[1..][k - 1] == months[k];
    }
    assert months[1..][j] == months[j + 1];
  }

  lemma {:induction false} GivenUpAre(plan: Plan, outbox: map<Key, OutRow>, months: seq<Month>, l: nat)
    requires MonthsOk(months) && l < |months| && ReachesDelivered(plan, outbox, months, l)
    ensures forall i :: 0 <= i < l && StateOf(outbox, PeriodOf(plan, months[i])) == UsedUp ==>
              months[i] in GivenUp(plan, outbox, months)
    decreases |months|
  {
    hide StateOf, PeriodOf;
    if l > 0 {
      assert forall k :: 0 <= k < |months[1..]| ==> months[1..][k] == months[k + 1];
      assert ReachesDelivered(plan, outbox, months[1..], l - 1);
      GivenUpAre(plan, outbox, months[1..], l - 1);
      forall i | 0 <= i < l && StateOf(outbox, PeriodOf(plan, months[i])) == UsedUp
        ensures months[i] in GivenUp(plan, outbox, months)
      {
        assert i > 0 ==> months[i] == months[1..][i - 1];
      }
    }
  }

  lemma {:induction false} GivenUpExhausted(plan: Plan, outbox: map<Key, OutRow>, months: seq<Month>)
    requires MonthsOk(months)
    ensures forall m :: m in GivenUp(plan, outbox, months) ==> MonthOk(m) && StateOf(outbox, PeriodOf(plan, m)) == UsedUp
    decreases |months|
  {
    hide StateOf, PeriodOf;
    if months != [] {
      GivenUpExhausted(plan, outbox, months[1..]);
    }
  }

  /** What an uninterrupted run leaves behind. */
  lemma {:induction false} FinishIs(plan: Plan, s: System, deliverable: bool)
    requires s.runner.Walking? && MonthsOk(s.runner.months)
    ensures var after, l := Finish(plan, s, deliverable), LastDelivered(plan, s.outbox, s.runner.months);
            && after.last == (if l >= 0 && l < |s.runner.months| then Some(s.runner.months[l]) else s.last)
            && after.failed == s.failed + GivenUp(plan, s.outbox, s.runner.months)
    decreases |s.runner.months|
  {
    if s.runner.months != [] {
      var rest := s.runner.months[1..];
      VisitMoves(plan, s, deliverable);
      LastDeliveredIs(plan, s.outbox, rest);
      FinishUnfold(plan, s, deliverable);
      var t := Visit(plan, s, deliverable);
      hide Visit, StateOf, PeriodOf, MonthOk, GetOrCreate, ReachesDelivered, Finish;
      if t.runner.Walking? {
        FinishIs(plan, t, deliverable);
        Appended(s.failed, s.runner.months[0], GivenUp(plan, s.outbox, rest));
      } else {
        assert s.failed + [] == s.failed;
      }
    }
  }

  lemma FinishUnfold(plan: Plan, s: System, deliverable: bool)
    requires s.runner.Walking? && s.runner.months != [] && MonthOk(s.runner.months[0])
    ensures Finish(plan, s, deliverable) == Finish(plan, Visit(plan, s, deliverable), deliverable)
    ensures var t := Visit(plan, s, deliverable); !t.runner.Walking? ==> Finish(plan, t, deliverable) == t
  {
    hide Visit;
  }

  lemma Appended(failed: seq<Month>, m: Month, more: seq<Month>)
    ensures failed + ([m] + more) == (failed + [m]) + more && failed + ([] + more) == failed + more
  {
  }

  /** Behind the record of progress, and yet neither delivered nor given up: a month like
      this is not owed any more. */
  ghost predicate SteppedOver(plan: Plan, outbox: map<Key, OutRow>, after: System, m: Month) {
    && MonthOk(m) && after.last.Some? && MonthNumber(m) <= MonthNumber(after.last.value)
    && StateOf(outbox, PeriodOf(plan, m)) != Delivered && m !in after.failed
  }

  /** A run steps over a month exactly when that month is in flight and the run goes on to
      reach a later one that has been delivered. */
  lemma SteppedOverExactlyWhen(plan: Plan, s: System, deliverable: bool, i: nat)
    requires RunnerOk(plan, s) && s.runner.Walking? && i < |s.runner.months|
    ensures MonthsOk(s.runner.months)
    ensures SteppedOver(plan, s.outbox, Finish(plan, s, deliverable), s.runner.months[i])
       <==> StateOf(s.outbox, PeriodOf(plan, s.runner.months[i])) == InFlight
            && exists j :: i < j < |s.runner.months| && ReachesDelivered(plan, s.outbox, s.runner.months, j)
  {
    var months := s.runner.months;
    var l := LastDelivered(plan, s.outbox, months);
    FinishIs(plan, s, deliverable);
    LastDeliveredIs(plan, s.outbox, months);
    GivenUpExhausted(plan, s.outbox, months);
    if l >= 0 {
      GivenUpAre(plan, s.outbox, months, l);
    }
    NotYetPassed(plan, s, i);
    hide StateOf, PeriodOf, LastDelivered, GivenUp, Finish, MonthOk, Anchor, MonthNumber;
    MonthPlaces(months, i, l);
  }

  lemma MonthPlaces(months: seq<Month>, i: nat, l: int)
    requires AscendingMonths(months) && i < |months| && -1 <= l < |months|
    ensures l >= 0 ==> (MonthNumber(months[i]) <= MonthNumber(months[l]) <==> i <= l)
  {
    hide MonthNumber;
  }

  lemma NotYetPassed(plan: Plan, s: System, i: nat)
    requires RunnerOk(plan, s) && s.runner.Walking? && i < |s.runner.months|
    ensures MonthOk(s.runner.months[i]) && s.runner.months[i] !in s.failed
    ensures s.last.Some? ==> MonthNumber(s.last.value) < MonthNumber(s.runner.months[i])
  {
  }

  /** Progress never goes back, in any continuation of any run. */
  lemma {:induction false} AnchorOnlyGrows(plan: Plan, steps: seq<Step>, more: seq<Step>)
    requires PlanOk(plan)
    ensures MonthNumber(Anchor(ScheduleOf(plan, Run(plan, NEW, steps))))
         <= MonthNumber(Anchor(ScheduleOf(plan, Run(plan, NEW, steps + more))))
    ensures Run(plan, NEW, steps).last.Some? ==> Run(plan, NEW, steps + more).last.Some?
    decreases |more|
  {
    var n := |more|;
    if n == 0 {
      assert steps + more == steps;
    } else {
      hide *;
      AnchorOnlyGrows(plan, steps, more[..n - 1]);
      RunLast(plan, steps, more);
      AnchorStep(plan, steps + more[..n - 1], more[n - 1]);
    }
  }

  lemma RunLast(plan: Plan, steps: seq<Step>, more: seq<Step>)
    requires more != []
    ensures Run(plan, NEW, steps + more) == Apply(plan, Run(plan, NEW, steps + more[..|more| - 1]), more[|more| - 1])
  {
    hide Apply;
    assert (steps + more)[..|steps + more| - 1] == steps + more[..|more| - 1];
  }

  lemma AnchorStep(plan: Plan, steps: seq<Step>, step: Step)
    requires PlanOk(plan)
    ensures var s, after := Run(plan, NEW, steps), Apply(plan, Run(plan, NEW, steps), step);
            && MonthNumber(Anchor(ScheduleOf(plan, s))) <= MonthNumber(Anchor(ScheduleOf(plan, after)))
            && (s.last.Some? ==> after.last.Some?)
  {
    ProgressIsEarned(plan, steps, step);
    hide Run, Apply, PeriodOf, MonthNumber, AllFailed, SixEach, SentSomewhere, MonthOk, PlanOk;
  }

  /** A month the record of progress has passed is never owed again. */
  lemma PassedIsNeverOwed(plan: Plan, steps: seq<Step>, more: seq<Step>, now: int, m: Month)
    requires PlanOk(plan) && Run(plan, NEW, steps).last.Some?
    requires MonthNumber(m) <= MonthNumber(Run(plan, NEW, steps).last.value)
    ensures !Owed(ScheduleOf(plan, Run(plan, NEW, steps + more)), now, m)
  {
    AnchorOnlyGrows(plan, steps, more);
    hide Run, FireTime;
  }

  // -- it happens ------------------------------------------------------------

  lemma RunThen(plan: Plan, steps: seq<Step>, step: Step)
    ensures Run(plan, NEW, steps + [step]) == Apply(plan, Run(plan, NEW, steps), step)
  {
    hide Apply;
    assert (steps + [step])[..|steps|] == steps;
  }

  lemma Began(plan: Plan, steps: seq<Step>, now: int, owed: seq<Month>) returns (more: seq<Step>)
    requires var s := Run(plan, NEW, steps); s.runner == Resting && EarliestOwed(ScheduleOf(plan, s), now, owed)
    ensures Run(plan, NEW, more) == Run(plan, NEW, steps).(runner := Walking(owed))
  {
    more := steps + [Start(now, owed)];
    RunThen(plan, steps, Start(now, owed));
    hide EarliestOwed, Run;
  }

  lemma Visited(plan: Plan, steps: seq<Step>) returns (more: seq<Step>)
    ensures Run(plan, NEW, more) == Visit(plan, Run(plan, NEW, steps), true)
  {
    more := steps + [Look] + [Act(true)];
    RunThen(plan, steps, Look);
    RunThen(plan, steps + [Look], Act(true));
    hide Run, Apply;
  }

  /** With no later attempt opened, the first one says it all. */
  lemma FirstRowTells(outbox: map<Key, OutRow>, p: Period)
    requires Key(p, 1) !in outbox && Key(p, 2) !in outbox
    ensures Key(p, 0) !in outbox ==> StateOf(outbox, p) == Open && Attempts(outbox, p, MAX_ATTEMPTS_PER_PERIOD) == []
    ensures Key(p, 0) in outbox && outbox[Key(p, 0)].status == Waiting ==> StateOf(outbox, p) == InFlight
    ensures Key(p, 0) in outbox && outbox[Key(p, 0)].status == Sent ==> StateOf(outbox, p) == Delivered
  {
    AttemptsUpTo(outbox, p);
    hide Attempts;
  }

  /** A run over two months, queueing whichever it first finds without a row. */
  lemma RunOnce(plan: Plan, steps: seq<Step>, now: int, a: Month, b: Month) returns (more: seq<Step>)
    requires MonthOk(a) && MonthOk(b) && EarliestOwed(ScheduleOf(plan, NEW), now, [a, b])
    requires var s := Run(plan, NEW, steps); s.runner == Resting && s.last == None && s.failed == []
    ensures var s, pa, pb := Run(plan, NEW, steps), PeriodOf(plan, a), PeriodOf(plan, b);
            var after := Run(plan, NEW, more);
            && (StateOf(s.outbox, pa) == Open && Attempts(s.outbox, pa, 3) == [] ==>
                  after == s.(outbox := GetOrCreate(s.outbox, Key(pa, 0))))
            && (StateOf(s.outbox, pa) == InFlight && StateOf(s.outbox, pb) == Open && Attempts(s.outbox, pb, 3) == [] ==>
                  after == s.(outbox := GetOrCreate(s.outbox, Key(pb, 0))))
            && (StateOf(s.outbox, pa) == InFlight && StateOf(s.outbox, pb) == Delivered ==>
                  after == s.(last := Some(b), runner := Walking([])))
  {
    hide EarliestOwed, StateOf, PeriodOf, Attempts, GetOrCreate, MonthOk, Run, Visit;
    var s := Run(plan, NEW, steps);
    var began := Began(plan, steps, now, [a, b]);
    assert [a, b][1..] == [b] && [b][1..] == [];
    VisitMoves(plan, Run(plan, NEW, began), true);
    more := Visited(plan, began);
    if StateOf(s.outbox, PeriodOf(plan, a)) == InFlight {
      VisitMoves(plan, Run(plan, NEW, more), true);
      more := Visited(plan, more);
    }
  }

  lemma SendsOne(plan: Plan, steps: seq<Step>, key: Key) returns (more: seq<Step>)
    requires var s := Run(plan, NEW, steps); key in s.outbox && s.outbox[key] == OutRow(Waiting, 0)
    ensures var s := Run(plan, NEW, steps); Run(plan, NEW, more) == s.(outbox := s.outbox[key := OutRow(Sent, 1)])
  {
    more := steps + [Dispatch(key, true)];
    RunThen(plan, steps, Dispatch(key, true));
    hide Run;
  }

  /** With two months owed, the first is still being tried when the second is queued
      behind it and delivered; and the next run steps over the first. */
  lemma OneMonthSteppedOver(plan: Plan, now: int, a: Month, b: Month) returns (steps: seq<Step>)
    requires MonthOk(a) && MonthOk(b) && MonthNumber(a) < MonthNumber(b) && PeriodOf(plan, a) != PeriodOf(plan, b)
    requires EarliestOwed(ScheduleOf(plan, NEW), now, [a, b])
    ensures var s := Run(plan, NEW, steps);
            SteppedOver(plan, s.outbox, s, a) && StateOf(s.outbox, PeriodOf(plan, a)) == InFlight && s.last == Some(b)
  {
    var ka, kb := Key(PeriodOf(plan, a), 0), Key(PeriodOf(plan, b), 0);
    var w := OutRow(Waiting, 0);
    assert Run(plan, NEW, []) == NEW;
    hide EarliestOwed, StateOf, PeriodOf, Attempts, MonthOk, MonthNumber, Run;
    FirstRowTells(map[], ka.period);
    var one := RunOnce(plan, [], now, a, b);
    assert Run(plan, NEW, one) == NEW.(outbox := map[ka := w]);
    FirstRowTells(map[ka := w], ka.period);
    FirstRowTells(map[ka := w], kb.period);
    var two := RunOnce(plan, one, now, a, b);
    assert Run(plan, NEW, two) == NEW.(outbox := map[ka := w, kb := w]);
    var sent := SendsOne(plan, two, kb);
    var outbox := map[ka := w, kb := OutRow(Sent, 1)];
    assert Run(plan, NEW, sent) == NEW.(outbox := outbox);
    FirstRowTells(outbox, ka.period);
    FirstRowTells(outbox, kb.period);
    steps := RunOnce(plan, sent, now, a, b);
  }

  // A schedule made in January 2026, due at eight on the third of the month, in UTC.
  function JanuaryPlan(): Plan {
    Plan(DeadlineLaws.UtcZone(), 3, 8, JANUARY, Json.Number, ["compliance@firm.example"])
  }

  const JANUARY := Month(2026, 1)
  const FEBRUARY := Month(2026, 2)

  lemma JanuaryPlanOk()
    ensures PlanOk(JanuaryPlan())
  {
    forall d: int, t: int | 0 <= t < DAY ensures OffsetBounded(JanuaryPlan().zone, d, t) {
    }
  }

  lemma PeriodsDiffer(plan: Plan)
    requires PlanOk(plan) && plan.stamp == Json.Number
    ensures PeriodOf(plan, JANUARY) != PeriodOf(plan, FEBRUARY)
  {
    BoundsOrdered(JANUARY, FEBRUARY, plan.zone);
    var x, y := MonthBounds(JANUARY, plan.zone).start, MonthBounds(FEBRUARY, plan.zone).start;
    hide MonthBounds;
    Json.NumberRead(x, "");
    Json.NumberRead(y, "");
    assert Json.Number(x) + "" == Json.Number(x) && Json.Number(y) + "" == Json.Number(y);
  }

  lemma BothOwed(s: Schedule, now: int)
    requires ScheduleOk(s) && s.created == JANUARY && s.last.None? && s.failed == [] && now == FireTime(s, FEBRUARY)
    ensures EarliestOwed(s, now, [JANUARY, FEBRUARY])
  {
    var march := Month(2026, 3);
    assert NextMonth(Anchor(s)) == JANUARY && NextMonth(JANUARY) == FEBRUARY && NextMonth(FEBRUARY) == march;
    hide FireTime, ScheduleOk, FoundBefore;
    FireTimesOrdered(s, JANUARY, FEBRUARY);
    FireTimesOrdered(s, FEBRUARY, march);
    FoundNothing(s, now);
    FoundMore(s, now, JANUARY, []);
    FoundMore(s, now, FEBRUARY, [] + [JANUARY]);
    assert ([] + [JANUARY]) + [FEBRUARY] == [JANUARY, FEBRUARY];
    FoundAll(s, now, march, [JANUARY, FEBRUARY]);
  }

  /** A real schedule it happens to: January's report still waits when February's falls
      due, is queued, sent and recorded; January is then behind and never owed again. */
  lemma JanuarySteppedOver() returns (steps: seq<Step>)
    ensures PlanOk(JanuaryPlan())
    ensures var s := Run(JanuaryPlan(), NEW, steps);
            && SteppedOver(JanuaryPlan(), s.outbox, s, JANUARY)
            && StateOf(s.outbox, PeriodOf(JanuaryPlan(), JANUARY)) == InFlight
            && s.last == Some(FEBRUARY)
            && forall now :: !Owed(ScheduleOf(JanuaryPlan(), s), now, JANUARY)
  {
    JanuaryPlanOk();
    var plan := JanuaryPlan();
    PeriodsDiffer(plan);
    var s := ScheduleOf(plan, NEW);
    BothOwed(s, FireTime(s, FEBRUARY));
    hide EarliestOwed, JanuaryPlan, Run, StateOf, PeriodOf, FireTime;
    steps := OneMonthSteppedOver(plan, FireTime(s, FEBRUARY), JANUARY, FEBRUARY);
  }
}
