/** The runner's loop over the months a schedule owes, and the dispatcher's loop over the
    rows that wait, each one refining the steps of the protocol. */
module ReportDesk {
  import opened Prelude
  import opened BusinessCalendar
  import opened Schedules
  import opened ReportRuns

  datatype Advanced = AlreadySent | StillPending | Abandoned | NoRecipients | Queued | Retried

  datatype RunResult = RunResult(queued: nat, alreadySent: nat, retried: nat, abandoned: nat, skipped: nat)

  datatype DispatchResult = DispatchResult(sent: nat, failed: nat, exhausted: nat)

  /** One try at each of the rows, in order. */
  function TryEach(outbox: map<Key, OutRow>, keys: seq<Key>, accepts: Key -> bool): map<Key, OutRow> {
    var n := |keys|;
    if n == 0 then outbox
    else
      var before := TryEach(outbox, keys[..n - 1], accepts);
      if keys[n - 1] in before then before[keys[n - 1] := Tried(before[keys[n - 1]], accepts(keys[n - 1]))] else before
  }

  /** The rows a dispatch starts from: waiting, and each once. */
  ghost predicate Claimable(outbox: map<Key, OutRow>, keys: seq<Key>) {
    && (forall i :: 0 <= i < |keys| ==> keys[i] in outbox && outbox[keys[i]].status == Waiting)
    && (forall i, j :: 0 <= i < j < |keys| ==> keys[i] != keys[j])
  }

  /** Each row is tried once, and the others are left alone. */
  lemma {:induction false} TriedOnceEach(outbox: map<Key, OutRow>, keys: seq<Key>, accepts: Key -> bool)
    requires Claimable(outbox, keys)
    ensures var after := TryEach(outbox, keys, accepts);
            && after.Keys == outbox.Keys
            && (forall k :: k in outbox ==> after[k] == if k in keys then Tried(outbox[k], accepts(k)) else outbox[k])
    decreases |keys|
  {
    hide Tried;
    if keys != [] {
      var n := |keys| - 1;
      TriedOnceEach(outbox, keys[..n], accepts);
      assert keys == keys[..n] + [keys[n]];
    }
  }

  /** A dispatch is that many steps of the dispatcher. */
  lemma {:induction false} DispatchIsSteps(plan: Plan, steps: seq<ReportRuns.Step>, keys: seq<Key>,
          accepts: Key -> bool) returns (more: seq<ReportRuns.Step>)
    ensures steps <= more
    ensures var s := Run(plan, NEW, steps); Run(plan, NEW, more) == s.(outbox := TryEach(s.outbox, keys, accepts))
    decreases |keys|
  {
    more := steps;
    if keys != [] {
      var n := |keys| - 1;
      var before := DispatchIsSteps(plan, steps, keys[..n], accepts);
      more := before + [Dispatch(keys[n], accepts(keys[n]))];
      RunThen(plan, before, Dispatch(keys[n], accepts(keys[n])));
      hide Run, Tried;
    }
  }

  /** What comes of a month, from the rows there are for it. */
  function OutcomeOf(plan: Plan, outbox: map<Key, OutRow>, month: Month, deliverable: bool): Advanced
    requires MonthOk(month)
  {
    match StateOf(outbox, PeriodOf(plan, month))
    case Delivered => AlreadySent
    case InFlight => StillPending
    case UsedUp => Abandoned
    case Open =>
      if !deliverable then NoRecipients
      else if Attempts(outbox, PeriodOf(plan, month), MAX_ATTEMPTS_PER_PERIOD) == [] then Queued
      else Retried
  }

  predicate Stops(outcome: Advanced) {
    outcome in {Queued, Retried, NoRecipients}
  }

  /** The outcomes of a run, month by month, up to the one that stops it. */
  function Outcomes(plan: Plan, outbox: map<Key, OutRow>, months: seq<Month>, deliverable: bool): (r: seq<Advanced>)
    requires MonthsOk(months)
    ensures |r| <= |months|
    decreases |months|
  {
    if months == [] then []
    else
      var outcome := OutcomeOf(plan, outbox, months[0], deliverable);
      [outcome] + (if Stops(outcome) then [] else Outcomes(plan, outbox, months[1..], deliverable))
  }

  function HowMany(outcomes: seq<Advanced>, outcome: Advanced): nat {
    var n := |outcomes|;
    if n == 0 then 0 else HowMany(outcomes[..n - 1], outcome) + (if outcomes[n - 1] == outcome then 1 else 0)
  }

  /** Each counter says how many months had its outcome; months in flight are in none. */
  predicate Tallies(r: RunResult, outcomes: seq<Advanced>) {
    && r.queued == HowMany(outcomes, Queued) && r.alreadySent == HowMany(outcomes, AlreadySent)
    && r.retried == HowMany(outcomes, Retried) && r.abandoned == HowMany(outcomes, Abandoned)
    && r.skipped == HowMany(outcomes, NoRecipients)
  }

  lemma TallyOneMore(r: RunResult, outcomes: seq<Advanced>, outcome: Advanced)
    requires Tallies(r, outcomes)
    ensures Tallies(Counted(r, outcome), outcomes + [outcome])
  {
    assert (outcomes + [outcome])[..|outcomes|] == outcomes;
  }

  function SeenOutcome(seen: seq<RowStatus>, deliverable: bool): Advanced {
    if Sent in seen then AlreadySent
    else if Waiting in seen then StillPending
    else if |seen| >= MAX_ATTEMPTS_PER_PERIOD then Abandoned
    else if !deliverable then NoRecipients
    else if seen == [] then Queued
    else Retried
  }

  lemma OutcomeSeen(plan: Plan, outbox: map<Key, OutRow>, month: Month, deliverable: bool)
    requires MonthOk(month)
    ensures OutcomeOf(plan, outbox, month, deliverable)
         == SeenOutcome(Attempts(outbox, PeriodOf(plan, month), MAX_ATTEMPTS_PER_PERIOD), deliverable)
  {
    hide PeriodOf, Attempts, MonthOk;
  }

  lemma OutcomesFrom(plan: Plan, outbox: map<Key, OutRow>, months: seq<Month>, i: nat, deliverable: bool)
    requires MonthsOk(months) && i < |months|
    ensures Outcomes(plan, outbox, months[i..], deliverable)
         == [OutcomeOf(plan, outbox, months[i], deliverable)]
          + (if Stops(OutcomeOf(plan, outbox, months[i], deliverable)) then []
             else Outcomes(plan, outbox, months[i + 1..], deliverable))
  {
    hide OutcomeOf, MonthOk;
    assert months[i..][0] == months[i] && months[i..][1..] == months[i + 1..];
  }

  /** How many of the claimed rows end up with a status. */
  function HowManyEnd(outbox: map<Key, OutRow>, keys: seq<Key>, accepts: Key -> bool, status: RowStatus): nat
    requires forall i :: 0 <= i < |keys| ==> keys[i] in outbox
  {
    var n := |keys|;
    if n == 0 then 0
    else
      HowManyEnd(outbox, keys[..n - 1], accepts, status)
      + (if Tried(outbox[keys[n - 1]], accepts(keys[n - 1])).status == status then 1 else 0)
  }

  /** The counters of a dispatch over these rows. */
  ghost predicate Counts(outbox: map<Key, OutRow>, keys: seq<Key>, accepts: Key -> bool, r: DispatchResult)
    requires forall i :: 0 <= i < |keys| ==> keys[i] in outbox
  {
    && r.sent == HowManyEnd(outbox, keys, accepts, Sent)
    && r.failed == HowManyEnd(outbox, keys, accepts, Waiting)
    && r.exhausted == HowManyEnd(outbox, keys, accepts, Failed)
    && r.sent + r.failed + r.exhausted == |keys|
  }

  function OneMoreTried(r: DispatchResult, status: RowStatus): DispatchResult {
    match status
    case Sent => r.(sent := r.sent + 1)
    case Waiting => r.(failed := r.failed + 1)
    case Failed => r.(exhausted := r.exhausted + 1)
  }

  lemma CountsNext(outbox: map<Key, OutRow>, keys: seq<Key>, accepts: Key -> bool, i: nat, r: DispatchResult)
    requires Claimable(outbox, keys) && i < |keys| && Counts(outbox, keys[..i], accepts, r)
    ensures Counts(outbox, keys[..i + 1], accepts, OneMoreTried(r, Tried(outbox[keys[i]], accepts(keys[i])).status))
  {
    hide Tried;
    assert keys[..i + 1][..i] == keys[..i];
  }

  lemma NothingTried(outbox: map<Key, OutRow>, keys: seq<Key>, accepts: Key -> bool)
    ensures Counts(outbox, keys[..0], accepts, DispatchResult(0, 0, 0))
  {
  }

  class Desk {
    const plan: Plan
    var outbox: map<Key, OutRow>
    var last: Option<Month>
    var failed: seq<Month>

    constructor (plan: Plan)
      ensures this.plan == plan && At(Resting) == NEW
    {
      this.plan := plan;
      outbox, last, failed := map[], None, [];
    }

    function At(runner: Runner): System
      reads this
    {
      System(outbox, last, failed, runner)
    }

    /** The statuses of a period's rows, in the order of their attempts. */
    method AttemptsSoFar(p: Period) returns (seen: seq<RowStatus>)
      ensures seen == Attempts(outbox, p, MAX_ATTEMPTS_PER_PERIOD)
    {
      seen := [];
      for n := 0 to MAX_ATTEMPTS_PER_PERIOD
        invariant seen == Attempts(outbox, p, n)
      {
        if Key(p, n) in outbox {
          seen := seen + [outbox[Key(p, n)].status];
        }
      }
    }

    /** Queue a delivery, or find the one that is queued already. */
    method RequestDelivery(p: Period, attempt: nat)
      modifies this`outbox
      ensures outbox == GetOrCreate(old(outbox), Key(p, attempt))
    {
      if Key(p, attempt) !in outbox {
        outbox := outbox[Key(p, attempt) := OutRow(Waiting, 0)];
      }
    }

    method AdvanceOnePeriod(month: Month, ghost rest: seq<Month>, deliverable: bool) returns (outcome: Advanced)
      requires MonthOk(month)
      modifies this
      ensures outcome == OutcomeOf(plan, old(outbox), month, deliverable)
      ensures At(if Stops(outcome) then Resting else Walking(rest)) == Visit(plan, old(At(Walking([month] + rest))), deliverable)
      ensures !Stops(outcome) ==> outbox == old(outbox)
    {
      OutcomeSeen(plan, outbox, month, deliverable);
      hide PeriodOf, Attempts, MonthOk, GetOrCreate, OutcomeOf;
      ghost var s := At(Walking([month] + rest));
      VisitMoves(plan, s, deliverable);
      assert s.runner.months[0] == month && s.runner.months[1..] == rest;
      hide Visit;
      var p := PeriodOf(plan, month);
      var attempts := AttemptsSoFar(p);
      if Sent in attempts {
        last := Some(month);
        return AlreadySent;
      }
      if Waiting in attempts {
        return StillPending;
      }
      if |attempts| >= MAX_ATTEMPTS_PER_PERIOD {
        failed := failed + [month];
        return Abandoned;
      }
      if !deliverable {
        return NoRecipients;
      }
      RequestDelivery(p, |attempts|);
      return if attempts == [] then Queued else Retried;
    }

    /** The owed months in order, until one is queued or blocked. */
    method WalkMonths(months: seq<Month>, deliverable: bool) returns (counts: RunResult)
      requires MonthsOk(months)
      modifies this
      ensures At(Resting) == Finish(plan, old(At(Walking(months))), deliverable).(runner := Resting)
      ensures Tallies(counts, Outcomes(plan, old(outbox), months, deliverable))
      ensures Handled(counts) <= |months|
    {
      hide Finish, Visit, MonthOk, Counted, Handled, OutcomeOf, Tallies, Outcomes;
      ghost var all, done := Outcomes(plan, outbox, months, deliverable), [];
      assert Tallies(RunResult(0, 0, 0, 0, 0), []) by { NothingTallied(); }
      assert done + all == all;
      counts := RunResult(0, 0, 0, 0, 0);
      NothingHandled();
      ghost var start := At(Walking(months));
      assert months[0..] == months;
      for i := 0 to |months|
        invariant Finish(plan, start, deliverable) == Finish(plan, At(Walking(months[i..])), deliverable)
        invariant Handled(counts) <= i
        invariant outbox == old(outbox) && Tallies(counts, done)
        invariant done + Outcomes(plan, outbox, months[i..], deliverable) == all
      {
        assert months[i..] == [months[i]] + months[i + 1..];
        FinishUnfold(plan, At(Walking(months[i..])), deliverable);
        OutcomesFrom(plan, outbox, months, i, deliverable);
        var outcome := AdvanceOnePeriod(months[i], months[i + 1..], deliverable);
        OneMoreHandled(counts, outcome);
        TallyOneMore(counts, done, outcome);
        counts, done := Counted(counts, outcome), done + [outcome];
        if Stops(outcome) {
          assert done == all;
          return;
        }
      }
      assert done == all by { NoOutcomes(plan, outbox, months, deliverable); }
      FinishDone(plan, At(Walking([])), deliverable);
    }

    /** One schedule's run. */
    method RunSchedule(now: int, deliverable: bool) returns (r: RunResult)
      requires ScheduleOk(ScheduleOf(plan, At(Resting)))
      modifies this
      ensures exists owed ::
                && EarliestOwed(ScheduleOf(plan, old(At(Resting))), now, owed) && MonthsOk(owed)
                && At(Resting) == Finish(plan, old(At(Walking(owed))), deliverable).(runner := Resting)
                && Tallies(r, Outcomes(plan, old(outbox), owed, deliverable))
                && Handled(r) <= |owed|
    {
      hide EarliestOwed, Finish, ScheduleOk, Handled, Tallies, Outcomes;
      var months := PeriodsOwed(ScheduleOf(plan, At(Resting)), now);
      OwedMonthsOk(ScheduleOf(plan, At(Resting)), now, months);
      r := WalkMonths(months, deliverable);
    }

    /** Drain what was waiting when the dispatch began. */
    method Drain(keys: seq<Key>, accepts: Key -> bool) returns (r: DispatchResult)
      requires Claimable(outbox, keys)
      modifies this`outbox
      ensures outbox == TryEach(old(outbox), keys, accepts)
      ensures Counts(old(outbox), keys, accepts, r)
    {
      r := DispatchResult(0, 0, 0);
      NothingTried(outbox, keys, accepts);
      for i := 0 to |keys|
        invariant outbox == TryEach(old(outbox), keys[..i], accepts)
        invariant Counts(old(outbox), keys[..i], accepts, r)
      {
        hide Tried, TryEach, Counts, Claimable;
        StillWaiting(old(outbox), keys, accepts, i);
        CountsNext(old(outbox), keys, accepts, i, r);
        var key := keys[i];
        var attempts := outbox[key].sends + 1;
        TriedWaiting(outbox[key], accepts(key));
        if accepts(key) {
          outbox := outbox[key := OutRow(Sent, attempts)];
          r := r.(sent := r.sent + 1);
        } else if attempts >= MAX_SENDS {
          outbox := outbox[key := OutRow(Failed, attempts)];
          r := r.(exhausted := r.exhausted + 1);
        } else {
          outbox := outbox[key := OutRow(Waiting, attempts)];
          r := r.(failed := r.failed + 1);
        }
      }
      assert keys[..|keys|] == keys;
    }
  }

  function Counted(c: RunResult, outcome: Advanced): RunResult {
    match outcome
    case Queued => c.(queued := c.queued + 1)
    case AlreadySent => c.(alreadySent := c.alreadySent + 1)
    case Retried => c.(retried := c.retried + 1)
    case Abandoned => c.(abandoned := c.abandoned + 1)
    case NoRecipients => c.(skipped := c.skipped + 1)
    case StillPending => c
  }

  function Handled(c: RunResult): nat {
    c.queued + c.alreadySent + c.retried + c.abandoned + c.skipped
  }

  lemma NoOutcomes(plan: Plan, outbox: map<Key, OutRow>, months: seq<Month>, deliverable: bool)
    requires MonthsOk(months)
    ensures Outcomes(plan, outbox, months[|months|..], deliverable) == []
  {
  }

  lemma NothingTallied()
    ensures Tallies(RunResult(0, 0, 0, 0, 0), [])
  {
  }

  lemma NothingHandled()
    ensures Handled(RunResult(0, 0, 0, 0, 0)) == 0
  {
  }

  lemma OneMoreHandled(c: RunResult, outcome: Advanced)
    ensures Handled(Counted(c, outcome)) == Handled(c) + (if outcome == StillPending then 0 else 1)
  {
  }

  lemma OwedMonthsOk(s: Schedule, now: int, owed: seq<Month>)
    requires EarliestOwed(s, now, owed)
    ensures MonthsOk(owed)
  {
    hide MonthNumber, FireTime;
  }

  lemma FinishDone(plan: Plan, s: System, deliverable: bool)
    requires s.runner == Walking([])
    ensures Finish(plan, s, deliverable) == s
  {
  }

  lemma TriedWaiting(r: OutRow, accepted: bool)
    requires r.status == Waiting
    ensures Tried(r, accepted)
         == OutRow(if accepted then Sent else if r.sends + 1 >= MAX_SENDS then Failed else Waiting, r.sends + 1)
  {
  }

  lemma StillWaiting(outbox: map<Key, OutRow>, keys: seq<Key>, accepts: Key -> bool, i: nat)
    requires Claimable(outbox, keys) && i < |keys|
    ensures keys[i] in TryEach(outbox, keys[..i], accepts) && TryEach(outbox, keys[..i], accepts)[keys[i]] == outbox[keys[i]]
    ensures keys[i] in outbox && outbox[keys[i]].status == Waiting
    ensures TryEach(outbox, keys[..i + 1], accepts)
         == TryEach(outbox, keys[..i], accepts)[keys[i] := Tried(outbox[keys[i]], accepts(keys[i]))]
  {
    hide Tried;
    TriedOnceEach(outbox, keys[..i], accepts);
    assert keys[..i + 1][..i] == keys[..i];
  }
}
