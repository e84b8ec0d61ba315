/** What became of every month the record of progress has left behind, in every run. */
module ReportGaps {
  import opened Prelude
  import opened Schedules
  import opened ReportRuns

  /** The `i`-th step of the run looks at this month and finds it in flight. */
  ghost predicate FoundInFlight(plan: Plan, steps: seq<ReportRuns.Step>, i: nat, m: Month)
    requires MonthOk(m)
  {
    && i < |steps| && steps[i] == Look
    && var s := Run(plan, NEW, steps[..i]);
       s.runner.Walking? && s.runner.months != [] && s.runner.months[0] == m
       && StateOf(s.outbox, PeriodOf(plan, m)) == InFlight
  }

  /** The month was sent, or given up, or the runner went past it while it was in flight. */
  ghost predicate Explained(plan: Plan, steps: seq<ReportRuns.Step>, m: Month)
    requires MonthOk(m)
  {
    var s := Run(plan, NEW, steps);
    SentSomewhere(s.outbox, PeriodOf(plan, m)) || m in s.failed || exists i: nat :: FoundInFlight(plan, steps, i, m)
  }

  /** The months still ahead of the runner. */
  function MonthsAhead(r: Runner): seq<Month> {
    match r
    case Resting => []
    case Walking(months) => months
    case Looked(months, _) => months
  }

  /** Every month behind the record, and every one the runner's list leaves out, is explained. */
  ghost predicate Accounted(plan: Plan, steps: seq<ReportRuns.Step>) {
    var s := Run(plan, NEW, steps);
    && (forall m :: MonthOk(m) && Behind(plan, s, m) ==> Explained(plan, steps, m))
    && (forall m :: MonthOk(m) && LeftOut(plan, s, m) ==> Explained(plan, steps, m))
    && (s.runner.Looked? && s.runner.months != [] && MonthOk(s.runner.months[0])
        && Waiting in s.runner.seen && Sent !in s.runner.seen ==>
          exists i: nat :: FoundInFlight(plan, steps, i, s.runner.months[0]))
  }

  /** After the month before the schedule was made, up to the last one recorded. */
  ghost predicate Behind(plan: Plan, s: System, m: Month) {
    s.last.Some? && MonthNumber(PreviousMonth(plan.created)) < MonthNumber(m) <= MonthNumber(s.last.value)
  }

  ghost predicate LeftOut(plan: Plan, s: System, m: Month) {
    var months := MonthsAhead(s.runner);
    months != [] && MonthNumber(Anchor(ScheduleOf(plan, s))) < MonthNumber(m) <= MonthNumber(months[|months| - 1]) && m !in months
  }

  // -- explanations last -----------------------------------------------------

  lemma OnlyMore(plan: Plan, s: System, step: ReportRuns.Step)
    ensures Later(s.outbox, Apply(plan, s, step).outbox) && s.failed <= Apply(plan, s, step).failed
  {
    hide EarliestOwed, PeriodOf, MonthOk, Attempts;
  }

  lemma SentLater(a: map<Key, OutRow>, b: map<Key, OutRow>, p: Period)
    requires Later(a, b) && SentSomewhere(a, p)
    ensures SentSomewhere(b, p)
  {
    var k :| k in a && k.period == p && a[k].status == Sent;
    assert b[k].status == Sent;
  }

  lemma ExplainedLater(plan: Plan, steps: seq<ReportRuns.Step>, step: ReportRuns.Step, m: Month)
    requires MonthOk(m) && Explained(plan, steps, m)
    ensures Explained(plan, steps + [step], m)
  {
    var s := Run(plan, NEW, steps);
    RunThen(plan, steps, step);
    OnlyMore(plan, s, step);
    hide Run, Apply, PeriodOf, MonthOk, SentSomewhere, Later;
    if SentSomewhere(s.outbox, PeriodOf(plan, m)) {
      SentLater(s.outbox, Apply(plan, s, step).outbox, PeriodOf(plan, m));
    } else if i: nat :| FoundInFlight(plan, steps, i, m) {
      FoundLater(plan, steps, step, i, m);
    }
  }

  lemma FoundLater(plan: Plan, steps: seq<ReportRuns.Step>, step: ReportRuns.Step, i: nat, m: Month)
    requires MonthOk(m) && FoundInFlight(plan, steps, i, m)
    ensures FoundInFlight(plan, steps + [step], i, m)
  {
    hide Run, PeriodOf, MonthOk, StateOf;
    assert (steps + [step])[..i] == steps[..i];
  }

  // -- one step --------------------------------------------------------------

  /** What a new walk leaves out was given up before. */
  lemma OwedLeavesOut(s: Schedule, now: int, owed: seq<Month>, m: Month)
    requires ScheduleOk(s) && EarliestOwed(s, now, owed) && owed != [] && MonthOk(m) && m !in owed
    requires MonthNumber(Anchor(s)) < MonthNumber(m) <= MonthNumber(owed[|owed| - 1])
    ensures m in s.failed
  {
    var end := owed[|owed| - 1];
    assert Owed(s, now, end);
    hide FireTime, ScheduleOk;
    if MonthNumber(m) < MonthNumber(end) {
      FireTimesOrdered(s, m, end);
    } else {
      SameNumberSameMonth(m, end);
    }
  }

  lemma StepAccounts(plan: Plan, steps: seq<ReportRuns.Step>, step: ReportRuns.Step)
    requires PlanOk(plan) && Accounted(plan, steps)
    ensures Accounted(plan, steps + [step])
  {
    var s, after := Run(plan, NEW, steps), Apply(plan, Run(plan, NEW, steps), step);
    RunThen(plan, steps, step);
    RunKeeps(plan, steps);
    forall m | MonthOk(m) && Explained(plan, steps, m) ensures Explained(plan, steps + [step], m) {
      ExplainedLater(plan, steps, step, m);
    }
    hide Run, Explained, Inv, Apply, FoundInFlight;
    forall m | MonthOk(m) && (Behind(plan, after, m) || LeftOut(plan, after, m)) ensures Explained(plan, steps + [step], m) {
      MonthAccounted(plan, steps, step, m);
    }
    LookAccounted(plan, steps, step);
  }

  lemma LookAccounted(plan: Plan, steps: seq<ReportRuns.Step>, step: ReportRuns.Step)
    requires Accounted(plan, steps)
    ensures var after := Apply(plan, Run(plan, NEW, steps), step);
            (after.runner.Looked? && after.runner.months != [] && MonthOk(after.runner.months[0])
             && Waiting in after.runner.seen && Sent !in after.runner.seen ==>
               exists i: nat :: FoundInFlight(plan, steps + [step], i, after.runner.months[0]))
  {
    var s, after := Run(plan, NEW, steps), Apply(plan, Run(plan, NEW, steps), step);
    if after.runner.Looked? && after.runner.months != [] && MonthOk(after.runner.months[0])
       && Waiting in after.runner.seen && Sent !in after.runner.seen {
      if after.runner == s.runner {
        hide Run, Apply, MonthOk, Explained;
        var i: nat :| FoundInFlight(plan, steps, i, s.runner.months[0]);
        FoundLater(plan, steps, step, i, s.runner.months[0]);
      } else {
        LookedNow(plan, s, step);
        hide Run, Apply, PeriodOf, MonthOk, Attempts, Explained;
        assert (steps + [step])[..|steps|] == steps;
        assert FoundInFlight(plan, steps + [step], |steps|, after.runner.months[0]);
      }
    }
  }

  lemma LookedNow(plan: Plan, s: System, step: ReportRuns.Step)
    requires var after := Apply(plan, s, step); after.runner.Looked? && after.runner != s.runner
    ensures var after := Apply(plan, s, step);
            && step == Look && s.runner.Walking? && s.runner.months != [] && MonthOk(s.runner.months[0])
            && after.runner.months == s.runner.months
            && after.runner.seen == Attempts(s.outbox, PeriodOf(plan, s.runner.months[0]), MAX_ATTEMPTS_PER_PERIOD)
  {
    hide EarliestOwed, PeriodOf, MonthOk, Attempts;
  }

  lemma MonthAccounted(plan: Plan, steps: seq<ReportRuns.Step>, step: ReportRuns.Step, m: Month)
    requires PlanOk(plan) && MonthOk(m) && Accounted(plan, steps) && Inv(plan, Run(plan, NEW, steps))
    requires Explained(plan, steps, m) ==> Explained(plan, steps + [step], m)
    requires var after := Apply(plan, Run(plan, NEW, steps), step); Behind(plan, after, m) || LeftOut(plan, after, m)
    ensures Explained(plan, steps + [step], m)
  {
    var s := Run(plan, NEW, steps);
    RunThen(plan, steps, step);
    hide Run, FoundInFlight;
    match step
    case Start(now, owed) => StartAccounted(plan, steps, now, owed, m);
    case Act(deliverable) => ActAccounted(plan, steps, deliverable, m);
    case _ => SameAccounted(plan, s, step, m);
  }

  lemma SameAccounted(plan: Plan, s: System, step: ReportRuns.Step, m: Month)
    requires !step.Start? && !step.Act?
    requires var after := Apply(plan, s, step); Behind(plan, after, m) || LeftOut(plan, after, m)
    ensures Behind(plan, s, m) || LeftOut(plan, s, m)
  {
    hide PeriodOf, MonthOk, Attempts, MonthNumber, PreviousMonth;
  }

  lemma StartAccounted(plan: Plan, steps: seq<ReportRuns.Step>, now: int, owed: seq<Month>, m: Month)
    requires PlanOk(plan) && MonthOk(m) && Accounted(plan, steps) && Inv(plan, Run(plan, NEW, steps))
    requires Explained(plan, steps, m) ==> Explained(plan, steps + [Start(now, owed)], m)
    requires var after := Apply(plan, Run(plan, NEW, steps), Start(now, owed)); Behind(plan, after, m) || LeftOut(plan, after, m)
    ensures Explained(plan, steps + [Start(now, owed)], m)
  {
    var s := Run(plan, NEW, steps);
    hide Run, FoundInFlight, PeriodOf, EarliestOwed, Owed, FireTime, SentSomewhere, MonthNumber, PreviousMonth;
    if s.runner == Resting && EarliestOwed(ScheduleOf(plan, s), now, owed) && LeftOut(plan, s.(runner := Walking(owed)), m) {
      ScheduleStaysOk(plan, s);
      OwedLeavesOut(ScheduleOf(plan, s), now, owed, m);
    }
  }

  lemma ScheduleStaysOk(plan: Plan, s: System)
    requires PlanOk(plan) && Inv(plan, s)
    ensures ScheduleOk(ScheduleOf(plan, s))
  {
    hide Chained, RunnerOk, SentSomewhere, AllFailed, PeriodOf;
  }

  lemma ActAccounted(plan: Plan, steps: seq<ReportRuns.Step>, deliverable: bool, m: Month)
    requires PlanOk(plan) && MonthOk(m) && Accounted(plan, steps) && Inv(plan, Run(plan, NEW, steps))
    requires Explained(plan, steps, m) ==> Explained(plan, steps + [Act(deliverable)], m)
    requires var after := Apply(plan, Run(plan, NEW, steps), Act(deliverable)); Behind(plan, after, m) || LeftOut(plan, after, m)
    ensures Explained(plan, steps + [Act(deliverable)], m)
  {
    var s := Run(plan, NEW, steps);
    RunThen(plan, steps, Act(deliverable));
    hide Run, FoundInFlight, PreviousMonth;
    if s.runner.Looked? && s.runner.months != [] && MonthOk(s.runner.months[0]) {
      ActMoves(plan, s, deliverable, m);
      if m == s.runner.months[0] {
        ActExplains(plan, steps, deliverable);
      }
    }
  }

  /** Of the months an action newly leaves behind or out, only the one looked at is new. */
  lemma ActMoves(plan: Plan, s: System, deliverable: bool, m: Month)
    requires Inv(plan, s) && s.runner.Looked? && s.runner.months != [] && MonthOk(s.runner.months[0]) && MonthOk(m)
    requires var after := Apply(plan, s, Act(deliverable)); Behind(plan, after, m) || LeftOut(plan, after, m)
    ensures Behind(plan, s, m) || LeftOut(plan, s, m) || m == s.runner.months[0]
    ensures m == s.runner.months[0] ==>
              Behind(plan, s, m) || Sent in s.runner.seen || Waiting in s.runner.seen
              || |s.runner.seen| >= MAX_ATTEMPTS_PER_PERIOD
  {
    AheadRest(plan, s, s.runner.months);
    hide PeriodOf, GetOrCreate, Chained, ProgressOk, SeenStands, PreviousMonth;
    var months := s.runner.months;
    assert forall k :: 0 < k < |months| ==> months[1..][k - 1] == months[k];
    if MonthNumber(m) == MonthNumber(months[0]) {
      SameNumberSameMonth(m, months[0]);
    }
  }

  lemma ActExplains(plan: Plan, steps: seq<ReportRuns.Step>, deliverable: bool)
    requires Accounted(plan, steps) && Inv(plan, Run(plan, NEW, steps))
    requires var r := Run(plan, NEW, steps).runner;
             && r.Looked? && r.months != [] && MonthOk(r.months[0])
             && (Sent in r.seen || Waiting in r.seen || |r.seen| >= MAX_ATTEMPTS_PER_PERIOD)
    ensures Explained(plan, steps + [Act(deliverable)], Run(plan, NEW, steps).runner.months[0])
  {
    var s := Run(plan, NEW, steps);
    var month, p := s.runner.months[0], PeriodOf(plan, s.runner.months[0]);
    RunThen(plan, steps, Act(deliverable));
    hide Run, PeriodOf, MonthOk, MonthNumber, PreviousMonth, Chained, ProgressOk;
    if Sent in s.runner.seen {
      var n :| 0 <= n < |s.runner.seen| && s.runner.seen[n] == Sent;
      assert SeenAt(s.outbox, p, s.runner.seen, n);
      assert SentSomewhere(s.outbox, p);
    } else if Waiting in s.runner.seen {
      var i: nat :| FoundInFlight(plan, steps, i, month);
      FoundLater(plan, steps, Act(deliverable), i, month);
    }
  }

  lemma {:induction false} EveryRunAccounts(plan: Plan, steps: seq<ReportRuns.Step>)
    requires PlanOk(plan)
    ensures Accounted(plan, steps)
    decreases |steps|
  {
    hide PlanOk;
    if steps == [] {
      NothingBehind(plan);
    } else {
      var n := |steps| - 1;
      EveryRunAccounts(plan, steps[..n]);
      hide Accounted;
      StepAccounts(plan, steps[..n], steps[n]);
      assert steps[..n] + [steps[n]] == steps;
    }
  }

  lemma NothingBehind(plan: Plan)
    ensures Accounted(plan, [])
  {
  }

  /** In every interleaving, a month the record of progress has left behind was sent, or given
      up after its attempts, or was in flight when the runner looked at it and went past. */
  lemma BehindIsExplained(plan: Plan, steps: seq<ReportRuns.Step>, m: Month)
    requires PlanOk(plan) && MonthOk(m) && Behind(plan, Run(plan, NEW, steps), m)
    ensures var s := Run(plan, NEW, steps);
            || SentSomewhere(s.outbox, PeriodOf(plan, m))
            || (m in s.failed && AllFailed(s.outbox, PeriodOf(plan, m)))
            || exists i: nat :: FoundInFlight(plan, steps, i, m)
  {
    EveryRunAccounts(plan, steps);
    RunKeeps(plan, steps);
    hide Run, FoundInFlight, PeriodOf, SentSomewhere, AllFailed, Chained, RunnerOk, Behind, LeftOut;
    assert Explained(plan, steps, m);
  }
}
