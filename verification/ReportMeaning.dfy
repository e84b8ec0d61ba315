/** Reports in dates and numbers: when a month's report falls due, for which period it is, how
    often it is tried, and what its key is the digest of. */
module ReportMeaning {
  import opened Prelude
  import opened BusinessCalendar
  import opened Canonical
  import opened Json
  import opened Schedules
  import opened ReportRuns
  import DeadlineLaws
  import Recipients

  // -- dates -----------------------------------------------------------------

  ghost predicate Follows(m: Month, n: Month) {
    MonthOk(m) && MonthOk(n) && n.year * 12 + n.month == m.year * 12 + m.month + 1
  }

  /** Day 0 is the first of January 1970; a report falls due in the month after its own, on
      the schedule's day and at its full hour, local time; it covers its month from local
      midnight to local midnight. */
  lemma FallsDue(s: Schedule, m: Month, n: Month)
    requires Follows(m, n)
    ensures Schedules.FirstDay(Month(1970, 1)) == 0
    ensures FireTime(s, m) == s.zone.utc(Schedules.FirstDay(n) + s.dayOfMonth - 1, s.hour * 3_600_000_000)
    ensures var first := Schedules.FirstDay(n);
            MonthBounds(m, s.zone) == Interval(s.zone.utc(first - DaysIn(m), 0), s.zone.utc(first, 0))
  {
    NextIs(m, n);
    MonthsAdjoin(m);
    hide DaysIn, NextMonth, MonthOk;
  }

  lemma NextIs(m: Month, n: Month)
    requires Follows(m, n)
    ensures NextMonth(m) == n
  {
  }

  /** The period of a report: its month's bounds as they are printed, and who it goes to. */
  lemma PeriodIs(plan: Plan, m: Month, n: Month)
    requires Follows(m, n)
    ensures var p, first := PeriodOf(plan, m), Schedules.FirstDay(n);
            && p.from == plan.stamp(plan.zone.utc(first - DaysIn(m), 0)) && p.to == plan.stamp(plan.zone.utc(first, 0))
            && p.addresses == multiset(plan.recipients)
  {
    NextIs(m, n);
    MonthsAdjoin(m);
    hide DaysIn, NextMonth, MonthOk, Schedules.FirstDay;
  }

  /** January 2026, due at eight on the third of the month: from day 20454 to day 20485, due
      on day 20487, which is 2026-02-03. */
  lemma JanuaryFallsDue()
    ensures var s := ScheduleOf(JanuaryPlan(), NEW);
            && FireTime(s, Month(2026, 1)) == 20_487 * 86_400_000_000 + 8 * 3_600_000_000
            && MonthBounds(Month(2026, 1), s.zone) == Interval(20_454 * 86_400_000_000, 20_485 * 86_400_000_000)
  {
    var s, feb := ScheduleOf(JanuaryPlan(), NEW), Month(2026, 2);
    FallsDue(s, JANUARY, feb);
    assert Schedules.FirstDay(feb) == 20_485;
    hide FireTime, MonthBounds, Schedules.FirstDay;
  }

  /** A month is owed when it is after the last one reported, or not before the schedule was
      made, has fallen due and was not given up. */
  lemma OwedIs(s: Schedule, now: int, m: Month, n: Month)
    requires ScheduleOk(s) && Follows(m, n)
    ensures Owed(s, now, m) <==>
            && (if s.last.Some? then s.last.value.year * 12 + s.last.value.month < m.year * 12 + m.month
                else s.created.year * 12 + s.created.month <= m.year * 12 + m.month)
            && s.zone.utc(Schedules.FirstDay(n) + s.dayOfMonth - 1, s.hour * 3_600_000_000) <= now && m !in s.failed
  {
    FallsDue(s, m, n);
    hide FireTime, OffsetsBounded, Schedules.FirstDay, DaysIn;
  }

  /** A run takes on at most twelve months, and all that are owed when they are fewer. */
  lemma TwelveAtMost(s: Schedule, now: int, owed: seq<Month>)
    requires EarliestOwed(s, now, owed)
    ensures |owed| <= 12
    ensures |owed| < 12 ==> forall m :: Owed(s, now, m) ==> m in owed
    ensures |owed| == 12 ==> forall m :: Owed(s, now, m) ==> m in owed || MonthNumber(owed[11]) < MonthNumber(m)
  {
    hide Owed;
  }

  // -- trying ----------------------------------------------------------------

  /** Handing a waiting row to the mail server counts one try: accepted it is sent; refused it
      waits, until it has been refused six times and is parked. Other rows are left alone. */
  lemma TriedIs(r: OutRow, accepted: bool)
    ensures Tried(r, accepted)
         == if r.status == Sent || r.status == Failed then r
            else OutRow(if accepted then Sent else if r.sends < 5 then Waiting else Failed, r.sends + 1)
  {
  }

  /** What a run does about the month it looked at: sent, it is done with; waiting, it is
      passed; failed three times, it is given up; and otherwise one row more is queued, under
      the number of the attempt, and the run ends, or ends at once with nobody to send to. */
  lemma ActWrites(plan: Plan, s: System, deliverable: bool)
    requires s.runner.Looked? && s.runner.months != [] && MonthOk(s.runner.months[0])
    ensures var after, seen, month := Apply(plan, s, Act(deliverable)), s.runner.seen, s.runner.months[0];
            var key := Key(PeriodOf(plan, month), |seen|);
            && after.runner == (if Sent in seen || Waiting in seen || |seen| >= 3 then Walking(s.runner.months[1..]) else Resting)
            && after.last == (if Sent in seen then Some(month) else s.last)
            && after.failed == (if Sent !in seen && Waiting !in seen && |seen| >= 3 then s.failed + [month] else s.failed)
            && after.outbox == (if Sent !in seen && Waiting !in seen && |seen| < 3 && deliverable && key !in s.outbox
                                then s.outbox[key := OutRow(Waiting, 0)] else s.outbox)
  {
    hide PeriodOf;
  }

  /** A request from elsewhere queues its first attempt, unless there is one. */
  lemma RequestWrites(plan: Plan, s: System, from: string, to: string, addresses: seq<string>)
    ensures var after, key := Apply(plan, s, Request(from, to, addresses)), Key(Period(from, to, multiset(addresses)), 0);
            && after == s.(outbox := after.outbox)
            && after.outbox == if key in s.outbox then s.outbox else s.outbox[key := OutRow(Waiting, 0)]
  {
  }

  // -- the text of a key -----------------------------------------------------

  /** The period, the addresses in order, and the number of a later attempt. */
  lemma MaterialIs(from: string, to: string)
    ensures Recipients.Material(from, to, ["b@x", "a@x"], 0) == from + ("|" + (to + ("|" + "a@x,b@x")))
    ensures Recipients.Material(from, to, ["b@x", "a@x"], 2) == from + ("|" + (to + ("|" + "a@x,b@x|2")))
  {
    assert Before("a@x", "b@x") && !Before("b@x", "a@x");
    assert Recipients.Sorted(["a@x"]) == ["a@x"];
    assert ["b@x", "a@x"][1..] == ["a@x"];
    assert Recipients.Sorted(["b@x", "a@x"]) == ["a@x", "b@x"];
    assert Recipients.Joined(["b@x"]) == "b@x";
    assert Recipients.Joined(["a@x", "b@x"]) == "a@x,b@x";
    assert Decimal(2) == "2";
  }
}
