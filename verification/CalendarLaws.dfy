/** What a calendar's opening hours mean, from dates, the zone and the clock on the wall. */
module CalendarLaws {
  import opened Prelude
  import opened Counting
  import opened BusinessCalendar
  import opened Pauses
  import opened Deadlines
  import opened DeadlineLaws
  import opened Schedules

  // -- weekdays --------------------------------------------------------------

  /** Local day `day` is `w` days into some week; day 4, 1970-01-05, was a Monday, weekday 0. */
  ghost predicate IsWeekday(day: int, w: int) {
    0 <= w < 7 && exists weeks: int :: InWeek(day, weeks, w)
  }

  ghost predicate InWeek(day: int, weeks: int, w: int) {
    day == 4 + 7 * weeks + w
  }

  lemma WeekdayIs(day: int, w: int)
    ensures IsWeekday(day, w) <==> Weekday(day) == w
  {
    var weeks := (day - 4) / 7;
    assert InWeek(day, weeks, (day - 4) % 7);
    if IsWeekday(day, w) {
      var n: int :| InWeek(day, n, w);
    }
  }

  // -- open instants ---------------------------------------------------------

  /** The instant falls on this local day, between the opening and the closing time that
      the calendar has for its weekday. */
  ghost predicate InHours(cal: Calendar, day: int, w: int, x: int) {
    && IsWeekday(day, w) && day !in cal.holidays && w in cal.hours
    && cal.zone.utc(day, cal.hours[w].0) <= x < cal.zone.utc(day, cal.hours[w].1)
  }

  /** A calendar with opening hours is open exactly on its weekdays that are no holidays,
      from opening to closing time on the local clock. */
  lemma OpenInHours(cal: Calendar, x: int)
    requires !cal.alwaysOpen
    ensures Open(cal, x) <==> exists day, w :: InHours(cal, day, w, x)
  {
    if Open(cal, x) {
      var day :| InSegment(cal, day, x);
      WeekdayIs(day, Weekday(day));
      assert InHours(cal, day, Weekday(day), x);
    }
    if day, w :| InHours(cal, day, w, x) {
      WeekdayIs(day, w);
      assert InSegment(cal, day, x);
    }
  }

  ghost predicate InDay(cal: Calendar, day: int, x: int) {
    day !in cal.holidays && cal.zone.utc(day, 0) <= x < cal.zone.utc(day + 1, 0)
  }

  /** An always-open one is open from midnight to midnight of every day that is no holiday,
      whatever hours it lists. */
  lemma OpenAllDay(cal: Calendar, x: int)
    requires cal.alwaysOpen
    ensures Open(cal, x) <==> exists day :: InDay(cal, day, x)
  {
    if Open(cal, x) {
      var day :| InSegment(cal, day, x);
      assert InDay(cal, day, x);
    }
    if day :| InDay(cal, day, x) {
      assert InSegment(cal, day, x);
    }
  }

  /** Some local day holds the instant, in a zone less than a day from UTC. */
  lemma {:induction false} DayHolding(z: Zone, x: int, d: int, e: int) returns (day: int)
    requires z.utc(d, 0) <= x < z.utc(e, 0) && d <= e
    ensures z.utc(day, 0) <= x < z.utc(day + 1, 0)
    decreases e - d
  {
    if x < z.utc(d + 1, 0) {
      day := d;
    } else {
      day := DayHolding(z, x, d + 1, e);
    }
  }

  lemma LaterMidnight(z: Zone, x: int) returns (day: int)
    requires OffsetsBounded(z)
    ensures x < z.utc(day, 0)
  {
    day := x / DAY + 2;
    assert x < (day - 1) * DAY;
    assert OffsetBounded(z, day, 0);
  }

  /** The 24-hour calendar in place of one with hours and holidays is open at every instant. */
  lemma ContinuousIsOpen(z: Zone, x: int)
    requires ZoneOk(z) && OffsetsBounded(z)
    ensures Open(Continuous(z), x)
  {
    var from := z.localDay(x);
    var to := LaterMidnight(z, x);
    assert z.utc(from, 0) <= x;
    if to < from {
      MidnightsOrdered(Continuous(z), to, from);
    }
    hide ZoneOk;
    var day := DayHolding(z, x, from, to);
    OpenAllDay(Continuous(z), x);
    assert InDay(Continuous(z), day, x);
  }

  // -- an office -------------------------------------------------------------

  const NINE := 9 * 3600 * SECOND
  const FIVE := 17 * 3600 * SECOND
  const HALF_HOUR := 1800 * SECOND

  // 2026-01-02 is a Friday.
  const FRIDAY := 20_455

  /** Monday to Friday from nine to five, UTC. */
  function Office(holidays: set<int>): Calendar {
    Calendar(UtcZone(), map[0 := (NINE, FIVE), 1 := (NINE, FIVE), 2 := (NINE, FIVE), 3 := (NINE, FIVE), 4 := (NINE, FIVE)],
             holidays, false)
  }

  lemma OfficeOk(holidays: set<int>)
    ensures CalendarOk(Office(holidays)) && OffsetsBounded(Office(holidays).zone)
  {
    assert 0 in Office(holidays).hours;
    UtcOk();
  }

  lemma UtcOk()
    ensures ZoneOk(UtcZone()) && OffsetsBounded(UtcZone())
  {
    forall d: int, t: int | 0 <= t < DAY ensures OffsetBounded(UtcZone(), d, t) {
    }
  }

  /** Two days that hold the same instant are one. */
  lemma OneDayHolds(a: int, b: int, x: int)
    requires a * DAY <= x < (a + 1) * DAY && b * DAY <= x < (b + 1) * DAY
    ensures a == b
  {
  }

  /** The office's hours on its weekdays. */
  lemma OfficeHours(holidays: set<int>, day: int, w: int, x: int)
    ensures InHours(Office(holidays), day, w, x)
       <==> IsWeekday(day, w) && w < 5 && day !in holidays && day * DAY + NINE <= x < day * DAY + FIVE
  {
    if w in Office(holidays).hours {
      assert Office(holidays).hours[w] == (NINE, FIVE);
    }
  }

  /** That office on a day: open from nine to five, or not at all on a weekend or holiday. */
  lemma OfficeDay(holidays: set<int>, weeks: int, w: int, x: int)
    requires 0 <= w < 7
    requires var day := 4 + 7 * weeks + w; day * DAY <= x < (day + 1) * DAY
    ensures var day := 4 + 7 * weeks + w;
            Open(Office(holidays), x) <==> w < 5 && day !in holidays && day * DAY + NINE <= x < day * DAY + FIVE
  {
    var cal, day := Office(holidays), 4 + 7 * weeks + w;
    assert InWeek(day, weeks, w);
    WeekdayIs(day, w);
    OpenInHours(cal, x);
    hide Office, InHours, Open, Weekday;
    if other, v :| InHours(cal, other, v, x) {
      OfficeHours(holidays, other, v, x);
      OneDayHolds(other, day, x);
      WeekdayIs(day, v);
    }
    OfficeHours(holidays, day, w, x);
  }

  /** A stretch of one day's open hours counts in full. */
  lemma OfficeCounts(holidays: set<int>, weeks: int, w: int, from: int, to: int)
    requires 0 <= w < 5 && 4 + 7 * weeks + w !in holidays
    requires var day := 4 + 7 * weeks + w; day * DAY + NINE <= from <= to <= day * DAY + FIVE
    ensures BusinessTime(Office(holidays), [], from, to) == to - from
  {
    hide Office;
    forall x | from <= x < to ensures Counts(Office(holidays), [])(x) {
      OfficeDay(holidays, weeks, w, x);
    }
    CountAll(Counts(Office(holidays), []), from, to);
  }

  lemma ShutAt(holidays: set<int>, day: int, days: nat, x: int)
    requires forall d :: day < d < day + days && Weekday(d) < 5 ==> d in holidays
    requires 0 < days && day * DAY + FIVE <= x < (day + days) * DAY + NINE
    ensures !Open(Office(holidays), x)
  {
    hide Office, Open;
    var d := x / DAY;
    assert day <= d <= day + days;
    WeekdayIs(d, Weekday(d));
    var weeks: int :| InWeek(d, weeks, Weekday(d));
    OfficeDay(holidays, weeks, Weekday(d), x);
  }

  /** From a closing time to the opening of a later day with no working day in between,
      nothing counts. */
  lemma OfficeShut(holidays: set<int>, day: int, days: nat)
    requires forall d :: day < d < day + days && Weekday(d) < 5 ==> d in holidays
    requires 0 < days
    ensures BusinessTime(Office(holidays), [], day * DAY + FIVE, (day + days) * DAY + NINE) == 0
  {
    hide Office;
    forall x | day * DAY + FIVE <= x < (day + days) * DAY + NINE ensures !Counts(Office(holidays), [])(x) {
      ShutAt(holidays, day, days, x);
    }
    CountNone(Counts(Office(holidays), []), day * DAY + FIVE, (day + days) * DAY + NINE);
  }

  /** What has counted by closing time has counted by a later opening, and then the day's own. */
  lemma OfficeResumes(holidays: set<int>, start: int, day: int, days: nat, t: int)
    requires start <= day * DAY + FIVE && 0 < days
    requires forall d :: day < d < day + days && Weekday(d) < 5 ==> d in holidays
    requires Weekday(day + days) < 5 && day + days !in holidays
    requires (day + days) * DAY + NINE <= t <= (day + days) * DAY + FIVE
    ensures BusinessTime(Office(holidays), [], start, t)
         == BusinessTime(Office(holidays), [], start, day * DAY + FIVE) + t - ((day + days) * DAY + NINE)
  {
    hide Office, Count, Counts;
    var p, shut, opens := Counts(Office(holidays), []), day * DAY + FIVE, (day + days) * DAY + NINE;
    OfficeShut(holidays, day, days);
    WeekdayIs(day + days, Weekday(day + days));
    var weeks: int :| InWeek(day + days, weeks, Weekday(day + days));
    OfficeCounts(holidays, weeks, Weekday(day + days), opens, t);
    CountSplit(p, start, shut, t);
    CountSplit(p, shut, opens, t);
  }

  /** An instant on a working day, after opening, by which the window has counted, is the deadline. */
  lemma OfficeDeadline(holidays: set<int>, start: int, window: int, day: int, d: int)
    requires 0 < window && BusinessTime(Office(holidays), [], start, d) == window
    requires Weekday(day) < 5 && day !in holidays && day * DAY + NINE < d <= day * DAY + FIVE
    requires start < d && start / DAY <= day <= start / DAY + 30
    ensures DeadlineOf(Office(holidays), start, window, []) == Ok(d)
  {
    WeekdayIs(day, Weekday(day));
    var weeks: int :| InWeek(day, weeks, Weekday(day));
    OfficeDay(holidays, weeks, Weekday(day), d - 1);
    assert !ClosedDay(Office(holidays), BusinessCalendar.FirstDay(Office(holidays), start), day - start / DAY);
    hide Count;
    DeadlineIs(Office(holidays), start, window, [], d);
  }

  /** An hour from Sunday midnight is over on Monday at ten. */
  lemma AnHourFromSunday()
    ensures DeadlineOf(Office({}), (FRIDAY + 2) * DAY, 3600 * SECOND, []) == Ok((FRIDAY + 3) * DAY + 10 * 3600 * SECOND)
  {
    var start, monday := (FRIDAY + 2) * DAY, FRIDAY + 3;
    hide Office, Count;
    SundayIsShut();
    var opens := monday * DAY + NINE;
    OfficeCounts({}, (monday - 4) / 7, 0, opens, opens + 3600 * SECOND);
    CountSplit(Counts(Office({}), []), start, opens, opens + 3600 * SECOND);
    OfficeDeadline({}, start, 3600 * SECOND, monday, opens + 3600 * SECOND);
  }

  lemma SundayIsShut()
    ensures BusinessTime(Office({}), [], (FRIDAY + 2) * DAY, (FRIDAY + 3) * DAY + NINE) == 0
  {
    hide Office;
    var start, opens := (FRIDAY + 2) * DAY, (FRIDAY + 3) * DAY + NINE;
    forall x | start <= x < opens ensures !Counts(Office({}), [])(x) {
      if x < start + DAY {
        OfficeDay({}, 2921, 6, x);
      } else {
        OfficeDay({}, 2922, 0, x);
      }
    }
    CountNone(Counts(Office({}), []), start, opens);
  }

  /** An hour from Friday half past four is over on Tuesday at half past nine when Monday is a
      holiday, and on Monday at half past nine when it is not. */
  lemma AnHourOverTheWeekend()
    ensures DeadlineOf(Office({FRIDAY + 3}), FRIDAY * DAY + FIVE - HALF_HOUR, 3600 * SECOND, [])
         == Ok((FRIDAY + 4) * DAY + NINE + HALF_HOUR)
    ensures DeadlineOf(Office({}), FRIDAY * DAY + FIVE - HALF_HOUR, 3600 * SECOND, [])
         == Ok((FRIDAY + 3) * DAY + NINE + HALF_HOUR)
  {
    var start := FRIDAY * DAY + FIVE - HALF_HOUR;
    hide Office, Count;
    OfficeCounts({FRIDAY + 3}, 2921, 4, start, FRIDAY * DAY + FIVE);
    OfficeResumes({FRIDAY + 3}, start, FRIDAY, 4, (FRIDAY + 4) * DAY + NINE + HALF_HOUR);
    OfficeDeadline({FRIDAY + 3}, start, 3600 * SECOND, FRIDAY + 4, (FRIDAY + 4) * DAY + NINE + HALF_HOUR);
    OfficeCounts({}, 2921, 4, start, FRIDAY * DAY + FIVE);
    OfficeResumes({}, start, FRIDAY, 3, (FRIDAY + 3) * DAY + NINE + HALF_HOUR);
    OfficeDeadline({}, start, 3600 * SECOND, FRIDAY + 3, (FRIDAY + 3) * DAY + NINE + HALF_HOUR);
  }

  /** Twenty-four hours of business from Friday half past four are over on Wednesday, at
      half past four. */
  lemma ThreeWorkingDays()
    ensures DeadlineOf(Office({}), FRIDAY * DAY + FIVE - HALF_HOUR, 24 * 3600 * SECOND, [])
         == Ok((FRIDAY + 5) * DAY + FIVE - HALF_HOUR)
  {
    var start := FRIDAY * DAY + FIVE - HALF_HOUR;
    hide Office, Count;
    OfficeCounts({}, 2921, 4, start, FRIDAY * DAY + FIVE);
    OfficeResumes({}, start, FRIDAY, 3, (FRIDAY + 3) * DAY + FIVE);
    OfficeResumes({}, start, FRIDAY + 3, 1, (FRIDAY + 4) * DAY + FIVE);
    OfficeResumes({}, start, FRIDAY + 4, 1, (FRIDAY + 5) * DAY + FIVE - HALF_HOUR);
    OfficeDeadline({}, start, 24 * 3600 * SECOND, FRIDAY + 5, (FRIDAY + 5) * DAY + FIVE - HALF_HOUR);
  }
}
