/** What the nightly check covers: which rows of which clocks, against which windows. */
module ReconcileMeaning {
  import opened Prelude
  import opened BusinessCalendar
  import opened Deadlines
  import opened Clocks
  import opened ClockMeaning
  import opened ClockTime

  /** The window a row is checked against, from its kind and the policy; other rows, and a
      warning without a threshold, are counted and not checked. */
  lemma WindowIs(r: Row, p: Policy)
    ensures WindowFor(r, p)
         == match r.kind
            case Acknowledgement => Some(p.ackMinutes * 60_000_000)
            case Resolution => Some(p.resolutionHours * 3_600_000_000)
            case Warning =>
              if r.threshold == None || r.threshold == Some(0) then None
              else Some(p.resolutionHours * r.threshold.value * 36_000_000)
            case _ => None
  {
    if r.threshold.Some? {
      WindowExact(p, r.threshold.value);
    }
  }

  /** Every row is counted unless it fired. */
  lemma {:induction false} CountsUnfired(c: Clock, now: int, rows: seq<Row>)
    requires ReconcileRows(c, now, rows).Ok?
    ensures ReconcileRows(c, now, rows).value.checked == Unfired(rows)
    decreases |rows|
  {
    hide DeadlineOf, WindowFor, PausesOf, CalendarFor;
    if rows != [] {
      CountsUnfired(c, now, rows[..|rows| - 1]);
    }
  }

  ghost predicate Checked(c: Clock) {
    c.state == Running || c.state == Paused
  }

  ghost function RowsToCheck(clocks: seq<Clock>): nat {
    if clocks == [] then 0
    else RowsToCheck(clocks[..|clocks| - 1])
         + (if Checked(clocks[|clocks| - 1]) then Unfired(clocks[|clocks| - 1].rows) else 0)
  }

  ghost predicate FoundOn(c: Clock, now: int, m: Mismatch) {
    && Checked(c) && ReconcileRows(c, now, c.rows).Ok?
    && m in ReconcileRows(c, now, c.rows).value.mismatches
  }

  /** A tenant's check covers the running and the paused clocks, and no other: it gets through
      exactly when it does on each of them, counts their unfired rows, and reports what it
      finds on them. */
  lemma {:induction false} ReconcileAllCovers(clocks: seq<Clock>, now: int)
    ensures ReconcileAll(clocks, now).Ok?
       <==> forall i :: 0 <= i < |clocks| && Checked(clocks[i]) ==> ReconcileRows(clocks[i], now, clocks[i].rows).Ok?
    ensures ReconcileAll(clocks, now).Ok? ==> ReconcileAll(clocks, now).value.checked == RowsToCheck(clocks)
    ensures ReconcileAll(clocks, now).Ok? ==> forall m ::
              m in ReconcileAll(clocks, now).value.mismatches <==> exists i :: 0 <= i < |clocks| && FoundOn(clocks[i], now, m)
    decreases |clocks|
  {
    hide ReconcileRows, Unfired;
    if clocks != [] {
      var n := |clocks| - 1;
      ReconcileAllCovers(clocks[..n], now);
      if ReconcileAll(clocks, now).Ok? {
        if Checked(clocks[n]) {
          CountsUnfired(clocks[n], now, clocks[n].rows);
        }
        forall m ensures (exists i :: 0 <= i < |clocks| && FoundOn(clocks[i], now, m))
                    <==> FoundOn(clocks[n], now, m) || exists i :: 0 <= i < n && FoundOn(clocks[..n][i], now, m)
        {
          if i :| 0 <= i < |clocks| && FoundOn(clocks[i], now, m) {
            assert i == n || FoundOn(clocks[..n][i], now, m);
          }
          if i :| 0 <= i < n && FoundOn(clocks[..n][i], now, m) {
            assert FoundOn(clocks[i], now, m);
          }
        }
      }
    }
  }
}
