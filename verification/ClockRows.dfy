/** Materialising a policy's deadlines: every wanted row exists afterwards and is in
    step, and no row moved that should not have. */
module ClockRows {
  import opened Prelude
  import opened BusinessCalendar
  import opened Pauses
  import opened Deadlines
  import opened Clocks

  // -- what a policy wants ---------------------------------------------------

  ghost predicate Ascending(xs: seq<int>) {
    forall i, j :: 0 <= i < j < |xs| ==> xs[i] < xs[j]
  }

  lemma {:induction false} InsertUniqueAscends(x: int, xs: seq<int>)
    requires Ascending(xs)
    ensures Ascending(InsertUnique(x, xs))
    ensures forall y :: y in InsertUnique(x, xs) <==> y == x || y in xs
  {
    if xs != [] && x > xs[0] {
      InsertUniqueAscends(x, xs[1..]);
      var rest := InsertUnique(x, xs[1..]);
      assert xs == [xs[0]] + xs[1..];
      forall j | 0 <= j < |rest| ensures xs[0] < rest[j] {
        assert rest[j] in rest;
      }
    }
  }

  lemma {:induction false} SortedSetAscends(xs: seq<int>)
    ensures Ascending(SortedSet(xs))
    ensures forall y :: y in SortedSet(xs) <==> y in xs
  {
    if xs != [] {
      SortedSetAscends(xs[1..]);
      InsertUniqueAscends(xs[0], SortedSet(xs[1..]));
      assert xs == [xs[0]] + xs[1..];
    }
  }

  ghost predicate SameKey(a: Want, b: Want) {
    a.kind == b.kind && a.threshold == b.threshold
  }

  ghost predicate Distinct(wants: seq<Want>) {
    forall i, j :: 0 <= i < j < |wants| ==> !SameKey(wants[i], wants[j])
  }

  lemma {:induction false} WarningWantsDistinct(p: Policy, ts: seq<int>)
    requires Ascending(ts)
    ensures Distinct(WarningWants(p, ts))
    ensures forall i :: 0 <= i < |WarningWants(p, ts)| ==>
              var w := WarningWants(p, ts)[i];
              w.kind == Warning && w.threshold.Some? && w.threshold.value in ts && 0 < w.threshold.value < 100
              && w.window == WarningWindow(p, w.threshold.value)
  {
    if ts != [] {
      WarningWantsDistinct(p, ts[1..]);
      assert ts == [ts[0]] + ts[1..];
    }
  }

  /** The wanted deadlines are all different, whatever thresholds a policy lists. */
  lemma WantedDistinct(p: Policy)
    ensures Distinct(Wanted(p))
    ensures forall i :: 0 <= i < |Wanted(p)| ==> Wanted(p)[i].kind in {Acknowledgement, Resolution, Warning}
    ensures forall i :: 0 <= i < |Wanted(p)| && Wanted(p)[i].kind == Resolution ==> i == 1
  {
    SortedSetAscends(p.thresholds);
    WarningWantsDistinct(p, SortedSet(p.thresholds));
  }

  // -- writing the rows ------------------------------------------------------

  /** Row ids ascend, and no two pausable rows stand for the same deadline. */
  ghost predicate RowsOk(rows: seq<Row>, nextRow: nat) {
    && (forall i :: 0 <= i < |rows| ==> rows[i].id < nextRow)
    && (forall i, j :: 0 <= i < j < |rows| ==> rows[i].id < rows[j].id)
    && (forall i, j :: 0 <= i < j < |rows| && rows[i].pausable && rows[j].pausable ==>
          rows[i].kind != rows[j].kind || rows[i].threshold != rows[j].threshold)
  }

  /** `r` became `r'`: at most it was moved, to what one of the wants asks for. */
  ghost predicate Moved(r: Row, r': Row, wants: seq<Want>, fires: seq<int>)
    requires |wants| == |fires|
  {
    r' == r || (r.firedAt.None? && exists k :: 0 <= k < |wants| && Matches(r, wants[k]) && r' == r.(firesAt := fires[k]))
  }

  ghost predicate Created(r: Row, wants: seq<Want>) {
    r.firedAt.None? && exists k :: 0 <= k < |wants| && Matches(r, wants[k])
  }

  ghost predicate RowsFollow(rows: seq<Row>, rows': seq<Row>, wants: seq<Want>, fires: seq<int>)
    requires |wants| == |fires|
  {
    && |rows| <= |rows'|
    && (forall i :: 0 <= i < |rows| ==> Moved(rows[i], rows'[i], wants, fires))
    && (forall i :: |rows| <= i < |rows'| ==> Created(rows'[i], wants))
  }

  /** The want has a row, and that row has fired or shows the given instant. */
  ghost predicate Shows(rows: seq<Row>, w: Want, firesAt: int) {
    && FindRow(rows, w) < |rows|
    && (rows[FindRow(rows, w)].firedAt.Some? || rows[FindRow(rows, w)].firesAt == firesAt)
  }

  ghost predicate ShowsAll(rows: seq<Row>, wants: seq<Want>, fires: seq<int>)
    requires |wants| == |fires|
  {
    forall k :: 0 <= k < |wants| ==> Shows(rows, wants[k], fires[k])
  }

  lemma UpsertKeepsRowsOk(c: Clock, w: Want, firesAt: int)
    requires RowsOk(c.rows, c.nextRow)
    ensures RowsOk(Upsert(c, w, firesAt).rows, Upsert(c, w, firesAt).nextRow)
  {
    var i := FindRow(c.rows, w);
    var d := Upsert(c, w, firesAt);
    if i == |c.rows| {
      forall j | 0 <= j < |c.rows| && c.rows[j].pausable ensures c.rows[j].kind != w.kind || c.rows[j].threshold != w.threshold {
        assert !Matches(c.rows[j], w);
      }
    }
  }

  lemma UpsertShows(c: Clock, w: Want, firesAt: int)
    ensures Shows(Upsert(c, w, firesAt).rows, w, firesAt)
  {
    FoundFirst(Upsert(c, w, firesAt).rows, w, FindRow(c.rows, w));
  }

  lemma UpsertFollows(c: Clock, w: Want, firesAt: int)
    ensures RowsFollow(c.rows, Upsert(c, w, firesAt).rows, [w], [firesAt])
    ensures Upsert(c, w, firesAt) == c.(rows := Upsert(c, w, firesAt).rows, nextRow := Upsert(c, w, firesAt).nextRow)
  {
    var i := FindRow(c.rows, w);
    var d := Upsert(c, w, firesAt);
    assert Matches(d.rows[i], [w][0]);
    forall j | 0 <= j < |c.rows| ensures Moved(c.rows[j], d.rows[j], [w], [firesAt]) {
      if j == i {
        assert Matches(c.rows[j], [w][0]);
      }
    }
  }

  lemma {:induction false} FoundFirst(rows: seq<Row>, w: Want, i: nat)
    requires i < |rows| && Matches(rows[i], w)
    requires forall j :: 0 <= j < i ==> !Matches(rows[j], w)
    ensures FindRow(rows, w) == i
  {
  }

  /** The rows of other deadlines stay put while one want after another is written. */
  lemma ShowsKept(rows: seq<Row>, rows': seq<Row>, w: Want, firesAt: int, wants: seq<Want>, fires: seq<int>)
    requires |wants| == |fires| && RowsFollow(rows, rows', wants, fires) && Shows(rows, w, firesAt)
    requires forall k :: 0 <= k < |wants| ==> !SameKey(w, wants[k])
    ensures Shows(rows', w, firesAt)
  {
    var i := FindRow(rows, w);
    assert Moved(rows[i], rows'[i], wants, fires);
    assert rows'[i] == rows[i];
    forall j | 0 <= j < i ensures !Matches(rows'[j], w) {
      assert Moved(rows[j], rows'[j], wants, fires);
    }
    FoundFirst(rows', w, i);
  }

  lemma FollowCompose(a: seq<Row>, b: seq<Row>, c: seq<Row>, w: Want, f: int, wants: seq<Want>, fires: seq<int>)
    requires |wants| == |fires|
    requires RowsFollow(a, b, [w], [f]) && RowsFollow(b, c, wants, fires)
    requires forall k :: 0 <= k < |wants| ==> !SameKey(w, wants[k])
    ensures RowsFollow(a, c, [w] + wants, [f] + fires)
  {
    var ws, fs := [w] + wants, [f] + fires;
    forall i | 0 <= i < |a| ensures Moved(a[i], c[i], ws, fs) {
      assert Moved(a[i], b[i], [w], [f]) && Moved(b[i], c[i], wants, fires);
      if b[i] != a[i] {
        assert Matches(a[i], ws[0]) && b[i] == a[i].(firesAt := fs[0]);
      }
      if c[i] != b[i] {
        var k :| 0 <= k < |wants| && Matches(b[i], wants[k]) && c[i] == b[i].(firesAt := fires[k]);
        assert ws[k + 1] == wants[k] && fs[k + 1] == fires[k];
      }
    }
    forall i | |a| <= i < |c| ensures Created(c[i], ws) {
      if i < |b| {
        assert Created(b[i], [w]) && Moved(b[i], c[i], wants, fires);
        assert Matches(c[i], ws[0]);
      } else {
        var k :| 0 <= k < |wants| && Matches(c[i], wants[k]);
        assert Matches(c[i], ws[k + 1]);
      }
    }
  }

  /** After writing, every want has a row that shows its instant unless it fired,
      and nothing else changed. */
  lemma {:induction false} UpsertAllEffect(c: Clock, wants: seq<Want>, fires: seq<int>)
    requires |wants| == |fires| && Distinct(wants) && RowsOk(c.rows, c.nextRow)
    ensures var d := UpsertAll(c, wants, fires);
            && RowsOk(d.rows, d.nextRow)
            && d == c.(rows := d.rows, nextRow := d.nextRow)
            && ShowsAll(d.rows, wants, fires)
            && RowsFollow(c.rows, d.rows, wants, fires)
    decreases |wants|
  {
    if wants != [] {
      hide Shows, ShowsAll, RowsFollow, RowsOk, Upsert;
      var c1 := Upsert(c, wants[0], fires[0]);
      UpsertKeepsRowsOk(c, wants[0], fires[0]);
      UpsertShows(c, wants[0], fires[0]);
      UpsertFollows(c, wants[0], fires[0]);
      UpsertAllEffect(c1, wants[1..], fires[1..]);
      var d := UpsertAll(c, wants, fires);
      assert wants == [wants[0]] + wants[1..] && fires == [fires[0]] + fires[1..];
      ShowsKept(c1.rows, d.rows, wants[0], fires[0], wants[1..], fires[1..]);
      FollowCompose(c.rows, c1.rows, d.rows, wants[0], fires[0], wants[1..], fires[1..]);
      ShowsMore(d.rows, wants, fires);
    } else {
      NothingFollows(c.rows);
    }
  }

  lemma ShowsMore(rows: seq<Row>, wants: seq<Want>, fires: seq<int>)
    requires |wants| == |fires| && wants != []
    requires Shows(rows, wants[0], fires[0]) && ShowsAll(rows, wants[1..], fires[1..])
    ensures ShowsAll(rows, wants, fires)
  {
    forall k | 0 < k < |wants| ensures Shows(rows, wants[k], fires[k]) {
      assert wants[k] == wants[1..][k - 1] && fires[k] == fires[1..][k - 1];
    }
  }

  lemma NothingFollows(rows: seq<Row>)
    ensures RowsFollow(rows, rows, [], [])
  {
  }

  lemma {:induction false} FiresAllMeaning(cal: Calendar, start: int, pauses: PauseList, wants: seq<Want>)
    requires FiresAll(cal, start, pauses, wants).Ok?
    ensures var fires := FiresAll(cal, start, pauses, wants).value;
            forall k :: 0 <= k < |wants| ==> DeadlineOf(cal, start, wants[k].window, pauses) == Ok(fires[k])
  {
    if wants != [] {
      FiresAllMeaning(cal, start, pauses, wants[1..]);
      var fires := FiresAll(cal, start, pauses, wants).value;
      forall k | 0 < k < |wants| ensures DeadlineOf(cal, start, wants[k].window, pauses) == Ok(fires[k]) {
        assert wants[k] == wants[1..][k - 1] && fires[k] == fires[1..][k - 1];
      }
    }
  }
}
