/** Pause lists as sets of instants: merging overlaps and subtracting pauses from
    a segment. */
module Pauses {
  import opened Prelude
  import opened BusinessCalendar

  type PauseList = seq<(int, int)>

  /** The clock was paused at `x`: some recorded pause covers it. */
  ghost predicate Paused(pauses: PauseList, x: int) {
    exists i :: 0 <= i < |pauses| && pauses[i].0 <= x < pauses[i].1
  }

  ghost predicate Covers(ivs: seq<Interval>, x: int) {
    exists i :: 0 <= i < |ivs| && ivs[i].Contains(x)
  }

  /** The normal form: non-empty intervals, in order, with a gap between any two. */
  ghost predicate Separated(ivs: seq<Interval>) {
    && (forall i :: 0 <= i < |ivs| ==> ivs[i].start < ivs[i].end)
    && (forall i, j :: 0 <= i < j < |ivs| ==> ivs[i].end < ivs[j].start)
  }

  // -- sorting by start ------------------------------------------------------

  function Insert(iv: Interval, ivs: seq<Interval>): seq<Interval> {
    if ivs == [] then [iv]
    else if iv.start < ivs[0].start then [iv] + ivs
    else [ivs[0]] + Insert(iv, ivs[1..])
  }

  function SortByStart(ivs: seq<Interval>): seq<Interval> {
    if ivs == [] then [] else Insert(ivs[|ivs| - 1], SortByStart(ivs[..|ivs| - 1]))
  }

  ghost predicate Sorted(ivs: seq<Interval>) {
    forall i, j :: 0 <= i < j < |ivs| ==> ivs[i].start <= ivs[j].start
  }

  lemma {:induction false} InsertSorted(iv: Interval, ivs: seq<Interval>)
    requires Sorted(ivs)
    ensures Sorted(Insert(iv, ivs))
    ensures forall x :: x in Insert(iv, ivs) <==> x == iv || x in ivs
  {
    if ivs != [] && iv.start >= ivs[0].start {
      InsertSorted(iv, ivs[1..]);
      var rest := Insert(iv, ivs[1..]);
      assert ivs == [ivs[0]] + ivs[1..];
      forall j | 0 <= j < |rest| ensures ivs[0].start <= rest[j].start {
        assert rest[j] in rest;
      }
    }
  }

  lemma {:induction false} SortByStartSorts(ivs: seq<Interval>)
    ensures Sorted(SortByStart(ivs))
    ensures forall x :: x in SortByStart(ivs) <==> x in ivs
  {
    if ivs != [] {
      var n := |ivs| - 1;
      SortByStartSorts(ivs[..n]);
      InsertSorted(ivs[n], SortByStart(ivs[..n]));
      assert ivs == ivs[..n] + [ivs[n]];
    }
  }

  lemma CoversByMembership(a: seq<Interval>, b: seq<Interval>, x: int)
    requires forall iv :: iv in a ==> iv in b
    requires Covers(a, x)
    ensures Covers(b, x)
  {
    var i :| 0 <= i < |a| && a[i].Contains(x);
    assert a[i] in b;
  }

  // -- normalising -----------------------------------------------------------

  /** Replacing the last interval by a longer one, or appending one, adds exactly
      the new instants. */
  lemma CoversAppend(ivs: seq<Interval>, iv: Interval, x: int)
    ensures Covers(ivs + [iv], x) <==> Covers(ivs, x) || iv.Contains(x)
  {
    var all := ivs + [iv];
    if Covers(ivs, x) {
      var i :| 0 <= i < |ivs| && ivs[i].Contains(x);
      assert all[i].Contains(x);
    }
    if iv.Contains(x) {
      assert all[|ivs|].Contains(x);
    }
  }

  /** One merge step: the next interval in start order joins the last one when they
      touch, and follows it otherwise. */
  method MergeNext(merged: seq<Interval>, interval: Interval) returns (r: seq<Interval>)
    requires merged != [] && Separated(merged)
    requires interval.start < interval.end && merged[|merged| - 1].start <= interval.start
    ensures r != [] && Separated(r) && r[|r| - 1].start <= interval.start
    ensures forall x :: Covers(r, x) <==> Covers(merged, x) || interval.Contains(x)
  {
    var n := |merged| - 1;
    var last := merged[n];
    assert merged == merged[..n] + [last];
    if interval.start <= last.end {
      var joined := Interval(last.start, Max(last.end, interval.end));
      r := merged[n := joined];
      assert r == merged[..n] + [joined];
      forall x ensures Covers(r, x) <==> Covers(merged, x) || interval.Contains(x) {
        CoversAppend(merged[..n], last, x);
        CoversAppend(merged[..n], joined, x);
      }
    } else {
      r := merged + [interval];
      forall x ensures Covers(r, x) <==> Covers(merged, x) || interval.Contains(x) {
        CoversAppend(merged, interval, x);
      }
    }
  }

  /** Drop the empty pauses, sort the rest, merge what overlaps or touches. */
  method Normalise(pauses: PauseList) returns (r: seq<Interval>)
    ensures Separated(r)
    ensures forall x :: Covers(r, x) <==> Paused(pauses, x)
  {
    var intervals: seq<Interval> := [];
    for i := 0 to |pauses|
      invariant forall k :: 0 <= k < |intervals| ==> intervals[k].start < intervals[k].end
      invariant forall x :: Covers(intervals, x) <==> Paused(pauses[..i], x)
    {
      var (s, e) := pauses[i];
      assert pauses[..i + 1] == pauses[..i] + [pauses[i]];
      forall x ensures Paused(pauses[..i + 1], x) <==> Paused(pauses[..i], x) || s <= x < e {
        PausedAppend(pauses[..i], pauses[i], x);
      }
      if e > s {
        forall x { CoversAppend(intervals, Interval(s, e), x); }
        intervals := intervals + [Interval(s, e)];
      }
    }
    assert pauses[..|pauses|] == pauses;
    if intervals == [] {
      return [];
    }

    var sorted := SortByStart(intervals);
    SortByStartSorts(intervals);
    assert sorted != [] by { assert intervals[0] in sorted; }
    forall k | 0 <= k < |sorted| ensures sorted[k].start < sorted[k].end {
      assert sorted[k] in intervals;
    }
    r := [sorted[0]];
    assert sorted[..1] == [sorted[0]];
    for i := 1 to |sorted|
      invariant r != [] && Separated(r) && r[|r| - 1].start <= sorted[i - 1].start
      invariant forall x :: Covers(r, x) <==> Covers(sorted[..i], x)
    {
      assert sorted[..i + 1] == sorted[..i] + [sorted[i]];
      forall x { CoversAppend(sorted[..i], sorted[i], x); }
      r := MergeNext(r, sorted[i]);
    }
    assert sorted[..|sorted|] == sorted;
    forall x ensures Covers(sorted, x) <==> Covers(intervals, x) {
      if Covers(sorted, x) { CoversByMembership(sorted, intervals, x); }
      if Covers(intervals, x) { CoversByMembership(intervals, sorted, x); }
    }
  }

  lemma PausedAppend(pauses: PauseList, p: (int, int), x: int)
    ensures Paused(pauses + [p], x) <==> Paused(pauses, x) || p.0 <= x < p.1
  {
    var all := pauses + [p];
    if Paused(pauses, x) {
      var i :| 0 <= i < |pauses| && pauses[i].0 <= x < pauses[i].1;
      assert all[i].0 <= x < all[i].1;
    }
    if p.0 <= x < p.1 {
      assert all[|pauses|].0 <= x < all[|pauses|].1;
    }
  }

  /** The normal form is a function of the set of instants: reordering, splitting,
      duplicating or overlapping the pauses cannot change it. */
  lemma {:induction false} NormalFormUnique(a: seq<Interval>, b: seq<Interval>)
    requires Separated(a) && Separated(b)
    requires forall x :: Covers(a, x) <==> Covers(b, x)
    ensures a == b
    decreases |a|
  {
    if a == [] {
      if b != [] {
        assert b[0].Contains(b[0].start);
        assert Covers(b, b[0].start);
      }
    } else {
      assert a[0].Contains(a[0].start);
      assert Covers(a, a[0].start);
      FirstAgrees(a, b);
      FirstAgrees(b, a);
      forall x ensures Covers(a[1..], x) <==> Covers(b[1..], x) {
        TailCovers(a, x);
        TailCovers(b, x);
      }
      NormalFormUnique(a[1..], b[1..]);
      assert a == [a[0]] + a[1..] && b == [b[0]] + b[1..];
    }
  }

  lemma TailCovers(a: seq<Interval>, x: int)
    requires Separated(a) && a != []
    ensures Covers(a[1..], x) <==> Covers(a, x) && !a[0].Contains(x)
  {
    if Covers(a[1..], x) {
      var i :| 0 <= i < |a| - 1 && a[1..][i].Contains(x);
      assert a[i + 1].Contains(x);
    }
    if Covers(a, x) && !a[0].Contains(x) {
      var i :| 0 <= i < |a| && a[i].Contains(x);
      assert a[1..][i - 1].Contains(x);
    }
  }

  /** Two normal forms of one set begin with the same interval. */
  lemma FirstAgrees(a: seq<Interval>, b: seq<Interval>)
    requires Separated(a) && Separated(b) && a != [] && b != []
    requires forall x :: Covers(a, x) <==> Covers(b, x)
    ensures b[0].start <= a[0].start && b[0].end <= a[0].end
  {
    assert a[0].Contains(a[0].start);
    assert Covers(a, a[0].start);
    assert b[0].Contains(b[0].start);
    assert Covers(b, b[0].start);
    assert !Covers(a, a[0].end);
    assert !Covers(b, a[0].end);
    assert !b[0].Contains(a[0].end);
  }

  // -- subtracting -----------------------------------------------------------

  /** What is left of a segment once the pauses are taken out of it. */
  ghost predicate IsRemainder(segment: Interval, pauses: seq<Interval>, pieces: seq<Interval>) {
    && Separated(pieces)
    && (forall x :: Covers(pieces, x) <==> segment.Contains(x) && !Covers(pauses, x))
  }

  /** The parts of a segment no pause covers, in order. */
  method Subtract(segment: Interval, pauses: seq<Interval>) returns (pieces: seq<Interval>)
    requires Separated(pauses) && segment.start < segment.end
    ensures IsRemainder(segment, pauses, pieces)
  {
    var cursor := segment.start;
    pieces := [];
    var i := 0;
    while i < |pauses|
      invariant 0 <= i <= |pauses|
      invariant segment.start <= cursor < segment.end
      invariant Separated(pieces)
      invariant forall k :: 0 <= k < |pieces| ==> pieces[k].end < cursor
      invariant forall x :: Covers(pieces, x) <==> segment.start <= x < cursor && !Covers(pauses, x)
      invariant forall k :: 0 <= k < i ==> pauses[k].end <= cursor
    {
      var pause := pauses[i];
      if pause.end <= cursor {
        i := i + 1;
        continue;
      }
      if pause.start >= segment.end {
        break;
      }
      BeforePause(pauses, i, cursor);
      var was := cursor;
      if pause.start > cursor {
        forall x { CoversAppend(pieces, Interval(cursor, Min(pause.start, segment.end)), x); }
        pieces := pieces + [Interval(cursor, Min(pause.start, segment.end))];
      }
      cursor := Max(cursor, pause.end);
      assert forall x :: pause.Contains(x) ==> Covers(pauses, x);
      assert forall x :: was <= x < cursor ==> (Covers(pauses, x) <==> pause.start <= x);
      if cursor >= segment.end {
        return;
      }
      i := i + 1;
    }
    if cursor < segment.end {
      BeforePause(pauses, i, cursor);
      forall x { CoversAppend(pieces, Interval(cursor, segment.end), x); }
      pieces := pieces + [Interval(cursor, segment.end)];
    }
  }

  /** From the cursor up to the next pause, nothing is covered. */
  lemma BeforePause(pauses: seq<Interval>, i: int, cursor: int)
    requires Separated(pauses) && 0 <= i <= |pauses|
    requires forall k :: 0 <= k < i ==> pauses[k].end <= cursor
    ensures forall x :: cursor <= x && (i < |pauses| ==> x < pauses[i].start) ==> !Covers(pauses, x)
  {
  }
}
