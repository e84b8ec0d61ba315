/** Deadline arithmetic: the walk that finds a deadline, the independent
    measurement of business time, and why they are each other's inverse. */
module Deadlines {
  import opened Prelude
  import opened Counting
  import opened BusinessCalendar
  import opened Pauses

  datatype DeadlineError = WindowNotPositive | ImpossibleCalendar | DeadlineUncomputable

  /** The instants that count: open on some day and not paused. */
  ghost function Counts(cal: Calendar, pauses: PauseList): int -> bool {
    x => Open(cal, x) && !Paused(pauses, x)
  }

  /** The business time from `a` to `b`: the number of instants that count. */
  ghost function BusinessTime(cal: Calendar, pauses: PauseList, a: int, b: int): nat {
    Count(Counts(cal, pauses), a, b)
  }

  /** All the business time a walk from `start` can see. */
  ghost function Available(cal: Calendar, pauses: PauseList, start: int): nat {
    BusinessTime(cal, pauses, start, Horizon(cal, start))
  }

  /** The deadline: the least instant by which `window` of business time has
      passed, or the reason there is none. */
  ghost function DeadlineOf(cal: Calendar, start: int, window: int, pauses: PauseList): (r: Result<int, DeadlineError>)
    ensures r.Ok? ==> 0 < window <= Available(cal, pauses, start)
    ensures r.Ok? ==> r.value == Least(Counts(cal, pauses), start, Horizon(cal, start), window)
  {
    if window <= 0 then Err(WindowNotPositive)
    else if NeverOpens(cal, start) then Err(ImpossibleCalendar)
    else if Available(cal, pauses, start) >= window then
      Ok(Least(Counts(cal, pauses), start, Horizon(cal, start), window))
    else if ShutsForAYear(cal, start) then Err(ImpossibleCalendar)
    else Err(DeadlineUncomputable)
  }

  /** Measuring stops at `end` only once a segment starts there or later. */
  ghost predicate OpensFirstAtOrAfter(cal: Calendar, start: int, end: int) {
    ClippedDay(cal, start, 0).Some? && ClippedDay(cal, start, 0).value.start >= end
  }

  /** The measurement of a span, or the failure of the walk under it. */
  ghost function TimeBetween(cal: Calendar, start: int, end: int, pauses: PauseList): Result<int, DeadlineError> {
    if end <= start then Ok(0)
    else if NeverOpens(cal, start) || (ShutsForAYear(cal, start) && !OpensFirstAtOrAfter(cal, start, end)) then
      Err(ImpossibleCalendar)
    else Ok(BusinessTime(cal, pauses, start, Min(end, Horizon(cal, start))))
  }

  // -- following the walk ----------------------------------------------------

  /** Where a walk stands once it has dealt with its first `k` days. */
  ghost function Frontier(cal: Calendar, moment: int, k: int): int {
    Max(moment, Midnight(cal, FirstDay(cal, moment) + k))
  }

  lemma FrontierOrdered(cal: Calendar, moment: int, j: int, k: int)
    requires CalendarOk(cal) && j <= k
    ensures moment <= Frontier(cal, moment, j) <= Frontier(cal, moment, k)
    ensures Frontier(cal, moment, 0) == moment
  {
    MidnightsOrdered(cal, FirstDay(cal, moment) + j, FirstDay(cal, moment) + k);
  }

  /** Between two frontiers a day apart, what is open is that day's clipped segment. */
  lemma DayOpens(cal: Calendar, moment: int, k: int, x: int)
    requires CalendarOk(cal) && Frontier(cal, moment, k) <= x < Frontier(cal, moment, k + 1)
    ensures Open(cal, x) <==> ClippedDay(cal, moment, k).Some? && ClippedDay(cal, moment, k).value.Contains(x)
  {
    OpenWithinDay(cal, FirstDay(cal, moment) + k, x);
  }

  lemma ClippedDayInside(cal: Calendar, moment: int, k: int)
    requires CalendarOk(cal) && ClippedDay(cal, moment, k).Some?
    ensures var s := ClippedDay(cal, moment, k).value;
            Frontier(cal, moment, k) <= s.start < s.end <= Frontier(cal, moment, k + 1)
  {
    SegmentInsideDay(cal, FirstDay(cal, moment) + k);
  }

  /** Days that yield nothing hold no business time. */
  lemma {:induction false} SkippedDays(cal: Calendar, moment: int, pauses: PauseList, j: int, k: int)
    requires CalendarOk(cal) && j <= k && NothingClipped(cal, moment, j, k)
    ensures BusinessTime(cal, pauses, Frontier(cal, moment, j), Frontier(cal, moment, k)) == 0
    decreases k - j
  {
    if j < k {
      SkippedDays(cal, moment, pauses, j, k - 1);
      var a, b, c := Frontier(cal, moment, j), Frontier(cal, moment, k - 1), Frontier(cal, moment, k);
      FrontierOrdered(cal, moment, j, k - 1);
      FrontierOrdered(cal, moment, k - 1, k);
      CountSplit(Counts(cal, pauses), a, b, c);
      forall x | b <= x < c ensures !Counts(cal, pauses)(x) {
        DayOpens(cal, moment, k - 1, x);
      }
      CountNone(Counts(cal, pauses), b, c);
    }
  }

  /** Outside its clipped segment, a day holds no business time. */
  lemma AroundSegment(cal: Calendar, moment: int, pauses: PauseList, k: int)
    requires CalendarOk(cal) && ClippedDay(cal, moment, k).Some?
    ensures var s := ClippedDay(cal, moment, k).value;
            && BusinessTime(cal, pauses, Frontier(cal, moment, k), s.start) == 0
            && BusinessTime(cal, pauses, s.end, Frontier(cal, moment, k + 1)) == 0
  {
    ClippedDayInside(cal, moment, k);
    var s := ClippedDay(cal, moment, k).value;
    forall x | Frontier(cal, moment, k) <= x < Frontier(cal, moment, k + 1) && !s.Contains(x)
      ensures !Counts(cal, pauses)(x)
    {
      DayOpens(cal, moment, k, x);
    }
    CountNone(Counts(cal, pauses), Frontier(cal, moment, k), s.start);
    CountNone(Counts(cal, pauses), s.end, Frontier(cal, moment, k + 1));
  }

  /** The remainder of an open segment is exactly the part that counts. */
  lemma PiecesCount(cal: Calendar, moment: int, pauses: PauseList, k: int, span: Interval, norm: seq<Interval>,
          pieces: seq<Interval>)
    requires CalendarOk(cal) && ClippedDay(cal, moment, k).Some?
    requires forall x :: Covers(norm, x) <==> Paused(pauses, x)
    requires var s := ClippedDay(cal, moment, k).value; s.start <= span.start && span.end <= s.end
    requires IsRemainder(span, norm, pieces)
    ensures forall x :: span.Contains(x) ==> (Covers(pieces, x) <==> Counts(cal, pauses)(x))
  {
    ClippedDayInside(cal, moment, k);
    forall x | span.Contains(x) ensures Covers(pieces, x) <==> Counts(cal, pauses)(x) {
      DayOpens(cal, moment, k, x);
    }
  }

  /** Before its first piece, and between two, a remainder counts nothing. */
  ghost function PieceFrom(span: Interval, pieces: seq<Interval>, i: nat): int
    requires i <= |pieces|
  {
    if i == 0 then span.start else pieces[i - 1].end
  }

  lemma PieceStep(p: int -> bool, span: Interval, pieces: seq<Interval>, i: nat)
    requires i < |pieces| && Separated(pieces)
    requires forall x :: Covers(pieces, x) ==> span.Contains(x)
    requires forall x :: span.Contains(x) ==> (Covers(pieces, x) <==> p(x))
    ensures PieceFrom(span, pieces, i) <= pieces[i].start < pieces[i].end <= span.end
    ensures Count(p, PieceFrom(span, pieces, i), pieces[i].start) == 0
    ensures forall x :: pieces[i].start <= x < pieces[i].end ==> p(x)
  {
    assert pieces[i].Contains(pieces[i].start) && Covers(pieces, pieces[i].start);
    assert pieces[i].Contains(pieces[i].end - 1) && Covers(pieces, pieces[i].end - 1);
    if i > 0 {
      assert pieces[i - 1].Contains(pieces[i - 1].start) && Covers(pieces, pieces[i - 1].start);
    }
    forall x | PieceFrom(span, pieces, i) <= x < pieces[i].start ensures !p(x) {
      assert forall j :: 0 <= j < |pieces| ==> !pieces[j].Contains(x);
    }
    CountNone(p, PieceFrom(span, pieces, i), pieces[i].start);
    forall x | pieces[i].start <= x < pieces[i].end ensures p(x) {
      assert pieces[i].Contains(x);
    }
  }

  /** After its last piece, a remainder counts nothing. */
  lemma AfterPieces(p: int -> bool, span: Interval, pieces: seq<Interval>)
    requires span.start <= span.end && Separated(pieces)
    requires forall x :: Covers(pieces, x) ==> span.Contains(x)
    requires forall x :: span.Contains(x) ==> (Covers(pieces, x) <==> p(x))
    ensures span.start <= PieceFrom(span, pieces, |pieces|) <= span.end
    ensures Count(p, PieceFrom(span, pieces, |pieces|), span.end) == 0
  {
    var from := PieceFrom(span, pieces, |pieces|);
    if pieces != [] {
      PieceStep(p, span, pieces, |pieces| - 1);
      assert pieces[|pieces| - 1].Contains(pieces[|pieces| - 1].start);
      assert Covers(pieces, pieces[|pieces| - 1].start);
    }
    forall x | from <= x < span.end ensures !p(x) {
      assert forall j :: 0 <= j < |pieces| ==> !pieces[j].Contains(x);
    }
    CountNone(p, from, span.end);
  }

  // -- the two walks ---------------------------------------------------------

  /** `pieces` are what counts of `span`. */
  ghost predicate PiecesOf(p: int -> bool, span: Interval, pieces: seq<Interval>) {
    && span.start <= span.end
    && Separated(pieces)
    && (forall x :: Covers(pieces, x) ==> span.Contains(x))
    && (forall x :: span.Contains(x) ==> (Covers(pieces, x) <==> p(x)))
  }

  /** Adding up one piece: what is counted up to its end is what was counted up to
      the previous one's end, plus its length. */
  lemma PieceAdds(p: int -> bool, span: Interval, pieces: seq<Interval>, i: nat, t: int)
    requires PiecesOf(p, span, pieces) && i < |pieces|
    requires span.start <= PieceFrom(span, pieces, i)
    requires pieces[i].start < t <= pieces[i].end
    ensures PieceFrom(span, pieces, i) <= pieces[i].start < pieces[i].end <= span.end
    ensures Count(p, span.start, t) == Count(p, span.start, PieceFrom(span, pieces, i)) + t - pieces[i].start
    ensures p(t - 1)
  {
    PieceStep(p, span, pieces, i);
    CountSplit(p, span.start, PieceFrom(span, pieces, i), pieces[i].start);
    CountAll(p, pieces[i].start, t);
    CountSplit(p, span.start, pieces[i].start, t);
  }

  /** Spend `remaining` on the pieces of one segment, in order. Either it runs out
      inside a piece, at the instant returned, or all of them are used up. */
  method Consume(ghost p: int -> bool, ghost span: Interval, pieces: seq<Interval>, remaining: int)
    returns (deadline: Option<int>, left: int)
    requires 0 < remaining && PiecesOf(p, span, pieces)
    ensures deadline.Some? ==> span.start < deadline.value <= span.end && p(deadline.value - 1)
    ensures deadline.Some? ==> Count(p, span.start, deadline.value) == remaining
    ensures deadline.None? ==> 0 < left && Count(p, span.start, span.end) + left == remaining
  {
    hide Count, PiecesOf;
    left := remaining;
    assert span.start <= PieceFrom(span, pieces, 0) && Count(p, span.start, PieceFrom(span, pieces, 0)) == 0 by {
      CountNone(p, span.start, span.start);
    }
    for i := 0 to |pieces|
      invariant 0 < left
      invariant span.start <= PieceFrom(span, pieces, i)
      invariant Count(p, span.start, PieceFrom(span, pieces, i)) + left == remaining
    {
      var usable := pieces[i];
      assert usable.start < usable.end by { NonEmptyPiece(p, span, pieces, i); }
      if usable.Duration() >= left {
        PieceAdds(p, span, pieces, i, usable.start + left);
        return Some(usable.start + left), left;
      }
      PieceAdds(p, span, pieces, i, usable.end);
      left := left - usable.Duration();
    }
    EndOfPieces(p, span, pieces);
    deadline := None;
  }

  lemma NonEmptyPiece(p: int -> bool, span: Interval, pieces: seq<Interval>, i: nat)
    requires PiecesOf(p, span, pieces) && i < |pieces|
    ensures pieces[i].start < pieces[i].end
  {
  }

  lemma EndOfPieces(p: int -> bool, span: Interval, pieces: seq<Interval>)
    requires PiecesOf(p, span, pieces)
    ensures Count(p, span.start, span.end) == Count(p, span.start, PieceFrom(span, pieces, |pieces|))
  {
    AfterPieces(p, span, pieces);
    CountSplit(p, span.start, PieceFrom(span, pieces, |pieces|), span.end);
  }

  /** What is counted up to the end of a yielded day, in terms of its segment. */
  lemma DayAdds(cal: Calendar, start: int, pauses: PauseList, was: int, now: int, segment: Interval, t: int)
    requires CalendarOk(cal) && YieldedDay(cal, start, was, now, segment)
    requires segment.start <= t <= segment.end
    ensures start <= segment.start < segment.end <= Frontier(cal, start, now)
    ensures BusinessTime(cal, pauses, start, t)
         == BusinessTime(cal, pauses, start, Frontier(cal, start, was)) + BusinessTime(cal, pauses, segment.start, t)
    ensures BusinessTime(cal, pauses, start, Frontier(cal, start, now)) == BusinessTime(cal, pauses, start, segment.end)
  {
    hide Count;
    var p := Counts(cal, pauses);
    Advance(cal, start, pauses, was, now - 1);
    AroundSegment(cal, start, pauses, now - 1);
    ClippedDayInside(cal, start, now - 1);
    CountSplit(p, start, Frontier(cal, start, now - 1), segment.start);
    CountSplit(p, start, segment.start, t);
    CountSplit(p, start, segment.end, Frontier(cal, start, now));
  }

  lemma SegmentPieces(cal: Calendar, moment: int, pauses: PauseList, k: int, span: Interval, norm: seq<Interval>,
          pieces: seq<Interval>)
    requires CalendarOk(cal) && ClippedDay(cal, moment, k).Some?
    requires forall x :: Covers(norm, x) <==> Paused(pauses, x)
    requires var s := ClippedDay(cal, moment, k).value; s.start <= span.start <= span.end <= s.end
    requires IsRemainder(span, norm, pieces)
    ensures PiecesOf(Counts(cal, pauses), span, pieces)
  {
    PiecesCount(cal, moment, pauses, k, span, norm, pieces);
  }

  /** Spend the window on one yielded day. */
  method SpendDay(cal: Calendar, ghost start: int, ghost pauses: PauseList, norm: seq<Interval>,
                  ghost was: int, ghost now: int, segment: Interval, remaining: int)
    returns (deadline: Option<int>, left: int)
    requires CalendarOk(cal) && YieldedDay(cal, start, was, now, segment) && 0 < remaining
    requires Separated(norm) && forall x :: Covers(norm, x) <==> Paused(pauses, x)
    ensures deadline.Some? ==> start < deadline.value <= Frontier(cal, start, now) && Counts(cal, pauses)(deadline.value - 1)
    ensures var spent := BusinessTime(cal, pauses, start, Frontier(cal, start, was)) + remaining;
            match deadline
            case Some(d) => BusinessTime(cal, pauses, start, d) == spent
            case None => 0 < left && BusinessTime(cal, pauses, start, Frontier(cal, start, now)) + left == spent
  {
    hide Count;
    DayAdds(cal, start, pauses, was, now, segment, segment.end);
    var pieces := Subtract(segment, norm);
    SegmentPieces(cal, start, pauses, now - 1, segment, norm, pieces);
    deadline, left := Consume(Counts(cal, pauses), segment, pieces, remaining);
    if deadline.Some? {
      DayAdds(cal, start, pauses, was, now, segment, deadline.value);
    }
  }

  /** The instant at which `window` of business time has elapsed from `start`. */
  method ComputeDeadline(start: int, window: int, cal: Calendar, pauses: PauseList)
    returns (r: Result<int, DeadlineError>)
    requires CalendarOk(cal)
    ensures r == DeadlineOf(cal, start, window, pauses)
  {
    hide Count, Counts, Frontier, NoLongClosure, ClosedRun, NothingClipped, ClippedDay, FirstDay, DeadlineOf;
    if window <= 0 {
      NoWindow(cal, start, window, pauses);
      return Err(WindowNotPositive);
    }
    var norm := Normalise(pauses);
    var remaining := window;
    var walk := new SegmentWalk(cal, start);
    NothingYet(cal, start, pauses);
    while true
      invariant fresh(walk) && walk.Valid() && walk.cal == cal && walk.moment == start
      invariant 0 < remaining
      invariant BusinessTime(cal, pauses, start, Frontier(cal, start, walk.offset)) + remaining == window
      decreases MAX_DAYS + 1 - walk.offset
    {
      ghost var was: int := walk.offset;
      var step := walk.Next();
      ghost var now: int := walk.offset;
      if step.Yielded? {
        var deadline, left := SpendDay(cal, start, pauses, norm, was, now, step.segment, remaining);
        if deadline.Some? {
          Reached(cal, start, window, pauses, now, deadline.value);
          return Ok(deadline.value);
        }
        remaining := left;
      } else {
        Advance(cal, start, pauses, was, now);
        RanOut(cal, start, window, pauses, now, step);
        return Err(if step.NoBusinessTime? then ImpossibleCalendar else DeadlineUncomputable);
      }
    }
  }

  lemma NoWindow(cal: Calendar, start: int, window: int, pauses: PauseList)
    requires window <= 0
    ensures DeadlineOf(cal, start, window, pauses) == Err(WindowNotPositive)
  {
  }

  lemma NothingYet(cal: Calendar, start: int, pauses: PauseList)
    requires CalendarOk(cal)
    ensures BusinessTime(cal, pauses, start, Frontier(cal, start, 0)) == 0
  {
    FrontierOrdered(cal, start, 0, 0);
  }

  lemma Advance(cal: Calendar, moment: int, pauses: PauseList, j: int, k: int)
    requires CalendarOk(cal) && 0 <= j <= k && NothingClipped(cal, moment, j, k)
    ensures moment <= Frontier(cal, moment, j) <= Frontier(cal, moment, k)
    ensures BusinessTime(cal, pauses, moment, Frontier(cal, moment, k))
         == BusinessTime(cal, pauses, moment, Frontier(cal, moment, j))
  {
    SkippedDays(cal, moment, pauses, j, k);
    FrontierOrdered(cal, moment, j, k);
    CountSplit(Counts(cal, pauses), moment, Frontier(cal, moment, j), Frontier(cal, moment, k));
  }

  /** Having met an open day without a long closure first, the walk is not on a
      calendar that never opens. */
  lemma OpensInTime(cal: Calendar, start: int, k: int)
    requires 0 <= k <= MAX_DAYS + 1 && NoLongClosure(cal, FirstDay(cal, start), k)
    requires NeverOpens(cal, start)
    ensures k < MAX_DAYS
  {
    ClosedRunFull(cal, FirstDay(cal, start), MAX_DAYS);
  }

  /** A deadline found inside a yielded segment is the specified one. */
  lemma Reached(cal: Calendar, start: int, window: int, pauses: PauseList, k: int, d: int)
    requires CalendarOk(cal) && 0 < window && 0 < k <= MAX_DAYS + 1
    requires ClippedDay(cal, start, k - 1).Some? && start < d <= Frontier(cal, start, k)
    requires BusinessTime(cal, pauses, start, d) == window && Counts(cal, pauses)(d - 1)
    requires NoLongClosure(cal, FirstDay(cal, start), k)
    ensures DeadlineOf(cal, start, window, pauses) == Ok(d)
  {
    FrontierOrdered(cal, start, k, MAX_DAYS + 1);
    assert !ClosedDay(cal, FirstDay(cal, start), k - 1);
    if NeverOpens(cal, start) {
      OpensInTime(cal, start, k);
    }
    DeadlineIs(cal, start, window, pauses, d);
  }

  /** The deadline is the one counted instant at which the window is complete. */
  lemma DeadlineIs(cal: Calendar, start: int, window: int, pauses: PauseList, d: int)
    requires 0 < window && !NeverOpens(cal, start) && start < d <= Horizon(cal, start)
    requires BusinessTime(cal, pauses, start, d) == window && Counts(cal, pauses)(d - 1)
    ensures DeadlineOf(cal, start, window, pauses) == Ok(d)
  {
    hide NeverOpens, ShutsForAYear;
    CountSplit(Counts(cal, pauses), start, d, Horizon(cal, start));
    LeastUnique(Counts(cal, pauses), start, Horizon(cal, start), window, d);
  }

  /** A walk that ended without reaching the window reports the specified failure. */
  lemma RanOut(cal: Calendar, start: int, window: int, pauses: PauseList, k: int, step: Step)
    requires CalendarOk(cal) && 0 < window && 0 <= k <= MAX_DAYS + 1
    requires BusinessTime(cal, pauses, start, Frontier(cal, start, k)) < window
    requires NoLongClosure(cal, FirstDay(cal, start), k)
    requires step.Exhausted? ==> k == MAX_DAYS + 1
    requires step.NoBusinessTime? ==> k <= MAX_DAYS && ClosedRun(cal, FirstDay(cal, start), k + 1) == MAX_DAYS
    requires !step.Yielded?
    ensures DeadlineOf(cal, start, window, pauses)
         == Err(if step.NoBusinessTime? then ImpossibleCalendar else DeadlineUncomputable)
  {
    var first := FirstDay(cal, start);
    FrontierOrdered(cal, start, k, MAX_DAYS + 1);
    if step.NoBusinessTime? {
      ClosedStretch(cal, start, k);
      if !NeverOpens(cal, start) {
        Advance(cal, start, pauses, k, MAX_DAYS + 1);
      }
    } else {
      if NeverOpens(cal, start) {
        OpensInTime(cal, start, k);
      }
      if ShutsForAYear(cal, start) {
        ShutMeansRun(cal, start);
      }
    }
    EndOfWalk(cal, start, pauses);
  }

  /** Raising on day `k` means the closure is days 0 to 365 or days 1 to 366. */
  lemma ClosedStretch(cal: Calendar, start: int, k: int)
    requires 0 <= k <= MAX_DAYS && ClosedRun(cal, FirstDay(cal, start), k + 1) == MAX_DAYS
    requires NoLongClosure(cal, FirstDay(cal, start), k)
    ensures k == MAX_DAYS - 1 ==> NeverOpens(cal, start)
    ensures k == MAX_DAYS ==> ShutsForAYear(cal, start) && !NeverOpens(cal, start)
    ensures k >= MAX_DAYS - 1
    ensures ClippedDay(cal, start, k).None?
  {
    ClosedRunMeaning(cal, FirstDay(cal, start), k + 1);
    assert ClosedDay(cal, FirstDay(cal, start), k);
    if NeverOpens(cal, start) && k == MAX_DAYS {
      ClosedRunFull(cal, FirstDay(cal, start), MAX_DAYS);
    }
  }

  lemma ShutMeansRun(cal: Calendar, start: int)
    requires ShutsForAYear(cal, start)
    ensures ClosedRun(cal, FirstDay(cal, start), MAX_DAYS + 1) >= MAX_DAYS
  {
    var first, n := FirstDay(cal, start), MAX_DAYS + 1;
    ClosedRunMeaning(cal, first, n);
    var r := ClosedRun(cal, first, n);
    assert r < n - 1 ==> ClosedDay(cal, first, n - r - 1);
  }

  /** The last frontier of a walk is its horizon. */
  lemma EndOfWalk(cal: Calendar, start: int, pauses: PauseList)
    ensures Available(cal, pauses, start) == BusinessTime(cal, pauses, start, Frontier(cal, start, MAX_DAYS + 1))
  {
  }

  lemma ClosedRunFull(cal: Calendar, first: int, n: nat)
    requires ClosedDays(cal, first, 0, n)
    ensures ClosedRun(cal, first, n) == n
  {
    ClosedRunMeaning(cal, first, n);
    var r := ClosedRun(cal, first, n);
    assert r < n ==> ClosedDay(cal, first, n - r - 1);
  }

  // -- measuring -------------------------------------------------------------

  method TotalDuration(ghost p: int -> bool, ghost span: Interval, pieces: seq<Interval>) returns (total: int)
    requires PiecesOf(p, span, pieces)
    ensures total == Count(p, span.start, span.end)
  {
    hide Count, PiecesOf;
    total := 0;
    assert span.start <= PieceFrom(span, pieces, 0) && Count(p, span.start, PieceFrom(span, pieces, 0)) == 0 by {
      CountNone(p, span.start, span.start);
    }
    for i := 0 to |pieces|
      invariant span.start <= PieceFrom(span, pieces, i)
      invariant total == Count(p, span.start, PieceFrom(span, pieces, i))
    {
      var usable := pieces[i];
      assert usable.start < usable.end by { NonEmptyPiece(p, span, pieces, i); }
      PieceAdds(p, span, pieces, i, usable.end);
      total := total + usable.Duration();
    }
    EndOfPieces(p, span, pieces);
  }

  /** The business time of a span up to where the walk stands. */
  ghost function Measured(cal: Calendar, pauses: PauseList, start: int, end: int, k: int): nat {
    BusinessTime(cal, pauses, start, Min(end, Frontier(cal, start, k)))
  }

  /** Measure the part of one yielded day that lies in the span. */
  method MeasureDay(cal: Calendar, start: int, end: int, ghost pauses: PauseList, norm: seq<Interval>,
                    ghost was: int, ghost now: int, segment: Interval)
    returns (time: int)
    requires CalendarOk(cal) && YieldedDay(cal, start, was, now, segment) && segment.start < end
    requires Separated(norm) && forall x :: Covers(norm, x) <==> Paused(pauses, x)
    ensures time == Measured(cal, pauses, start, end, now) - Measured(cal, pauses, start, end, was)
  {
    hide Count, FirstDay;
    DayAdds(cal, start, pauses, was, now, segment, Min(segment.end, end));
    UpToEnd(cal, start, pauses, was, now, segment, end);
    var within := segment.Intersect(Interval(start, end));
    assert within == Some(Interval(segment.start, Min(segment.end, end)));
    var pieces := Subtract(within.value, norm);
    SegmentPieces(cal, start, pauses, now - 1, within.value, norm, pieces);
    time := TotalDuration(Counts(cal, pauses), within.value, pieces);
  }

  /** Cutting a yielded day off at `end` loses nothing that was to be measured. */
  lemma UpToEnd(cal: Calendar, start: int, pauses: PauseList, was: int, now: int, segment: Interval, end: int)
    requires CalendarOk(cal) && YieldedDay(cal, start, was, now, segment) && segment.start < end
    ensures Measured(cal, pauses, start, end, was) == BusinessTime(cal, pauses, start, Frontier(cal, start, was))
    ensures Measured(cal, pauses, start, end, now) == BusinessTime(cal, pauses, start, Min(segment.end, end))
  {
    hide Count, FirstDay, Counts, ClippedDay;
    var p := Counts(cal, pauses);
    ClippedDayInside(cal, start, now - 1);
    DayAdds(cal, start, pauses, was, now, segment, segment.end);
    Advance(cal, start, pauses, was, now - 1);
    if segment.end <= end {
      var m := Min(end, Frontier(cal, start, now));
      CountSplit(p, start, segment.end, m);
      CountSplit(p, start, m, Frontier(cal, start, now));
    }
  }

  /** How much business time separates two instants; nothing if `end` is not later. */
  method BusinessTimeBetween(start: int, end: int, cal: Calendar, pauses: PauseList)
    returns (r: Result<int, DeadlineError>)
    requires CalendarOk(cal)
    ensures r == TimeBetween(cal, start, end, pauses)
  {
    hide Count, Counts, Frontier, NoLongClosure, ClosedRun, NothingClipped, ClippedDay, FirstDay, TimeBetween, Measured;
    if end <= start {
      NoSpan(cal, start, end, pauses);
      return Ok(0);
    }
    var norm := Normalise(pauses);
    var total := 0;
    var walk := new SegmentWalk(cal, start);
    NothingMeasured(cal, start, end, pauses);
    while true
      invariant fresh(walk) && walk.Valid() && walk.cal == cal && walk.moment == start
      invariant total == Measured(cal, pauses, start, end, walk.offset)
      invariant 0 < walk.offset ==> !OpensFirstAtOrAfter(cal, start, end)
      decreases MAX_DAYS + 1 - walk.offset
    {
      ghost var was: int := walk.offset;
      var step := walk.Next();
      ghost var now: int := walk.offset;
      if step.Yielded? {
        if step.segment.start >= end {
          PastTheEnd(cal, start, end, pauses, was, now, step.segment);
          return Ok(total);
        }
        NotFirst(cal, start, end, was, now, step.segment);
        var time := MeasureDay(cal, start, end, pauses, norm, was, now, step.segment);
        total := total + time;
      } else {
        MeasuredAll(cal, start, end, pauses, was, now, step);
        return if step.NoBusinessTime? then Err(ImpossibleCalendar) else Ok(total);
      }
    }
  }

  lemma NoSpan(cal: Calendar, start: int, end: int, pauses: PauseList)
    requires end <= start
    ensures TimeBetween(cal, start, end, pauses) == Ok(0)
  {
  }

  lemma NothingMeasured(cal: Calendar, start: int, end: int, pauses: PauseList)
    requires CalendarOk(cal) && start < end
    ensures Measured(cal, pauses, start, end, 0) == 0
  {
    FrontierOrdered(cal, start, 0, 0);
  }

  lemma NotFirst(cal: Calendar, start: int, end: int, was: int, now: int, segment: Interval)
    requires YieldedDay(cal, start, was, now, segment) && segment.start < end
    requires 0 < was ==> !OpensFirstAtOrAfter(cal, start, end)
    ensures !OpensFirstAtOrAfter(cal, start, end)
  {
  }

  /** Stopping at a segment that starts at `end` or later: all of the span is measured. */
  lemma PastTheEnd(cal: Calendar, start: int, end: int, pauses: PauseList, was: int, now: int, segment: Interval)
    requires CalendarOk(cal) && start < end && YieldedDay(cal, start, was, now, segment) && segment.start >= end
    requires NoLongClosure(cal, FirstDay(cal, start), now)
    ensures TimeBetween(cal, start, end, pauses) == Ok(Measured(cal, pauses, start, end, was))
  {
    StopsInTime(cal, start, end, was, now, segment);
    MeasuredBefore(cal, start, end, pauses, was, now, segment);
  }

  lemma StopsInTime(cal: Calendar, start: int, end: int, was: int, now: int, segment: Interval)
    requires YieldedDay(cal, start, was, now, segment) && segment.start >= end
    requires NoLongClosure(cal, FirstDay(cal, start), now)
    ensures !NeverOpens(cal, start)
    ensures ShutsForAYear(cal, start) ==> OpensFirstAtOrAfter(cal, start, end)
  {
    assert !ClosedDay(cal, FirstDay(cal, start), now - 1);
    if NeverOpens(cal, start) {
      OpensInTime(cal, start, now);
    }
  }

  lemma MeasuredBefore(cal: Calendar, start: int, end: int, pauses: PauseList, was: int, now: int, segment: Interval)
    requires CalendarOk(cal) && start < end && YieldedDay(cal, start, was, now, segment) && segment.start >= end
    ensures BusinessTime(cal, pauses, start, Min(end, Horizon(cal, start))) == Measured(cal, pauses, start, end, was)
  {
    hide Count;
    var p, f := Counts(cal, pauses), Frontier(cal, start, was);
    ClippedDayInside(cal, start, now - 1);
    FrontierOrdered(cal, start, now, MAX_DAYS + 1);
    DayAdds(cal, start, pauses, was, now, segment, segment.start);
    CountNone(p, segment.start, segment.start);
    FrontierOrdered(cal, start, was, now - 1);
    if f <= end {
      CountSplit(p, start, f, end);
      CountSplit(p, start, end, segment.start);
    }
  }

  /** A measurement that reaches the end of the walk. */
  lemma MeasuredAll(cal: Calendar, start: int, end: int, pauses: PauseList, was: int, now: int, step: Step)
    requires CalendarOk(cal) && start < end && 0 <= was <= now <= MAX_DAYS + 1 && NothingClipped(cal, start, was, now)
    requires NoLongClosure(cal, FirstDay(cal, start), now) && !step.Yielded?
    requires 0 < was ==> !OpensFirstAtOrAfter(cal, start, end)
    requires step.Exhausted? ==> now == MAX_DAYS + 1
    requires step.NoBusinessTime? ==> now <= MAX_DAYS && ClosedRun(cal, FirstDay(cal, start), now + 1) == MAX_DAYS
    ensures TimeBetween(cal, start, end, pauses)
         == if step.NoBusinessTime? then Err(ImpossibleCalendar) else Ok(Measured(cal, pauses, start, end, was))
  {
    hide Count;
    if step.NoBusinessTime? {
      ClosedStretch(cal, start, now);
    } else {
      if NeverOpens(cal, start) {
        OpensInTime(cal, start, now);
      }
      if ShutsForAYear(cal, start) {
        ShutMeansRun(cal, start);
      }
      MeasuredToHorizon(cal, start, end, pauses, was);
    }
  }

  lemma MeasuredToHorizon(cal: Calendar, start: int, end: int, pauses: PauseList, was: int)
    requires CalendarOk(cal) && start < end && 0 <= was <= MAX_DAYS + 1 && NothingClipped(cal, start, was, MAX_DAYS + 1)
    ensures BusinessTime(cal, pauses, start, Min(end, Horizon(cal, start))) == Measured(cal, pauses, start, end, was)
  {
    var p, last := Counts(cal, pauses), Frontier(cal, start, MAX_DAYS + 1);
    Advance(cal, start, pauses, was, MAX_DAYS + 1);
    var m, n := Min(end, Frontier(cal, start, was)), Min(end, last);
    CountSplit(p, start, m, n);
    CountSplit(p, start, Frontier(cal, start, was), last);
    if m < n {
      CountSplit(p, Frontier(cal, start, was), n, last);
    }
  }
}
