/** Counting the instants of a half-open range that satisfy a predicate.

    Business time is given its meaning here, away from either of the loops that
    compute it: the business time of a span is the number of open, unpaused ticks
    in it. */
module Counting {

  ghost function Count(p: int -> bool, a: int, b: int): nat
    decreases b - a
  {
    if b <= a then 0
    else Count(p, a, b - 1) + (if p(b - 1) then 1 else 0)
  }

  lemma {:induction false} CountSplit(p: int -> bool, a: int, m: int, b: int)
    requires a <= m <= b
    ensures Count(p, a, b) == Count(p, a, m) + Count(p, m, b)
    decreases b - m
  {
    if m < b {
      CountSplit(p, a, m, b - 1);
    }
  }

  lemma {:induction false} CountBounds(p: int -> bool, a: int, b: int)
    requires a <= b
    ensures Count(p, a, b) <= b - a
    decreases b - a
  {
    if a < b {
      CountBounds(p, a, b - 1);
    }
  }

  lemma {:induction false} CountAll(p: int -> bool, a: int, b: int)
    requires a <= b
    requires forall x :: a <= x < b ==> p(x)
    ensures Count(p, a, b) == b - a
    decreases b - a
  {
    if a < b {
      CountAll(p, a, b - 1);
    }
  }

  lemma {:induction false} CountNone(p: int -> bool, a: int, b: int)
    requires forall x :: a <= x < b ==> !p(x)
    ensures Count(p, a, b) == 0
    decreases b - a
  {
    if a < b {
      CountNone(p, a, b - 1);
    }
  }

  /** Nothing counted means nothing there. */
  lemma {:induction false} CountZero(p: int -> bool, a: int, b: int, x: int)
    requires Count(p, a, b) == 0 && a <= x < b
    ensures !p(x)
    decreases b - a
  {
    if x < b - 1 {
      CountZero(p, a, b - 1, x);
    }
  }

  lemma {:induction false} CountMonotone(p: int -> bool, q: int -> bool, a: int, b: int)
    requires forall x :: a <= x < b && p(x) ==> q(x)
    ensures Count(p, a, b) <= Count(q, a, b)
    decreases b - a
  {
    if a < b {
      CountMonotone(p, q, a, b - 1);
    }
  }

  lemma CountAgree(p: int -> bool, q: int -> bool, a: int, b: int)
    requires forall x :: a <= x < b ==> p(x) == q(x)
    ensures Count(p, a, b) == Count(q, a, b)
  {
    CountMonotone(p, q, a, b);
    CountMonotone(q, p, a, b);
  }

  /** The earliest instant by which `w` ticks have been counted. */
  ghost function Least(p: int -> bool, a: int, b: int, w: int): (d: int)
    requires 0 < w <= Count(p, a, b)
    ensures a < d <= b && Count(p, a, d) == w && p(d - 1)
    decreases b - a
  {
    if Count(p, a, b - 1) >= w then Least(p, a, b - 1, w) else b
  }

  lemma LeastIsLeast(p: int -> bool, a: int, b: int, w: int, x: int)
    requires 0 < w <= Count(p, a, b)
    requires a <= x < Least(p, a, b, w)
    ensures Count(p, a, x) < w
  {
    var d := Least(p, a, b, w);
    CountSplit(p, a, x, d - 1);
  }

  /** A counted instant at which the count is `w` can only be that earliest one. */
  lemma LeastUnique(p: int -> bool, a: int, b: int, w: int, d: int)
    requires 0 < w <= Count(p, a, b)
    requires a < d <= b && Count(p, a, d) == w && p(d - 1)
    ensures d == Least(p, a, b, w)
  {
    var l := Least(p, a, b, w);
    if d < l {
      LeastIsLeast(p, a, b, w, d);
    } else if l < d {
      CountSplit(p, a, l, d - 1);
    }
  }
}
