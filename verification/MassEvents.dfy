/** One finding applied to many cases: what handling the members one by one does, and
    that handling them in batches does the same. */
module MassEvents {
  import opened Prelude
  import opened Json
  import opened Chain
  import opened AuditLog
  import opened Clocks
  import opened Disputes

  // One case's membership of the event; the list of them is in key order.
  datatype Membership = Membership(caseId: string, removed: bool, appliedAt: Option<int>)

  // What a caller asks for, the tenant it is working for, if any, and the identifiers new
  // audit records will take.
  datatype Order = Order(h: Chain.Hasher, tenantId: string, eventId: string, title: string, outcome: string, notes: string,
                         refund: Option<int>, actorId: string, now: int, nowText: string, active: Option<string>,
                         ids: nat -> string)

  datatype World = World(memberships: seq<Membership>, cases: map<string, Dispute>, log: seq<Record>)

  function StatusText(s: Status): string {
    match s
    case Submitted => "submitted"
    case Acknowledged => "acknowledged"
    case Investigating => "investigating"
    case AwaitingCustomer => "awaiting_customer"
    case Escalated => "escalated"
    case Resolved => "resolved"
    case Reopened => "reopened"
    case Closed => "closed"
    case AutoClosed => "auto_closed"
  }

  function Doer(x: Order): Actor {
    Actor("user", x.actorId)
  }

  /** Why the log refuses this caller's records: another tenant's context, or nobody named. */
  function OrderRefused(x: Order): Option<AuditError> {
    if WrongTenant(x.active, x.tenantId) then Some(TenantMismatch(x.active.value))
    else if ActorOk(Doer(x)) then None
    else Some(AuditLog.ActorRequired)
  }

  /** The audit entry of one member case, naming the event it was resolved by. */
  function EntryFor(x: Order, caseId: string, from: Status): Entry {
    Entry("dispute.resolve", Some(x.nowText), Doer(x), None, "dispute", caseId,
      Member("from", JStr(StatusText(from)), Member("to", JStr("resolved"), Member("reason", JStr(x.notes),
      Member("outcome", JStr(x.outcome), EventOf(x))))), "")
  }

  function EventOf(x: Order): Members {
    Member("refund_amount_minor", if x.refund.None? then JNull else JInt(x.refund.value),
    Member("clock_remaining_seconds", JInt(0), Member("mass_event_id", JStr(x.eventId),
    Member("mass_event_title", JStr(x.title), NoMembers))))
  }

  // -- the reference: one member at a time -----------------------------------

  /** Every member case exists, and is a member once. */
  ghost predicate WorldOk(w: World) {
    && (forall i :: 0 <= i < |w.memberships| ==> w.memberships[i].caseId in w.cases)
    && (forall i, j :: 0 <= i < j < |w.memberships| ==> w.memberships[i].caseId != w.memberships[j].caseId)
  }

  predicate Applicable(w: World, i: nat) {
    i < |w.memberships| && w.memberships[i].caseId in w.cases && w.cases[w.memberships[i].caseId].status in APPLICABLE_FROM
  }

  function Mark(ms: seq<Membership>, i: nat, now: int): seq<Membership> {
    if i < |ms| then ms[i := ms[i].(appliedAt := Some(now))] else ms
  }

  /** The `i`th member alone: its case resolved and one record appended, or skipped; and
      marked as handled either way. */
  function HandleOne(x: Order, w: World, i: nat): World {
    var marked := w.(memberships := Mark(w.memberships, i, x.now));
    if !Applicable(w, i) then marked
    else
      var id := w.memberships[i].caseId;
      var d := w.cases[id];
      marked.(cases := w.cases[id := MassResolve(d, x.outcome, x.notes, x.refund, Doer(x), x.now)],
              log := AppendOne(x.h, x.tenantId, w.log, EntryFor(x, id, d.status), x.ids(|w.log|), x.nowText))
  }

  function HandleAll(x: Order, w: World, members: seq<nat>): World {
    var n := |members|;
    if n == 0 then w else HandleOne(x, HandleAll(x, w, members[..n - 1]), members[n - 1])
  }

  predicate Waiting(m: Membership) {
    !m.removed && m.appliedAt.None?
  }

  /** The members still to be handled, in key order. */
  function PendingUpTo(ms: seq<Membership>, n: nat): seq<nat>
    requires n <= |ms|
  {
    if n == 0 then [] else PendingUpTo(ms, n - 1) + (if Waiting(ms[n - 1]) then [n - 1] else [])
  }

  function Pending(ms: seq<Membership>): seq<nat> {
    PendingUpTo(ms, |ms|)
  }

  /** How many of them will be resolved, and which cases passed over. */
  function AppliedOf(w: World, members: seq<nat>): nat {
    var n := |members|;
    if n == 0 then 0 else AppliedOf(w, members[..n - 1]) + (if Applicable(w, members[n - 1]) then 1 else 0)
  }

  function SkippedOf(w: World, members: seq<nat>): seq<string> {
    var n := |members|;
    if n == 0 then []
    else SkippedOf(w, members[..n - 1])
         + (if Applicable(w, members[n - 1]) || members[n - 1] >= |w.memberships| then []
            else [w.memberships[members[n - 1]].caseId])
  }

  // -- facts about the reference ---------------------------------------------

  ghost predicate InRange(ms: seq<Membership>, members: seq<nat>) {
    forall k :: 0 <= k < |members| ==> members[k] < |ms|
  }

  ghost predicate AscendingIndices(members: seq<nat>) {
    forall j, k :: 0 <= j < k < |members| ==> members[j] < members[k]
  }

  lemma {:induction false} PendingAre(ms: seq<Membership>, n: nat)
    requires n <= |ms|
    ensures var p := PendingUpTo(ms, n);
            && AscendingIndices(p)
            && (forall k :: 0 <= k < |p| ==> p[k] < n && Waiting(ms[p[k]]))
            && (forall i :: 0 <= i < n && Waiting(ms[i]) ==> i in p)
  {
    if n > 0 {
      PendingAre(ms, n - 1);
    }
  }

  lemma MarkLength(ms: seq<Membership>, i: nat, now: int)
    ensures |Mark(ms, i, now)| == |ms|
  {
  }

  lemma {:induction false} MarkedFirst(ms: seq<Membership>, n: nat, now: int)
    requires n <= |ms| && PendingUpTo(ms, n) != []
    ensures n <= |Mark(ms, PendingUpTo(ms, n)[0], now)|
    ensures PendingUpTo(Mark(ms, PendingUpTo(ms, n)[0], now), n) == PendingUpTo(ms, n)[1..]
  {
    MarkLength(ms, PendingUpTo(ms, n)[0], now);
    hide Mark;
    if n > 0 && PendingUpTo(ms, n - 1) != [] {
      var before := PendingUpTo(ms, n - 1);
      MarkedFirst(ms, n - 1, now);
      FirstBelow(ms, n - 1);
      hide PendingUpTo;
      MarkedLater(ms, n, before[0], now);
      FirstOff(before, if Waiting(ms[n - 1]) then [n - 1] else []);
      hide *;
    } else {
      MarkedOnly(ms, n, now);
    }
  }

  lemma FirstBelow(ms: seq<Membership>, n: nat)
    requires n <= |ms| && PendingUpTo(ms, n) != []
    ensures PendingUpTo(ms, n)[0] < n
  {
    PendingAre(ms, n);
    hide Waiting, AscendingIndices;
  }

  lemma MarkedOnly(ms: seq<Membership>, n: nat, now: int)
    requires 0 < n <= |ms| && PendingUpTo(ms, n - 1) == [] && PendingUpTo(ms, n) != []
    ensures PendingUpTo(ms, n) == [n - 1]
    ensures |Mark(ms, n - 1, now)| == |ms| && PendingUpTo(Mark(ms, n - 1, now), n) == []
  {
    var after := Mark(ms, n - 1, now);
    assert !Waiting(after[n - 1]) && |after| == |ms| && forall i :: 0 <= i < n - 1 ==> ms[i] == after[i];
    hide Mark, Waiting;
    UnmarkedBelow(ms, after, n - 1);
    assert PendingUpTo(after, n) == PendingUpTo(after, n - 1) + [];
  }

  /** Marking an earlier member leaves the last one's turn as it was. */
  lemma MarkedLater(ms: seq<Membership>, n: nat, i: nat, now: int)
    requires i < n - 1 && n <= |ms|
    ensures var last := if Waiting(ms[n - 1]) then [n - 1] else [];
            && PendingUpTo(ms, n) == PendingUpTo(ms, n - 1) + last
            && |Mark(ms, i, now)| == |ms| && PendingUpTo(Mark(ms, i, now), n) == PendingUpTo(Mark(ms, i, now), n - 1) + last
  {
    assert Mark(ms, i, now)[n - 1] == ms[n - 1];
    hide Waiting;
  }

  lemma FirstOff(a: seq<nat>, b: seq<nat>)
    requires a != []
    ensures (a + b)[0] == a[0] && (a + b)[1..] == a[1..] + b
  {
  }

  lemma {:induction false} UnmarkedBelow(a: seq<Membership>, b: seq<Membership>, n: nat)
    requires n <= |a| && n <= |b| && forall i :: 0 <= i < n ==> a[i] == b[i]
    ensures PendingUpTo(a, n) == PendingUpTo(b, n)
  {
    if n > 0 {
      UnmarkedBelow(a, b, n - 1);
    }
  }

  function MarkAll(ms: seq<Membership>, members: seq<nat>, now: int): seq<Membership> {
    var n := |members|;
    if n == 0 then ms else Mark(MarkAll(ms, members[..n - 1], now), members[n - 1], now)
  }

  /** Handling the first few pending members leaves the rest pending. */
  lemma {:induction false} PendingAfter(ms: seq<Membership>, k: nat, now: int)
    requires k <= |Pending(ms)|
    ensures Pending(MarkAll(ms, Pending(ms)[..k], now)) == Pending(ms)[k..]
    ensures |MarkAll(ms, Pending(ms)[..k], now)| == |ms|
    decreases k
  {
    var p := Pending(ms);
    if k > 0 {
      PendingAfter(ms, k - 1, now);
      assert p[..k][..k - 1] == p[..k - 1];
      var before := MarkAll(ms, p[..k - 1], now);
      MarkedFirst(before, |before|, now);
      assert p[k - 1..][0] == p[k - 1] && p[k - 1..][1..] == p[k..];
    }
  }

  /** Handling members touches their own cases only. */
  lemma {:induction false} HandledApart(x: Order, w: World, members: seq<nat>, i: nat)
    requires WorldOk(w) && InRange(w.memberships, members) && i < |w.memberships| && i !in members
    ensures var after := HandleAll(x, w, members);
            && after.memberships == MarkAll(w.memberships, members, x.now)
            && SameMembers(w.memberships, after.memberships)
            && after.cases.Keys == w.cases.Keys
            && after.cases[w.memberships[i].caseId] == w.cases[w.memberships[i].caseId]
    decreases |members|
  {
    hide MassResolve, AppendOne;
    var n := |members|;
    if n > 0 {
      HandledApart(x, w, members[..n - 1], i);
      assert members[n - 1] in members;
    }
  }

  lemma {:induction false} HandledShape(x: Order, w: World, members: seq<nat>)
    requires WorldOk(w) && InRange(w.memberships, members)
    ensures var after := HandleAll(x, w, members);
            && after.memberships == MarkAll(w.memberships, members, x.now)
            && SameMembers(w.memberships, after.memberships)
            && after.cases.Keys == w.cases.Keys
            && WorldOk(after)
    decreases |members|
  {
    hide MassResolve, AppendOne;
    var n := |members|;
    if n > 0 {
      HandledShape(x, w, members[..n - 1]);
    }
  }

  ghost predicate SameMembers(a: seq<Membership>, b: seq<Membership>) {
    |a| == |b| && forall i :: 0 <= i < |a| ==> a[i].caseId == b[i].caseId
  }

  lemma {:induction false} HandleSplit(x: Order, w: World, a: seq<nat>, b: seq<nat>)
    ensures HandleAll(x, w, a + b) == HandleAll(x, HandleAll(x, w, a), b)
    decreases |b|
  {
    hide HandleOne;
    if b == [] {
      assert a + b == a;
    } else {
      HandleSplit(x, w, a, b[..|b| - 1]);
      assert (a + b)[..|a + b| - 1] == a + b[..|b| - 1];
    }
  }

  /** Every member is either resolved or passed over. */
  lemma {:induction false} AppliedAndSkipped(w: World, members: seq<nat>)
    requires InRange(w.memberships, members)
    ensures AppliedOf(w, members) + |SkippedOf(w, members)| == |members|
    decreases |members|
  {
    if members != [] {
      AppliedAndSkipped(w, members[..|members| - 1]);
    }
  }

  lemma {:induction false} CountsSplit(w: World, a: seq<nat>, b: seq<nat>)
    ensures AppliedOf(w, a + b) == AppliedOf(w, a) + AppliedOf(w, b)
    ensures SkippedOf(w, a + b) == SkippedOf(w, a) + SkippedOf(w, b)
    decreases |b|
  {
    hide Applicable;
    if b == [] {
      assert a + b == a;
    } else {
      CountsSplit(w, a, b[..|b| - 1]);
      assert (a + b)[..|a + b| - 1] == a + b[..|b| - 1];
    }
  }

  /** What a later batch finds of its own members is what the start found. */
  lemma {:induction false} CountsAfter(x: Order, w: World, done: seq<nat>, b: seq<nat>)
    requires WorldOk(w) && InRange(w.memberships, done) && InRange(w.memberships, b)
    requires forall k :: 0 <= k < |b| ==> b[k] !in done
    ensures var after := HandleAll(x, w, done);
            AppliedOf(after, b) == AppliedOf(w, b) && SkippedOf(after, b) == SkippedOf(w, b)
    decreases |b|
  {
    hide HandleAll;
    if b != [] {
      CountsAfter(x, w, done, b[..|b| - 1]);
      HandledApart(x, w, done, b[|b| - 1]);
      var after := HandleAll(x, w, done);
      assert after.memberships[b[|b| - 1]].caseId == w.memberships[b[|b| - 1]].caseId;
    }
  }

  // -- a batch: what is written at its end -----------------------------------

  /** A case as a batch first writes it: no SLA event and no audit record yet. */
  function Settle(x: Order, d: Dispute): Dispute {
    d.(finding := Some(Finding(x.outcome, x.notes, x.refund, x.now)), status := Resolved,
       clock := if d.clock.state == Stopped then d.clock else d.clock.(state := Stopped, stoppedAt := Some(x.now)))
  }

  // What the end of the batch has still to write about a case.
  datatype Booking = Booking(caseId: string, from: Status, stopped: bool)

  function Book(x: Order, d: Dispute, b: Booking): Dispute {
    d.(clock := if b.stopped then d.clock.(events := d.clock.events + [Event(EvStopped, x.now, "", 0)]) else d.clock,
       trail := d.trail + [Note("resolve", b.from, Resolved, x.notes, 0, Doer(x), x.now)])
  }

  function BookAll(x: Order, cases: map<string, Dispute>, bookings: seq<Booking>): map<string, Dispute> {
    var n := |bookings|;
    if n == 0 then cases
    else
      var before, b := BookAll(x, cases, bookings[..n - 1]), bookings[n - 1];
      if b.caseId in before then before[b.caseId := Book(x, before[b.caseId], b)] else before
  }

  ghost predicate NotBooked(bookings: seq<Booking>, caseId: string) {
    forall k :: 0 <= k < |bookings| ==> bookings[k].caseId != caseId
  }

  lemma {:induction false} BookedApart(x: Order, cases: map<string, Dispute>, bookings: seq<Booking>, id: string,
          d: Dispute)
    requires NotBooked(bookings, id)
    ensures BookAll(x, cases[id := d], bookings) == BookAll(x, cases, bookings)[id := d]
    ensures BookAll(x, cases, bookings).Keys == cases.Keys
    ensures id in cases ==> BookAll(x, cases, bookings)[id] == cases[id]
    decreases |bookings|
  {
    hide Book;
    var n := |bookings|;
    if n > 0 {
      BookedApart(x, cases, bookings[..n - 1], id, d);
      assert bookings[n - 1].caseId != id;
    }
  }

  /** Settling now and booking at the end of the batch is resolving at once. */
  lemma SettledThenBooked(x: Order, cases: map<string, Dispute>, bookings: seq<Booking>, id: string)
    requires NotBooked(bookings, id) && id in cases && cases[id].status in APPLICABLE_FROM
    ensures var d := cases[id];
            (BookAll(x, cases[id := Settle(x, d)], bookings + [Booking(id, d.status, d.clock.state != Stopped)])
             == BookAll(x, cases, bookings)[id := MassResolve(d, x.outcome, x.notes, x.refund, Doer(x), x.now)])
  {
    var d := cases[id];
    var more := bookings + [Booking(id, d.status, d.clock.state != Stopped)];
    BookedApart(x, cases, bookings, id, Settle(x, d));
    assert more[..|bookings|] == bookings;
    assert Book(x, Settle(x, d), more[|bookings|]) == MassResolve(d, x.outcome, x.notes, x.refund, Doer(x), x.now);
    hide Book, Settle, MassResolve, BookAll;
    assert BookAll(x, cases[id := Settle(x, d)], more)
        == BookAll(x, cases, bookings)[id := Settle(x, d)][id := Book(x, Settle(x, d), more[|bookings|])] by {
      BookLast(x, cases[id := Settle(x, d)], more);
    }
  }

  lemma BookLast(x: Order, cases: map<string, Dispute>, bookings: seq<Booking>)
    requires bookings != []
    ensures var n := |bookings|;
            var before, b := BookAll(x, cases, bookings[..n - 1]), bookings[n - 1];
            (BookAll(x, cases, bookings)
             == if b.caseId in before then before[b.caseId := Book(x, before[b.caseId], b)] else before)
  {
  }

  // -- the batches -----------------------------------------------------------

  datatype MassError = UnknownOutcome | NotesMissing | AppendRefused(why: AuditError)

  datatype FanOut = FanOut(applied: nat, skipped: seq<string>)

  // What a batch has so far, none of it committed.
  datatype Progress = Progress(memberships: seq<Membership>, cases: map<string, Dispute>, entries: seq<Entry>,
                               ids: seq<string>, bookings: seq<Booking>)

  /** One entry, one identifier and one booking for each case resolved so far. */
  ghost predicate Owes(x: Order, w: World, p: Progress, handled: seq<nat>) {
    && |p.ids| == |p.entries|
    && (forall k :: 0 <= k < |p.ids| ==> p.ids[k] == x.ids(|w.log| + k))
    && (forall k :: 0 <= k < |p.entries| ==> p.entries[k].actor == Doer(x))
    && (forall i :: 0 <= i < |w.memberships| && i !in handled ==> NotBooked(p.bookings, w.memberships[i].caseId))
    && (p.entries == [] <==> AppliedOf(w, handled) == 0)
  }

  /** What a batch has so far, if it committed now, is its members handled one by one. */
  ghost predicate Tracks(x: Order, w: World, p: Progress, handled: seq<nat>) {
    && Owes(x, w, p, handled)
    && HandleAll(x, w, handled) == World(p.memberships, BookAll(x, p.cases, p.bookings),
                                         AppendEach(x.h, x.tenantId, w.log, p.entries, p.ids, x.nowText))
  }

  function Skip(x: Order, p: Progress, i: nat): Progress {
    p.(memberships := Mark(p.memberships, i, x.now))
  }

  function Take(x: Order, records: nat, p: Progress, i: nat, id: string): Progress
    requires id in p.cases
  {
    var d := p.cases[id];
    Progress(Mark(p.memberships, i, x.now), p.cases[id := Settle(x, d)], p.entries + [EntryFor(x, id, d.status)],
             p.ids + [x.ids(records + |p.ids|)], p.bookings + [Booking(id, d.status, d.clock.state != Stopped)])
  }

  lemma TracksStart(x: Order, w: World)
    ensures Tracks(x, w, Progress(w.memberships, w.cases, [], [], []), [])
    ensures AppliedOf(w, []) == 0 && SkippedOf(w, []) == []
  {
  }

  /** The member's case, as the batch sees it. */
  lemma SeenByBatch(x: Order, w: World, p: Progress, handled: seq<nat>, i: nat)
    requires WorldOk(w) && InRange(w.memberships, handled) && Tracks(x, w, p, handled)
    requires i < |w.memberships| && i !in handled
    ensures i < |p.memberships| && p.memberships[i].caseId == w.memberships[i].caseId && w.memberships[i].caseId in p.cases
    ensures p.cases[w.memberships[i].caseId] == w.cases[w.memberships[i].caseId]
    ensures w.memberships[i].caseId in HandleAll(x, w, handled).cases
    ensures HandleAll(x, w, handled).cases[w.memberships[i].caseId] == w.cases[w.memberships[i].caseId]
    ensures Applicable(HandleAll(x, w, handled), i) <==> Applicable(w, i)
  {
    HandledApart(x, w, handled, i);
    var id := w.memberships[i].caseId;
    hide HandleAll, AppendEach, AppliedOf, BookAll;
    assert NotBooked(p.bookings, id);
    BookedApart(x, p.cases, p.bookings, id, w.cases[id]);
  }

  lemma SkipTracks(x: Order, w: World, p: Progress, handled: seq<nat>, i: nat)
    requires WorldOk(w) && InRange(w.memberships, handled) && Tracks(x, w, p, handled)
    requires i < |w.memberships| && i !in handled && !Applicable(w, i)
    ensures Tracks(x, w, Skip(x, p, i), handled + [i])
    ensures SkippedOf(w, handled + [i]) == SkippedOf(w, handled) + [w.memberships[i].caseId]
    ensures AppliedOf(w, handled + [i]) == AppliedOf(w, handled)
  {
    SeenByBatch(x, w, p, handled, i);
    HandleLast(x, w, handled, i);
    TakeCounts(w, handled, i);
    hide HandleAll, AppendEach, BookAll, AppliedOf, SkippedOf, WorldOk, InRange, NotBooked;
  }

  lemma TakeTracks(x: Order, w: World, p: Progress, handled: seq<nat>, i: nat)
    requires WorldOk(w) && InRange(w.memberships, handled) && Tracks(x, w, p, handled)
    requires i < |w.memberships| && i !in handled && Applicable(w, i)
    ensures w.memberships[i].caseId in p.cases
    ensures Tracks(x, w, Take(x, |w.log|, p, i, w.memberships[i].caseId), handled + [i])
    ensures SkippedOf(w, handled + [i]) == SkippedOf(w, handled)
    ensures AppliedOf(w, handled + [i]) == AppliedOf(w, handled) + 1
  {
    SeenByBatch(x, w, p, handled, i);
    TakeHandles(x, w, p, handled, i);
    TakeCounts(w, handled, i);
    hide HandleAll, AppendEach, BookAll, Applicable, WorldOk, InRange, AppliedOf, Owes, Take;
    TakeOwes(x, w, p, handled, i);
  }

  lemma TakeCounts(w: World, handled: seq<nat>, i: nat)
    ensures SkippedOf(w, handled + [i])
         == SkippedOf(w, handled) + (if Applicable(w, i) || i >= |w.memberships| then [] else [w.memberships[i].caseId])
    ensures AppliedOf(w, handled + [i]) == AppliedOf(w, handled) + (if Applicable(w, i) then 1 else 0)
  {
    hide Applicable;
    assert (handled + [i])[..|handled|] == handled;
  }

  lemma TakeOwes(x: Order, w: World, p: Progress, handled: seq<nat>, i: nat)
    requires WorldOk(w) && Owes(x, w, p, handled)
    requires i < |w.memberships| && i !in handled && Applicable(w, i) && w.memberships[i].caseId in p.cases
    ensures Owes(x, w, Take(x, |w.log|, p, i, w.memberships[i].caseId), handled + [i])
  {
    TakeCounts(w, handled, i);
    var q := Take(x, |w.log|, p, i, w.memberships[i].caseId);
    EntryActor(x, w.memberships[i].caseId, p.cases[w.memberships[i].caseId].status);
    hide Applicable, WorldOk, Settle, EntryFor, AppliedOf, Doer;
    forall j | 0 <= j < |w.memberships| && j !in handled + [i] ensures NotBooked(q.bookings, w.memberships[j].caseId) {
      assert j !in handled && j != i;
      assert NotBooked(p.bookings, w.memberships[j].caseId);
      OtherCase(w, i, j);
    }
  }

  lemma EntryActor(x: Order, caseId: string, from: Status)
    ensures EntryFor(x, caseId, from).actor == Doer(x)
  {
  }

  lemma OtherCase(w: World, i: nat, j: nat)
    requires WorldOk(w) && i < |w.memberships| && j < |w.memberships| && i != j
    ensures w.memberships[i].caseId != w.memberships[j].caseId
  {
  }

  lemma TakeHandles(x: Order, w: World, p: Progress, handled: seq<nat>, i: nat)
    requires WorldOk(w) && InRange(w.memberships, handled) && Tracks(x, w, p, handled)
    requires i < |w.memberships| && i !in handled && Applicable(w, i) && w.memberships[i].caseId in p.cases
    ensures var q := Take(x, |w.log|, p, i, w.memberships[i].caseId);
            (HandleAll(x, w, handled + [i]) == World(q.memberships, BookAll(x, q.cases, q.bookings),
                                                     AppendEach(x.h, x.tenantId, w.log, q.entries, q.ids, x.nowText)))
  {
    SeenByBatch(x, w, p, handled, i);
    HandleLast(x, w, handled, i);
    assert |p.ids| == |p.entries| && NotBooked(p.bookings, w.memberships[i].caseId);
    assert HandleAll(x, w, handled)
        == World(p.memberships, BookAll(x, p.cases, p.bookings), AppendEach(x.h, x.tenantId, w.log, p.entries, p.ids, x.nowText));
    hide *;
    TakeFits(x, w.log, HandleAll(x, w, handled), p, i, w.memberships[i].caseId);
  }

  lemma TakeIs(x: Order, records: nat, p: Progress, i: nat, id: string)
    requires id in p.cases
    ensures var d := p.cases[id];
            (Take(x, records, p, i, id)
             == Progress(Mark(p.memberships, i, x.now), p.cases[id := Settle(x, d)], p.entries + [EntryFor(x, id, d.status)],
                         p.ids + [x.ids(records + |p.ids|)], p.bookings + [Booking(id, d.status, d.clock.state != Stopped)]))
  {
    hide Mark, Settle, EntryFor;
  }

  lemma TakeFits(x: Order, log: seq<Record>, was: World, p: Progress, i: nat, id: string)
    requires id in p.cases && |p.ids| == |p.entries| && NotBooked(p.bookings, id)
    requires was == World(p.memberships, BookAll(x, p.cases, p.bookings),
                          AppendEach(x.h, x.tenantId, log, p.entries, p.ids, x.nowText))
    requires Applicable(was, i) && i < |was.memberships| && was.memberships[i].caseId == id
    requires id in was.cases && was.cases[id] == p.cases[id]
    ensures var q := Take(x, |log|, p, i, id);
            (HandleOne(x, was, i) == World(q.memberships, BookAll(x, q.cases, q.bookings),
                                           AppendEach(x.h, x.tenantId, log, q.entries, q.ids, x.nowText)))
  {
    assert p.cases[id].status in APPLICABLE_FROM;
    hide *;
    TakeOne(x, was, i);
    TakeIs(x, |log|, p, i, id);
    TakeCases(x, log, p, i, id);
    TakeLog(x, log, p, i, id);
  }

  lemma TakeCases(x: Order, log: seq<Record>, p: Progress, i: nat, id: string)
    requires id in p.cases && NotBooked(p.bookings, id) && p.cases[id].status in APPLICABLE_FROM
    ensures var q, d := Take(x, |log|, p, i, id), p.cases[id];
            BookAll(x, q.cases, q.bookings)
            == BookAll(x, p.cases, p.bookings)[id := MassResolve(d, x.outcome, x.notes, x.refund, Doer(x), x.now)]
  {
    hide *;
    TakeIs(x, |log|, p, i, id);
    SettledThenBooked(x, p.cases, p.bookings, id);
  }

  lemma TakeLog(x: Order, log: seq<Record>, p: Progress, i: nat, id: string)
    requires id in p.cases && |p.ids| == |p.entries|
    ensures var q, was := Take(x, |log|, p, i, id), AppendEach(x.h, x.tenantId, log, p.entries, p.ids, x.nowText);
            (|q.ids| == |q.entries|
             && AppendEach(x.h, x.tenantId, log, q.entries, q.ids, x.nowText)
                == AppendOne(x.h, x.tenantId, was, EntryFor(x, id, p.cases[id].status), x.ids(|was|), x.nowText))
  {
    hide *;
    TakeIs(x, |log|, p, i, id);
    var e := EntryFor(x, id, p.cases[id].status);
    AppendEachLast(x.h, x.tenantId, log, p.entries, p.ids, e, x.ids(|log| + |p.ids|), x.nowText);
    AppendEachLength(x.h, x.tenantId, log, p.entries, p.ids, x.nowText);
  }

  lemma TakeOne(x: Order, w: World, i: nat)
    requires Applicable(w, i)
    ensures var id := w.memberships[i].caseId;
            var d := w.cases[id];
            (HandleOne(x, w, i)
             == World(Mark(w.memberships, i, x.now), w.cases[id := MassResolve(d, x.outcome, x.notes, x.refund, Doer(x), x.now)],
                      AppendOne(x.h, x.tenantId, w.log, EntryFor(x, id, d.status), x.ids(|w.log|), x.nowText)))
  {
    hide AppendOne, EntryFor, MassResolve;
  }

  lemma HandleLast(x: Order, w: World, handled: seq<nat>, i: nat)
    ensures HandleAll(x, w, handled + [i]) == HandleOne(x, HandleAll(x, w, handled), i)
  {
    hide HandleOne;
    assert (handled + [i])[..|handled|] == handled;
  }

  lemma AppendEachLast(h: Chain.Hasher, t: string, rs: seq<Record>, entries: seq<Entry>, ids: seq<string>, e: Entry,
          id: string, now: string)
    requires |entries| == |ids|
    ensures AppendEach(h, t, rs, entries + [e], ids + [id], now)
         == AppendOne(h, t, AppendEach(h, t, rs, entries, ids, now), e, id, now)
  {
    hide AppendOne;
    assert (entries + [e])[..|entries|] == entries && (ids + [id])[..|ids|] == ids;
  }

  lemma {:induction false} AppendEachLength(h: Chain.Hasher, t: string, rs: seq<Record>, entries: seq<Entry>,
          ids: seq<string>, now: string)
    requires |entries| == |ids|
    ensures |AppendEach(h, t, rs, entries, ids, now)| == |rs| + |entries|
    decreases |entries|
  {
    hide NextLink;
    if entries != [] {
      AppendEachLength(h, t, rs, entries[..|entries| - 1], ids[..|ids| - 1], now);
    }
  }

  /** One event, its member cases and the tenant's audit trail. */
  class MassEvent {
    const eventId: string
    const title: string
    const trail: AuditTrail
    var memberships: seq<Membership>
    var cases: map<string, Dispute>
    var appliedAt: Option<int>
    var appliedBy: string
    var finding: string

    constructor (eventId: string, title: string, trail: AuditTrail, memberships: seq<Membership>, cases: map<string, Dispute>)
      ensures this.eventId == eventId && this.title == title && this.trail == trail
      ensures this.memberships == memberships && this.cases == cases && appliedAt == None && appliedBy == "" && finding == ""
    {
      this.eventId, this.title, this.trail := eventId, title, trail;
      this.memberships, this.cases := memberships, cases;
      appliedAt, appliedBy, finding := None, "", "";
    }

    function Now(): World
      reads this, trail
    {
      World(memberships, cases, trail.records)
    }

    /** Write the events and records a batch still owes its cases. */
    method WriteBookings(x: Order, settled: map<string, Dispute>, bookings: seq<Booking>)
      returns (r: map<string, Dispute>)
      ensures r == BookAll(x, settled, bookings)
    {
      r := settled;
      for k := 0 to |bookings|
        invariant r == BookAll(x, settled, bookings[..k])
      {
        assert bookings[..k + 1][..k] == bookings[..k];
        var b := bookings[k];
        if b.caseId in r {
          r := r[b.caseId := Book(x, r[b.caseId], b)];
        }
      }
      assert bookings[..|bookings|] == bookings;
    }

    /** One transaction over a batch of pending members. */
    method ApplyBatch(x: Order, batch: seq<nat>) returns (r: Result<FanOut, MassError>)
      requires WorldOk(Now()) && InRange(memberships, batch) && AscendingIndices(batch) && x.tenantId == trail.tenantId
      modifies this, trail
      ensures appliedAt == old(appliedAt) && appliedBy == old(appliedBy) && finding == old(finding)
      ensures r.Err? <==> AppliedOf(old(Now()), batch) > 0 && OrderRefused(x).Some?
      ensures r.Err? ==> r.error == AppendRefused(OrderRefused(x).value) && Now() == old(Now())
      ensures r.Ok? ==> Now() == HandleAll(x, old(Now()), batch)
                        && r.value == FanOut(AppliedOf(old(Now()), batch), SkippedOf(old(Now()), batch))
    {
      hide Tracks, HandleAll, AppliedOf, SkippedOf, Skip, Take, WorldOk, BookAll, AppendEach, Genuine, AscendingIndices, OrderRefused;
      ghost var w := Now();
      var p := Progress(memberships, cases, [], [], []);
      var applied, skipped := 0, [];
      TracksStart(x, w);
      assert batch[..0] == [];
      for j := 0 to |batch|
        invariant Now() == w && appliedAt == old(appliedAt) && appliedBy == old(appliedBy) && finding == old(finding)
        invariant Tracks(x, w, p, batch[..j])
        invariant applied == AppliedOf(w, batch[..j]) && skipped == SkippedOf(w, batch[..j])
      {
        var i := batch[j];
        BatchNext(x, w, p, batch, j);
        var id := p.memberships[i].caseId;
        if p.cases[id].status !in APPLICABLE_FROM {
          skipped := skipped + [id];
          p := Skip(x, p, i);
        } else {
          p := Take(x, |trail.records|, p, i, id);
          applied := applied + 1;
        }
      }
      assert batch[..|batch|] == batch;
      BatchDone(x, w, p, batch);
      hide BatchRefused;
      var written := WriteBookings(x, p.cases, p.bookings);
      var refused := trail.AppendBatch(x.h, p.entries, p.ids, x.nowText, x.active);
      if refused.Err? {
        return Err(AppendRefused(refused.error));
      }
      memberships, cases := p.memberships, written;
      return Ok(FanOut(applied, skipped));
    }

    /** The batches, until none of the pending members is left. */
    method RunBatches(x: Order, batchSize: nat) returns (r: Result<FanOut, MassError>)
      requires WorldOk(Now()) && x.tenantId == trail.tenantId
      modifies this, trail
      ensures batchSize == 0 ==> r == Ok(FanOut(0, [])) && Now() == old(Now())
      ensures batchSize >= 1 ==> RunEnds(x, old(Now()), Now(), r)
      ensures appliedAt == old(appliedAt) && appliedBy == old(appliedBy) && finding == old(finding)
    {
      hide HandleAll, AppliedOf, SkippedOf, WorldOk, PendingUpTo, Reached, OrderRefused, InRange, AscendingIndices;
      ghost var w, n := Now(), 0;
      ghost var members := Pending(w.memberships);
      var applied, skipped := 0, [];
      ReachedStart(x, w);
      NothingYet(w, members);
      while true
        invariant Reached(x, w, Now(), n) && n <= |members|
        invariant applied == AppliedOf(w, members[..n]) && skipped == SkippedOf(w, members[..n])
        invariant OrderRefused(x).Some? ==> applied == 0
        invariant batchSize == 0 ==> n == 0
        invariant appliedAt == old(appliedAt) && appliedBy == old(appliedBy) && finding == old(finding)
        decreases |members| - n
      {
        var pending := Pending(memberships);
        var batch := if |pending| <= batchSize then pending else pending[..batchSize];
        ReachedLeft(x, w, Now(), n);
        if batch == [] {
          break;
        }
        NextBatch(x, w, Now(), n, |batch|);
        NextCounts(x, w, Now(), n, |batch|);
        assert batch == pending[..|batch|];
        var handled := ApplyBatch(x, batch);
        if handled.Err? {
          UnresolvedSoFar(x, w, Now(), n, |batch|);
          return Err(handled.error);
        }
        n := n + |batch|;
        applied, skipped := applied + handled.value.applied, skipped + handled.value.skipped;
        if handled.value.applied == 0 && handled.value.skipped == [] {
          break;
        }
      }
      ReachedEnd(x, w, Now(), n, FanOut(applied, skipped));
      return Ok(FanOut(applied, skipped));
    }

    /** Apply one finding to every pending member, a batch at a time. */
    method ApplyOutcome(x: Order, batchSize: nat) returns (r: Result<FanOut, MassError>)
      requires WorldOk(Now()) && x.tenantId == trail.tenantId && x.eventId == eventId && x.title == title
      modifies this, trail
      ensures x.outcome !in OUTCOMES ==> r == Err(MassError.UnknownOutcome)
      ensures x.outcome in OUTCOMES && Blank(x.notes) ==> r == Err(NotesMissing)
      ensures x.outcome !in OUTCOMES || Blank(x.notes) || batchSize == 0 ==> Now() == old(Now())
      ensures x.outcome in OUTCOMES && !Blank(x.notes) && batchSize == 0 ==> r == Ok(FanOut(0, []))
      ensures x.outcome in OUTCOMES && !Blank(x.notes) && batchSize >= 1 ==> RunEnds(x, old(Now()), Now(), r)
      ensures if r.Ok? && r.value.applied > 0 then appliedAt == Some(x.now) && appliedBy == x.actorId && finding == x.notes
              else appliedAt == old(appliedAt) && appliedBy == old(appliedBy) && finding == old(finding)
    {
      if x.outcome !in OUTCOMES {
        return Err(MassError.UnknownOutcome);
      }
      if Blank(x.notes) {
        return Err(NotesMissing);
      }
      r := RunBatches(x, batchSize);
      if r.Ok? && r.value.applied > 0 {
        finding, appliedAt, appliedBy := x.notes, Some(x.now), x.actorId;
      }
    }
  }

  /** The first `n` pending members were handled, and none of them was resolved. */
  ghost predicate HandledUnresolved(x: Order, w: World, now: World, n: nat) {
    && n <= |Pending(w.memberships)|
    && now == HandleAll(x, w, Pending(w.memberships)[..n])
    && AppliedOf(w, Pending(w.memberships)[..n]) == 0
    && now.cases == w.cases && now.log == w.log
  }

  lemma {:induction false} UnresolvedLeaves(x: Order, w: World, members: seq<nat>)
    requires AppliedOf(w, members) == 0
    ensures HandleAll(x, w, members).cases == w.cases && HandleAll(x, w, members).log == w.log
    ensures SameMembers(w.memberships, HandleAll(x, w, members).memberships)
    decreases |members|
  {
    hide AppendOne, MassResolve;
    if members != [] {
      UnresolvedLeaves(x, w, members[..|members| - 1]);
    }
  }

  lemma UnresolvedSoFar(x: Order, w: World, now: World, n: nat, k: nat)
    requires WorldOk(w) && Reached(x, w, now, n) && AppliedOf(w, Pending(w.memberships)[..n]) == 0
    requires n + k <= |Pending(w.memberships)| && AppliedOf(w, Pending(w.memberships)[..n + k]) > 0
    ensures HandledUnresolved(x, w, now, n) && AppliedOf(w, Pending(w.memberships)) > 0
  {
    var p := Pending(w.memberships);
    hide HandleAll, AppliedOf, SkippedOf, PendingUpTo, WorldOk;
    UnresolvedLeaves(x, w, p[..n]);
    CountsSplit(w, p[..n + k], p[n + k..]);
    assert p == p[..n + k] + p[n + k..];
  }

  /** Every pending member has been handled once, as if one by one, and is accounted for. */
  ghost predicate AllHandled(x: Order, w: World, now: World, r: FanOut) {
    var members := Pending(w.memberships);
    && now == HandleAll(x, w, members)
    && r == FanOut(AppliedOf(w, members), SkippedOf(w, members))
    && r.applied + |r.skipped| == |members|
    && Pending(now.memberships) == []
  }

  /** How a fan-out ends: everything handled; or, when some record would be refused, with
      only skipped members marked and nothing else written. */
  ghost predicate RunEnds(x: Order, w: World, now: World, r: Result<FanOut, MassError>) {
    if OrderRefused(x).None? || AppliedOf(w, Pending(w.memberships)) == 0 then r.Ok? && AllHandled(x, w, now, r.value)
    else r == Err(AppendRefused(OrderRefused(x).value)) && exists n :: HandledUnresolved(x, w, now, n)
  }

  lemma NothingYet(w: World, members: seq<nat>)
    ensures AppliedOf(w, members[..0]) == 0 && SkippedOf(w, members[..0]) == []
  {
  }

  lemma ReachedEnd(x: Order, w: World, now: World, n: nat, r: FanOut)
    requires WorldOk(w) && Reached(x, w, now, n)
    requires r == FanOut(AppliedOf(w, Pending(w.memberships)[..n]), SkippedOf(w, Pending(w.memberships)[..n]))
    ensures n == 0 ==> now == w && r.applied == 0
    ensures Pending(now.memberships) == [] ==> AllHandled(x, w, now, r)
  {
    hide Pending, WorldOk, HandleAll, AppliedOf, SkippedOf, InRange;
    var p := Pending(w.memberships);
    PendingInRange(w.memberships);
    AppliedAndSkipped(w, p);
    assert p[..|p|] == p && p[..0] == [];
    ReachedStart(x, w);
    NothingYet(w, p);
  }

  lemma PendingInRange(ms: seq<Membership>)
    ensures InRange(ms, Pending(ms))
  {
    PendingAre(ms, |ms|);
    hide PendingUpTo, AscendingIndices;
  }

  lemma ReachedLeft(x: Order, w: World, now: World, n: nat)
    requires Reached(x, w, now, n)
    ensures Pending(now.memberships) == Pending(w.memberships)[n..] && WorldOk(now)
  {
    hide HandleAll, PendingUpTo, WorldOk;
  }

  /** Where the fan-out is once the first `n` pending members are handled. */
  ghost predicate Reached(x: Order, w: World, now: World, n: nat) {
    && n <= |Pending(w.memberships)|
    && now == HandleAll(x, w, Pending(w.memberships)[..n])
    && WorldOk(now)
    && Pending(now.memberships) == Pending(w.memberships)[n..]
  }

  lemma ReachedStart(x: Order, w: World)
    requires WorldOk(w)
    ensures Reached(x, w, w, 0)
  {
    assert Pending(w.memberships)[..0] == [] && Pending(w.memberships)[0..] == Pending(w.memberships);
  }

  lemma ReachedAll(x: Order, w: World, n: nat)
    requires WorldOk(w) && n <= |Pending(w.memberships)|
    ensures Reached(x, w, HandleAll(x, w, Pending(w.memberships)[..n]), n)
  {
    var p := Pending(w.memberships);
    PendingAre(w.memberships, |w.memberships|);
    assert InRange(w.memberships, p[..n]);
    HandledShape(x, w, p[..n]);
    hide HandleAll, WorldOk, PendingUpTo;
    PendingAfter(w.memberships, n, x.now);
  }

  /** The next batch of pending members, and where handling it leads. */
  lemma NextBatch(x: Order, w: World, now: World, n: nat, k: nat)
    requires WorldOk(w) && Reached(x, w, now, n) && k <= |Pending(now.memberships)|
    ensures var batch := Pending(now.memberships)[..k];
            InRange(now.memberships, batch) && AscendingIndices(batch) && Reached(x, w, HandleAll(x, now, batch), n + k)
  {
    var p, batch := Pending(w.memberships), Pending(now.memberships)[..k];
    BatchRange(now.memberships, k);
    assert p[..n + k] == p[..n] + batch;
    HandleSplit(x, w, p[..n], batch);
    ReachedAll(x, w, n + k);
    hide *;
  }

  /** What handling the next batch adds to the counts. */
  lemma NextCounts(x: Order, w: World, now: World, n: nat, k: nat)
    requires WorldOk(w) && Reached(x, w, now, n) && k <= |Pending(now.memberships)|
    ensures var p, batch := Pending(w.memberships), Pending(now.memberships)[..k];
            && AppliedOf(w, p[..n + k]) == AppliedOf(w, p[..n]) + AppliedOf(now, batch)
            && SkippedOf(w, p[..n + k]) == SkippedOf(w, p[..n]) + SkippedOf(now, batch)
            && AppliedOf(now, batch) + |SkippedOf(now, batch)| == k
  {
    var p, batch := Pending(w.memberships), Pending(now.memberships)[..k];
    BatchRange(now.memberships, k);
    BatchRange(w.memberships, n);
    assert p[..n + k] == p[..n] + batch;
    assert batch == p[n..][..k];
    BatchElsewhere(w.memberships, p, n, k);
    assert now == HandleAll(x, w, p[..n]);
    hide *;
    CountsSplit(w, p[..n], batch);
    CountsAfter(x, w, p[..n], batch);
    AppliedAndSkipped(now, batch);
  }

  lemma BatchRange(ms: seq<Membership>, k: nat)
    requires k <= |Pending(ms)|
    ensures InRange(ms, Pending(ms)[..k]) && AscendingIndices(Pending(ms)[..k])
  {
    PendingAre(ms, |ms|);
    hide PendingUpTo;
  }

  lemma BatchElsewhere(ms: seq<Membership>, p: seq<nat>, n: nat, k: nat)
    requires p == Pending(ms) && n + k <= |p|
    ensures InRange(ms, p[n..][..k])
    ensures forall i :: 0 <= i < k ==> p[n..][..k][i] !in p[..n]
  {
    PendingAre(ms, |ms|);
    hide PendingUpTo, Waiting;
    forall i | 0 <= i < k ensures p[n..][..k][i] !in p[..n] {
      assert p[n..][..k][i] == p[n + i];
    }
  }

  lemma BatchDone(x: Order, w: World, p: Progress, batch: seq<nat>)
    requires Tracks(x, w, p, batch)
    ensures |p.ids| == |p.entries|
    ensures BatchRefused(p.entries, x.active, x.tenantId) == if AppliedOf(w, batch) == 0 then None else OrderRefused(x)
    ensures HandleAll(x, w, batch) == World(p.memberships, BookAll(x, p.cases, p.bookings),
                                            AppendEach(x.h, x.tenantId, w.log, p.entries, p.ids, x.nowText))
  {
    BatchActors(x, p.entries);
    hide AppliedOf, HandleAll, BookAll, AppendEach, NotBooked, OrderRefused, BatchRefused;
  }

  lemma BatchActors(x: Order, entries: seq<Entry>)
    requires forall k :: 0 <= k < |entries| ==> entries[k].actor == Doer(x)
    ensures BatchRefused(entries, x.active, x.tenantId) == if entries == [] then None else OrderRefused(x)
  {
    if entries != [] {
      assert entries[0].actor == Doer(x);
    }
  }

  lemma BatchNext(x: Order, w: World, p: Progress, batch: seq<nat>, j: nat)
    requires WorldOk(w) && InRange(w.memberships, batch) && AscendingIndices(batch) && j < |batch|
    requires Tracks(x, w, p, batch[..j])
    ensures var i := batch[j];
            && i < |p.memberships| && p.memberships[i].caseId in p.cases
            && (Applicable(w, i) <==> p.cases[p.memberships[i].caseId].status in APPLICABLE_FROM)
            && (Applicable(w, i) ==> Tracks(x, w, Take(x, |w.log|, p, i, p.memberships[i].caseId), batch[..j + 1])
                                     && AppliedOf(w, batch[..j + 1]) == AppliedOf(w, batch[..j]) + 1
                                     && SkippedOf(w, batch[..j + 1]) == SkippedOf(w, batch[..j]))
            && (!Applicable(w, i) ==> Tracks(x, w, Skip(x, p, i), batch[..j + 1])
                                      && AppliedOf(w, batch[..j + 1]) == AppliedOf(w, batch[..j])
                                      && SkippedOf(w, batch[..j + 1]) == SkippedOf(w, batch[..j]) + [p.memberships[i].caseId])
  {
    var i := batch[j];
    assert i !in batch[..j];
    assert batch[..j + 1] == batch[..j] + [i];
    assert InRange(w.memberships, batch[..j]);
    SeenByBatch(x, w, p, batch[..j], i);
    hide Tracks, HandleAll, AppliedOf, SkippedOf, Skip, Take, WorldOk;
    if Applicable(w, i) {
      TakeTracks(x, w, p, batch[..j], i);
    } else {
      SkipTracks(x, w, p, batch[..j], i);
    }
  }

  // -- what the reference comes to -------------------------------------------

  function ResolvedCase(x: Order, d: Dispute): Dispute {
    MassResolve(d, x.outcome, x.notes, x.refund, Doer(x), x.now)
  }

  /** A member's case ends up resolved if it could be, and untouched otherwise, whatever
      became of the members before and after it. */
  lemma {:induction false} EachHandledOnce(x: Order, w: World, members: seq<nat>, i: nat)
    requires WorldOk(w) && InRange(w.memberships, members) && AscendingIndices(members) && i in members
    ensures var after := HandleAll(x, w, members);
            && w.memberships[i].caseId in after.cases
            && after.cases[w.memberships[i].caseId] == ResolvedCase(x, w.cases[w.memberships[i].caseId])
            && i < |after.memberships| && after.memberships[i].appliedAt == Some(x.now)
    decreases |members|
  {
    var n := |members|;
    var before, last := members[..n - 1], members[n - 1];
    var was := HandleAll(x, w, before);
    HandledShape(x, w, before);
    if last == i {
      assert i !in before;
      HandledApart(x, w, before, i);
    } else {
      assert i in before by {
        var k :| 0 <= k < n && members[k] == i;
        assert before[k] == i;
      }
      EachHandledOnce(x, w, before, i);
    }
    hide MassResolve, AppendOne, HandleAll, InRange, AscendingIndices;
    HandledOne(x, was, last, i);
  }

  lemma HandledOne(x: Order, w: World, j: nat, i: nat)
    requires WorldOk(w) && i < |w.memberships| && j < |w.memberships|
    ensures var after, id := HandleOne(x, w, j), w.memberships[i].caseId;
            && id in after.cases && |after.memberships| == |w.memberships|
            && after.cases[id] == (if i == j then ResolvedCase(x, w.cases[id]) else w.cases[id])
            && after.memberships[i].appliedAt == (if i == j then Some(x.now) else w.memberships[i].appliedAt)
  {
    hide AppendOne, EntryFor;
  }

  /** One record for each resolved case, and the chain they extend still verifies. */
  lemma {:induction false} HandledLog(x: Order, w: World, members: seq<nat>)
    requires WorldOk(w) && InRange(w.memberships, members) && AscendingIndices(members) && Genuine(x.h, w.log)
    ensures var log := HandleAll(x, w, members).log;
            Genuine(x.h, log) && w.log <= log && |log| == |w.log| + AppliedOf(w, members)
    decreases |members|
  {
    var n := |members|;
    if n > 0 {
      var before, last := members[..n - 1], members[n - 1];
      var was := HandleAll(x, w, before);
      HandledLog(x, w, before);
      assert last !in before;
      HandledApart(x, w, before, last);
      hide MassResolve, Genuine, AppendOne, HandleAll, AppliedOf, EntryFor;
      assert Applicable(was, last) <==> Applicable(w, last);
      HandledLogStep(x, w, was, members);
    }
  }

  lemma HandledLogStep(x: Order, w: World, was: World, members: seq<nat>)
    requires members != [] && was == HandleAll(x, w, members[..|members| - 1]) && Genuine(x.h, was.log) && w.log <= was.log
    requires |was.log| == |w.log| + AppliedOf(w, members[..|members| - 1])
    requires Applicable(was, members[|members| - 1]) <==> Applicable(w, members[|members| - 1])
    ensures var log := HandleAll(x, w, members).log;
            Genuine(x.h, log) && w.log <= log && |log| == |w.log| + AppliedOf(w, members)
  {
    hide Applicable, MassResolve, Genuine, EntryFor, NextLink;
    var i := members[|members| - 1];
    if Applicable(was, i) {
      AppliedId(was, i);
      var id := was.memberships[i].caseId;
      AppendOneGenuine(x.h, x.tenantId, was.log, EntryFor(x, id, was.cases[id].status), x.ids(|was.log|), x.nowText);
    }
  }

  lemma AppliedId(w: World, i: nat)
    requires Applicable(w, i)
    ensures i < |w.memberships| && w.memberships[i].caseId in w.cases
  {
  }

  /** A fan-out keeps what every run of a case keeps, of every case. */
  lemma {:induction false} FanOutKeepsCases(x: Order, w: World, members: seq<nat>, id: string)
    requires WorldOk(w) && InRange(w.memberships, members) && id in w.cases && CaseInv(w.cases[id])
    ensures id in HandleAll(x, w, members).cases && CaseInv(HandleAll(x, w, members).cases[id])
    decreases |members|
  {
    hide CaseInv, AppendOne, EntryFor, WorldOk, InRange;
    var n := |members|;
    if n > 0 {
      FewerInRange(w.memberships, members);
      FanOutKeepsCases(x, w, members[..n - 1], id);
      var was := HandleAll(x, w, members[..n - 1]);
      MassResolveKeeps(was.cases[id], x.outcome, x.notes, x.refund, Doer(x), x.now);
    }
  }

  lemma FewerInRange(ms: seq<Membership>, members: seq<nat>)
    requires InRange(ms, members) && members != []
    ensures InRange(ms, members[..|members| - 1])
  {
  }
}
