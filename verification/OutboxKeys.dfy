/** The outbox as it is stored, each row under the digest of what its delivery is about,
    and why the report protocol may speak of periods and attempts instead. */
module OutboxKeys {
  import opened Prelude
  import opened BusinessCalendar
  import opened Schedules
  import opened ReportRuns
  import Recipients

  // SHA-256 of the key text, cut to its first 32 digits: any function at all.
  type Digest = string -> string

  /** Some order of the addresses; which one does not show in a key's text. */
  ghost function InSomeOrder(addresses: multiset<string>): (r: seq<string>)
    ensures multiset(r) == addresses
  {
    if addresses == multiset{} then []
    else
      var a :| a in addresses;
      assert addresses == multiset{a} + (addresses - multiset{a});
      [a] + InSomeOrder(addresses - multiset{a})
  }

  /** The text whose digest the row of this period and attempt is stored under. */
  ghost function TextOf(k: Key): string {
    Recipients.Material(k.period.from, k.period.to, InSomeOrder(k.period.addresses), k.attempt)
  }

  /** It is the same text whatever order the addresses were given in. */
  lemma TextOfAnyOrder(from: string, to: string, addresses: seq<string>, attempt: nat)
    ensures TextOf(Key(Period(from, to, multiset(addresses)), attempt)) == Recipients.Material(from, to, addresses, attempt)
  {
    var other := InSomeOrder(multiset(addresses));
    Recipients.SortedOrders(addresses);
    Recipients.SortedOrders(other);
    Recipients.OrderedDetermined(Recipients.Sorted(addresses), Recipients.Sorted(other));
  }

  ghost function IdOf(digest: Digest, k: Key): string {
    digest(TextOf(k))
  }

  datatype Stored = Stored(rows: map<string, OutRow>, last: Option<Month>, failed: seq<Month>, runner: Runner)

  const EMPTY := Stored(map[], None, [], Resting)

  ghost function GetOrCreateRow(rows: map<string, OutRow>, id: string): map<string, OutRow> {
    if id in rows then rows else rows[id := OutRow(Waiting, 0)]
  }

  ghost function AttemptRows(digest: Digest, rows: map<string, OutRow>, p: Period, n: nat): seq<RowStatus> {
    if n == 0 then []
    else
      AttemptRows(digest, rows, p, n - 1)
      + (if IdOf(digest, Key(p, n - 1)) in rows then [rows[IdOf(digest, Key(p, n - 1))].status] else [])
  }

  /** The protocol's steps, on rows found under their digests. */
  ghost function ApplyStored(plan: Plan, digest: Digest, d: Stored, step: ReportRuns.Step): Stored {
    match step
    case Start(now, owed) =>
      if d.runner == Resting
         && EarliestOwed(Schedule(plan.zone, plan.dayOfMonth, plan.hour, plan.created, d.last, d.failed), now, owed) then
        d.(runner := Walking(owed))
      else d
    case Look =>
      if d.runner.Walking? && d.runner.months != [] && MonthOk(d.runner.months[0]) then
        var p := PeriodOf(plan, d.runner.months[0]);
        d.(runner := Looked(d.runner.months, AttemptRows(digest, d.rows, p, MAX_ATTEMPTS_PER_PERIOD)))
      else if d.runner == Walking([]) then d.(runner := Resting)
      else d
    case Act(deliverable) =>
      if d.runner.Looked? && d.runner.months != [] && MonthOk(d.runner.months[0]) then
        AdvanceStored(plan, digest, d, d.runner.months[0], d.runner.months[1..], d.runner.seen, deliverable)
      else d
    case Crash => d.(runner := Resting)
    case Request(from, to, addresses) =>
      d.(rows := GetOrCreateRow(d.rows, digest(Recipients.Material(from, to, addresses, 0))))
    case Dispatch(key, accepted) =>
      var id := IdOf(digest, key);
      if id in d.rows then d.(rows := d.rows[id := Tried(d.rows[id], accepted)]) else d
  }

  ghost function AdvanceStored(plan: Plan, digest: Digest, d: Stored, month: Month, rest: seq<Month>, seen: seq<RowStatus>,
          deliverable: bool): Stored
    requires MonthOk(month)
  {
    if Sent in seen then d.(last := Some(month), runner := Walking(rest))
    else if Waiting in seen then d.(runner := Walking(rest))
    else if |seen| >= MAX_ATTEMPTS_PER_PERIOD then d.(failed := d.failed + [month], runner := Walking(rest))
    else if !deliverable then d.(runner := Resting)
    else d.(rows := GetOrCreateRow(d.rows, IdOf(digest, Key(PeriodOf(plan, month), |seen|))), runner := Resting)
  }

  ghost function RunStored(plan: Plan, digest: Digest, steps: seq<ReportRuns.Step>): Stored {
    var n := |steps|;
    if n == 0 then EMPTY else ApplyStored(plan, digest, RunStored(plan, digest, steps[..n - 1]), steps[n - 1])
  }

  // -- the keys a run asks for -----------------------------------------------

  ghost function KeysAsked(plan: Plan, s: System, step: ReportRuns.Step): set<Key> {
    match step
    case Look =>
      if s.runner.Walking? && s.runner.months != [] && MonthOk(s.runner.months[0]) then
        var p := PeriodOf(plan, s.runner.months[0]);
        {Key(p, 0), Key(p, 1), Key(p, 2)}
      else {}
    case Act(_) =>
      if s.runner.Looked? && s.runner.months != [] && MonthOk(s.runner.months[0]) then
        {Key(PeriodOf(plan, s.runner.months[0]), |s.runner.seen|)}
      else {}
    case Request(from, to, addresses) => {Key(Period(from, to, multiset(addresses)), 0)}
    case Dispatch(key, _) => {key}
    case _ => {}
  }

  ghost function Asked(plan: Plan, steps: seq<ReportRuns.Step>): set<Key> {
    var n := |steps|;
    if n == 0 then {}
    else Asked(plan, steps[..n - 1]) + KeysAsked(plan, Run(plan, NEW, steps[..n - 1]), steps[n - 1])
  }

  /** Different keys of this set are stored under different digests. */
  ghost predicate Apart(digest: Digest, keys: set<Key>) {
    forall j, k :: j in keys && k in keys && IdOf(digest, j) == IdOf(digest, k) ==> j == k
  }

  /** What is stored is the protocol's state, row by row. */
  ghost predicate Agrees(digest: Digest, d: Stored, s: System) {
    && d.last == s.last && d.failed == s.failed && d.runner == s.runner
    && (forall k :: k in s.outbox ==> IdOf(digest, k) in d.rows && d.rows[IdOf(digest, k)] == s.outbox[k])
    && (forall id :: id in d.rows ==> exists k :: k in s.outbox && IdOf(digest, k) == id)
  }

  /** A key asked for is found in the one exactly when it is in the other. */
  lemma Found(digest: Digest, d: Stored, s: System, keys: set<Key>, k: Key)
    requires Agrees(digest, d, s) && s.outbox.Keys <= keys && k in keys && Apart(digest, keys)
    ensures IdOf(digest, k) in d.rows <==> k in s.outbox
  {
    hide IdOf;
    if IdOf(digest, k) in d.rows {
      var j :| j in s.outbox && IdOf(digest, j) == IdOf(digest, k);
      assert j in keys;
    }
  }

  lemma PutKeeps(digest: Digest, d: Stored, s: System, keys: set<Key>, k: Key, row: OutRow)
    requires Agrees(digest, d, s) && s.outbox.Keys <= keys && k in keys && Apart(digest, keys)
    ensures Agrees(digest, d.(rows := d.rows[IdOf(digest, k) := row]), s.(outbox := s.outbox[k := row]))
  {
    hide IdOf;
    var e, t := d.(rows := d.rows[IdOf(digest, k) := row]), s.(outbox := s.outbox[k := row]);
    forall j | j in t.outbox ensures IdOf(digest, j) in e.rows && e.rows[IdOf(digest, j)] == t.outbox[j] {
      assert j in keys;
    }
    forall id | id in e.rows ensures exists j :: j in t.outbox && IdOf(digest, j) == id {
      if id in d.rows {
        var j :| j in s.outbox && IdOf(digest, j) == id;
        assert j in t.outbox;
      } else {
        assert k in t.outbox;
      }
    }
  }

  lemma {:induction false} SameAttempts(digest: Digest, d: Stored, s: System, keys: set<Key>, p: Period, n: nat)
    requires Agrees(digest, d, s) && s.outbox.Keys <= keys && Apart(digest, keys)
    requires forall m: nat :: m < n ==> Key(p, m) in keys
    ensures AttemptRows(digest, d.rows, p, n) == Attempts(s.outbox, p, n)
  {
    hide IdOf, Apart, Agrees;
    if n > 0 {
      SameAttempts(digest, d, s, keys, p, n - 1);
      Found(digest, d, s, keys, Key(p, n - 1));
      RowShown(digest, d, s, Key(p, n - 1));
    }
  }

  lemma RowShown(digest: Digest, d: Stored, s: System, k: Key)
    requires Agrees(digest, d, s)
    ensures k in s.outbox ==> IdOf(digest, k) in d.rows && d.rows[IdOf(digest, k)] == s.outbox[k]
  {
  }

  lemma CreateKeepsAgreement(digest: Digest, d: Stored, s: System, keys: set<Key>, k: Key)
    requires Agrees(digest, d, s) && s.outbox.Keys <= keys && k in keys && Apart(digest, keys)
    ensures Agrees(digest, d.(rows := GetOrCreateRow(d.rows, IdOf(digest, k))), s.(outbox := GetOrCreate(s.outbox, k)))
  {
    hide IdOf, Apart, Agrees;
    Found(digest, d, s, keys, k);
    if k !in s.outbox {
      PutKeeps(digest, d, s, keys, k, OutRow(Waiting, 0));
    }
  }

  lemma RunnerMoves(digest: Digest, d: Stored, s: System, last: Option<Month>, failed: seq<Month>, runner: Runner)
    requires Agrees(digest, d, s)
    ensures Agrees(digest, d.(last := last, failed := failed, runner := runner), s.(last := last, failed := failed, runner := runner))
  {
    hide IdOf;
  }

  lemma StepAgrees(plan: Plan, digest: Digest, d: Stored, s: System, keys: set<Key>, step: ReportRuns.Step)
    requires Agrees(digest, d, s) && s.outbox.Keys <= keys && KeysAsked(plan, s, step) <= keys && Apart(digest, keys)
    ensures Agrees(digest, ApplyStored(plan, digest, d, step), Apply(plan, s, step))
  {
    assert d.last == s.last && d.failed == s.failed && d.runner == s.runner;
    hide Agrees, Apart, IdOf, EarliestOwed, PeriodOf, MonthOk, GetOrCreate, GetOrCreateRow, Attempts, AttemptRows, Tried;
    match step
    case Start(now, owed) => RunnerMoves(digest, d, s, s.last, s.failed, Walking(owed));
    case Look => LookAgrees(plan, digest, d, s, keys);
    case Act(deliverable) =>
      if s.runner.Looked? && s.runner.months != [] && MonthOk(s.runner.months[0]) {
        ActAgrees(plan, digest, d, s, keys, deliverable);
      }
    case Crash => RunnerMoves(digest, d, s, s.last, s.failed, Resting);
    case Request(from, to, addresses) =>
      IdOfRequest(digest, from, to, addresses);
      CreateKeepsAgreement(digest, d, s, keys, Key(Period(from, to, multiset(addresses)), 0));
    case Dispatch(key, accepted) => DispatchAgrees(plan, digest, d, s, keys, key, accepted);
  }

  lemma LookAgrees(plan: Plan, digest: Digest, d: Stored, s: System, keys: set<Key>)
    requires Agrees(digest, d, s) && s.outbox.Keys <= keys && KeysAsked(plan, s, Look) <= keys && Apart(digest, keys)
    ensures Agrees(digest, ApplyStored(plan, digest, d, Look), Apply(plan, s, Look))
  {
    assert d.last == s.last && d.failed == s.failed && d.runner == s.runner;
    hide Agrees, Apart, IdOf, PeriodOf, MonthOk, Attempts, AttemptRows;
    if s.runner.Walking? && s.runner.months != [] && MonthOk(s.runner.months[0]) {
      var p := PeriodOf(plan, s.runner.months[0]);
      SameAttempts(digest, d, s, keys, p, MAX_ATTEMPTS_PER_PERIOD);
      RunnerMoves(digest, d, s, s.last, s.failed, Looked(s.runner.months, Attempts(s.outbox, p, MAX_ATTEMPTS_PER_PERIOD)));
    } else {
      RunnerMoves(digest, d, s, s.last, s.failed, Resting);
    }
  }

  lemma DispatchAgrees(plan: Plan, digest: Digest, d: Stored, s: System, keys: set<Key>, key: Key, accepted: bool)
    requires Agrees(digest, d, s) && s.outbox.Keys <= keys && key in keys && Apart(digest, keys)
    ensures Agrees(digest, ApplyStored(plan, digest, d, Dispatch(key, accepted)), Apply(plan, s, Dispatch(key, accepted)))
  {
    hide Agrees, Apart, IdOf, Tried;
    Found(digest, d, s, keys, key);
    RowShown(digest, d, s, key);
    if key in s.outbox {
      PutKeeps(digest, d, s, keys, key, Tried(s.outbox[key], accepted));
    }
  }

  lemma IdOfRequest(digest: Digest, from: string, to: string, addresses: seq<string>)
    ensures IdOf(digest, Key(Period(from, to, multiset(addresses)), 0)) == digest(Recipients.Material(from, to, addresses, 0))
  {
    TextOfAnyOrder(from, to, addresses, 0);
  }

  lemma ActAgrees(plan: Plan, digest: Digest, d: Stored, s: System, keys: set<Key>, deliverable: bool)
    requires Agrees(digest, d, s) && s.outbox.Keys <= keys && Apart(digest, keys)
    requires s.runner.Looked? && s.runner.months != [] && MonthOk(s.runner.months[0])
    requires Key(PeriodOf(plan, s.runner.months[0]), |s.runner.seen|) in keys
    ensures d.runner == s.runner
    ensures var month, rest, seen := s.runner.months[0], s.runner.months[1..], s.runner.seen;
            Agrees(digest, AdvanceStored(plan, digest, d, month, rest, seen, deliverable),
                   Advance(plan, s, month, rest, seen, deliverable))
  {
    assert d.last == s.last && d.failed == s.failed && d.runner == s.runner;
    hide Agrees, Apart, IdOf, PeriodOf, MonthOk, GetOrCreate, GetOrCreateRow;
    var month, rest, seen := s.runner.months[0], s.runner.months[1..], s.runner.seen;
    if Sent in seen {
      RunnerMoves(digest, d, s, Some(month), s.failed, Walking(rest));
    } else if Waiting in seen {
      RunnerMoves(digest, d, s, s.last, s.failed, Walking(rest));
    } else if |seen| >= MAX_ATTEMPTS_PER_PERIOD {
      RunnerMoves(digest, d, s, s.last, s.failed + [month], Walking(rest));
    } else {
      RunnerMoves(digest, d, s, s.last, s.failed, Resting);
      CreateKeepsAgreement(digest, d.(runner := Resting), s.(runner := Resting), keys, Key(PeriodOf(plan, month), |seen|));
    }
  }

  lemma AskedMore(plan: Plan, s: System, step: ReportRuns.Step)
    ensures Apply(plan, s, step).outbox.Keys <= s.outbox.Keys + KeysAsked(plan, s, step)
  {
    hide EarliestOwed, PeriodOf, MonthOk, Attempts, Tried;
  }

  /** The stored outbox goes through exactly the protocol's states, whatever the digest,
      unless it stores two different keys the run asked for under one digest. */
  lemma {:induction false} StoredRunAgrees(plan: Plan, digest: Digest, steps: seq<ReportRuns.Step>)
    requires Apart(digest, Asked(plan, steps))
    ensures Agrees(digest, RunStored(plan, digest, steps), Run(plan, NEW, steps))
    ensures Run(plan, NEW, steps).outbox.Keys <= Asked(plan, steps)
    decreases |steps|
  {
    hide Agrees, Apart, KeysAsked, Apply, ApplyStored;
    var n := |steps|;
    if n > 0 {
      FewerApart(digest, Asked(plan, steps[..n - 1]), Asked(plan, steps));
      StoredRunAgrees(plan, digest, steps[..n - 1]);
      var s := Run(plan, NEW, steps[..n - 1]);
      StepAgrees(plan, digest, RunStored(plan, digest, steps[..n - 1]), s, Asked(plan, steps), steps[n - 1]);
      AskedMore(plan, s, steps[n - 1]);
    } else {
      NothingStored(digest);
    }
  }

  lemma NothingStored(digest: Digest)
    ensures Agrees(digest, EMPTY, NEW)
  {
  }

  lemma FewerApart(digest: Digest, few: set<Key>, keys: set<Key>)
    requires Apart(digest, keys) && few <= keys
    ensures Apart(digest, few)
  {
  }

  // -- what a clash is -------------------------------------------------------

  /** Bounds without a bar, and addresses each with a domain and no comma. */
  ghost predicate KeyOk(k: Key) {
    && Recipients.Lacks(k.period.from, '|') && Recipients.Lacks(k.period.to, '|')
    && Recipients.AddressesOk(InSomeOrder(k.period.addresses))
  }

  ghost predicate Collide(digest: Digest, s: string, t: string) {
    s != t && digest(s) == digest(t)
  }

  /** Two well-formed keys stored under one digest are two texts that collide. */
  lemma ClashIsCollision(digest: Digest, j: Key, k: Key)
    requires KeyOk(j) && KeyOk(k) && j != k && IdOf(digest, j) == IdOf(digest, k)
    ensures Collide(digest, TextOf(j), TextOf(k))
  {
    Recipients.KeySaysWhatItIsAbout(j.period.from, j.period.to, InSomeOrder(j.period.addresses), j.attempt,
                                    k.period.from, k.period.to, InSomeOrder(k.period.addresses), k.attempt);
  }

  predicate LiveRow(rows: map<string, OutRow>, id: string) {
    id in rows && rows[id].status != Failed
  }

  /** Of any period at most one stored row has not failed; or here are two texts that the
      digest cannot tell apart. */
  lemma StoredOneLiveRow(plan: Plan, digest: Digest, steps: seq<ReportRuns.Step>, p: Period, m: nat, n: nat)
    requires PlanOk(plan) && forall k :: k in Asked(plan, steps) ==> KeyOk(k)
    requires Key(p, m) in Asked(plan, steps) && Key(p, n) in Asked(plan, steps)
    ensures || (exists j, k :: j in Asked(plan, steps) && k in Asked(plan, steps) && Collide(digest, TextOf(j), TextOf(k)))
            || (var rows := RunStored(plan, digest, steps).rows;
                LiveRow(rows, IdOf(digest, Key(p, m))) && LiveRow(rows, IdOf(digest, Key(p, n))) ==> m == n)
  {
    hide Run, RunStored, Asked, KeyOk, TextOf, Collide;
    var keys := Asked(plan, steps);
    if Apart(digest, keys) {
      StoredRunAgrees(plan, digest, steps);
      var d, s := RunStored(plan, digest, steps), Run(plan, NEW, steps);
      Found(digest, d, s, keys, Key(p, m));
      Found(digest, d, s, keys, Key(p, n));
      if Key(p, m) in s.outbox && Key(p, n) in s.outbox
         && s.outbox[Key(p, m)].status != Failed && s.outbox[Key(p, n)].status != Failed {
        OneLiveRow(plan, steps, Key(p, m), Key(p, n));
      }
    } else {
      var j, k :| j in keys && k in keys && IdOf(digest, j) == IdOf(digest, k) && j != k;
      ClashIsCollision(digest, j, k);
    }
  }

  /** How many times a run marks a stored row of the period as sent. */
  ghost function StoredMarks(plan: Plan, digest: Digest, steps: seq<ReportRuns.Step>, p: Period): nat {
    var n := |steps|;
    if n == 0 then 0
    else
      StoredMarks(plan, digest, steps[..n - 1], p)
      + (if MarksStored(digest, RunStored(plan, digest, steps[..n - 1]), steps[n - 1], p) then 1 else 0)
  }

  ghost predicate MarksStored(digest: Digest, d: Stored, step: ReportRuns.Step, p: Period) {
    && step.Dispatch? && step.accepted && step.key.period == p
    && IdOf(digest, step.key) in d.rows && d.rows[IdOf(digest, step.key)].status == Waiting
  }

  lemma {:induction false} SameMarks(plan: Plan, digest: Digest, steps: seq<ReportRuns.Step>, p: Period)
    requires Apart(digest, Asked(plan, steps))
    ensures StoredMarks(plan, digest, steps, p) == SentMarks(plan, steps, p)
    decreases |steps|
  {
    hide Agrees, Apart, Run, RunStored, IdOf;
    var n := |steps| - 1;
    if n >= 0 {
      var before, step := steps[..n], steps[n];
      FewerApart(digest, Asked(plan, before), Asked(plan, steps));
      SameMarks(plan, digest, before, p);
      StoredRunAgrees(plan, digest, before);
      if step.Dispatch? {
        Found(digest, RunStored(plan, digest, before), Run(plan, NEW, before), Asked(plan, steps), step.key);
        RowShown(digest, RunStored(plan, digest, before), Run(plan, NEW, before), step.key);
      }
    }
  }

  /** In every interleaving a period's stored rows are marked sent at most once; or here are
      two texts that the digest cannot tell apart. */
  lemma StoredSentAtMostOnce(plan: Plan, digest: Digest, steps: seq<ReportRuns.Step>, p: Period)
    requires PlanOk(plan) && forall k :: k in Asked(plan, steps) ==> KeyOk(k)
    ensures || (exists j, k :: j in Asked(plan, steps) && k in Asked(plan, steps) && Collide(digest, TextOf(j), TextOf(k)))
            || StoredMarks(plan, digest, steps, p) <= 1
  {
    hide StoredMarks, SentMarks, Asked, KeyOk, TextOf, Collide;
    var keys := Asked(plan, steps);
    if Apart(digest, keys) {
      SameMarks(plan, digest, steps, p);
      SentAtMostOnce(plan, steps, p);
    } else {
      var j, k :| j in keys && k in keys && IdOf(digest, j) == IdOf(digest, k) && j != k;
      ClashIsCollision(digest, j, k);
    }
  }
}
