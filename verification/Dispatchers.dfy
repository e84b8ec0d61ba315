/** Dispatchers as they are: each reads the rows that wait, sends them one by one, writes each
    one back over whatever the row says by then, and commits the whole drain at its end. */
module Dispatchers {
  import opened Prelude
  import opened Schedules
  import opened ReportRuns

  // The rows a drain has read and not tried yet, the one it has tried and not written back,
  // and those it has written inside its transaction.
  datatype Drain = Drain(read: map<Key, OutRow>, tried: map<Key, OutRow>, written: map<Key, OutRow>)

  // What is committed, and the drains under way.
  datatype Floor = Floor(system: System, drains: map<nat, Drain>)

  datatype Move =
    | Other(step: ReportRuns.Step)
    | Begin(who: nat, keys: set<Key>)
    | Try(who: nat, key: Key, accepted: bool)
    | Save(who: nat, key: Key)
    | Commit(who: nat)
    | Rollback(who: nat)

  function WaitingRows(outbox: map<Key, OutRow>, keys: set<Key>): map<Key, OutRow> {
    map k | k in keys && k in outbox && outbox[k].status == Waiting :: outbox[k]
  }

  predicate CanTry(f: Floor, who: nat, key: Key) {
    who in f.drains && key in f.drains[who].read && f.drains[who].tried == map[]
  }

  /** A row another drain has written is locked until that drain ends. */
  predicate CanSave(f: Floor, who: nat, key: Key) {
    && who in f.drains && key in f.drains[who].tried
    && (forall other :: other in f.drains && other != who ==> key !in f.drains[other].written)
  }

  predicate CanCommit(f: Floor, who: nat) {
    who in f.drains && f.drains[who].read == map[] && f.drains[who].tried == map[]
  }

  /** One move; one that cannot be made changes nothing. */
  ghost function Do(plan: Plan, f: Floor, m: Move): Floor {
    match m
    case Other(step) => if step.Dispatch? then f else f.(system := Apply(plan, f.system, step))
    case Begin(who, keys) =>
      if who in f.drains then f else f.(drains := f.drains[who := Drain(WaitingRows(f.system.outbox, keys), map[], map[])])
    case Try(who, key, accepted) =>
      if !CanTry(f, who, key) then f
      else
        var d := f.drains[who];
        f.(drains := f.drains[who := Drain(d.read - {key}, map[key := Tried(d.read[key], accepted)], d.written)])
    case Save(who, key) =>
      if !CanSave(f, who, key) then f
      else
        var d := f.drains[who];
        f.(drains := f.drains[who := Drain(d.read, d.tried - {key}, d.written[key := d.tried[key]])])
    case Commit(who) =>
      if !CanCommit(f, who) then f
      else Floor(f.system.(outbox := f.system.outbox + f.drains[who].written), f.drains - {who})
    case Rollback(who) => f.(drains := f.drains - {who})
  }

  const START := Floor(NEW, map[])

  ghost function After(plan: Plan, moves: seq<Move>): Floor {
    var n := |moves|;
    if n == 0 then START else Do(plan, After(plan, moves[..n - 1]), moves[n - 1])
  }

  // -- the drains ------------------------------------------------------------

  /** A drain holds each row in one place, and only rows that there are. */
  ghost predicate DrainOk(outbox: map<Key, OutRow>, d: Drain) {
    && (forall k :: k in d.read ==> k in outbox && d.read[k].status == Waiting)
    && (forall k :: k in d.tried ==> k in outbox && k !in d.read && ParkedAfterSix(d.tried[k]))
    && (forall k :: k in d.written ==> k in outbox && k !in d.read && k !in d.tried && ParkedAfterSix(d.written[k]))
  }

  ghost predicate ParkedAfterSix(r: OutRow) {
    r.status == Failed ==> r.sends >= MAX_SENDS
  }

  ghost predicate FloorOk(f: Floor) {
    forall who :: who in f.drains ==> DrainOk(f.system.outbox, f.drains[who])
  }

  lemma OutboxGrows(plan: Plan, s: System, step: ReportRuns.Step)
    requires !step.Dispatch?
    ensures s.outbox.Keys <= Apply(plan, s, step).outbox.Keys
    ensures forall k :: k in s.outbox ==> Apply(plan, s, step).outbox[k] == s.outbox[k]
    ensures forall k :: k in Apply(plan, s, step).outbox && k !in s.outbox ==>
              Apply(plan, s, step).outbox[k] == OutRow(Waiting, 0)
  {
    hide EarliestOwed, PeriodOf, Attempts, MonthOk;
  }

  lemma MoveKeepsDrains(plan: Plan, f: Floor, m: Move)
    requires FloorOk(f)
    ensures FloorOk(Do(plan, f, m))
  {
    hide Apply, Tried, ParkedAfterSix, DrainOk;
    match m
    case Other(step) =>
      if !step.Dispatch? {
        OutboxGrows(plan, f.system, step);
        forall who | who in f.drains ensures DrainOk(Apply(plan, f.system, step).outbox, f.drains[who]) {
          SameRowsOk(f.system.outbox, Apply(plan, f.system, step).outbox, f.drains[who]);
        }
      }
    case Commit(who) =>
      if CanCommit(f, who) {
        var outbox := f.system.outbox + f.drains[who].written;
        forall other | other in f.drains - {who} ensures DrainOk(outbox, f.drains[other]) {
          SameRowsOk(f.system.outbox, outbox, f.drains[other]);
        }
      }
    case Rollback(who) =>
    case _ => DrainMoves(plan, f, m);
  }

  lemma SameRowsOk(a: map<Key, OutRow>, b: map<Key, OutRow>, d: Drain)
    requires DrainOk(a, d) && a.Keys <= b.Keys
    ensures DrainOk(b, d)
  {
    hide ParkedAfterSix;
  }

  lemma TriedParks(r: OutRow, accepted: bool)
    requires r.status == Waiting
    ensures ParkedAfterSix(Tried(r, accepted))
  {
  }

  /** The moves of one drain before its end. */
  lemma DrainMoves(plan: Plan, f: Floor, m: Move)
    requires FloorOk(f) && (m.Begin? || m.Try? || m.Save?)
    ensures m.who in Do(plan, f, m).drains ==> DrainOk(f.system.outbox, Do(plan, f, m).drains[m.who])
  {
    hide Tried, DrainOk, WaitingRows, Apply;
    match m
    case Begin(_, keys) => BegunOk(f.system.outbox, keys);
    case Try(who, key, accepted) => if CanTry(f, who, key) { TriedOk(f.system.outbox, f.drains[who], key, accepted); }
    case Save(who, key) => if CanSave(f, who, key) { SavedOk(f.system.outbox, f.drains[who], key); }
  }

  lemma BegunOk(outbox: map<Key, OutRow>, keys: set<Key>)
    ensures DrainOk(outbox, Drain(WaitingRows(outbox, keys), map[], map[]))
  {
  }

  lemma TriedOk(outbox: map<Key, OutRow>, d: Drain, key: Key, accepted: bool)
    requires DrainOk(outbox, d) && key in d.read
    ensures DrainOk(outbox, Drain(d.read - {key}, map[key := Tried(d.read[key], accepted)], d.written))
  {
    TriedParks(d.read[key], accepted);
    hide Tried, ParkedAfterSix;
  }

  lemma SavedOk(outbox: map<Key, OutRow>, d: Drain, key: Key)
    requires DrainOk(outbox, d) && key in d.tried
    ensures DrainOk(outbox, Drain(d.read, d.tried - {key}, d.written[key := d.tried[key]]))
  {
    hide ParkedAfterSix;
  }

  lemma {:induction false} DrainsKeep(plan: Plan, moves: seq<Move>)
    ensures FloorOk(After(plan, moves))
    decreases |moves|
  {
    hide Do, FloorOk;
    var n := |moves|;
    if n > 0 {
      DrainsKeep(plan, moves[..n - 1]);
      MoveKeepsDrains(plan, After(plan, moves[..n - 1]), moves[n - 1]);
    } else {
      NoDrains();
    }
  }

  lemma NoDrains()
    ensures FloorOk(START)
  {
  }

  // -- how often a period is sent --------------------------------------------

  /** The message of a row of the period goes out. */
  ghost predicate Sends(f: Floor, m: Move, p: Period) {
    m.Try? && CanTry(f, m.who, m.key) && m.key.period == p && m.accepted
  }

  // Where it may be noted that a row was sent: in the store, or in a drain under way.
  datatype Place = Stored(key: Key) | InHand(who: nat, key: Key) | Drafted(who: nat, key: Key)

  ghost predicate SentRow(rows: map<Key, OutRow>, p: Period, k: Key) {
    k in rows && k.period == p && rows[k].status == Sent
  }

  ghost predicate NotedAt(f: Floor, p: Period, a: Place) {
    match a
    case Stored(k) => SentRow(f.system.outbox, p, k)
    case InHand(who, k) => who in f.drains && SentRow(f.drains[who].tried, p, k)
    case Drafted(who, k) => who in f.drains && SentRow(f.drains[who].written, p, k)
  }

  /** It is noted somewhere that the period was sent. */
  ghost predicate Noted(f: Floor, p: Period) {
    exists a :: NotedAt(f, p, a)
  }

  ghost predicate NotedOnce(f: Floor, p: Period) {
    forall a, b :: NotedAt(f, p, a) && NotedAt(f, p, b) ==> a == b
  }

  /** This drain has sent the period. */
  ghost predicate HasSent(f: Floor, who: nat, p: Period) {
    exists k :: NotedAt(f, p, InHand(who, k)) || NotedAt(f, p, Drafted(who, k))
  }

  /** A slip: a message of the period goes out although it is noted that one has; or a note
      of that is lost, with a drain rolled back, or under a stale row committed over it. */
  ghost predicate Slips(f: Floor, m: Move, p: Period) {
    match m
    case Try(_, _, _) => Sends(f, m, p) && Noted(f, p)
    case Commit(who) => CanCommit(f, who) && exists k :: WritesOver(f, who, p, k)
    case Rollback(who) => HasSent(f, who, p)
    case _ => false
  }

  ghost predicate WritesOver(f: Floor, who: nat, p: Period, k: Key) {
    SentRow(f.system.outbox, p, k) && who in f.drains && k in f.drains[who].written && f.drains[who].written[k].status != Sent
  }

  ghost function TimesSent(plan: Plan, moves: seq<Move>, p: Period): nat {
    var n := |moves|;
    if n == 0 then 0
    else TimesSent(plan, moves[..n - 1], p) + (if Sends(After(plan, moves[..n - 1]), moves[n - 1], p) then 1 else 0)
  }

  ghost predicate SendsAt(plan: Plan, moves: seq<Move>, j: nat, p: Period) {
    j < |moves| && Sends(After(plan, moves[..j]), moves[j], p)
  }

  ghost predicate SlipsAt(plan: Plan, moves: seq<Move>, i: nat, p: Period) {
    i < |moves| && Slips(After(plan, moves[..i]), moves[i], p)
  }

  /** Where a note is after a move that does not lose it. */
  function Moved(m: Move, a: Place): Place {
    match a
    case Stored(_) => a
    case InHand(who, k) => if m == Save(who, k) then Drafted(who, k) else a
    case Drafted(who, k) => if m == Commit(who) then Stored(k) else a
  }

  function MovedIf(f: Floor, m: Move, a: Place): Place {
    if (m.Save? && !CanSave(f, m.who, m.key)) || (m.Commit? && !CanCommit(f, m.who)) then a else Moved(m, a)
  }

  /** Every note after a move was there before, or is of the message it sent. */
  lemma NoteFrom(plan: Plan, f: Floor, m: Move, p: Period, b: Place) returns (a: Place)
    requires FloorOk(f) && NotedAt(Do(plan, f, m), p, b)
    ensures if Sends(f, m, p) && b == InHand(m.who, m.key) then true else NotedAt(f, p, a) && b == MovedIf(f, m, a)
  {
    hide Apply;
    if m.Other? && !m.step.Dispatch? {
      OutboxGrows(plan, f.system, m.step);
    }
    a := b;
    if m.Save? && CanSave(f, m.who, m.key) && b == Drafted(m.who, m.key) {
      a := InHand(m.who, m.key);
    } else if m.Commit? && CanCommit(f, m.who) && b.Stored? && b.key in f.drains[m.who].written {
      a := Drafted(m.who, b.key);
    }
  }

  /** A note is lost only in a slip. */
  lemma NoteTo(plan: Plan, f: Floor, m: Move, p: Period, a: Place)
    requires FloorOk(f) && NotedAt(f, p, a) && (!Slips(f, m, p) || Sends(f, m, p))
    ensures NotedAt(Do(plan, f, m), p, MovedIf(f, m, a))
  {
    hide Apply, FloorOk, NotedAt, Slips;
    match m
    case Other(step) => if !step.Dispatch? { OtherKeepsNote(plan, f, step, p, a); }
    case Commit(who) => CommitKeepsNote(plan, f, who, p, a);
    case Rollback(who) => RollbackKeepsNote(plan, f, who, p, a);
    case Begin(_, _) => BeginTryKeepsNote(plan, f, m, p, a);
    case Try(_, _, _) => BeginTryKeepsNote(plan, f, m, p, a);
    case Save(who, key) => SaveKeepsNote(plan, f, who, key, p, a);
  }

  lemma OtherKeepsNote(plan: Plan, f: Floor, step: ReportRuns.Step, p: Period, a: Place)
    requires NotedAt(f, p, a) && !step.Dispatch?
    ensures NotedAt(f.(system := Apply(plan, f.system, step)), p, a)
  {
    OutboxGrows(plan, f.system, step);
    hide Apply;
  }

  lemma BeginTryKeepsNote(plan: Plan, f: Floor, m: Move, p: Period, a: Place)
    requires NotedAt(f, p, a) && (m.Begin? || m.Try?)
    ensures NotedAt(Do(plan, f, m), p, a)
  {
    hide Apply, Tried, WaitingRows;
  }

  lemma SaveKeepsNote(plan: Plan, f: Floor, who: nat, key: Key, p: Period, a: Place)
    requires FloorOk(f) && NotedAt(f, p, a)
    ensures NotedAt(Do(plan, f, Save(who, key)), p, MovedIf(f, Save(who, key), a))
  {
    hide Apply, Tried, ParkedAfterSix;
  }

  lemma CommitKeepsNote(plan: Plan, f: Floor, who: nat, p: Period, a: Place)
    requires FloorOk(f) && NotedAt(f, p, a) && !Slips(f, Commit(who), p)
    ensures NotedAt(Do(plan, f, Commit(who)), p, MovedIf(f, Commit(who), a))
  {
    hide ParkedAfterSix;
    if CanCommit(f, who) && a.Stored? {
      assert !WritesOver(f, who, p, a.key);
    }
  }

  lemma RollbackKeepsNote(plan: Plan, f: Floor, who: nat, p: Period, a: Place)
    requires NotedAt(f, p, a) && !Slips(f, Rollback(who), p)
    ensures NotedAt(Do(plan, f, Rollback(who)), p, a)
  {
    match a
    case Stored(_) =>
    case InHand(other, k) => assert other == who ==> HasSent(f, other, p);
    case Drafted(other, k) => assert other == who ==> HasSent(f, other, p);
  }

  lemma MoveTells(plan: Plan, f: Floor, m: Move, p: Period)
    requires FloorOk(f)
    ensures var g := Do(plan, f, m);
            && (Sends(f, m, p) ==> Noted(g, p) && (Slips(f, m, p) <==> Noted(f, p)))
            && (!Sends(f, m, p) && Noted(g, p) ==> Noted(f, p))
            && (!Sends(f, m, p) && !Slips(f, m, p) && Noted(f, p) ==> Noted(g, p))
            && (Slips(f, m, p) ==> Noted(f, p))
            && (NotedOnce(f, p) ==>
                  && (!Slips(f, m, p) ==> NotedOnce(g, p))
                  && (Slips(f, m, p) && !Sends(f, m, p) ==> !Noted(g, p)))
  {
    var g := Do(plan, f, m);
    if Sends(f, m, p) {
      assert NotedAt(g, p, InHand(m.who, m.key)) by { SendNotes(plan, f, m, p); }
    }
    SlipNoted(f, m, p);
    hide Do, FloorOk, NotedAt, Sends, Slips;
    if Noted(g, p) && !Sends(f, m, p) {
      var b :| NotedAt(g, p, b);
      var a := NoteFrom(plan, f, m, p, b);
    }
    if Noted(f, p) && !Slips(f, m, p) {
      var a :| NotedAt(f, p, a);
      NoteTo(plan, f, m, p, a);
    }
    if NotedOnce(f, p) && !Slips(f, m, p) {
      StillOnce(plan, f, m, p);
    }
    if NotedOnce(f, p) && Slips(f, m, p) && !Sends(f, m, p) {
      SlipForgets(plan, f, m, p);
    }
  }

  lemma SendNotes(plan: Plan, f: Floor, m: Move, p: Period)
    requires FloorOk(f) && Sends(f, m, p)
    ensures NotedAt(Do(plan, f, m), p, InHand(m.who, m.key))
    ensures Slips(f, m, p) <==> Noted(f, p)
  {
  }

  lemma SlipNoted(f: Floor, m: Move, p: Period)
    ensures Slips(f, m, p) ==> Noted(f, p)
    ensures Sends(f, m, p) ==> (Slips(f, m, p) <==> Noted(f, p))
  {
    if Slips(f, m, p) && m.Commit? {
      var k :| WritesOver(f, m.who, p, k);
      assert NotedAt(f, p, Stored(k));
    } else if Slips(f, m, p) && m.Rollback? {
      var k :| NotedAt(f, p, InHand(m.who, k)) || NotedAt(f, p, Drafted(m.who, k));
    }
  }

  lemma StillOnce(plan: Plan, f: Floor, m: Move, p: Period)
    requires FloorOk(f) && NotedOnce(f, p) && !Slips(f, m, p)
    ensures NotedOnce(Do(plan, f, m), p)
  {
    SlipNoted(f, m, p);
    var g := Do(plan, f, m);
    hide Do, FloorOk, NotedAt, Sends, Slips, MovedIf;
    forall a, b | NotedAt(g, p, a) && NotedAt(g, p, b) ensures a == b {
      var x := NoteFrom(plan, f, m, p, a);
      var y := NoteFrom(plan, f, m, p, b);
    }
  }

  lemma SlipForgets(plan: Plan, f: Floor, m: Move, p: Period)
    requires FloorOk(f) && NotedOnce(f, p) && Slips(f, m, p) && !Sends(f, m, p)
    ensures !Noted(Do(plan, f, m), p)
  {
    var lost: Place;
    if m.Commit? {
      var k :| WritesOver(f, m.who, p, k);
      lost := Stored(k);
    } else {
      var k :| NotedAt(f, p, InHand(m.who, k)) || NotedAt(f, p, Drafted(m.who, k));
      lost := if NotedAt(f, p, InHand(m.who, k)) then InHand(m.who, k) else Drafted(m.who, k);
    }
    assert NotedAt(f, p, lost) && !NotedAt(Do(plan, f, m), p, MovedIf(f, m, lost));
    hide Do, FloorOk, NotedAt, MovedIf;
    if b :| NotedAt(Do(plan, f, m), p, b) {
      var a := NoteFrom(plan, f, m, p, b);
    }
  }

  lemma OneMoreMove(plan: Plan, moves: seq<Move>, i: nat, p: Period)
    requires moves != []
    ensures i < |moves| - 1 ==> (SlipsAt(plan, moves, i, p) <==> SlipsAt(plan, moves[..|moves| - 1], i, p))
    ensures i < |moves| - 1 ==> (SendsAt(plan, moves, i, p) <==> SendsAt(plan, moves[..|moves| - 1], i, p))
  {
    hide Slips, Sends, After;
    if i < |moves| - 1 {
      assert moves[..|moves| - 1][..i] == moves[..i];
    }
  }

  lemma NothingSent(p: Period)
    ensures !Noted(START, p) && NotedOnce(START, p)
  {
  }

  /** With any number of dispatchers, a period has gone out exactly as often as is noted, once
      or not at all, exactly as long as nothing slips; after a slip, it has gone out more often
      than will ever be noted again. */
  lemma {:induction false} NotesTellExactlyWhen(plan: Plan, moves: seq<Move>, p: Period)
    ensures var n := if Noted(After(plan, moves), p) then 1 else 0;
            && TimesSent(plan, moves, p) >= n
            && (TimesSent(plan, moves, p) == n <==> !exists i: nat :: SlipsAt(plan, moves, i, p))
            && (TimesSent(plan, moves, p) == n ==> NotedOnce(After(plan, moves), p))
    decreases |moves|
  {
    hide Do, Slips, Sends, Noted, NotedOnce;
    if moves != [] {
      var before, last := moves[..|moves| - 1], moves[|moves| - 1];
      NotesTellExactlyWhen(plan, before, p);
      DrainsKeep(plan, before);
      MoveTells(plan, After(plan, before), last, p);
      forall i: nat | i < |before| ensures SlipsAt(plan, moves, i, p) <==> SlipsAt(plan, before, i, p) {
        OneMoreMove(plan, moves, i, p);
      }
      if i: nat :| SlipsAt(plan, before, i, p) {
        assert SlipsAt(plan, moves, i, p);
      }
      if Slips(After(plan, before), last, p) {
        assert SlipsAt(plan, moves, |before|, p);
      }
    } else {
      NothingSent(p);
    }
  }

  /** A period goes out a second time exactly when a message of it goes out at, or any time
      after, a slip. */
  lemma {:induction false} SentTwiceExactlyWhen(plan: Plan, moves: seq<Move>, p: Period)
    ensures TimesSent(plan, moves, p) >= 2
       <==> exists i: nat, j: nat :: i <= j && SlipsAt(plan, moves, i, p) && SendsAt(plan, moves, j, p)
    decreases |moves|
  {
    hide Do, Slips, Sends, Noted, NotedOnce;
    if moves != [] {
      var n := |moves| - 1;
      var before, last := moves[..n], moves[n];
      SentTwiceExactlyWhen(plan, before, p);
      NotesTellExactlyWhen(plan, before, p);
      DrainsKeep(plan, before);
      MoveTells(plan, After(plan, before), last, p);
      forall i: nat | i < n
        ensures SlipsAt(plan, moves, i, p) <==> SlipsAt(plan, before, i, p)
        ensures SendsAt(plan, moves, i, p) <==> SendsAt(plan, before, i, p)
      {
        OneMoreMove(plan, moves, i, p);
      }
      assert SlipsAt(plan, moves, n, p) <==> Slips(After(plan, before), last, p);
      assert SendsAt(plan, moves, n, p) <==> Sends(After(plan, before), last, p);
      if i: nat, j: nat :| i <= j && SlipsAt(plan, before, i, p) && SendsAt(plan, before, j, p) {
        assert SlipsAt(plan, moves, i, p) && SendsAt(plan, moves, j, p);
      }
      if i: nat :| SlipsAt(plan, before, i, p) {
        assert SlipsAt(plan, moves, i, p);
      }
    }
  }

  // -- drains that keep out of each other's way ------------------------------

  /** A row is tried only while it waits and no other drain has tried it; and no drain that
      has sent anything is rolled back. */
  ghost predicate Careful(f: Floor, m: Move) {
    match m
    case Try(who, key, _) =>
      CanTry(f, who, key) ==>
        && key in f.system.outbox && f.system.outbox[key].status == Waiting
        && forall other :: other in f.drains && other != who ==> !Has(f.drains[other], key)
    case Rollback(who) => forall p :: !HasSent(f, who, p)
    case _ => true
  }

  ghost predicate Has(d: Drain, key: Key) {
    key in d.tried || key in d.written
  }

  ghost predicate AllCareful(plan: Plan, moves: seq<Move>) {
    forall i :: 0 <= i < |moves| ==> Careful(After(plan, moves[..i]), moves[i])
  }

  /** Whatever a drain has tried still waits in the store, and is nobody else's. */
  ghost predicate Apart(f: Floor) {
    forall who, k :: who in f.drains && Has(f.drains[who], k) ==>
      && k in f.system.outbox && f.system.outbox[k].status == Waiting
      && forall other :: other in f.drains && other != who ==> !Has(f.drains[other], k)
  }

  lemma WaitingIsUnsent(outbox: map<Key, OutRow>, key: Key)
    requires Chained(outbox) && key in outbox && outbox[key].status == Waiting
    ensures forall k :: !SentRow(outbox, key.period, k)
  {
    forall k ensures !SentRow(outbox, key.period, k) {
      if SentRow(outbox, key.period, k) { OneLive(outbox, k, key); }
    }
  }

  /** A careful try finds nothing noted of its period. */
  lemma CarefulTry(plan: Plan, f: Floor, m: Move, p: Period)
    requires Inv(plan, f.system) && FloorOk(f) && Apart(f) && Careful(f, m) && Sends(f, m, p)
    ensures !Noted(f, p)
  {
    WaitingIsUnsent(f.system.outbox, m.key);
    hide RunnerOk, ProgressOk;
    forall a ensures !NotedAt(f, p, a) {
      if !a.Stored? && a.who in f.drains && Has(f.drains[a.who], a.key) && a.key.period == p {
        OneLive(f.system.outbox, a.key, m.key);
      }
    }
  }

  lemma CarefulIsNoSlip(plan: Plan, f: Floor, m: Move, p: Period)
    requires Inv(plan, f.system) && FloorOk(f) && Apart(f) && Careful(f, m)
    ensures !Slips(f, m, p)
  {
    if Sends(f, m, p) {
      CarefulTry(plan, f, m, p);
    }
    hide Inv, FloorOk, Noted;
  }

  lemma WrittenKeeps(outbox: map<Key, OutRow>, written: map<Key, OutRow>)
    requires Chained(outbox)
    requires forall k :: k in written ==> k in outbox && outbox[k].status == Waiting && ParkedAfterSix(written[k])
    ensures Chained(outbox + written) && Later(outbox, outbox + written)
  {
    var after := outbox + written;
    forall k | k in after ensures RowOk(after, k) {
      assert RowOk(outbox, k);
    }
  }

  lemma CarefulKeeps(plan: Plan, f: Floor, m: Move)
    requires Inv(plan, f.system) && FloorOk(f) && Apart(f) && Careful(f, m)
    ensures Inv(plan, Do(plan, f, m).system)
  {
    if m.Other? {
      hide Inv, Apply;
      StepKeeps(plan, f.system, m.step);
    } else if m.Commit? && CanCommit(f, m.who) {
      var written := f.drains[m.who].written;
      assert forall k :: k in written ==> Has(f.drains[m.who], k);
      WrittenKeeps(f.system.outbox, written);
      hide Chained, RunnerOk, ProgressOk, Later;
      OutboxKeeps(plan, f.system, f.system.outbox + written);
    }
  }

  lemma CarefulStaysApart(plan: Plan, f: Floor, m: Move)
    requires FloorOk(f) && Apart(f) && Careful(f, m)
    ensures Apart(Do(plan, f, m))
  {
    hide Apply, FloorOk, Tried, WaitingRows;
    var g := Do(plan, f, m);
    if m.Other? && !m.step.Dispatch? {
      OutboxGrows(plan, f.system, m.step);
    }
    forall who, k | who in g.drains && Has(g.drains[who], k)
      ensures k in g.system.outbox && g.system.outbox[k].status == Waiting
      ensures forall other :: other in g.drains && other != who ==> !Has(g.drains[other], k)
    {
      if m.Try? && m.who == who && m.key == k && CanTry(f, who, k) {
        assert Careful(f, m);
      } else {
        assert who in f.drains && Has(f.drains[who], k);
      }
    }
  }

  /** As long as drains are careful, the protocol's invariant holds with any number of them,
      nothing slips, and a period goes out at most once. */
  lemma {:induction false} CarefulDrainsSendOnce(plan: Plan, moves: seq<Move>, p: Period)
    requires PlanOk(plan) && AllCareful(plan, moves)
    ensures Inv(plan, After(plan, moves).system) && Apart(After(plan, moves))
    ensures forall i: nat :: !SlipsAt(plan, moves, i, p)
    ensures TimesSent(plan, moves, p) == if Noted(After(plan, moves), p) then 1 else 0
    decreases |moves|
  {
    NotesTellExactlyWhen(plan, moves, p);
    hide Inv, Do, Slips, Careful, Noted, FloorOk, Apart, TimesSent;
    if moves != [] {
      var n := |moves| - 1;
      var before, f := moves[..n], After(plan, moves[..n]);
      forall i | 0 <= i < n ensures Careful(After(plan, before[..i]), before[i]) {
        assert before[..i] == moves[..i];
      }
      CarefulDrainsSendOnce(plan, before, p);
      DrainsKeep(plan, before);
      CarefulKeeps(plan, f, moves[n]);
      CarefulStaysApart(plan, f, moves[n]);
      CarefulIsNoSlip(plan, f, moves[n], p);
      forall i: nat | i < |moves| ensures !SlipsAt(plan, moves, i, p) {
        OneMoreMove(plan, moves, i, p);
      }
    } else {
      NewInv(plan);
    }
  }

  lemma NewInv(plan: Plan)
    requires PlanOk(plan)
    ensures Inv(plan, START.system) && Apart(START)
  {
    RunKeeps(plan, []);
  }

  // -- one dispatcher --------------------------------------------------------

  function Mover(m: Move): Option<nat> {
    match m
    case Other(_) => None
    case Begin(who, _) => Some(who)
    case Try(who, _, _) => Some(who)
    case Save(who, _) => Some(who)
    case Commit(who) => Some(who)
    case Rollback(who) => Some(who)
  }

  /** One dispatcher runs all the drains, one after another. */
  ghost predicate Alone(moves: seq<Move>, who: nat) {
    forall i :: 0 <= i < |moves| ==> Mover(moves[i]) in {None, Some(who)}
  }

  ghost predicate OnceTried(outbox: map<Key, OutRow>, k: Key, r: OutRow) {
    k in outbox && outbox[k].status == Waiting && (r == Tried(outbox[k], true) || r == Tried(outbox[k], false))
  }

  /** Its drain's rows are what the store says, or what one try makes of that. */
  ghost predicate Current(f: Floor, who: nat) {
    && f.drains.Keys <= {who}
    && (who in f.drains ==>
          var d := f.drains[who];
          && (forall k :: k in d.read ==> k in f.system.outbox && f.system.outbox[k] == d.read[k])
          && (forall k :: k in d.tried ==> OnceTried(f.system.outbox, k, d.tried[k]))
          && (forall k :: k in d.written ==> OnceTried(f.system.outbox, k, d.written[k])))
  }

  lemma CurrentKeeps(plan: Plan, f: Floor, m: Move, who: nat)
    requires Current(f, who) && FloorOk(f) && Mover(m) in {None, Some(who)}
    ensures Current(Do(plan, f, m), who)
  {
    hide Apply, Tried;
    if m.Other? && !m.step.Dispatch? {
      OutboxGrows(plan, f.system, m.step);
    }
  }

  lemma {:induction false} WrittenIsSteps(plan: Plan, steps: seq<ReportRuns.Step>, written: map<Key, OutRow>)
    returns (more: seq<ReportRuns.Step>)
    requires forall k :: k in written ==> OnceTried(Run(plan, NEW, steps).outbox, k, written[k])
    ensures Run(plan, NEW, more) == Run(plan, NEW, steps).(outbox := Run(plan, NEW, steps).outbox + written)
    decreases |written|
  {
    hide Run, OnceTried;
    var s := Run(plan, NEW, steps);
    if written == map[] {
      more := steps;
      assert s.outbox + written == s.outbox;
    } else {
      var k :| k in written;
      var fewer := written - {k};
      WithoutOne(s.outbox, written, k);
      var before := WrittenIsSteps(plan, steps, fewer);
      more := OneWritten(plan, before, s, fewer, k, written[k]);
    }
  }

  lemma WithoutOne(outbox: map<Key, OutRow>, written: map<Key, OutRow>, k: Key)
    requires k in written
    ensures |written - {k}| < |written|
    ensures outbox + written == (outbox + (written - {k}))[k := written[k]]
  {
    var fewer := written - {k};
    assert written.Keys == fewer.Keys + {k};
    assert |fewer| == |fewer.Keys| && |written| == |written.Keys|;
  }

  lemma OneWritten(plan: Plan, steps: seq<ReportRuns.Step>, s: System, fewer: map<Key, OutRow>, k: Key, row: OutRow)
    returns (more: seq<ReportRuns.Step>)
    requires Run(plan, NEW, steps) == s.(outbox := s.outbox + fewer) && k !in fewer && OnceTried(s.outbox, k, row)
    ensures Run(plan, NEW, more) == s.(outbox := (s.outbox + fewer)[k := row])
  {
    hide Run, Tried;
    var accepted := row == Tried(s.outbox[k], true);
    RunThen(plan, steps, Dispatch(k, accepted));
    more := steps + [Dispatch(k, accepted)];
  }

  /** On its own, a dispatcher that commits whole drains reaches the states that one that
      tries each row at once does. */
  lemma {:induction false} OneDispatcherIsProtocol(plan: Plan, moves: seq<Move>, who: nat) returns (steps: seq<ReportRuns.Step>)
    requires Alone(moves, who)
    ensures Run(plan, NEW, steps) == After(plan, moves).system
    ensures Current(After(plan, moves), who)
    decreases |moves|
  {
    steps := [];
    if moves != [] {
      var n := |moves| - 1;
      var f, m := After(plan, moves[..n]), moves[n];
      steps := OneDispatcherIsProtocol(plan, moves[..n], who);
      DrainsKeep(plan, moves[..n]);
      CurrentKeeps(plan, f, m, who);
      hide Apply, FloorOk, Run, OnceTried;
      if m.Other? && !m.step.Dispatch? {
        RunThen(plan, steps, m.step);
        steps := steps + [m.step];
      } else if m.Commit? && CanCommit(f, m.who) {
        steps := WrittenIsSteps(plan, steps, f.drains[m.who].written);
      }
    } else {
      hide Apply;
    }
  }

  lemma AloneIsApart(f: Floor, who: nat, m: Move)
    requires Current(f, who) && FloorOk(f) && Mover(m) in {None, Some(who)} && !m.Rollback?
    ensures Apart(f) && Careful(f, m)
  {
    hide Tried;
  }

  /** All that can slip with one dispatcher is a drain rolled back after it had sent. */
  lemma OneDispatcherSlips(plan: Plan, moves: seq<Move>, who: nat, i: nat, p: Period)
    requires PlanOk(plan) && Alone(moves, who)
    ensures SlipsAt(plan, moves, i, p)
       <==> i < |moves| && moves[i].Rollback? && HasSent(After(plan, moves[..i]), moves[i].who, p)
  {
    if i < |moves| && !moves[i].Rollback? {
      var f := After(plan, moves[..i]);
      assert forall j :: 0 <= j < i ==> moves[..i][j] == moves[j];
      var steps := OneDispatcherIsProtocol(plan, moves[..i], who);
      RunKeeps(plan, steps);
      DrainsKeep(plan, moves[..i]);
      assert Mover(moves[i]) in {None, Some(who)};
      hide Inv, FloorOk, Current, Apart, Careful, Slips, After, Run;
      AloneIsApart(f, who, moves[i]);
      CarefulIsNoSlip(plan, f, moves[i], p);
    }
  }

  /** So with one dispatcher a period goes out twice exactly when a drain that had sent it is
      rolled back and it goes out again later. */
  lemma OneDispatcherSendsTwiceExactlyWhen(plan: Plan, moves: seq<Move>, who: nat, p: Period)
    requires PlanOk(plan) && Alone(moves, who)
    ensures TimesSent(plan, moves, p) >= 2
       <==> exists i: nat, j: nat ::
              i < j && RollsBackSent(plan, moves, i, p) && SendsAt(plan, moves, j, p)
  {
    SentTwiceExactlyWhen(plan, moves, p);
    forall i: nat ensures SlipsAt(plan, moves, i, p) <==> RollsBackSent(plan, moves, i, p) {
      OneDispatcherSlips(plan, moves, who, i, p);
    }
    hide SlipsAt, TimesSent, Alone, After, HasSent, Sends;
    if i: nat, j: nat :| i <= j && SlipsAt(plan, moves, i, p) && SendsAt(plan, moves, j, p) {
      assert i < j by { RollbackSendsNothing(plan, moves, i, p); }
    }
  }

  ghost predicate RollsBackSent(plan: Plan, moves: seq<Move>, i: nat, p: Period) {
    i < |moves| && moves[i].Rollback? && HasSent(After(plan, moves[..i]), moves[i].who, p)
  }

  lemma RollbackSendsNothing(plan: Plan, moves: seq<Move>, i: nat, p: Period)
    requires RollsBackSent(plan, moves, i, p)
    ensures !SendsAt(plan, moves, i, p)
  {
  }

  // -- it does happen --------------------------------------------------------

  const ASKED := Key(Period("from", "to", multiset{"a@b"}), 0)

  function Row(status: RowStatus, sends: nat): map<Key, OutRow> {
    map[ASKED := OutRow(status, sends)]
  }

  lemma OneMore(plan: Plan, moves: seq<Move>, m: Move, p: Period)
    ensures After(plan, moves + [m]) == Do(plan, After(plan, moves), m)
    ensures TimesSent(plan, moves + [m], p)
         == TimesSent(plan, moves, p) + (if Sends(After(plan, moves), m, p) then 1 else 0)
  {
    hide Do, Sends;
    assert (moves + [m])[..|moves|] == moves;
  }

  /** A waiting row, read by a dispatcher and tried. */
  lemma Begun(plan: Plan, moves: seq<Move>, who: nat, sends: nat, accepted: bool) returns (more: seq<Move>)
    requires var f := After(plan, moves); f.system.outbox == Row(Waiting, sends) && who !in f.drains
    ensures moves <= more
    ensures var f := After(plan, moves);
            var copy := OutRow(Waiting, sends);
            && After(plan, more) == f.(drains := f.drains[who := Drain(map[], map[ASKED := Tried(copy, accepted)], map[])])
            && TimesSent(plan, more, ASKED.period) == TimesSent(plan, moves, ASKED.period) + (if accepted then 1 else 0)
  {
    hide After, TimesSent, Tried;
    var f, p := After(plan, moves), ASKED.period;
    OneMore(plan, moves, Begin(who, {ASKED}), p);
    var read := WaitingRows(f.system.outbox, {ASKED});
    assert read == map[ASKED := OutRow(Waiting, sends)];
    var began := moves + [Begin(who, {ASKED})];
    OneMore(plan, began, Try(who, ASKED, accepted), p);
    assert read - {ASKED} == map[];
    more := began + [Try(who, ASKED, accepted)];
  }

  /** The row it tried, written back and committed. */
  lemma Ended(plan: Plan, moves: seq<Move>, who: nat, row: OutRow) returns (more: seq<Move>)
    requires var f := After(plan, moves);
             && f.system.outbox.Keys == {ASKED} && who in f.drains
             && f.drains[who] == Drain(map[], map[ASKED := row], map[])
             && forall other :: other in f.drains && other != who ==> f.drains[other].written == map[]
    ensures var f := After(plan, moves);
            After(plan, more) == Floor(f.system.(outbox := map[ASKED := row]), f.drains - {who})
    ensures TimesSent(plan, more, ASKED.period) == TimesSent(plan, moves, ASKED.period)
  {
    hide After, TimesSent;
    var f, p := After(plan, moves), ASKED.period;
    OneMore(plan, moves, Save(who, ASKED), p);
    var saved := moves + [Save(who, ASKED)];
    var tried: map<Key, OutRow> := map[ASKED := row];
    assert tried - {ASKED} == map[];
    OneMore(plan, saved, Commit(who), p);
    more := saved + [Commit(who)];
    var g := After(plan, saved);
    assert g.drains[who] == Drain(map[], map[], map[ASKED := row]);
    assert f.system.outbox + map[ASKED := row] == map[ASKED := row];
    assert g.drains - {who} == f.drains - {who};
  }

  lemma Requested(plan: Plan) returns (moves: seq<Move>)
    ensures After(plan, moves) == Floor(NEW.(outbox := Row(Waiting, 0)), map[]) && TimesSent(plan, moves, ASKED.period) == 0
  {
    hide After, TimesSent, Do;
    AtStart(plan, ASKED.period);
    var ask := Other(Request("from", "to", ["a@b"]));
    OneMore(plan, [], ask, ASKED.period);
    AskedFirst(plan);
    moves := [] + [ask];
  }

  lemma AtStart(plan: Plan, p: Period)
    ensures After(plan, []) == START && TimesSent(plan, [], p) == 0
  {
  }

  lemma AskedFirst(plan: Plan)
    ensures Do(plan, START, Other(Request("from", "to", ["a@b"]))) == Floor(NEW.(outbox := Row(Waiting, 0)), map[])
  {
    assert multiset(["a@b"]) == multiset{"a@b"};
  }

  /** One dispatcher, one request: it goes out, the drain is rolled back, and the next drain
      sends it again. */
  lemma SentAgainAfterRollback(plan: Plan) returns (moves: seq<Move>)
    ensures TimesSent(plan, moves, ASKED.period) == 2 && After(plan, moves).drains.Keys == {1}
  {
    var asked := Requested(plan);
    var sent := Begun(plan, asked, 1, 0, true);
    hide After, TimesSent;
    OneMore(plan, sent, Rollback(1), ASKED.period);
    assert After(plan, sent + [Rollback(1)]).drains == map[];
    moves := Begun(plan, sent + [Rollback(1)], 1, 0, true);
  }

  /** Two dispatchers read one row. It goes out twice; or the second one's try fails, and the
      row it commits says it still waits, so that a third drain sends it again. */
  lemma SentTwice(plan: Plan) returns (raced: seq<Move>, forgot: seq<Move>, again: seq<Move>)
    ensures TimesSent(plan, raced, ASKED.period) == 2
    ensures TimesSent(plan, forgot, ASKED.period) == 1 && !Noted(After(plan, forgot), ASKED.period)
    ensures forgot <= again && TimesSent(plan, again, ASKED.period) == 2
  {
    var asked := Requested(plan);
    var sent := Begun(plan, asked, 1, 0, true);
    raced := Begun(plan, sent, 2, 0, true);
    var refused := Begun(plan, sent, 2, 0, false);
    hide After, TimesSent;
    var one := Ended(plan, refused, 1, OutRow(Sent, 1));
    assert After(plan, one).drains.Keys == {2};
    forgot := Ended(plan, one, 2, OutRow(Waiting, 1));
    assert After(plan, forgot) == Floor(NEW.(outbox := Row(Waiting, 1)), map[]);
    again := Begun(plan, forgot, 1, 1, true);
  }

  // -- whole drains ----------------------------------------------------------

  /** The drain has read these rows: each of them waits its turn, is being tried, or is drafted. */
  ghost predicate Holds(f: Floor, who: nat, keys: set<Key>) {
    && who in f.drains
    && f.drains[who].read.Keys + f.drains[who].tried.Keys + f.drains[who].written.Keys == keys
  }

  ghost predicate GoesOn(m: Move, who: nat) {
    match m
    case Commit(other) => other != who
    case Rollback(other) => other != who
    case _ => true
  }

  lemma HoldsOn(plan: Plan, f: Floor, m: Move, who: nat, keys: set<Key>)
    requires Holds(f, who, keys) && GoesOn(m, who)
    ensures Holds(Do(plan, f, m), who, keys)
  {
    hide Tried, Apply;
    var d, d' := f.drains[who], Do(plan, f, m).drains[who];
    if m.Try? && m.who == who && CanTry(f, who, m.key) {
      assert d'.read.Keys == d.read.Keys - {m.key} && d'.tried.Keys == {m.key} && d.tried.Keys == {};
    } else if m.Save? && m.who == who && CanSave(f, who, m.key) {
      assert d'.tried.Keys == d.tried.Keys - {m.key} && d'.written.Keys == d.written.Keys + {m.key};
    }
  }

  ghost function AfterFrom(plan: Plan, f: Floor, moves: seq<Move>): Floor {
    var n := |moves|;
    if n == 0 then f else Do(plan, AfterFrom(plan, f, moves[..n - 1]), moves[n - 1])
  }

  lemma {:induction false} HoldsUntil(plan: Plan, f: Floor, moves: seq<Move>, who: nat, keys: set<Key>)
    requires Holds(f, who, keys) && forall i :: 0 <= i < |moves| ==> GoesOn(moves[i], who)
    ensures Holds(AfterFrom(plan, f, moves), who, keys)
    decreases |moves|
  {
    hide Do, Holds, GoesOn;
    var n := |moves|;
    if n > 0 {
      HoldsUntil(plan, f, moves[..n - 1], who, keys);
      HoldsOn(plan, AfterFrom(plan, f, moves[..n - 1]), moves[n - 1], who, keys);
    }
  }

  /** A drain commits only as a whole: what it writes back is every row that waited, of those
      asked for, when it began, and no other, whatever others did in between. */
  lemma CommitsWhole(plan: Plan, f: Floor, keys: set<Key>, moves: seq<Move>, who: nat)
    requires who !in f.drains && forall i :: 0 <= i < |moves| ==> GoesOn(moves[i], who)
    ensures var inside := AfterFrom(plan, Do(plan, f, Begin(who, keys)), moves);
            var after := Do(plan, inside, Commit(who));
            && who in inside.drains
            && (after == inside
                || (&& inside.drains[who].written.Keys
                       == (set k | k in keys && k in f.system.outbox && f.system.outbox[k].status == Waiting)
                    && after.system == inside.system.(outbox := inside.system.outbox + inside.drains[who].written)
                    && after.drains == inside.drains - {who}))
  {
    var asked := set k | k in keys && k in f.system.outbox && f.system.outbox[k].status == Waiting;
    var begun := Do(plan, f, Begin(who, keys));
    assert begun.drains[who].read.Keys == asked;
    HoldsUntil(plan, begun, moves, who, asked);
    hide AfterFrom, GoesOn, WaitingRows;
  }
}
