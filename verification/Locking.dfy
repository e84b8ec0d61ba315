/** Concurrent appends: any number of open transactions, each appending to any number
    of tenants' chains under an advisory lock held until it ends. */
module Locking {
  import opened Prelude
  import opened Chain
  import opened AuditLog
  import opened Verify

  // Different tenants may share a key.
  type LockKey = string -> int

  // Where a transaction is within an append: the lock, then the head, then the rows.
  datatype Phase = Idle | Locked(tenantId: string) | HeadRead(tenantId: string, sequence: int, prevHash: string)

  // What a savepoint goes back to; locks taken after it are given up.
  datatype Mark = Mark(written: nat, held: set<int>)

  datatype Tx = Tx(writes: seq<Record>, held: set<int>, phase: Phase, marks: seq<Mark>)

  datatype Database = Database(committed: seq<Record>, txs: map<nat, Tx>)

  datatype Draft = Draft(entry: Entry, id: string, now: string)

  datatype Step =
    | Begin(tx: nat)
    | Lock(tx: nat, tenantId: string)
    | ReadHead(tx: nat)
    | Insert(tx: nat, drafts: seq<Draft>)
    | Savepoint(tx: nat)
    | ReleaseSavepoint(tx: nat)
    | RollBackToSavepoint(tx: nat)
    | Commit(tx: nat)
    | RollBack(tx: nat)

  /** One tenant's rows, in the order they were written. */
  function Of(rs: seq<Record>, tenantId: string): seq<Record> {
    if rs == [] then []
    else Of(rs[..|rs| - 1], tenantId) + (if rs[|rs| - 1].tenantId == tenantId then [rs[|rs| - 1]] else [])
  }

  /** The rows of one append or batch, from a head read earlier. */
  function Links(h: Hasher, tenantId: string, drafts: seq<Draft>, sequence: int, prevHash: string): seq<Record>
    decreases |drafts|
  {
    if drafts == [] then []
    else
      var r := Link(h, tenantId, drafts[0].entry, drafts[0].id, drafts[0].now, sequence, prevHash);
      [r] + Links(h, tenantId, drafts[1..], sequence + 1, r.hash)
  }

  /** Nobody else holds this lock. */
  predicate Free(db: Database, key: int, tx: nat) {
    forall x :: x in db.txs && x != tx ==> key !in db.txs[x].held
  }

  function Update(db: Database, x: nat, tx: Tx): Database {
    db.(txs := db.txs[x := tx])
  }

  function End(db: Database, x: nat): Database {
    db.(txs := db.txs - {x})
  }

  function DropLast(marks: seq<Mark>): seq<Mark>
    requires marks != []
  {
    marks[..|marks| - 1]
  }

  /** One step of one transaction; a step that is not due, or that has to wait for a
      lock, changes nothing. */
  function Apply(h: Hasher, key: LockKey, db: Database, s: Step): Database {
    if s.Begin? then
      if s.tx in db.txs then db else Update(db, s.tx, Tx([], {}, Idle, []))
    else if s.tx !in db.txs then db
    else
      var tx := db.txs[s.tx];
      match s
      case Lock(x, t) =>
        if tx.phase.Idle? && Free(db, key(t), x) then Update(db, x, tx.(held := tx.held + {key(t)}, phase := Locked(t))) else db
      case ReadHead(x) =>
        if tx.phase.Locked? then
          var rows := Of(db.committed + tx.writes, tx.phase.tenantId);
          Update(db, x, tx.(phase := HeadRead(tx.phase.tenantId, NextSequence(rows), HeadHash(rows))))
        else db
      case Insert(x, drafts) =>
        if tx.phase.HeadRead? then
          var rows := Links(h, tx.phase.tenantId, drafts, tx.phase.sequence, tx.phase.prevHash);
          Update(db, x, tx.(writes := tx.writes + rows, phase := Idle))
        else db
      case Savepoint(x) =>
        if tx.phase.Idle? then Update(db, x, tx.(marks := tx.marks + [Mark(|tx.writes|, tx.held)])) else db
      case ReleaseSavepoint(x) =>
        if tx.phase.Idle? && tx.marks != [] then Update(db, x, tx.(marks := DropLast(tx.marks))) else db
      case RollBackToSavepoint(x) =>
        if tx.marks != [] && tx.marks[|tx.marks| - 1].written <= |tx.writes| then
          var mark := tx.marks[|tx.marks| - 1];
          Update(db, x, Tx(tx.writes[..mark.written], mark.held, Idle, DropLast(tx.marks)))
        else db
      case Commit(x) =>
        if tx.phase.Idle? && tx.marks == [] then End(db.(committed := db.committed + tx.writes), x) else db
      case RollBack(x) => End(db, x)
  }

  function Run(h: Hasher, key: LockKey, db: Database, steps: seq<Step>): Database {
    var n := |steps|;
    if n == 0 then db else Apply(h, key, Run(h, key, db, steps[..n - 1]), steps[n - 1])
  }

  const EMPTY := Database([], map[])

  // -- rows of one tenant ----------------------------------------------------

  lemma {:induction false} OfAppend(a: seq<Record>, b: seq<Record>, t: string)
    ensures Of(a + b, t) == Of(a, t) + Of(b, t)
    decreases |b|
  {
    if b == [] {
      assert a + b == a;
    } else {
      OfAppend(a, b[..|b| - 1], t);
      assert (a + b)[..|a + b| - 1] == a + b[..|b| - 1];
    }
  }

  lemma OfPrefix(a: seq<Record>, n: nat, t: string)
    requires n <= |a|
    ensures Of(a[..n], t) <= Of(a, t)
  {
    OfAppend(a[..n], a[n..], t);
    assert a[..n] + a[n..] == a;
  }

  lemma {:induction false} OfAll(rs: seq<Record>, t: string, u: string)
    requires forall i :: 0 <= i < |rs| ==> rs[i].tenantId == t
    ensures Of(rs, u) == if t == u then rs else []
    decreases |rs|
  {
    if rs != [] {
      OfAll(rs[..|rs| - 1], t, u);
      assert rs == rs[..|rs| - 1] + [rs[|rs| - 1]];
    }
  }

  lemma {:induction false} LinksExtend(h: Hasher, t: string, drafts: seq<Draft>, rs: seq<Record>)
    requires Genuine(h, rs)
    ensures var rows := Links(h, t, drafts, |rs| + 1, Head(rs));
            && Genuine(h, rs + rows)
            && |rows| == |drafts|
            && (forall i :: 0 <= i < |rows| ==> rows[i].tenantId == t)
    decreases |drafts|
  {
    if drafts == [] {
      assert rs + [] == rs;
    } else {
      var d := drafts[0];
      var r := Link(h, t, d.entry, d.id, d.now, |rs| + 1, Head(rs));
      LinkSealed(h, t, d.entry, d.id, d.now, |rs| + 1, Head(rs));
      hide Link, Genuine, ComputeHash;
      GenuineAppend(h, rs, r);
      LinksExtend(h, t, drafts[1..], rs + [r]);
      var more := Links(h, t, drafts[1..], |rs| + 2, r.hash);
      assert Head(rs + [r]) == r.hash;
      assert rs + ([r] + more) == (rs + [r]) + more;
    }
  }

  // -- the invariant ---------------------------------------------------------

  /** Every tenant's rows are a genuine chain. */
  ghost predicate ChainsOk(h: Hasher, rs: seq<Record>) {
    forall t :: Genuine(h, Of(rs, t))
  }

  ghost predicate Guarded(key: LockKey, writes: seq<Record>, held: set<int>) {
    forall i :: 0 <= i < |writes| ==> key(writes[i].tenantId) in held
  }

  ghost predicate PhaseOk(key: LockKey, committed: seq<Record>, tx: Tx) {
    match tx.phase
    case Idle => true
    case Locked(t) => key(t) in tx.held
    case HeadRead(t, sequence, prevHash) =>
      var rows := Of(committed + tx.writes, t);
      key(t) in tx.held && sequence == |rows| + 1 && prevHash == Head(rows)
  }

  ghost predicate MarkOk(key: LockKey, tx: Tx, m: Mark) {
    m.written <= |tx.writes| && m.held <= tx.held && Guarded(key, tx.writes[..m.written], m.held)
  }

  ghost predicate MarksOk(key: LockKey, tx: Tx) {
    && (forall i :: 0 <= i < |tx.marks| ==> MarkOk(key, tx, tx.marks[i]))
    && (forall i, j :: 0 <= i < j < |tx.marks| ==>
          tx.marks[i].written <= tx.marks[j].written && tx.marks[i].held <= tx.marks[j].held)
  }

  ghost predicate TxOk(h: Hasher, key: LockKey, committed: seq<Record>, tx: Tx) {
    && ChainsOk(h, committed + tx.writes)
    && Guarded(key, tx.writes, tx.held)
    && PhaseOk(key, committed, tx)
    && MarksOk(key, tx)
  }

  ghost predicate Exclusive(db: Database) {
    forall x, y :: x in db.txs && y in db.txs && x != y ==> db.txs[x].held !! db.txs[y].held
  }

  ghost predicate Inv(h: Hasher, key: LockKey, db: Database) {
    && ChainsOk(h, db.committed)
    && (forall x :: x in db.txs ==> TxOk(h, key, db.committed, db.txs[x]))
    && Exclusive(db)
  }

  lemma {:induction false} GuardedNone(key: LockKey, writes: seq<Record>, held: set<int>, t: string)
    requires Guarded(key, writes, held) && key(t) !in held
    ensures Of(writes, t) == []
    decreases |writes|
  {
    if writes != [] {
      var before := writes[..|writes| - 1];
      assert forall i :: 0 <= i < |before| ==> before[i] == writes[i];
      GuardedNone(key, before, held, t);
      assert key(writes[|writes| - 1].tenantId) in held;
    }
  }

  lemma ChainsPrefix(h: Hasher, rs: seq<Record>, n: nat)
    requires ChainsOk(h, rs) && n <= |rs|
    ensures ChainsOk(h, rs[..n])
  {
    forall t ensures Genuine(h, Of(rs[..n], t)) {
      OfPrefix(rs, n, t);
      assert Genuine(h, Of(rs, t));
      GenuinePrefix(h, Of(rs, t), |Of(rs[..n], t)|);
      assert Of(rs[..n], t) == Of(rs, t)[..|Of(rs[..n], t)|];
    }
  }

  // -- one transaction's steps -----------------------------------------------

  lemma ReadHeadKeeps(h: Hasher, key: LockKey, committed: seq<Record>, tx: Tx)
    requires TxOk(h, key, committed, tx) && tx.phase.Locked?
    ensures var rows := Of(committed + tx.writes, tx.phase.tenantId);
            TxOk(h, key, committed, tx.(phase := HeadRead(tx.phase.tenantId, NextSequence(rows), HeadHash(rows))))
  {
    var rows := Of(committed + tx.writes, tx.phase.tenantId);
    assert Genuine(h, rows);
    hide Genuine, Guarded, NextSequence, HeadHash, Head;
    GenuineNewest(h, rows);
    var after := tx.(phase := HeadRead(tx.phase.tenantId, NextSequence(rows), HeadHash(rows)));
    assert forall m :: MarkOk(key, tx, m) <==> MarkOk(key, after, m);
  }

  lemma InsertKeeps(h: Hasher, key: LockKey, committed: seq<Record>, tx: Tx, drafts: seq<Draft>)
    requires TxOk(h, key, committed, tx) && tx.phase.HeadRead?
    ensures var rows := Links(h, tx.phase.tenantId, drafts, tx.phase.sequence, tx.phase.prevHash);
            TxOk(h, key, committed, tx.(writes := tx.writes + rows, phase := Idle))
  {
    hide ChainsOk, Links, MarksOk;
    var was := committed + tx.writes;
    var rows := Links(h, tx.phase.tenantId, drafts, tx.phase.sequence, tx.phase.prevHash);
    var after := tx.(writes := tx.writes + rows, phase := Idle);
    InsertChains(h, was, tx.phase.tenantId, drafts);
    assert committed + after.writes == was + rows;
    MarksGrow(key, tx, after);
  }

  lemma InsertChains(h: Hasher, was: seq<Record>, t: string, drafts: seq<Draft>)
    requires ChainsOk(h, was)
    ensures var rows := Links(h, t, drafts, |Of(was, t)| + 1, Head(Of(was, t)));
            ChainsOk(h, was + rows) && forall i :: 0 <= i < |rows| ==> rows[i].tenantId == t
  {
    hide Genuine, Links, Link, Head;
    var rows := Links(h, t, drafts, |Of(was, t)| + 1, Head(Of(was, t)));
    assert Genuine(h, Of(was, t));
    LinksExtend(h, t, drafts, Of(was, t));
    forall u ensures Genuine(h, Of(was + rows, u)) {
      assert Genuine(h, Of(was, u));
      InsertChain(h, was, rows, t, u);
    }
  }

  lemma InsertChain(h: Hasher, was: seq<Record>, rows: seq<Record>, t: string, u: string)
    requires forall i :: 0 <= i < |rows| ==> rows[i].tenantId == t
    requires Genuine(h, Of(was, u)) && Genuine(h, Of(was, t) + rows)
    ensures Genuine(h, Of(was + rows, u))
  {
    hide *;
    OfAppend(was, rows, u);
    OfAll(rows, t, u);
    assert Of(was, u) + [] == Of(was, u);
  }

  lemma MarksGrow(key: LockKey, tx: Tx, after: Tx)
    requires MarksOk(key, tx)
    requires tx.writes <= after.writes && tx.held <= after.held && tx.marks == after.marks
    ensures MarksOk(key, after)
  {
    hide Guarded;
    forall i | 0 <= i < |after.marks| ensures MarkOk(key, after, after.marks[i]) {
      assert MarkOk(key, tx, tx.marks[i]);
      assert after.writes[..after.marks[i].written] == tx.writes[..after.marks[i].written];
    }
  }

  lemma LockKeeps(h: Hasher, key: LockKey, committed: seq<Record>, tx: Tx, t: string)
    requires TxOk(h, key, committed, tx) && tx.phase.Idle?
    ensures TxOk(h, key, committed, tx.(held := tx.held + {key(t)}, phase := Locked(t)))
  {
    hide ChainsOk;
    MarksGrow(key, tx, tx.(held := tx.held + {key(t)}, phase := Locked(t)));
  }

  lemma SavepointKeeps(h: Hasher, key: LockKey, committed: seq<Record>, tx: Tx)
    requires TxOk(h, key, committed, tx) && tx.phase.Idle?
    ensures TxOk(h, key, committed, tx.(marks := tx.marks + [Mark(|tx.writes|, tx.held)]))
    ensures tx.marks != [] ==> TxOk(h, key, committed, tx.(marks := DropLast(tx.marks)))
  {
    hide ChainsOk, Guarded;
    var m := Mark(|tx.writes|, tx.held);
    var after := tx.(marks := tx.marks + [m]);
    assert tx.writes[..m.written] == tx.writes;
    forall i | 0 <= i < |after.marks| ensures MarkOk(key, after, after.marks[i]) {
      assert i < |tx.marks| ==> MarkOk(key, tx, tx.marks[i]);
    }
    if tx.marks != [] {
      var fewer := tx.(marks := DropLast(tx.marks));
      forall i | 0 <= i < |fewer.marks| ensures MarkOk(key, fewer, fewer.marks[i]) {
        assert MarkOk(key, tx, tx.marks[i]);
      }
    }
  }

  lemma RollBackToKeeps(h: Hasher, key: LockKey, committed: seq<Record>, tx: Tx)
    requires TxOk(h, key, committed, tx) && tx.marks != []
    ensures var mark := tx.marks[|tx.marks| - 1];
            && mark.written <= |tx.writes| && mark.held <= tx.held
            && TxOk(h, key, committed, Tx(tx.writes[..mark.written], mark.held, Idle, DropLast(tx.marks)))
  {
    var mark := tx.marks[|tx.marks| - 1];
    assert MarkOk(key, tx, mark);
    var kept := tx.writes[..mark.written];
    ChainsPrefix(h, committed + tx.writes, |committed| + mark.written);
    assert (committed + tx.writes)[..|committed| + mark.written] == committed + kept;
    hide ChainsOk, Guarded;
    var after := Tx(kept, mark.held, Idle, DropLast(tx.marks));
    forall i | 0 <= i < |after.marks| ensures MarkOk(key, after, after.marks[i]) {
      assert MarkOk(key, tx, tx.marks[i]);
      assert kept[..after.marks[i].written] == tx.writes[..after.marks[i].written];
    }
  }

  // -- what one transaction's end means for another ---------------------------

  /** What another transaction commits is on chains this one has no hold on. */
  lemma CommitKeepsOther(h: Hasher, key: LockKey, committed: seq<Record>, ended: Tx, other: Tx)
    requires TxOk(h, key, committed, ended) && TxOk(h, key, committed, other)
    requires ended.held !! other.held
    ensures TxOk(h, key, committed + ended.writes, other)
  {
    var after := committed + ended.writes;
    forall t ensures Genuine(h, Of(after + other.writes, t)) {
      CommitMerges(key, committed, ended, other, t);
      assert Genuine(h, Of(after, t)) && Genuine(h, Of(committed + other.writes, t));
    }
    if other.phase.HeadRead? {
      CommitMerges(key, committed, ended, other, other.phase.tenantId);
    }
  }

  lemma CommitMerges(key: LockKey, committed: seq<Record>, ended: Tx, other: Tx, t: string)
    requires Guarded(key, ended.writes, ended.held) && Guarded(key, other.writes, other.held)
    requires ended.held !! other.held
    ensures Of(committed + ended.writes + other.writes, t)
         == if key(t) in other.held then Of(committed + other.writes, t) else Of(committed + ended.writes, t)
  {
    OfAppend(committed + ended.writes, other.writes, t);
    OfAppend(committed, ended.writes, t);
    OfAppend(committed, other.writes, t);
    hide Of, Guarded;
    if key(t) in other.held {
      GuardedNone(key, ended.writes, ended.held, t);
    } else {
      GuardedNone(key, other.writes, other.held, t);
    }
  }

  // -- every run -------------------------------------------------------------

  lemma UpdateKeeps(h: Hasher, key: LockKey, db: Database, x: nat, tx: Tx)
    requires Inv(h, key, db) && TxOk(h, key, db.committed, tx)
    requires forall y :: y in db.txs && y != x ==> tx.held !! db.txs[y].held
    ensures Inv(h, key, Update(db, x, tx))
  {
    hide TxOk, ChainsOk;
  }

  lemma CommitKeeps(h: Hasher, key: LockKey, db: Database, x: nat)
    requires Inv(h, key, db) && x in db.txs
    ensures Inv(h, key, End(db.(committed := db.committed + db.txs[x].writes), x))
  {
    var tx := db.txs[x];
    var after := End(db.(committed := db.committed + tx.writes), x);
    assert TxOk(h, key, db.committed, tx);
    assert ChainsOk(h, after.committed);
    hide TxOk, ChainsOk;
    forall y | y in after.txs ensures TxOk(h, key, after.committed, after.txs[y]) {
      CommitKeepsOther(h, key, db.committed, tx, db.txs[y]);
    }
  }

  lemma StepKeeps(h: Hasher, key: LockKey, db: Database, s: Step)
    requires Inv(h, key, db)
    ensures Inv(h, key, Apply(h, key, db, s))
  {
    if s.Begin? {
      BeginKeeps(h, key, db, s.tx);
    } else if s.tx in db.txs {
      var tx := db.txs[s.tx];
      assert TxOk(h, key, db.committed, tx);
      hide TxOk, ChainsOk, Links, Of, NextSequence, HeadHash, End, Update;
      match s
      case Lock(x, t) => if tx.phase.Idle? && Free(db, key(t), x) {
        LockKeeps(h, key, db.committed, tx, t);
        UpdateKeeps(h, key, db, x, tx.(held := tx.held + {key(t)}, phase := Locked(t)));
      }
      case ReadHead(x) => if tx.phase.Locked? {
        ReadHeadKeeps(h, key, db.committed, tx);
        var rows := Of(db.committed + tx.writes, tx.phase.tenantId);
        UpdateKeeps(h, key, db, x, tx.(phase := HeadRead(tx.phase.tenantId, NextSequence(rows), HeadHash(rows))));
      }
      case Insert(x, drafts) => if tx.phase.HeadRead? {
        InsertKeeps(h, key, db.committed, tx, drafts);
        var rows := Links(h, tx.phase.tenantId, drafts, tx.phase.sequence, tx.phase.prevHash);
        UpdateKeeps(h, key, db, x, tx.(writes := tx.writes + rows, phase := Idle));
      }
      case Savepoint(x) => if tx.phase.Idle? {
        SavepointKeeps(h, key, db.committed, tx);
        UpdateKeeps(h, key, db, x, tx.(marks := tx.marks + [Mark(|tx.writes|, tx.held)]));
      }
      case ReleaseSavepoint(x) => if tx.phase.Idle? && tx.marks != [] {
        SavepointKeeps(h, key, db.committed, tx);
        UpdateKeeps(h, key, db, x, tx.(marks := DropLast(tx.marks)));
      }
      case RollBackToSavepoint(x) => if tx.marks != [] {
        RollBackToKeeps(h, key, db.committed, tx);
        var mark := tx.marks[|tx.marks| - 1];
        UpdateKeeps(h, key, db, x, Tx(tx.writes[..mark.written], mark.held, Idle, DropLast(tx.marks)));
      }
      case Commit(x) => CommitKeeps(h, key, db, x);
      case RollBack(x) => EndKeeps(h, key, db, x);
    }
  }

  lemma BeginKeeps(h: Hasher, key: LockKey, db: Database, x: nat)
    requires Inv(h, key, db)
    ensures Inv(h, key, Apply(h, key, db, Begin(x)))
  {
    hide ChainsOk;
    if x !in db.txs {
      assert db.committed + [] == db.committed;
      UpdateKeeps(h, key, db, x, Tx([], {}, Idle, []));
    }
  }

  lemma EndKeeps(h: Hasher, key: LockKey, db: Database, x: nat)
    requires Inv(h, key, db)
    ensures Inv(h, key, End(db, x))
  {
    hide TxOk, ChainsOk;
  }

  lemma {:induction false} RunKeeps(h: Hasher, key: LockKey, db: Database, steps: seq<Step>)
    requires Inv(h, key, db)
    ensures Inv(h, key, Run(h, key, db, steps))
    decreases |steps|
  {
    hide Inv, Apply;
    var n := |steps|;
    if n > 0 {
      RunKeeps(h, key, db, steps[..n - 1]);
      StepKeeps(h, key, Run(h, key, db, steps[..n - 1]), steps[n - 1]);
    }
  }

  /** In every interleaving of any number of transactions, whatever they roll back and
      whichever tenants share a lock, what is committed for each tenant is one chain
      the verifier accepts. */
  lemma CommittedChainsVerify(h: Hasher, key: LockKey, steps: seq<Step>, t: string)
    ensures var rows := Of(Run(h, key, EMPTY, steps).committed, t);
            Genuine(h, rows) && Failures(h, rows) == []
  {
    RunKeeps(h, key, EMPTY, steps);
    var rows := Of(Run(h, key, EMPTY, steps).committed, t);
    assert Genuine(h, rows);
    AcceptsExactlyGenuine(h, rows);
  }

  // -- the unique constraint, and append-only --------------------------------

  lemma {:induction false} RowPlace(h: Hasher, rs: seq<Record>, i: nat)
    requires i < |rs| && ChainsOk(h, rs)
    ensures rs[i].sequence == |Of(rs[..i], rs[i].tenantId)| + 1
  {
    var t := rs[i].tenantId;
    var upTo := rs[..i + 1];
    assert upTo[..i] == rs[..i];
    OfPrefix(rs, i + 1, t);
    var k := |Of(rs[..i], t)|;
    assert Of(upTo, t)[k] == rs[i];
    assert Genuine(h, Of(rs, t));
    assert LinkOk(h, Of(rs, t), k);
  }

  ghost predicate UniqueRows(rs: seq<Record>) {
    forall i, j :: 0 <= i < j < |rs| && rs[i].tenantId == rs[j].tenantId ==> rs[i].sequence < rs[j].sequence
  }

  lemma ChainsUnique(h: Hasher, rs: seq<Record>)
    requires ChainsOk(h, rs)
    ensures UniqueRows(rs)
  {
    forall i, j | 0 <= i < j < |rs| && rs[i].tenantId == rs[j].tenantId ensures rs[i].sequence < rs[j].sequence {
      RowPlace(h, rs, i);
      RowPlace(h, rs, j);
      var t := rs[i].tenantId;
      assert rs[..j][..i + 1] == rs[..i + 1] && rs[..i + 1][..i] == rs[..i];
      OfPrefix(rs[..j], i + 1, t);
    }
  }

  /** No transaction ever meets the unique constraint on tenant and sequence, against
      what is committed or what it has written itself. */
  lemma UniqueConstraintHolds(h: Hasher, key: LockKey, steps: seq<Step>, x: nat)
    ensures var db := Run(h, key, EMPTY, steps);
            UniqueRows(db.committed) && (x in db.txs ==> UniqueRows(db.committed + db.txs[x].writes))
  {
    RunKeeps(h, key, EMPTY, steps);
    var db := Run(h, key, EMPTY, steps);
    ChainsUnique(h, db.committed);
    if x in db.txs {
      assert TxOk(h, key, db.committed, db.txs[x]);
      ChainsUnique(h, db.committed + db.txs[x].writes);
    }
  }

  /** What is committed is never rewritten: each tenant's chain only grows. */
  lemma {:induction false} CommittedOnlyGrows(h: Hasher, key: LockKey, db: Database, steps: seq<Step>, t: string)
    ensures db.committed <= Run(h, key, db, steps).committed
    ensures Of(db.committed, t) <= Of(Run(h, key, db, steps).committed, t)
    decreases |steps|
  {
    var n := |steps|;
    if n > 0 {
      CommittedOnlyGrows(h, key, db, steps[..n - 1], t);
      hide Of, Links;
    }
    var after := Run(h, key, db, steps).committed;
    OfPrefix(after, |db.committed|, t);
    assert db.committed == after[..|db.committed|];
  }

  // -- one append at a time --------------------------------------------------

  function Entries(drafts: seq<Draft>): seq<Entry> {
    seq(|drafts|, i requires 0 <= i < |drafts| => drafts[i].entry)
  }

  function Ids(drafts: seq<Draft>): seq<string> {
    seq(|drafts|, i requires 0 <= i < |drafts| => drafts[i].id)
  }

  /** A transaction that writes from the head it read writes what appending to the
      chain one record at a time would. */
  lemma {:induction false} LinksAreAppends(h: Hasher, t: string, drafts: seq<Draft>, now: string, rs: seq<Record>)
    requires Genuine(h, rs) && forall i :: 0 <= i < |drafts| ==> drafts[i].now == now
    ensures rs + Links(h, t, drafts, |rs| + 1, Head(rs)) == AppendEach(h, t, rs, Entries(drafts), Ids(drafts), now)
    decreases |drafts|
  {
    if drafts == [] {
      assert rs + [] == rs;
    } else {
      hide *;
      var d := drafts[0];
      var r := Link(h, t, d.entry, d.id, d.now, |rs| + 1, Head(rs));
      FirstAppend(h, t, drafts, now, rs);
      LinksFirst(h, t, drafts, |rs| + 1, Head(rs));
      LinksAreAppends(h, t, drafts[1..], now, rs + [r]);
      Regroup(rs, r, Links(h, t, drafts[1..], |rs| + 2, r.hash));
    }
  }

  lemma LinksFirst(h: Hasher, t: string, drafts: seq<Draft>, sequence: int, prevHash: string)
    requires drafts != []
    ensures var r := Link(h, t, drafts[0].entry, drafts[0].id, drafts[0].now, sequence, prevHash);
            Links(h, t, drafts, sequence, prevHash) == [r] + Links(h, t, drafts[1..], sequence + 1, r.hash)
  {
    hide Link;
  }

  lemma Regroup(rs: seq<Record>, r: Record, more: seq<Record>)
    ensures rs + ([r] + more) == (rs + [r]) + more
  {
  }

  lemma FirstAppend(h: Hasher, t: string, drafts: seq<Draft>, now: string, rs: seq<Record>)
    requires Genuine(h, rs) && drafts != [] && drafts[0].now == now
    ensures var d := drafts[0];
            var r := Link(h, t, d.entry, d.id, d.now, |rs| + 1, Head(rs));
            (&& Genuine(h, rs + [r]) && Head(rs + [r]) == r.hash
             && AppendEach(h, t, rs, Entries(drafts), Ids(drafts), now)
             == AppendEach(h, t, rs + [r], Entries(drafts[1..]), Ids(drafts[1..]), now))
  {
    var d := drafts[0];
    AppendOneGenuine(h, t, rs, d.entry, d.id, now);
    GenuineNewest(h, rs);
    assert Entries(drafts) == [d.entry] + Entries(drafts[1..]) && Ids(drafts) == [d.id] + Ids(drafts[1..]);
    AppendEachSplits(h, t, rs, [d.entry], Entries(drafts[1..]), [d.id], Ids(drafts[1..]), now);
    AppendEachOne(h, t, rs, d.entry, d.id, now);
    hide Link, Genuine, AppendEach, Entries, Ids;
  }

  lemma AppendEachOne(h: Hasher, t: string, rs: seq<Record>, e: Entry, id: string, now: string)
    ensures AppendEach(h, t, rs, [e], [id], now) == AppendOne(h, t, rs, e, id, now)
  {
    hide AppendOne;
    assert [e][..0] == [] && [id][..0] == [];
  }

  // -- why the lock is held --------------------------------------------------

  /** Two transactions that had both read one head, which exclusion rules out, would
      commit a forked chain. */
  lemma TwoReadersFork(h: Hasher, key: LockKey, db: Database, x: nat, y: nat, t: string, sequence: int,
          prevHash: string, a: Draft, b: Draft)
    requires x != y && x in db.txs && y in db.txs
    requires db.txs[x].phase == db.txs[y].phase == HeadRead(t, sequence, prevHash)
    requires db.txs[x].writes == db.txs[y].writes == [] && db.txs[x].marks == db.txs[y].marks == []
    ensures var first := Apply(h, key, Apply(h, key, db, Insert(x, [a])), Commit(x));
            var after := Apply(h, key, Apply(h, key, first, Insert(y, [b])), Commit(y));
            !UniqueRows(after.committed) && !ChainsOk(h, after.committed)
  {
    hide Link, ChainsOk, Of;
    var d1 := Apply(h, key, db, Insert(x, [a]));
    LinksOne(h, t, a, sequence, prevHash);
    LinksOne(h, t, b, sequence, prevHash);
    var d2 := Apply(h, key, d1, Commit(x));
    var d3 := Apply(h, key, d2, Insert(y, [b]));
    var d4 := Apply(h, key, d3, Commit(y));
    var n := |db.committed|;
    assert |d4.committed| == n + 2;
    assert d4.committed[n].tenantId == d4.committed[n + 1].tenantId && d4.committed[n].sequence == d4.committed[n + 1].sequence;
    if ChainsOk(h, d4.committed) {
      ChainsUnique(h, d4.committed);
    }
  }

  lemma LinksOne(h: Hasher, t: string, d: Draft, sequence: int, prevHash: string)
    ensures var rows := Links(h, t, [d], sequence, prevHash);
            |rows| == 1 && rows[0].tenantId == t && rows[0].sequence == sequence
  {
    assert [d][1..] == [];
    LinkSealed(h, t, d.entry, d.id, d.now, sequence, prevHash);
  }
}
