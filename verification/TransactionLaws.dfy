/** What savepoints and commits do to a transaction that appends. */
module TransactionLaws {
  import AuditLog
  import opened Chain
  import opened Locking

  /** A step of another transaction, or one of this transaction's that appends. */
  ghost predicate Appends(s: Step, x: nat) {
    s.tx != x || s.Lock? || s.ReadHead? || s.Insert?
  }

  ghost predicate AllAppend(steps: seq<Step>, x: nat) {
    forall i :: 0 <= i < |steps| ==> Appends(steps[i], x)
  }

  /** The transaction has set a savepoint since it was `was`, and only appended after it. */
  ghost predicate Since(db: Database, x: nat, was: Tx) {
    && x in db.txs && was.writes <= db.txs[x].writes
    && db.txs[x].marks == was.marks + [Mark(|was.writes|, was.held)]
  }

  lemma AppendKeeps(h: Hasher, key: LockKey, db: Database, s: Step, x: nat, was: Tx)
    requires Since(db, x, was) && Appends(s, x)
    ensures Since(Apply(h, key, db, s), x, was)
  {
    hide Links, Of, AuditLog.Newest, Free;
  }

  lemma {:induction false} AppendsKeep(h: Hasher, key: LockKey, db: Database, steps: seq<Step>, x: nat, was: Tx)
    requires Since(db, x, was) && AllAppend(steps, x)
    ensures Since(Run(h, key, db, steps), x, was)
    decreases |steps|
  {
    hide Apply, Since, Appends;
    var n := |steps|;
    if n > 0 {
      AppendsKeep(h, key, db, steps[..n - 1], x, was);
      AppendKeeps(h, key, Run(h, key, db, steps[..n - 1]), steps[n - 1], x, was);
    }
  }

  lemma SavepointSets(h: Hasher, key: LockKey, db: Database, x: nat)
    requires x in db.txs && db.txs[x].phase == Idle
    ensures Since(Apply(h, key, db, Savepoint(x)), x, db.txs[x])
    ensures Apply(h, key, db, Savepoint(x)) == db.(txs := Apply(h, key, db, Savepoint(x)).txs)
  {
  }

  /** Rolling back to a savepoint puts the transaction back where it was: its rows, and the
      locks it had taken by then and no others, whatever it appended and others did since. */
  lemma SavepointUndone(h: Hasher, key: LockKey, db: Database, steps: seq<Step>, x: nat)
    requires x in db.txs && db.txs[x].phase == Idle && AllAppend(steps, x)
    ensures var inside := Run(h, key, Apply(h, key, db, Savepoint(x)), steps);
            var after := Apply(h, key, inside, RollBackToSavepoint(x));
            && x in inside.txs && x in after.txs && after.txs[x] == db.txs[x]
            && after == inside.(txs := inside.txs[x := db.txs[x]])
  {
    SavepointSets(h, key, db, x);
    AppendsKeep(h, key, Apply(h, key, db, Savepoint(x)), steps, x, db.txs[x]);
    hide Run, AllAppend;
  }

  /** Releasing it keeps everything appended since, and what was set before. */
  lemma SavepointReleased(h: Hasher, key: LockKey, db: Database, steps: seq<Step>, x: nat)
    requires x in db.txs && db.txs[x].phase == Idle && AllAppend(steps, x)
    requires var inside := Run(h, key, Apply(h, key, db, Savepoint(x)), steps); x in inside.txs && inside.txs[x].phase == Idle
    ensures var inside := Run(h, key, Apply(h, key, db, Savepoint(x)), steps);
            Apply(h, key, inside, ReleaseSavepoint(x))
              == inside.(txs := inside.txs[x := inside.txs[x].(marks := db.txs[x].marks)])
  {
    SavepointSets(h, key, db, x);
    AppendsKeep(h, key, Apply(h, key, db, Savepoint(x)), steps, x, db.txs[x]);
    hide Run, AllAppend;
  }

  /** A commit adds a transaction's rows to what is committed, in their order, and ends it, once
      every savepoint is behind it and no append is under way; a rollback ends it without. */
  lemma CommitWrites(h: Hasher, key: LockKey, db: Database, x: nat)
    ensures Apply(h, key, db, Commit(x))
         == if x in db.txs && db.txs[x].phase == Idle && db.txs[x].marks == [] then
              Database(db.committed + db.txs[x].writes, db.txs - {x})
            else db
    ensures Apply(h, key, db, RollBack(x)) == Database(db.committed, db.txs - {x})
  {
    assert x !in db.txs ==> db.txs - {x} == db.txs;
  }
}
