/** The chain verifier: what it reports, that it accepts exactly the genuine chains,
    and what it reports of a chain somebody has altered. */
module Verify {
  import opened Prelude
  import opened Canonical
  import opened Chain

  datatype Reason = SequenceGap(expected: int) | PrevMismatch | ContentAltered

  datatype Failure = Failure(sequence: int, recordId: string, reason: Reason)

  datatype Verdict = Verdict(tenantId: string, recordsChecked: nat, failures: seq<Failure>) {
    predicate Accepted() {
      failures == []
    }

    /** Where the chain first breaks. */
    function FirstBreak(): Option<int> {
      if failures == [] then None else Some(failures[0].sequence)
    }
  }

  // -- the reference ---------------------------------------------------------

  /** The hash the record before position `i` ought to carry: recomputed all the way
      from genesis, whatever is stored. */
  function Expected(h: Hasher, rs: seq<Record>, i: nat): string
    requires i <= |rs|
  {
    if i == 0 then GENESIS else ComputeHash(h, rs[i - 1], Expected(h, rs, i - 1))
  }

  function ExpectedSequence(rs: seq<Record>, i: nat): int
    requires i <= |rs|
  {
    if i == 0 then 1 else rs[i - 1].sequence + 1
  }

  function When(c: bool, f: Failure): seq<Failure> {
    if c then [f] else []
  }

  /** What is wrong with the record at position `i`. */
  function FailuresAt(h: Hasher, rs: seq<Record>, i: nat): seq<Failure>
    requires i < |rs|
  {
    var r := rs[i];
    When(r.sequence != ExpectedSequence(rs, i), Failure(r.sequence, r.id, SequenceGap(ExpectedSequence(rs, i))))
    + When(r.prevHash != Expected(h, rs, i), Failure(r.sequence, r.id, PrevMismatch))
    + When(ComputeHash(h, r, Expected(h, rs, i)) != r.hash, Failure(r.sequence, r.id, ContentAltered))
  }

  lemma FailuresAtIs(h: Hasher, rs: seq<Record>, i: nat)
    requires i < |rs|
    ensures var r, sequence, prev := rs[i], ExpectedSequence(rs, i), Expected(h, rs, i);
            FailuresAt(h, rs, i)
            == (if r.sequence != sequence then [Failure(r.sequence, r.id, SequenceGap(sequence))] else [])
            + (if r.prevHash != prev then [Failure(r.sequence, r.id, PrevMismatch)] else [])
            + (if ComputeHash(h, r, prev) != r.hash then [Failure(r.sequence, r.id, ContentAltered)] else [])
  {
    hide Expected, ComputeHash;
  }

  function FailuresUpTo(h: Hasher, rs: seq<Record>, n: nat): seq<Failure>
    requires n <= |rs|
  {
    if n == 0 then [] else FailuresUpTo(h, rs, n - 1) + FailuresAt(h, rs, n - 1)
  }

  function Failures(h: Hasher, rs: seq<Record>): seq<Failure> {
    FailuresUpTo(h, rs, |rs|)
  }

  /** Walk a tenant's records in sequence order. */
  method VerifyTenant(h: Hasher, tenantId: string, records: seq<Record>) returns (v: Verdict)
    ensures v == Verdict(tenantId, |records|, Failures(h, records))
    ensures v.Accepted() <==> Genuine(h, records)
  {
    hide Genuine, ComputeHash, FailuresAt;
    var failures: seq<Failure> := [];
    var expectedPrev := GENESIS;
    var expectedSequence := 1;
    var checked := 0;
    while checked < |records|
      invariant checked <= |records|
      invariant expectedPrev == Expected(h, records, checked)
      invariant expectedSequence == ExpectedSequence(records, checked)
      invariant failures == FailuresUpTo(h, records, checked)
    {
      var record := records[checked];
      var before := failures;
      if record.sequence != expectedSequence {
        failures := failures + [Failure(record.sequence, record.id, SequenceGap(expectedSequence))];
        expectedSequence := record.sequence;
      }
      if record.prevHash != expectedPrev {
        failures := failures + [Failure(record.sequence, record.id, PrevMismatch)];
      }
      var recomputed := ComputeHash(h, record, expectedPrev);
      if recomputed != record.hash {
        failures := failures + [Failure(record.sequence, record.id, ContentAltered)];
      }
      FailuresAtIs(h, records, checked);
      assert failures == before + FailuresAt(h, records, checked);
      checked := checked + 1;
      expectedPrev := recomputed;
      expectedSequence := expectedSequence + 1;
    }
    AcceptsExactlyGenuine(h, records);
    return Verdict(tenantId, checked, failures);
  }

  // -- accepted means genuine ------------------------------------------------

  lemma {:induction false} SilentUpTo(h: Hasher, rs: seq<Record>, n: nat)
    requires n <= |rs|
    ensures FailuresUpTo(h, rs, n) == [] <==> forall i :: 0 <= i < n ==> FailuresAt(h, rs, i) == []
  {
    hide FailuresAt;
    if n > 0 {
      SilentUpTo(h, rs, n - 1);
    }
  }

  lemma {:induction false} GenuineExpected(h: Hasher, rs: seq<Record>, i: nat)
    requires Genuine(h, rs) && i <= |rs|
    ensures Expected(h, rs, i) == HashBefore(rs, i) && ExpectedSequence(rs, i) == i + 1
    ensures i < |rs| ==> FailuresAt(h, rs, i) == []
  {
    hide ComputeHash;
    if i > 0 {
      GenuineExpected(h, rs, i - 1);
      assert LinkOk(h, rs, i - 1);
    }
    if i < |rs| {
      assert LinkOk(h, rs, i);
    }
  }

  lemma {:induction false} SilentLinks(h: Hasher, rs: seq<Record>, n: nat)
    requires n <= |rs|
    requires forall i :: 0 <= i < n ==> FailuresAt(h, rs, i) == []
    ensures Expected(h, rs, n) == HashBefore(rs, n) && ExpectedSequence(rs, n) == n + 1
    ensures forall i :: 0 <= i < n ==> LinkOk(h, rs, i)
  {
    hide ComputeHash;
    if n > 0 {
      SilentLinks(h, rs, n - 1);
      assert FailuresAt(h, rs, n - 1) == [];
    }
  }

  /** The verifier is silent exactly on genuine chains. */
  lemma AcceptsExactlyGenuine(h: Hasher, rs: seq<Record>)
    ensures Failures(h, rs) == [] <==> Genuine(h, rs)
  {
    SilentUpTo(h, rs, |rs|);
    if Failures(h, rs) == [] {
      SilentLinks(h, rs, |rs|);
    }
    if Genuine(h, rs) {
      forall i | 0 <= i < |rs| ensures FailuresAt(h, rs, i) == [] {
        GenuineExpected(h, rs, i);
      }
    }
  }

  // -- an altered record -----------------------------------------------------

  /** The text hashed for position `i` of the original, and of the altered chain. */
  ghost predicate CollisionAt(h: Hasher, rs: seq<Record>, altered: seq<Record>, i: nat)
    requires i < |rs| && i < |altered|
  {
    Collides(h, HashInput(rs[i], Expected(h, rs, i)), HashInput(altered[i], Expected(h, altered, i)))
  }

  lemma {:induction false} SameBefore(h: Hasher, rs: seq<Record>, altered: seq<Record>, i: nat)
    requires i <= |rs| && i <= |altered| && rs[..i] == altered[..i]
    ensures Expected(h, rs, i) == Expected(h, altered, i)
    ensures forall j :: 0 <= j < i ==> FailuresAt(h, rs, j) == FailuresAt(h, altered, j)
  {
    hide ComputeHash;
    if i > 0 {
      assert rs[i - 1] == rs[..i][i - 1] == altered[..i][i - 1] == altered[i - 1];
      assert rs[..i - 1] == rs[..i][..i - 1] == altered[..i - 1];
      SameBefore(h, rs, altered, i - 1);
      assert i > 1 ==> rs[..i][i - 2] == altered[..i][i - 2];
    }
  }

  ghost predicate CollisionFrom(h: Hasher, rs: seq<Record>, altered: seq<Record>, i: nat) {
    exists j :: i <= j < |rs| && j < |altered| && CollisionAt(h, rs, altered, j)
  }

  /** Record `i`, and only it, carries other content than was hashed; its sequence and
      its stored hashes are as they were. */
  ghost predicate AlteredAt(rs: seq<Record>, altered: seq<Record>, i: nat) {
    && i < |rs| == |altered|
    && (forall j :: 0 <= j < |rs| && j != i ==> altered[j] == rs[j])
    && altered[i].sequence == rs[i].sequence
    && altered[i].prevHash == rs[i].prevHash
    && altered[i].hash == rs[i].hash
    && !SameContent(rs[i], altered[i])
  }

  /** Past the altered record every recomputed hash differs from the original's. */
  lemma {:induction false} Diverges(h: Hasher, rs: seq<Record>, altered: seq<Record>, i: nat, n: nat)
    requires AlteredAt(rs, altered, i) && i < n <= |rs|
    requires !CollisionFrom(h, rs, altered, i)
    ensures Expected(h, altered, n) != Expected(h, rs, n)
    decreases n
  {
    hide SameContent, ComputeHash, HashInput;
    var p, q := Expected(h, rs, n - 1), Expected(h, altered, n - 1);
    assert !CollisionAt(h, rs, altered, n - 1);
    if ComputeHash(h, rs[n - 1], p) == ComputeHash(h, altered[n - 1], q) {
      HashDetermines(h, rs[n - 1], p, altered[n - 1], q);
      if n - 1 > i {
        Diverges(h, rs, altered, i, n - 1);
      }
    }
  }

  /** What a chain reports of position `j` once the record at `i` has been altered. */
  function TamperReport(r: Record, i: nat, j: nat): seq<Failure> {
    if j < i then []
    else if j == i then [Failure(r.sequence, r.id, ContentAltered)]
    else [Failure(r.sequence, r.id, PrevMismatch), Failure(r.sequence, r.id, ContentAltered)]
  }

  /** Altering what a record's hash covers, its sequence and stored hashes aside,
      fails that record's hash check and that of every record after it, and nothing
      before it; unless the alteration found a collision of the hash function. */
  lemma AlteredRecordShows(h: Hasher, rs: seq<Record>, altered: seq<Record>, i: nat)
    requires Genuine(h, rs) && AlteredAt(rs, altered, i)
    ensures || CollisionFrom(h, rs, altered, i)
            || ((forall j :: 0 <= j < |rs| ==> FailuresAt(h, altered, j) == TamperReport(altered[j], i, j))
                && Verdict("", |rs|, Failures(h, altered)).FirstBreak() == Some(i + 1))
  {
    if !CollisionFrom(h, rs, altered, i) {
      forall j | 0 <= j < |rs| ensures FailuresAt(h, altered, j) == TamperReport(altered[j], i, j) {
        ReportAt(h, rs, altered, i, j);
      }
      assert LinkOk(h, rs, i);
      hide FailuresAt, CollisionFrom, Failures, Genuine, SameContent, ComputeHash;
      FirstFailure(h, altered, i);
    }
  }

  lemma GenuineStores(h: Hasher, rs: seq<Record>, j: nat)
    requires Genuine(h, rs) && j < |rs|
    ensures rs[j].sequence == ExpectedSequence(rs, j) == j + 1
    ensures rs[j].prevHash == Expected(h, rs, j) && rs[j].hash == Expected(h, rs, j + 1)
  {
    GenuineExpected(h, rs, j);
    GenuineExpected(h, rs, j + 1);
    assert LinkOk(h, rs, j);
    hide *;
  }

  lemma ReportAt(h: Hasher, rs: seq<Record>, altered: seq<Record>, i: nat, j: nat)
    requires Genuine(h, rs) && AlteredAt(rs, altered, i) && j < |rs|
    requires !CollisionFrom(h, rs, altered, i)
    ensures FailuresAt(h, altered, j) == TamperReport(altered[j], i, j)
  {
    hide CollisionFrom, Genuine, SameContent, ComputeHash, FailuresAt, TamperReport, Expected;
    GenuineStores(h, rs, j);
    if j < i {
      assert rs[..j + 1] == altered[..j + 1];
      SameBefore(h, rs, altered, j + 1);
      assert FailuresAt(h, rs, j) == [] by { GenuineExpected(h, rs, j); }
      ReportForm(h, altered, i, j);
    } else {
      if j == i {
        assert rs[..j] == altered[..j];
        SameBefore(h, rs, altered, j);
      } else {
        Diverges(h, rs, altered, i, j);
      }
      Diverges(h, rs, altered, i, j + 1);
      ReportForm(h, altered, i, j);
    }
  }

  lemma ReportForm(h: Hasher, rs: seq<Record>, i: nat, j: nat)
    requires j < |rs| && (j < i ==> FailuresAt(h, rs, j) == [])
    requires rs[j].sequence == ExpectedSequence(rs, j)
    requires j >= i ==> rs[j].hash != Expected(h, rs, j + 1) && (j == i <==> rs[j].prevHash == Expected(h, rs, j))
    ensures FailuresAt(h, rs, j) == TamperReport(rs[j], i, j)
  {
    hide ComputeHash;
  }

  lemma {:induction false} FirstFailure(h: Hasher, rs: seq<Record>, i: nat)
    requires i < |rs|
    requires forall j :: 0 <= j < i ==> FailuresAt(h, rs, j) == []
    requires FailuresAt(h, rs, i) != []
    ensures Failures(h, rs) != [] && Failures(h, rs)[0] == FailuresAt(h, rs, i)[0]
  {
    hide FailuresAt;
    SilentUpTo(h, rs, i);
    FirstKept(h, rs, i, |rs|);
  }

  lemma {:induction false} FirstKept(h: Hasher, rs: seq<Record>, i: nat, n: nat)
    requires i < n <= |rs| && FailuresUpTo(h, rs, i) == [] && FailuresAt(h, rs, i) != []
    ensures FailuresUpTo(h, rs, n) != [] && FailuresUpTo(h, rs, n)[0] == FailuresAt(h, rs, i)[0]
  {
    hide FailuresAt;
    if n > i + 1 {
      FirstKept(h, rs, i, n - 1);
    }
  }

  // -- a removed record ------------------------------------------------------

  /** Removing a record shows as a gap where it was, unless it was the last one; the
      remaining chain is then genuine, which is what a checkpoint's head is for. */
  lemma RemovedRecordShows(h: Hasher, rs: seq<Record>, i: nat)
    requires Genuine(h, rs) && i < |rs|
    ensures var left := rs[..i] + rs[i + 1..];
            && (Genuine(h, left) <==> i == |rs| - 1)
            && (i == |rs| - 1
                || (Failures(h, left) != [] && Failures(h, left)[0] == Failure(i + 2, rs[i + 1].id, SequenceGap(i + 1))))
  {
    var left := rs[..i] + rs[i + 1..];
    if i == |rs| - 1 {
      assert left == rs[..i];
      GenuinePrefix(h, rs, i);
    } else {
      assert rs[..i] == left[..i];
      SameBefore(h, rs, left, i);
      forall j | 0 <= j < i ensures FailuresAt(h, left, j) == [] {
        GenuineExpected(h, rs, j);
      }
      assert LinkOk(h, rs, i + 1);
      GenuineExpected(h, rs, i);
      GapAt(h, rs, left, i);
      FirstFailure(h, left, i);
      AcceptsExactlyGenuine(h, left);
    }
  }

  lemma GapAt(h: Hasher, rs: seq<Record>, left: seq<Record>, i: nat)
    requires i + 1 < |rs| && left == rs[..i] + rs[i + 1..]
    requires rs[i + 1].sequence == i + 2 && ExpectedSequence(rs, i) == i + 1
    ensures FailuresAt(h, left, i) != [] && FailuresAt(h, left, i)[0] == Failure(i + 2, rs[i + 1].id, SequenceGap(i + 1))
  {
    hide ComputeHash, Expected;
    assert left[i] == rs[i + 1] && (i > 0 ==> left[i - 1] == rs[i - 1]);
    assert ExpectedSequence(left, i) == i + 1;
  }
}
