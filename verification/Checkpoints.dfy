/** Signed checkpoints over a tenant's chain: their ranges, what their head hash
    commits to, and what their signature covers. */
module Checkpoints {
  import opened Prelude
  import opened Json
  import opened Canonical
  import opened Chain
  import opened AuditLog
  import opened Verify

  datatype Checkpoint = Checkpoint(tenantId: string, from: int, to: int, recordCount: nat, headHash: string,
                                   verified: bool, signature: string)

  datatype Outcome = Outcome(checkpoint: Option<Checkpoint>, verified: bool, recordsChecked: nat, firstBreak: Option<int>)

  // A keyed digest of some text.
  type Mac = string -> string

  // -- signatures ------------------------------------------------------------

  function SignedPayload(c: Checkpoint): Members {
    Member("tenant_id", JStr(c.tenantId), Member("sequence_from", JInt(c.from), Member("sequence_to", JInt(c.to), SignedTail(c))))
  }

  function SignedTail(c: Checkpoint): Members {
    Member("record_count", JInt(c.recordCount), Member("head_hash", JStr(c.headHash),
    Member("verified", JBool(c.verified), NoMembers)))
  }

  function SignedText(c: Checkpoint): string {
    Text(JObj(SignedPayload(c)))
  }

  predicate SignatureValid(mac: Mac, c: Checkpoint) {
    mac(SignedText(c)) == c.signature
  }

  function Signed(mac: Mac, c: Checkpoint): Checkpoint {
    c.(signature := mac(SignedText(c)))
  }

  /** What is signed, under which name. */
  lemma SignedNames(c: Checkpoint)
    ensures var p := SignedPayload(c);
            && Lookup(p, "tenant_id") == Some(JStr(c.tenantId))
            && Lookup(p, "sequence_from") == Some(JInt(c.from)) && Lookup(p, "sequence_to") == Some(JInt(c.to))
            && Lookup(p, "record_count") == Some(JInt(c.recordCount))
            && Lookup(p, "head_hash") == Some(JStr(c.headHash)) && Lookup(p, "verified") == Some(JBool(c.verified))
  {
    var p, t := SignedPayload(c), SignedTail(c);
    assert Lookup(t.rest.rest, "verified") == Some(JBool(c.verified));
    assert Lookup(t.rest, "head_hash") == Some(JStr(c.headHash));
    assert Lookup(t.rest, "verified") == Lookup(t.rest.rest, "verified");
    assert Lookup(t, "verified") == Lookup(t.rest, "verified");
    assert Lookup(t, "head_hash") == Lookup(t.rest, "head_hash");
    forall name | name in {"record_count", "head_hash", "verified"} ensures Lookup(p, name) == Lookup(t, name) {
      assert Lookup(p.rest.rest, name) == Lookup(t, name);
      assert Lookup(p.rest, name) == Lookup(p.rest.rest, name);
    }
    assert Lookup(p.rest, "sequence_to") == Some(JInt(c.to));
  }

  lemma PayloadKeys(c: Checkpoint, d: Checkpoint)
    ensures SameKeys(SignedPayload(c), SignedPayload(d))
  {
    var a, b := SignedTail(c), SignedTail(d);
    assert SameKeys(a.rest, b.rest);
    assert SameKeys(a, b);
    var p, q := SignedPayload(c), SignedPayload(d);
    assert SameKeys(p.rest.rest, q.rest.rest);
    assert SameKeys(p, q);
  }

  lemma PayloadDetermined(c: Checkpoint, d: Checkpoint)
    requires NormalMembers(SignedPayload(c)) == NormalMembers(SignedPayload(d))
    ensures c.(signature := d.signature) == d
  {
    var a, b := SignedPayload(c), SignedPayload(d);
    Peel(a, b);
    Peel(a.rest, b.rest);
    Peel(a.rest.rest, b.rest.rest);
    var s, t := SignedTail(c), SignedTail(d);
    Peel(s, t);
    Peel(s.rest, t.rest);
    Peel(s.rest.rest, t.rest.rest);
  }

  /** The signed text determines every signed field. */
  lemma SignedTextDetermines(c: Checkpoint, d: Checkpoint)
    ensures SignedText(c) == SignedText(d) <==> c.(signature := d.signature) == d
  {
    if SignedText(c) == SignedText(d) {
      TextDetermines(JObj(SignedPayload(c)), JObj(SignedPayload(d)));
      PayloadKeys(c, d);
      NormalSameKeys(SignedPayload(c), SignedPayload(d));
      SortSameKeys(NormalMembers(SignedPayload(c)), NormalMembers(SignedPayload(d)));
      PayloadDetermined(c, d);
    }
  }

  /** Altering any published field of a signed checkpoint invalidates its signature,
      unless the two texts collide under the key. */
  lemma AlteredCheckpointShows(mac: Mac, c: Checkpoint, d: Checkpoint)
    requires SignatureValid(mac, c) && d.signature == c.signature && d != c
    ensures !SignatureValid(mac, d) || Collides(mac, SignedText(c), SignedText(d))
  {
    SignedTextDetermines(c, d);
  }

  // -- creating one ----------------------------------------------------------

  /** The checkpoint reaching furthest. */
  function Latest(cs: seq<Checkpoint>): (r: Option<Checkpoint>)
    ensures r.None? <==> cs == []
    ensures r.Some? ==> r.value in cs && forall i :: 0 <= i < |cs| ==> cs[i].to <= r.value.to
  {
    if cs == [] then None
    else
      match Latest(cs[..|cs| - 1])
      case None => Some(cs[|cs| - 1])
      case Some(best) => if cs[|cs| - 1].to > best.to then Some(cs[|cs| - 1]) else Some(best)
  }

  function CoveredTo(cs: seq<Checkpoint>): int {
    if Latest(cs).None? then 0 else Latest(cs).value.to
  }

  ghost predicate Attests(mac: Mac, tenantId: string, c: Checkpoint, rs: seq<Record>) {
    && 1 <= c.to <= |rs|
    && c.tenantId == tenantId
    && c.verified && c.recordCount <= c.to
    && c.headHash == HashBefore(rs, c.to)
    && SignatureValid(mac, c)
  }

  /** Ranges that start at 1 and follow on from one another. */
  ghost predicate Tiles(cs: seq<Checkpoint>) {
    forall i :: 0 <= i < |cs| ==> TileAt(cs, i)
  }

  ghost predicate TileAt(cs: seq<Checkpoint>, i: nat)
    requires i < |cs|
  {
    cs[i].from == (if i == 0 then 1 else cs[i - 1].to + 1) && cs[i].from <= cs[i].to
  }

  /** The tenant's checkpoints, none of which is ever changed or removed. */
  class CheckpointStore {
    const tenantId: string
    var checkpoints: seq<Checkpoint>

    constructor (tenantId: string)
      ensures this.tenantId == tenantId && checkpoints == []
    {
      this.tenantId := tenantId;
      checkpoints := [];
    }

    /** Walk the chain, given in sequence order, and record what was found. The head is
        read after the walk: `records` may hold more than was `walked`. */
    method Create(h: Hasher, mac: Mac, walked: seq<Record>, records: seq<Record>) returns (r: Outcome)
      modifies this
      ensures checkpoints == AfterCreate(h, mac, tenantId, old(checkpoints), walked, records)
      ensures r.verified == (records == [] || Genuine(h, walked))
      ensures r.recordsChecked == if records == [] then 0 else |walked|
      ensures r.checkpoint == if records == [] then None else Latest(checkpoints)
      ensures r.firstBreak.None? <==> r.verified
    {
      hide SignedText, LinkOk, Failures, Latest, Newest;
      var verdict := VerifyTenant(h, tenantId, walked);
      var head := Newest(records);
      if head.None? {
        return Outcome(None, true, 0, None);
      }
      var previous := Latest(checkpoints);
      var from := if previous.Some? then previous.value.to + 1 else 1;
      if previous.Some? && previous.value.to >= head.value.sequence {
        return Outcome(previous, verdict.Accepted(), verdict.recordsChecked, verdict.FirstBreak());
      }
      var checkpoint := Signed(mac, Checkpoint(tenantId, from, head.value.sequence, verdict.recordsChecked,
        head.value.hash, verdict.Accepted(), ""));
      LatestAppended(checkpoints, checkpoint);
      checkpoints := checkpoints + [checkpoint];
      return Outcome(Some(checkpoint), verdict.Accepted(), verdict.recordsChecked, verdict.FirstBreak());
    }
  }

  lemma LatestAppended(cs: seq<Checkpoint>, c: Checkpoint)
    requires cs != [] ==> c.to > CoveredTo(cs)
    ensures Latest(cs + [c]) == Some(c)
  {
    assert (cs + [c])[..|cs|] == cs;
  }

  /** Nothing new makes no checkpoint; otherwise one more, from where the last ended to
      the head, saying how much was walked and whether it verified. */
  ghost function AfterCreate(h: Hasher, mac: Mac, tenantId: string, cs: seq<Checkpoint>, walked: seq<Record>,
          records: seq<Record>): seq<Checkpoint> {
    if records == [] || (cs != [] && CoveredTo(cs) >= NextSequence(records) - 1) then cs
    else cs + [Signed(mac, Checkpoint(tenantId, CoveredTo(cs) + 1, NextSequence(records) - 1, |walked|, HeadHash(records),
                                      Genuine(h, walked), ""))]
  }

  // -- what a run of checkpoints says ----------------------------------------

  lemma {:induction false} TilesLatest(cs: seq<Checkpoint>)
    requires Tiles(cs)
    ensures CoveredTo(cs) == (if cs == [] then 0 else cs[|cs| - 1].to) >= |cs|
  {
    if cs != [] {
      var before := cs[..|cs| - 1];
      forall i | 0 <= i < |before| ensures TileAt(before, i) {
        assert TileAt(cs, i);
      }
      TilesLatest(before);
      assert TileAt(cs, |cs| - 1);
      LatestAppended(before, cs[|cs| - 1]);
      assert before + [cs[|cs| - 1]] == cs;
    }
  }

  ghost predicate AllAttest(mac: Mac, tenantId: string, cs: seq<Checkpoint>, rs: seq<Record>) {
    forall i :: 0 <= i < |cs| ==> Attests(mac, tenantId, cs[i], rs)
  }

  /** Over a genuine chain that has grown since, a checkpoint closes the gap exactly,
      appends between its walk and its reading of the head included; its record count
      falls short of its end exactly when there were any. */
  lemma CreateExtendsTiling(h: Hasher, mac: Mac, tenantId: string, cs: seq<Checkpoint>, rs: seq<Record>,
          walked: seq<Record>, grown: seq<Record>)
    requires Genuine(h, rs) && Genuine(h, grown) && rs <= walked <= grown
    requires Tiles(cs) && CoveredTo(cs) == |rs| && AllAttest(mac, tenantId, cs, rs)
    ensures var after := AfterCreate(h, mac, tenantId, cs, walked, grown);
            && Tiles(after) && CoveredTo(after) == |grown| && AllAttest(mac, tenantId, after, grown)
            && (if |rs| == |grown| then after == cs
                else
                  && |after| == |cs| + 1 && after[..|cs|] == cs && after[|cs|].recordCount == |walked|
                  && (after[|cs|].recordCount == after[|cs|].to <==> walked == grown))
  {
    hide *;
    AfterCreateForm(h, mac, tenantId, cs, rs, walked, grown);
    AttestsGrown(mac, tenantId, cs, rs, grown);
    if |rs| < |grown| {
      var c := Checkpoint(tenantId, CoveredTo(cs) + 1, |grown|, |walked|, Head(grown), true, "");
      NewAttests(mac, tenantId, CoveredTo(cs) + 1, walked, grown);
      SignedKeeps(mac, c);
      TilesExtended(cs, Signed(mac, c));
      AttestsExtended(mac, tenantId, cs, Signed(mac, c), grown);
      assert walked == grown[..|walked|];
    }
  }

  lemma AfterCreateForm(h: Hasher, mac: Mac, tenantId: string, cs: seq<Checkpoint>, rs: seq<Record>, walked: seq<Record>,
          grown: seq<Record>)
    requires Genuine(h, grown) && rs <= walked <= grown && Tiles(cs) && CoveredTo(cs) == |rs|
    ensures AfterCreate(h, mac, tenantId, cs, walked, grown)
         == if |rs| == |grown| then cs
            else cs + [Signed(mac, Checkpoint(tenantId, CoveredTo(cs) + 1, |grown|, |walked|, Head(grown), true, ""))]
  {
    GenuineNewest(h, grown);
    GenuinePrefix(h, grown, |walked|);
    assert grown[..|walked|] == walked;
    TilesLatest(cs);
    hide Genuine, NextSequence, HeadHash, Head, SignedText, CoveredTo, Tiles;
  }

  lemma SignedKeeps(mac: Mac, c: Checkpoint)
    ensures Signed(mac, c) == c.(signature := Signed(mac, c).signature)
  {
  }

  lemma AttestsGrown(mac: Mac, tenantId: string, cs: seq<Checkpoint>, rs: seq<Record>, grown: seq<Record>)
    requires rs <= grown && AllAttest(mac, tenantId, cs, rs)
    ensures AllAttest(mac, tenantId, cs, grown)
  {
    hide SignatureValid;
    forall i | 0 <= i < |cs| ensures Attests(mac, tenantId, cs[i], grown) {
      assert Attests(mac, tenantId, cs[i], rs);
    }
  }

  lemma NewAttests(mac: Mac, tenantId: string, from: int, walked: seq<Record>, rs: seq<Record>)
    requires rs != [] && walked <= rs
    ensures Attests(mac, tenantId, Signed(mac, Checkpoint(tenantId, from, |rs|, |walked|, Head(rs), true, "")), rs)
  {
    var c := Checkpoint(tenantId, from, |rs|, |walked|, Head(rs), true, "");
    SignedTextDetermines(c, Signed(mac, c));
    hide SignedText;
  }

  lemma AttestsExtended(mac: Mac, tenantId: string, cs: seq<Checkpoint>, c: Checkpoint, rs: seq<Record>)
    requires AllAttest(mac, tenantId, cs, rs) && Attests(mac, tenantId, c, rs)
    ensures AllAttest(mac, tenantId, cs + [c], rs)
  {
    hide Attests;
  }

  lemma TilesExtended(cs: seq<Checkpoint>, c: Checkpoint)
    requires Tiles(cs) && c.from == CoveredTo(cs) + 1 <= c.to
    ensures Tiles(cs + [c]) && CoveredTo(cs + [c]) == c.to
  {
    TilesLatest(cs);
    LatestAppended(cs, c);
    hide Latest;
    forall i | 0 <= i < |cs + [c]| ensures TileAt(cs + [c], i) {
      assert i < |cs| ==> TileAt(cs, i);
    }
  }

  // What one checkpoint reads: the chain as it walks it, and as it is when it then reads
  // the head.
  datatype Reading = Reading(walked: seq<Record>, headed: seq<Record>)

  /** The chain as each checkpoint reads it: genuine, and only ever extended. */
  ghost predicate Growing(h: Hasher, readings: seq<Reading>) {
    && (forall i :: 0 <= i < |readings| ==> readings[i].walked <= readings[i].headed && Genuine(h, readings[i].headed))
    && (forall i :: 0 < i < |readings| ==> readings[i - 1].headed <= readings[i].walked)
  }

  ghost function RunCheckpoints(h: Hasher, mac: Mac, tenantId: string, readings: seq<Reading>): seq<Checkpoint> {
    var n := |readings| - 1;
    if n < 0 then []
    else
      var before := RunCheckpoints(h, mac, tenantId, readings[..n]);
      AfterCreate(h, mac, tenantId, before, readings[n].walked, readings[n].headed)
  }

  /** The chain when the last checkpoint read its head. */
  ghost function LastRead(readings: seq<Reading>): seq<Record> {
    if readings == [] then [] else readings[|readings| - 1].headed
  }

  lemma GrowingLast(h: Hasher, readings: seq<Reading>)
    requires Growing(h, readings) && readings != []
    ensures var before, last := readings[..|readings| - 1], readings[|readings| - 1];
            && Growing(h, before) && LastRead(before) <= last.walked <= last.headed && Genuine(h, last.headed)
  {
    hide Genuine;
    var before := readings[..|readings| - 1];
    assert forall i :: 0 <= i < |before| ==> before[i] == readings[i];
  }

  /** In every run, whatever is appended in the meantime, the checkpoints tile the chain
      from 1 to its head, and each one attests the chain up to where it ends. */
  lemma {:induction false} CheckpointsTile(h: Hasher, mac: Mac, tenantId: string, readings: seq<Reading>)
    requires Growing(h, readings)
    ensures var cs, rs := RunCheckpoints(h, mac, tenantId, readings), LastRead(readings);
            Genuine(h, rs) && Tiles(cs) && CoveredTo(cs) == |rs| && AllAttest(mac, tenantId, cs, rs)
    decreases |readings|
  {
    hide Genuine, Tiles, CoveredTo, AllAttest, AfterCreate, Growing;
    var n := |readings| - 1;
    if n >= 0 {
      GrowingLast(h, readings);
      CheckpointsTile(h, mac, tenantId, readings[..n]);
      CreateExtendsTiling(h, mac, tenantId, RunCheckpoints(h, mac, tenantId, readings[..n]), LastRead(readings[..n]),
                          readings[n].walked, readings[n].headed);
    } else {
      NoCheckpoints(h, mac, tenantId);
    }
  }

  lemma NoCheckpoints(h: Hasher, mac: Mac, tenantId: string)
    ensures Genuine(h, []) && Tiles([]) && CoveredTo([]) == 0 && AllAttest(mac, tenantId, [], [])
  {
  }

  /** The first record of a tenant, appended between the walk over nothing and the reading of
      the head: it is attested as verified by a checkpoint that counts no record at all. */
  lemma UnwalkedAttested(h: Hasher, mac: Mac, tenantId: string, e: Entry, id: string, now: string)
    ensures var readings := [Reading([], AppendOne(h, tenantId, [], e, id, now))];
            && Growing(h, readings)
            && var cs := RunCheckpoints(h, mac, tenantId, readings);
               |cs| == 1 && Covers(cs[0], 1) && cs[0].to == 1 && cs[0].verified && cs[0].recordCount == 0
  {
    var one := AppendOne(h, tenantId, [], e, id, now);
    var readings := [Reading([], one)];
    AppendOneGenuine(h, tenantId, [], e, id, now);
    NoCheckpoints(h, mac, tenantId);
    assert RunCheckpoints(h, mac, tenantId, readings[..0]) == [];
    hide Genuine, Tiles, CoveredTo, AllAttest, AfterCreate, NextLink, RunCheckpoints;
    CreateExtendsTiling(h, mac, tenantId, [], [], [], one);
    UnwalkedIs(h, mac, tenantId, one);
    OneCheckpoint(h, mac, tenantId, Reading([], one));
  }

  lemma OneCheckpoint(h: Hasher, mac: Mac, tenantId: string, r: Reading)
    ensures RunCheckpoints(h, mac, tenantId, [r]) == AfterCreate(h, mac, tenantId, [], r.walked, r.headed)
  {
    hide AfterCreate;
    assert [r][..0] == [];
    assert RunCheckpoints(h, mac, tenantId, []) == [];
  }

  lemma UnwalkedIs(h: Hasher, mac: Mac, tenantId: string, one: seq<Record>)
    requires Genuine(h, one) && |one| == 1
    ensures AfterCreate(h, mac, tenantId, [], [], one) == [Signed(mac, Checkpoint(tenantId, 1, 1, 0, Head(one), true, ""))]
  {
    NoCheckpoints(h, mac, tenantId);
    hide Genuine, AfterCreate;
    assert [] + [Signed(mac, Checkpoint(tenantId, 1, 1, 0, Head(one), true, ""))]
        == [Signed(mac, Checkpoint(tenantId, 1, 1, 0, Head(one), true, ""))];
    AfterCreateForm(h, mac, tenantId, [], [], [], one);
  }

  ghost predicate Covers(c: Checkpoint, sequence: int) {
    c.from <= sequence <= c.to
  }

  lemma {:induction false} TilesOrdered(cs: seq<Checkpoint>, i: nat, j: nat)
    requires Tiles(cs) && i < j < |cs|
    ensures cs[i].to < cs[j].from
    decreases j
  {
    assert TileAt(cs, j) && TileAt(cs, j - 1);
    if i < j - 1 {
      TilesOrdered(cs, i, j - 1);
    }
  }

  lemma {:induction false} TilesCover(cs: seq<Checkpoint>, n: nat, sequence: int) returns (i: nat)
    requires Tiles(cs) && n < |cs| && 1 <= sequence <= cs[n].to
    ensures i <= n && Covers(cs[i], sequence)
    decreases n
  {
    assert TileAt(cs, n);
    if sequence >= cs[n].from {
      i := n;
    } else {
      i := TilesCover(cs, n - 1, sequence);
    }
  }

  /** Ranges that tile leave no record out and attest none twice. */
  lemma EachRecordOnce(cs: seq<Checkpoint>, sequence: int)
    requires Tiles(cs)
    ensures 1 <= sequence <= CoveredTo(cs) <==> exists i :: 0 <= i < |cs| && Covers(cs[i], sequence)
    ensures forall i, j :: 0 <= i < j < |cs| ==> !(Covers(cs[i], sequence) && Covers(cs[j], sequence))
  {
    TilesLatest(cs);
    if 1 <= sequence <= CoveredTo(cs) {
      var i := TilesCover(cs, |cs| - 1, sequence);
    }
    forall i | 0 <= i < |cs| && Covers(cs[i], sequence) ensures 1 <= sequence <= CoveredTo(cs) {
      assert TileAt(cs, i) && (i > 0 ==> TileAt(cs, 0));
      if i > 0 {
        TilesOrdered(cs, 0, i);
      }
      if i < |cs| - 1 {
        TilesOrdered(cs, i, |cs| - 1);
        assert TileAt(cs, |cs| - 1);
      }
    }
    forall i, j | 0 <= i < j < |cs| ensures !(Covers(cs[i], sequence) && Covers(cs[j], sequence)) {
      TilesOrdered(cs, i, j);
    }
  }

  /** A checkpoint's head hash fixes its whole prefix: a genuine chain with that hash
      at that place has the very same records up to it, or exhibits a collision. */
  lemma CheckpointFixesPrefix(h: Hasher, mac: Mac, tenantId: string, c: Checkpoint, rs: seq<Record>, other: seq<Record>)
    requires Genuine(h, rs) && Genuine(h, other) && Attests(mac, tenantId, c, rs)
    requires c.to <= |other| && HashBefore(other, c.to) == c.headHash
    ensures SameRecords(rs[..c.to], other[..c.to]) || CollisionBetween(h, rs, other)
  {
    var a, b := rs[..c.to], other[..c.to];
    GenuinePrefix(h, rs, c.to);
    GenuinePrefix(h, other, c.to);
    assert Head(a) == HashBefore(rs, c.to) && Head(b) == HashBefore(other, c.to);
    hide Genuine, SameRecords, HashBefore;
    HeadCommits(h, a, b);
    if CollisionBetween(h, a, b) {
      CollisionGrows(h, rs, other, c.to);
    }
  }

  lemma CollisionGrows(h: Hasher, a: seq<Record>, b: seq<Record>, n: nat)
    requires n <= |a| && n <= |b| && CollisionBetween(h, a[..n], b[..n])
    ensures CollisionBetween(h, a, b)
  {
    hide *;
    CollisionExtends(h, a, b, n);
  }
}
