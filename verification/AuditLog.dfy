/** Appending to a tenant's audit chain, one record or a batch at a time. */
module AuditLog {
  import opened Prelude
  import opened Json
  import opened Chain

  datatype Entry = Entry(eventType: string, occurredAt: Option<string>, actor: Actor, actorIp: Option<string>,
                         subjectType: string, subjectId: string, payload: Members, corrects: string)

  datatype AuditError = ActorRequired | TenantMismatch(active: string)

  // -- one link --------------------------------------------------------------

  function Unsealed(tenantId: string, e: Entry, id: string, now: string, sequence: int, prevHash: string): Record {
    Record.Record(id, tenantId, sequence, e.eventType, if e.occurredAt.Some? then e.occurredAt.value else now,
      e.actor.kind, e.actor.id, e.actorIp, e.subjectType, e.subjectId, JObj(e.payload), e.corrects, prevHash, "")
  }

  /** The record written for an entry, at a given place in the chain. */
  function Link(h: Hasher, tenantId: string, e: Entry, id: string, now: string, sequence: int,
          prevHash: string): Record {
    var r := Unsealed(tenantId, e, id, now, sequence, prevHash);
    r.(hash := ComputeHash(h, r, prevHash))
  }

  lemma LinkSealed(h: Hasher, tenantId: string, e: Entry, id: string, now: string, sequence: int, prevHash: string)
    ensures var r := Link(h, tenantId, e, id, now, sequence, prevHash);
            r.tenantId == tenantId && r.sequence == sequence && r.prevHash == prevHash && r.hash == ComputeHash(h, r, prevHash)
  {
    var r := Link(h, tenantId, e, id, now, sequence, prevHash);
    SameContentSameText(Unsealed(tenantId, e, id, now, sequence, prevHash), r);
  }

  /** Everything a record says of the entry it was written for, and that its hash is of just
      that and of the predecessor's hash. */
  ghost predicate WrittenFor(h: Hasher, r: Record, tenantId: string, e: Entry, id: string, now: string) {
    && r.id == id && r.tenantId == tenantId
    && r.eventType == e.eventType
    && (e.occurredAt.Some? ==> r.occurredAt == e.occurredAt.value) && (e.occurredAt.None? ==> r.occurredAt == now)
    && r.actorType == e.actor.kind && r.actorId == e.actor.id && r.actorIp == e.actorIp
    && r.subjectType == e.subjectType && r.subjectId == e.subjectId
    && r.payload == JObj(e.payload) && r.corrects == e.corrects
    && r.hash == h(CanonicalText(r) + ("\0" + r.prevHash))
  }

  /** It is numbered 1 after nothing, and otherwise one more than the record with the greatest
      number, whose hash it names. */
  ghost predicate PlacedAfter(rs: seq<Record>, r: Record) {
    if rs == [] then r.sequence == 1 && r.prevHash == "sha256:0000000000000000000000000000000000000000000000000000000000000000"
    else
      && (forall i :: 0 <= i < |rs| ==> rs[i].sequence < r.sequence)
      && exists i :: 0 <= i < |rs| && r.sequence == rs[i].sequence + 1 && r.prevHash == rs[i].hash
  }

  // -- reading the head ------------------------------------------------------

  /** The record with the greatest sequence number. */
  function Newest(rs: seq<Record>): (r: Option<Record>)
    ensures r.None? <==> rs == []
    ensures r.Some? ==> r.value in rs && forall i :: 0 <= i < |rs| ==> rs[i].sequence <= r.value.sequence
  {
    if rs == [] then None
    else
      match Newest(rs[..|rs| - 1])
      case None => Some(rs[|rs| - 1])
      case Some(best) => if rs[|rs| - 1].sequence > best.sequence then Some(rs[|rs| - 1]) else Some(best)
  }

  function NextSequence(rs: seq<Record>): int {
    if Newest(rs).None? then 1 else Newest(rs).value.sequence + 1
  }

  function HeadHash(rs: seq<Record>): string {
    if Newest(rs).None? then GENESIS else Newest(rs).value.hash
  }

  lemma NewestAppended(rs: seq<Record>, r: Record)
    requires r.sequence >= NextSequence(rs)
    ensures Newest(rs + [r]) == Some(r)
  {
    assert (rs + [r])[..|rs|] == rs;
  }

  /** In a genuine chain the greatest sequence number is the last record's. */
  lemma GenuineNewest(h: Hasher, rs: seq<Record>)
    requires Genuine(h, rs)
    ensures NextSequence(rs) == |rs| + 1 && HeadHash(rs) == Head(rs)
  {
    if rs != [] {
      var r := Newest(rs).value;
      var i :| 0 <= i < |rs| && rs[i] == r;
      assert LinkOk(h, rs, i) && LinkOk(h, rs, |rs| - 1);
    }
  }

  // -- the reference: one append at a time -----------------------------------

  function NextLink(h: Hasher, tenantId: string, rs: seq<Record>, e: Entry, id: string, now: string): Record {
    Link(h, tenantId, e, id, now, NextSequence(rs), HeadHash(rs))
  }

  /** What one append writes. */
  lemma LinkWrites(h: Hasher, tenantId: string, rs: seq<Record>, e: Entry, id: string, now: string)
    ensures var r := NextLink(h, tenantId, rs, e, id, now); WrittenFor(h, r, tenantId, e, id, now) && PlacedAfter(rs, r)
  {
    var r := NextLink(h, tenantId, rs, e, id, now);
    LinkSealed(h, tenantId, e, id, now, NextSequence(rs), HeadHash(rs));
    hide CanonicalText, Newest;
    assert CanonicalText(r) + "\0" + r.prevHash == CanonicalText(r) + ("\0" + r.prevHash);
    if rs != [] {
      var best := Newest(rs).value;
      var i :| 0 <= i < |rs| && rs[i] == best;
    }
  }

  /** What each of many appends writes, and after which records. */
  lemma {:induction false} EachWritten(h: Hasher, tenantId: string, rs: seq<Record>, entries: seq<Entry>, ids: seq<string>,
          now: string, i: nat)
    requires i < |entries| == |ids|
    ensures var after := AppendEach(h, tenantId, rs, entries, ids, now);
            && |after| == |rs| + |entries| && after[..|rs|] == rs
            && WrittenFor(h, after[|rs| + i], tenantId, entries[i], ids[i], now)
            && PlacedAfter(after[..|rs| + i], after[|rs| + i])
    decreases |entries|
  {
    hide NextLink, WrittenFor, PlacedAfter;
    var n := |entries| - 1;
    var before := AppendEach(h, tenantId, rs, entries[..n], ids[..n], now);
    var after := AppendEach(h, tenantId, rs, entries, ids, now);
    if n > 0 {
      EachWritten(h, tenantId, rs, entries[..n], ids[..n], now, if i < n then i else 0);
    }
    assert after[..|before|] == before;
    if i == n {
      LinkWrites(h, tenantId, before, entries[n], ids[n], now);
    } else {
      assert after[..|rs| + i] == before[..|rs| + i];
    }
  }

  /** A batch has one record for each entry, in order, each after everything before it. */
  ghost predicate AllWritten(h: Hasher, tenantId: string, rs: seq<Record>, written: seq<Record>, entries: seq<Entry>,
          ids: seq<string>, now: string)
    requires |entries| == |ids|
  {
    && |written| == |entries|
    && (forall i :: 0 <= i < |entries| ==> WrittenFor(h, written[i], tenantId, entries[i], ids[i], now))
    && (forall i :: 0 <= i < |entries| ==> PlacedAfter(rs + written[..i], written[i]))
  }

  lemma BatchWritten(h: Hasher, tenantId: string, rs: seq<Record>, written: seq<Record>, entries: seq<Entry>,
          ids: seq<string>, now: string)
    requires |entries| == |ids| && rs + written == AppendEach(h, tenantId, rs, entries, ids, now)
    ensures AllWritten(h, tenantId, rs, written, entries, ids, now)
  {
    hide WrittenFor, PlacedAfter, AppendEach;
    if entries == [] {
      NothingAppended(h, tenantId, rs, entries, ids, now);
    } else {
      EachWritten(h, tenantId, rs, entries, ids, now, 0);
    }
    forall i | 0 <= i < |entries|
      ensures WrittenFor(h, written[i], tenantId, entries[i], ids[i], now) && PlacedAfter(rs + written[..i], written[i])
    {
      EachWritten(h, tenantId, rs, entries, ids, now, i);
      assert (rs + written)[..|rs| + i] == rs + written[..i];
    }
  }

  lemma NothingAppended(h: Hasher, tenantId: string, rs: seq<Record>, entries: seq<Entry>, ids: seq<string>, now: string)
    requires entries == [] && ids == []
    ensures AppendEach(h, tenantId, rs, entries, ids, now) == rs
  {
  }

  function AppendOne(h: Hasher, tenantId: string, rs: seq<Record>, e: Entry, id: string, now: string): seq<Record> {
    rs + [NextLink(h, tenantId, rs, e, id, now)]
  }

  function AppendEach(h: Hasher, tenantId: string, rs: seq<Record>, entries: seq<Entry>, ids: seq<string>,
          now: string): seq<Record>
    requires |entries| == |ids|
  {
    var n := |entries|;
    if n == 0 then rs
    else AppendOne(h, tenantId, AppendEach(h, tenantId, rs, entries[..n - 1], ids[..n - 1], now), entries[n - 1], ids[n - 1], now)
  }

  /** An append extends a genuine chain to a genuine chain, and only extends it. */
  lemma AppendOneGenuine(h: Hasher, tenantId: string, rs: seq<Record>, e: Entry, id: string, now: string)
    requires Genuine(h, rs)
    ensures Genuine(h, AppendOne(h, tenantId, rs, e, id, now))
  {
    GenuineNewest(h, rs);
    LinkSealed(h, tenantId, e, id, now, NextSequence(rs), HeadHash(rs));
    GenuineAppend(h, rs, Link(h, tenantId, e, id, now, NextSequence(rs), HeadHash(rs)));
  }

  lemma {:induction false} AppendEachGenuine(h: Hasher, tenantId: string, rs: seq<Record>, entries: seq<Entry>,
                                             ids: seq<string>, now: string)
    requires |entries| == |ids| && Genuine(h, rs)
    ensures var after := AppendEach(h, tenantId, rs, entries, ids, now);
            Genuine(h, after) && rs <= after && |after| == |rs| + |entries|
    decreases |entries|
  {
    var n := |entries|;
    if n > 0 {
      AppendEachGenuine(h, tenantId, rs, entries[..n - 1], ids[..n - 1], now);
      var before := AppendEach(h, tenantId, rs, entries[..n - 1], ids[..n - 1], now);
      AppendOneGenuine(h, tenantId, before, entries[n - 1], ids[n - 1], now);
    }
  }

  /** Two batches are one: how entries are split between batches does not show. */
  lemma {:induction false} AppendEachSplits(h: Hasher, tenantId: string, rs: seq<Record>, a: seq<Entry>, b: seq<Entry>,
                                            ia: seq<string>, ib: seq<string>, now: string)
    requires |a| == |ia| && |b| == |ib|
    ensures AppendEach(h, tenantId, rs, a + b, ia + ib, now)
         == AppendEach(h, tenantId, AppendEach(h, tenantId, rs, a, ia, now), b, ib, now)
    decreases |b|
  {
    hide AppendOne;
    var n := |b|;
    if n == 0 {
      assert a + b == a && ia + ib == ia;
    } else {
      AppendEachSplits(h, tenantId, rs, a, b[..n - 1], ia, ib[..n - 1], now);
      assert (a + b)[..|a| + n - 1] == a + b[..n - 1];
      assert (ia + ib)[..|a| + n - 1] == ia + ib[..n - 1];
    }
  }

  // -- refusals --------------------------------------------------------------

  function WrongTenant(active: Option<string>, tenantId: string): bool {
    active.Some? && active.value != tenantId
  }

  /** One of the four kinds of actor, named unless it is the system. */
  ghost predicate Attributed(a: Actor) {
    (a.kind == "user" && a.id != "") || (a.kind == "api_key" && a.id != "") || (a.kind == "customer" && a.id != "")
    || a.kind == "system"
  }

  /** An append refuses an unnamed actor first, then another tenant's context. */
  function AppendRefused(e: Entry, active: Option<string>, tenantId: string): Option<AuditError> {
    if !ActorOk(e.actor) then Some(ActorRequired)
    else if WrongTenant(active, tenantId) then Some(TenantMismatch(active.value))
    else None
  }

  /** A batch refuses another tenant's context first; an empty one refuses nothing. */
  function BatchRefused(entries: seq<Entry>, active: Option<string>, tenantId: string): Option<AuditError> {
    if entries == [] then None
    else if WrongTenant(active, tenantId) then Some(TenantMismatch(active.value))
    else if forall i :: 0 <= i < |entries| ==> ActorOk(entries[i].actor) then None
    else Some(ActorRequired)
  }

  /** The links of a batch, built one at a time from the head they start at. */
  method BuildBatch(h: Hasher, tenantId: string, rs: seq<Record>, entries: seq<Entry>, ids: seq<string>, now: string)
    returns (written: seq<Record>)
    requires |entries| == |ids|
    ensures rs + written == AppendEach(h, tenantId, rs, entries, ids, now)
  {
    hide AppendEach, AppendOne, Newest, Link;
    AppendNone(h, tenantId, rs, entries, ids, now);
    var head := Newest(rs);
    var sequence := if head.Some? then head.value.sequence + 1 else 1;
    var prevHash := if head.Some? then head.value.hash else GENESIS;
    written := [];
    assert rs + written == rs;
    for i := 0 to |entries|
      invariant rs + written == AppendEach(h, tenantId, rs, entries[..i], ids[..i], now)
      invariant sequence == NextSequence(rs + written) && prevHash == HeadHash(rs + written)
    {
      hide NextSequence, HeadHash;
      var record := Link(h, tenantId, entries[i], ids[i], now, sequence, prevHash);
      BatchStep(h, tenantId, rs, written, entries, ids, now, i, record);
      written := written + [record];
      prevHash := record.hash;
      sequence := sequence + 1;
    }
    assert entries[..|entries|] == entries && ids[..|ids|] == ids;
  }

  // -- the log ---------------------------------------------------------------

  /** One tenant's records, as its transactions see them. */
  class AuditTrail {
    const tenantId: string
    var records: seq<Record>

    constructor (tenantId: string)
      ensures this.tenantId == tenantId && records == []
    {
      this.tenantId := tenantId;
      records := [];
    }

    method Append(h: Hasher, e: Entry, id: string, now: string, active: Option<string>)
      returns (r: Result<Record, AuditError>)
      modifies this
      ensures match AppendRefused(e, active, tenantId)
              case Some(error) => r == Err(error) && records == old(records)
              case None => r == Ok(NextLink(h, tenantId, old(records), e, id, now)) && records == old(records) + [r.value]
      ensures r.Ok? ==> WrittenFor(h, r.value, tenantId, e, id, now) && PlacedAfter(old(records), r.value)
      ensures r.Ok? <==> Attributed(e.actor) && active in {None, Some(tenantId)}
      ensures Genuine(h, old(records)) ==> Genuine(h, records)
    {
      if !ActorOk(e.actor) {
        return Err(ActorRequired);
      }
      if WrongTenant(active, tenantId) {
        return Err(TenantMismatch(active.value));
      }
      var head := Newest(records);
      var sequence := if head.Some? then head.value.sequence + 1 else 1;
      var prevHash := if head.Some? then head.value.hash else GENESIS;
      var record := Link(h, tenantId, e, id, now, sequence, prevHash);
      LinkWrites(h, tenantId, records, e, id, now);
      hide WrittenFor, PlacedAfter;
      if Genuine(h, records) {
        AppendOneGenuine(h, tenantId, records, e, id, now);
      }
      records := records + [record];
      return Ok(record);
    }

    /** Many records under one acquisition of the lock; the same chain as one append
        each. */
    method AppendBatch(h: Hasher, entries: seq<Entry>, ids: seq<string>, now: string, active: Option<string>)
      returns (r: Result<seq<Record>, AuditError>)
      requires |ids| == |entries|
      modifies this
      ensures match BatchRefused(entries, active, tenantId)
              case Some(error) => r == Err(error) && records == old(records)
              case None => r.Ok? && records == old(records) + r.value == AppendEach(h, tenantId, old(records), entries, ids, now)
      ensures r.Ok? ==> AllWritten(h, tenantId, old(records), r.value, entries, ids, now)
      ensures r.Ok? <==> entries == [] || (active in {None, Some(tenantId)} && forall e :: e in entries ==> Attributed(e.actor))
      ensures Genuine(h, old(records)) ==> Genuine(h, records)
    {
      if entries == [] {
        return Ok([]);
      }
      if WrongTenant(active, tenantId) {
        return Err(TenantMismatch(active.value));
      }
      for i := 0 to |entries|
        invariant records == old(records)
        invariant forall j :: 0 <= j < i ==> ActorOk(entries[j].actor)
      {
        if !ActorOk(entries[i].actor) {
          return Err(ActorRequired);
        }
      }
      hide AllWritten, AppendEach, Genuine;
      var written := BuildBatch(h, tenantId, records, entries, ids, now);
      if Genuine(h, records) {
        AppendEachGenuine(h, tenantId, records, entries, ids, now);
      }
      BatchWritten(h, tenantId, records, written, entries, ids, now);
      records := records + written;
      return Ok(written);
    }

    /** Correcting a record appends another; the original stays where it was. */
    method Correct(h: Hasher, original: Record, reason: string, actor: Actor, id: string, now: string,
            active: Option<string>)
      returns (r: Result<Record, AuditError>)
      modifies this
      ensures r.Ok? <==> ActorOk(actor) && !WrongTenant(active, tenantId)
      ensures r.Err? ==> records == old(records)
      ensures r.Ok? ==> records == old(records) + [r.value] && r.value.corrects == original.id
                        && r.value.eventType == original.eventType + ".corrected"
                        && r.value.payload == JObj(Member("reason", JStr(reason),
                                                   Member("corrects_sequence", JInt(original.sequence), NoMembers)))
      ensures Genuine(h, old(records)) ==> Genuine(h, records)
    {
      var payload := Member("reason", JStr(reason), Member("corrects_sequence", JInt(original.sequence), NoMembers));
      r := Append(h, Entry(original.eventType + ".corrected", None, actor, None, original.subjectType, original.subjectId,
        payload, original.id), id, now, active);
    }
  }

  lemma AppendNone(h: Hasher, tenantId: string, rs: seq<Record>, entries: seq<Entry>, ids: seq<string>, now: string)
    requires |entries| == |ids|
    ensures AppendEach(h, tenantId, rs, entries[..0], ids[..0], now) == rs == rs + []
  {
  }

  lemma EachStep(h: Hasher, tenantId: string, rs: seq<Record>, entries: seq<Entry>, ids: seq<string>, now: string,
          i: nat)
    requires i < |entries| == |ids|
    ensures AppendEach(h, tenantId, rs, entries[..i + 1], ids[..i + 1], now)
         == AppendOne(h, tenantId, AppendEach(h, tenantId, rs, entries[..i], ids[..i], now), entries[i], ids[i], now)
  {
    hide AppendOne;
    assert entries[..i + 1][..i] == entries[..i] && ids[..i + 1][..i] == ids[..i];
  }

  lemma HeadStep(h: Hasher, tenantId: string, rs: seq<Record>, e: Entry, id: string, now: string)
    ensures var after := AppendOne(h, tenantId, rs, e, id, now);
            NextSequence(after) == NextSequence(rs) + 1 && HeadHash(after) == NextLink(h, tenantId, rs, e, id, now).hash
  {
    LinkSealed(h, tenantId, e, id, now, NextSequence(rs), HeadHash(rs));
    hide Link, ComputeHash, Newest;
    NewestAppended(rs, NextLink(h, tenantId, rs, e, id, now));
  }

  lemma BatchStep(h: Hasher, tenantId: string, rs: seq<Record>, written: seq<Record>, entries: seq<Entry>,
          ids: seq<string>, now: string, i: nat, record: Record)
    requires i < |entries| == |ids|
    requires rs + written == AppendEach(h, tenantId, rs, entries[..i], ids[..i], now)
    requires record == NextLink(h, tenantId, rs + written, entries[i], ids[i], now)
    ensures rs + (written + [record]) == AppendEach(h, tenantId, rs, entries[..i + 1], ids[..i + 1], now)
    ensures NextSequence(rs + (written + [record])) == NextSequence(rs + written) + 1
    ensures HeadHash(rs + (written + [record])) == record.hash
  {
    hide AppendEach, Link, NextSequence, HeadHash;
    assert rs + (written + [record]) == (rs + written) + [record];
    EachStep(h, tenantId, rs, entries, ids, now, i);
    HeadStep(h, tenantId, rs + written, entries[i], ids[i], now);
  }
}
