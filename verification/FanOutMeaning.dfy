/** What a mass finding comes to, field by field: the cases it resolves, what they and their
    memberships then say, what it reports, and every audit record it writes. */
module FanOutMeaning {
  import opened Prelude
  import opened Json
  import opened Canonical
  import opened Chain
  import opened AuditLog
  import opened Clocks
  import opened Disputes
  import opened DisputeRules
  import opened MassEvents

  /** A member that was not taken off the event and has not been handled. */
  ghost predicate ToDo(m: Membership) {
    m.removed == false && m.appliedAt == None
  }

  ghost predicate CanResolve(d: Dispute) {
    d.status == Investigating || d.status == Escalated
  }

  /** The members resolved among the first `n`, in key order. */
  ghost function ResolvedMembers(w: World, n: nat): (r: seq<nat>)
    requires n <= |w.memberships| && WorldOk(w)
    ensures forall k :: 0 <= k < |r| ==> r[k] < n && ToDo(w.memberships[r[k]]) && CanResolve(w.cases[w.memberships[r[k]].caseId])
    ensures forall i :: 0 <= i < n && ToDo(w.memberships[i]) && CanResolve(w.cases[w.memberships[i].caseId]) ==> i in r
  {
    if n == 0 then []
    else
      ResolvedMembers(w, n - 1)
      + (if ToDo(w.memberships[n - 1]) && CanResolve(w.cases[w.memberships[n - 1].caseId]) then [n - 1] else [])
  }

  /** The cases passed over among the first `n` members, in key order. */
  ghost function PassedOver(w: World, n: nat): seq<string>
    requires n <= |w.memberships| && WorldOk(w)
  {
    if n == 0 then []
    else
      var m := w.memberships[n - 1];
      PassedOver(w, n - 1) + (if ToDo(m) && !CanResolve(w.cases[m.caseId]) then [m.caseId] else [])
  }

  /** The report: how many cases were resolved, and which were passed over. */
  lemma {:induction false} FanOutReports(w: World, n: nat)
    requires WorldOk(w) && n <= |w.memberships|
    ensures AppliedOf(w, PendingUpTo(w.memberships, n)) == |ResolvedMembers(w, n)|
    ensures SkippedOf(w, PendingUpTo(w.memberships, n)) == PassedOver(w, n)
  {
    if n > 0 {
      FanOutReports(w, n - 1);
      var before, p := PendingUpTo(w.memberships, n - 1), PendingUpTo(w.memberships, n);
      if Waiting(w.memberships[n - 1]) {
        assert p[..|p| - 1] == before && p[|p| - 1] == n - 1;
      } else {
        assert p == before;
      }
    }
  }

  // -- cases and memberships -------------------------------------------------

  lemma {:induction false} MarkedAre(ms: seq<Membership>, members: seq<nat>, now: int, i: nat)
    requires i < |ms|
    ensures var after := MarkAll(ms, members, now);
            |after| == |ms| && after[i] == if i in members then ms[i].(appliedAt := Some(now)) else ms[i]
    decreases |members|
  {
    var n := |members|;
    if n > 0 {
      MarkedAre(ms, members[..n - 1], now, i);
      assert members == members[..n - 1] + [members[n - 1]];
    }
  }

  /** Once a fan-out is through: a member that was to do is marked with its instant, and its
      case resolved with the finding if it was being investigated or escalated; any other
      member and its case are as they were. */
  lemma FanOutWrites(x: Order, w: World, i: nat)
    requires WorldOk(w) && i < |w.memberships|
    ensures var after := HandleAll(x, w, Pending(w.memberships));
            var m := w.memberships[i];
            && |after.memberships| == |w.memberships| && m.caseId in after.cases
            && var d, d' := w.cases[m.caseId], after.cases[m.caseId];
               if ToDo(m) then
                 && after.memberships[i] == m.(appliedAt := Some(x.now))
                 && if CanResolve(d) then ResolvedWith(x, d, d') else d' == d
               else after.memberships[i] == m && d' == d
  {
    var p := Pending(w.memberships);
    PendingAre(w.memberships, |w.memberships|);
    HandledShape(x, w, p);
    MarkedAre(w.memberships, p, x.now, i);
    hide HandleAll, PendingUpTo, MassResolve, MarkAll;
    if ToDo(w.memberships[i]) {
      EachHandledOnce(x, w, p, i);
      MassResolveWrites(w.cases[w.memberships[i].caseId], x.outcome, x.notes, x.refund, Actor("user", x.actorId), x.now);
    } else {
      HandledApart(x, w, p, i);
    }
  }

  /** The case resolved with the finding as a user's, its clock stopped where it was not, and
      one note of it; its deadlines, tracks and stamps as they were. */
  ghost predicate ResolvedWith(x: Order, d: Dispute, d': Dispute) {
    && d'.status == Resolved && d'.finding == Some(Finding(x.outcome, x.notes, x.refund, x.now))
    && d'.trail == d.trail + [Note("resolve", d.status, Resolved, x.notes, 0, Actor("user", x.actorId), x.now)]
    && d'.clock.state == Stopped && d'.clock.rows == d.clock.rows
    && (if d.clock.state == Stopped then d'.clock == d.clock else d'.clock.stoppedAt == Some(x.now))
    && d'.acknowledgedAt == d.acknowledgedAt && d'.closedAt == d.closedAt && d'.tracks == d.tracks
    && d'.ackDeadline == d.ackDeadline && d'.resolutionDeadline == d.resolutionDeadline
  }

  /** A case that is no member's is untouched. */
  lemma {:induction false} OtherCases(x: Order, w: World, members: seq<nat>, id: string)
    requires WorldOk(w) && InRange(w.memberships, members) && id in w.cases
    requires forall i :: 0 <= i < |w.memberships| ==> w.memberships[i].caseId != id
    ensures var after := HandleAll(x, w, members); id in after.cases && after.cases[id] == w.cases[id]
    decreases |members|
  {
    hide MassResolve, AppendOne;
    if members != [] {
      var before := members[..|members| - 1];
      HandledShape(x, w, before);
      OtherCases(x, w, before, id);
    }
  }

  // -- records ---------------------------------------------------------------

  /** A record of a case resolved by the event: who, when, which case, and in its payload the
      move, the finding, the stopped clock and the event. */
  ghost predicate SaysResolved(x: Order, r: Record, id: string, caseId: string, from: Status) {
    && r.id == id && r.tenantId == x.tenantId && r.eventType == "dispute.resolve" && r.occurredAt == x.nowText
    && r.actorType == "user" && r.actorId == x.actorId && r.actorIp == None
    && r.subjectType == "dispute" && r.subjectId == caseId && r.corrects == ""
    && r.payload.JObj? && PayloadSays(x, r.payload.members, from)
  }

  ghost predicate PayloadSays(x: Order, p: Members, from: Status) {
    && Lookup(p, "from") == Some(JStr(if from == Investigating then "investigating" else "escalated"))
    && Lookup(p, "to") == Some(JStr("resolved")) && Lookup(p, "reason") == Some(JStr(x.notes))
    && Lookup(p, "outcome") == Some(JStr(x.outcome))
    && Lookup(p, "refund_amount_minor") == Some(if x.refund.Some? then JInt(x.refund.value) else JNull)
    && Lookup(p, "clock_remaining_seconds") == Some(JInt(0))
    && Lookup(p, "mass_event_id") == Some(JStr(x.eventId)) && Lookup(p, "mass_event_title") == Some(JStr(x.title))
  }

  lemma EventSays(x: Order, name: string)
    ensures Lookup(EventOf(x), name)
         == if name == "refund_amount_minor" then Some(if x.refund.Some? then JInt(x.refund.value) else JNull)
            else if name == "clock_remaining_seconds" then Some(JInt(0))
            else if name == "mass_event_id" then Some(JStr(x.eventId))
            else if name == "mass_event_title" then Some(JStr(x.title))
            else None
  {
    var p := EventOf(x);
    assert Lookup(p.rest.rest.rest, name) == if name == "mass_event_title" then Some(JStr(x.title)) else None;
    assert Lookup(p.rest.rest, name) ==
      if name == "mass_event_id" then Some(JStr(x.eventId))
      else if name == "mass_event_title" then Some(JStr(x.title)) else None;
  }

  lemma EntrySays(x: Order, caseId: string, from: Status)
    requires from == Investigating || from == Escalated
    ensures PayloadSays(x, EntryFor(x, caseId, from).payload, from)
  {
    var p := EntryFor(x, caseId, from).payload;
    var fromText := JStr(StatusText(from));
    forall name ensures Lookup(p, name) ==
                          if name == "from" then Some(fromText)
                          else if name == "to" then Some(JStr("resolved"))
                          else if name == "reason" then Some(JStr(x.notes))
                          else if name == "outcome" then Some(JStr(x.outcome))
                          else Lookup(EventOf(x), name)
    {
      hide EventOf;
      assert Lookup(p.rest.rest, name) ==
        if name == "reason" then Some(JStr(x.notes))
        else if name == "outcome" then Some(JStr(x.outcome)) else Lookup(EventOf(x), name);
    }
    hide Lookup, EntryFor, EventOf;
    forall name ensures Lookup(EventOf(x), name)
                     == if name == "refund_amount_minor" then Some(if x.refund.Some? then JInt(x.refund.value) else JNull)
                        else if name == "clock_remaining_seconds" then Some(JInt(0))
                        else if name == "mass_event_id" then Some(JStr(x.eventId))
                        else if name == "mass_event_title" then Some(JStr(x.title))
                        else None
    {
      EventSays(x, name);
    }
  }

  /** Each record of the fan-out, in key order of the cases resolved. */
  ghost predicate RecordOfMember(x: Order, w: World, log: seq<Record>, i: nat, k: nat)
    requires WorldOk(w) && i < |w.memberships| && k < |log|
  {
    && SaysResolved(x, log[k], x.ids(k), w.memberships[i].caseId, w.cases[w.memberships[i].caseId].status)
    && PlacedAfter(log[..k], log[k]) && log[k].hash == x.h(CanonicalText(log[k]) + ("\0" + log[k].prevHash))
  }

  ghost predicate RecordsOf(x: Order, w: World, log: seq<Record>, members: seq<nat>)
    requires WorldOk(w) && InRange(w.memberships, members)
  {
    && |log| == |w.log| + |members| && log[..|w.log|] == w.log
    && (forall k :: 0 <= k < |members| ==> RecordOfMember(x, w, log, members[k], |w.log| + k))
  }

  lemma WrittenSays(x: Order, r: Record, id: string, caseId: string, from: Status)
    requires from == Investigating || from == Escalated
    requires WrittenFor(x.h, r, x.tenantId, EntryFor(x, caseId, from), id, x.nowText)
    ensures SaysResolved(x, r, id, caseId, from)
  {
    EntrySays(x, caseId, from);
    hide PayloadSays, EventOf, CanonicalText;
  }

  lemma RecordsStand(x: Order, w: World, log: seq<Record>, r: Record, members: seq<nat>)
    requires WorldOk(w) && InRange(w.memberships, members) && RecordsOf(x, w, log, members)
    ensures forall k :: 0 <= k < |members| ==> RecordOfMember(x, w, log + [r], members[k], |w.log| + k)
  {
    hide SaysResolved, PlacedAfter, CanonicalText, WorldOk;
    forall k | 0 <= k < |members| ensures RecordOfMember(x, w, log + [r], members[k], |w.log| + k) {
      assert RecordOfMember(x, w, log, members[k], |w.log| + k);
      assert (log + [r])[..|w.log| + k] == log[..|w.log| + k];
    }
  }

  lemma AddRecord(x: Order, w: World, log: seq<Record>, r: Record, members: seq<nat>, i: nat)
    requires WorldOk(w) && InRange(w.memberships, members) && i < |w.memberships| && RecordsOf(x, w, log, members)
    requires SaysResolved(x, r, x.ids(|log|), w.memberships[i].caseId, w.cases[w.memberships[i].caseId].status)
    requires PlacedAfter(log, r) && r.hash == x.h(CanonicalText(r) + ("\0" + r.prevHash))
    ensures RecordsOf(x, w, log + [r], members + [i])
  {
    hide SaysResolved, PlacedAfter, CanonicalText, WorldOk;
    RecordsStand(x, w, log, r, members);
    assert (log + [r])[..|log|] == log;
    assert RecordOfMember(x, w, log + [r], i, |log|);
    hide RecordOfMember;
  }

  lemma OneMoreRecord(x: Order, w: World, log: seq<Record>, members: seq<nat>, i: nat)
    requires WorldOk(w) && InRange(w.memberships, members) && i < |w.memberships| && RecordsOf(x, w, log, members)
    requires CanResolve(w.cases[w.memberships[i].caseId])
    ensures var caseId := w.memberships[i].caseId;
            var e := EntryFor(x, caseId, w.cases[caseId].status);
            RecordsOf(x, w, AppendOne(x.h, x.tenantId, log, e, x.ids(|log|), x.nowText), members + [i])
  {
    var caseId, from := w.memberships[i].caseId, w.cases[w.memberships[i].caseId].status;
    hide EntryFor, NextLink, PlacedAfter, CanonicalText;
    var e := EntryFor(x, caseId, from);
    var r := NextLink(x.h, x.tenantId, log, e, x.ids(|log|), x.nowText);
    LinkWrites(x.h, x.tenantId, log, e, x.ids(|log|), x.nowText);
    WrittenSays(x, r, x.ids(|log|), caseId, from);
    AddRecord(x, w, log, r, members, i);
    hide RecordsOf, SaysResolved, WorldOk, WrittenFor;
  }

  lemma ResolvedInRange(w: World, n: nat)
    requires WorldOk(w) && n <= |w.memberships|
    ensures InRange(w.memberships, ResolvedMembers(w, n))
  {
    hide WorldOk, ToDo, CanResolve;
    assert forall k :: 0 <= k < |ResolvedMembers(w, n)| ==> ResolvedMembers(w, n)[k] < n;
  }

  /** The log of a fan-out: what there was, then one record for each case resolved, in key
      order, each naming its case and chained to the one before. */
  lemma {:induction false} FanOutRecords(x: Order, w: World, n: nat)
    requires WorldOk(w) && n <= |w.memberships|
    ensures InRange(w.memberships, ResolvedMembers(w, n))
    ensures RecordsOf(x, w, HandleAll(x, w, PendingUpTo(w.memberships, n)).log, ResolvedMembers(w, n))
    decreases n
  {
    hide *;
    ResolvedInRange(w, n);
    if n == 0 {
      NoRecords(x, w);
    } else {
      FanOutRecords(x, w, n - 1);
      NextMember(x, w, n - 1);
    }
  }

  lemma NoRecords(x: Order, w: World)
    requires WorldOk(w)
    ensures RecordsOf(x, w, HandleAll(x, w, PendingUpTo(w.memberships, 0)).log, ResolvedMembers(w, 0))
  {
    assert w.log[..|w.log|] == w.log;
    hide RecordOfMember, WorldOk;
  }

  lemma NextMember(x: Order, w: World, i: nat)
    requires WorldOk(w) && i < |w.memberships| && InRange(w.memberships, ResolvedMembers(w, i))
    requires RecordsOf(x, w, HandleAll(x, w, PendingUpTo(w.memberships, i)).log, ResolvedMembers(w, i))
    ensures InRange(w.memberships, ResolvedMembers(w, i + 1))
    ensures RecordsOf(x, w, HandleAll(x, w, PendingUpTo(w.memberships, i + 1)).log, ResolvedMembers(w, i + 1))
  {
    var before := PendingUpTo(w.memberships, i);
    ResolvedInRange(w, i + 1);
    PendingAre(w.memberships, i);
    assert InRange(w.memberships, before) && i !in before;
    var resolves := CanResolve(w.cases[w.memberships[i].caseId]);
    if ToDo(w.memberships[i]) {
      assert PendingUpTo(w.memberships, i + 1) == before + [i];
      assert ResolvedMembers(w, i + 1) == ResolvedMembers(w, i) + if resolves then [i] else [];
      hide HandleAll, MarkAll, RecordsOf, PendingUpTo, ResolvedMembers, CanResolve;
      HandledApart(x, w, before, i);
      NextRecord(x, w, before, i, ResolvedMembers(w, i));
    } else {
      assert PendingUpTo(w.memberships, i + 1) == before;
      assert ResolvedMembers(w, i + 1) == ResolvedMembers(w, i);
      hide *;
    }
  }

  /** What handling one more pending member does to the log. */
  lemma NextRecord(x: Order, w: World, before: seq<nat>, i: nat, resolved: seq<nat>)
    requires WorldOk(w) && InRange(w.memberships, resolved) && RecordsOf(x, w, HandleAll(x, w, before).log, resolved)
    requires i < |w.memberships| && SameMembers(w.memberships, HandleAll(x, w, before).memberships)
    requires var id, was := w.memberships[i].caseId, HandleAll(x, w, before);
             id in was.cases && was.cases[id] == w.cases[id]
    ensures RecordsOf(x, w, HandleAll(x, w, before + [i]).log,
                      resolved + if CanResolve(w.cases[w.memberships[i].caseId]) then [i] else [])
  {
    assert (before + [i])[..|before|] == before;
    var was := HandleAll(x, w, before);
    assert HandleAll(x, w, before + [i]) == HandleOne(x, was, i);
    hide HandleAll, AppendOne, EntryFor, MassResolve, RecordsOf;
    if CanResolve(w.cases[w.memberships[i].caseId]) {
      OneMoreRecord(x, w, was.log, resolved, i);
    } else {
      assert resolved + [] == resolved;
    }
  }
}
