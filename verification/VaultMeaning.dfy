/** What sealing stores and gives back, and what placing a hold, releasing one and destroying
    a key write: in the texts, fields and names that are stored. */
module VaultMeaning {
  import opened Prelude
  import opened Json
  import opened Canonical
  import opened Chain
  import opened AuditLog
  import opened Vault

  // -- sealed text -----------------------------------------------------------

  /** While sealing is on, text that is not empty is stored behind a marker and reads as
      written under the subject's key; otherwise it is stored as it is. */
  lemma SealWrites(x: Context, v: Store, subject: string, plaintext: string, on: bool, newKey: string, nonce: nat)
    requires CipherOk(x.cipher) && Seal(x, v, subject, plaintext, on, newKey, nonce).Ok?
    ensures var (after, stored) := Seal(x, v, subject, plaintext, on, newKey, nonce).value;
            if on && plaintext != "" then
              && "sealed:v1:" <= stored && Unseal(x, after, subject, stored) == plaintext
              && subject in after.keys
              && after == v.(keys := if subject in v.keys then v.keys else v.keys[subject := after.keys[subject]])
              && exists k :: OpensWith(x, after, subject, stored, k, plaintext)
            else stored == plaintext && after == v
  {
    if on && plaintext != "" {
      assert Inverts(x.cipher, x.master, newKey, nonce);
      var keys := KeyFor(x, v.keys, subject, newKey, nonce);
      var k := DataKey(x, keys[subject]).value;
      assert Inverts(x.cipher, k, plaintext, nonce);
      var (after, stored) := Seal(x, v, subject, plaintext, on, newKey, nonce).value;
      assert stored[|SEALED_PREFIX|..] == x.cipher.encrypt(k, plaintext, nonce);
      assert OpensWith(x, after, subject, stored, k, plaintext);
    }
  }

  /** What follows the marker is the text under a data key, and that key is in the subject's
      row under the master key. */
  ghost predicate OpensWith(x: Context, v: Store, subject: string, stored: string, k: string, plaintext: string) {
    && subject in v.keys && v.keys[subject].destroyed == None
    && x.cipher.decrypt(x.master, v.keys[subject].wrapped) == Some(k)
    && |stored| >= 10 && x.cipher.decrypt(k, stored[10..]) == Some(plaintext)
  }

  /** A subject without a key is given the new one, under the master key; a subject with one
      keeps it; nobody else's is touched. */
  lemma KeyMade(x: Context, keys: map<string, KeyRow>, subject: string, newKey: string, nonce: nat)
    requires CipherOk(x.cipher)
    ensures var after := KeyFor(x, keys, subject, newKey, nonce);
            if subject in keys then after == keys
            else
              && subject in after && after[subject].destroyed == None && after == keys[subject := after[subject]]
              && x.cipher.decrypt(x.master, after[subject].wrapped) == Some(newKey)
  {
    assert Inverts(x.cipher, x.master, newKey, nonce);
  }

  /** Sealed text reads as the erasure notice where the subject has no key, or one destroyed. */
  lemma ErasedReads(x: Context, v: Store, subject: string, stored: string)
    ensures !("sealed:v1:" <= stored) ==> Unseal(x, v, subject, stored) == stored
    ensures "sealed:v1:" <= stored && (subject !in v.keys || v.keys[subject].destroyed.Some?) ==>
              Unseal(x, v, subject, stored) == "[content erased under a lawful request]"
  {
  }

  // -- records ---------------------------------------------------------------

  /** One record more: of this event, by this user, about this subject, chained to the one
      before it. */
  ghost predicate OneRecord(x: Context, log: seq<Record>, after: seq<Record>, eventType: string, subjectType: string,
          subjectId: string, actorId: string, now: string)
  {
    && |after| == |log| + 1 && after[..|log|] == log
    && var r := after[|log|];
       && r.id == x.ids(|log|) && r.tenantId == x.tenantId && r.eventType == eventType && r.occurredAt == now
       && r.actorType == "user" && r.actorId == actorId && r.actorIp == None
       && r.subjectType == subjectType && r.subjectId == subjectId && r.corrects == "" && r.payload.JObj?
       && PlacedAfter(log, r) && r.hash == x.h(CanonicalText(r) + ("\0" + r.prevHash))
  }

  lemma AuditedWrites(x: Context, v: Store, eventType: string, subjectType: string, subjectId: string, actorId: string,
          payload: Members, now: string)
    ensures var after := Audited(x, v, eventType, subjectType, subjectId, actorId, payload, now);
            && after == v.(log := after.log)
            && OneRecord(x, v.log, after.log, eventType, subjectType, subjectId, actorId, now)
            && after.log[|v.log|].payload.members == payload
  {
    var e := Entry(eventType, None, Actor("user", actorId), None, subjectType, subjectId, payload, "");
    LinkWrites(x.h, x.tenantId, v.log, e, x.ids(|v.log|), now);
    hide PlacedAfter, NextLink, CanonicalText;
  }

  /** Placing a hold records its matter and reason, as done by whoever placed it. */
  lemma PlaceWrites(x: Context, v: Store, h: Hold, holdId: string, now: string)
    requires Place(x, v, h, holdId, now).Ok?
    ensures var log := Place(x, v, h, holdId, now).value.log;
            && OneRecord(x, v.log, log, "legal_hold.placed", "legal_hold", holdId, h.placedBy, now)
            && var p := log[|v.log|].payload.members;
               Lookup(p, "matter_reference") == Some(JStr(h.matter)) && Lookup(p, "reason") == Some(JStr(h.reason))
  {
    var payload := Member("matter_reference", JStr(h.matter), Member("reason", JStr(h.reason), NoMembers));
    AuditedWrites(x, v.(holds := v.holds + [h.(released := None)]), "legal_hold.placed", "legal_hold", holdId, h.placedBy,
                  payload, now);
    assert Lookup(payload.rest, "reason") == Some(JStr(h.reason));
    hide Audited, OneRecord, Blank, Fits, Targeted;
  }

  /** A hold is released exactly when two different people put their names to it with a reason
      and it exists and was not released; it then carries what they signed. */
  lemma ReleaseWrites(x: Context, v: Store, i: nat, sign: Signed, holdId: string, now: string)
    ensures Release(x, v, i, sign, holdId, now).Ok?
       <==> && !Blank(sign.reason) && !Blank(sign.approvedBy) && sign.approvedBy != sign.who && sign.who != ""
            && i < |v.holds| && v.holds[i].released == None
    ensures Release(x, v, i, sign, holdId, now).Ok? ==>
              var after := Release(x, v, i, sign, holdId, now).value;
              && after == v.(holds := v.holds[i := v.holds[i].(released := Some(sign))], log := after.log)
              && OneRecord(x, v.log, after.log, "legal_hold.released", "legal_hold", holdId, sign.who, now)
              && var p := after.log[|v.log|].payload.members;
                 Lookup(p, "approved_by") == Some(JStr(sign.approvedBy)) && Lookup(p, "reason") == Some(JStr(sign.reason))
  {
    if i < |v.holds| {
      var payload := Member("approved_by", JStr(sign.approvedBy), Member("reason", JStr(sign.reason), NoMembers));
      AuditedWrites(x, v.(holds := v.holds[i := v.holds[i].(released := Some(sign))]), "legal_hold.released", "legal_hold",
                    holdId, sign.who, payload, now);
      assert Lookup(payload.rest, "reason") == Some(JStr(sign.reason));
    }
    hide Audited, OneRecord, Blank;
  }

  /** A shred goes ahead exactly when two different people signed it with a reason and no hold
      keeps the subject's material back; it leaves no trace of a live key but what was signed,
      and records whether there was one. */
  lemma ShredWrites(x: Context, v: Store, subject: string, sign: Signed, now: string)
    ensures Shred(x, v, subject, sign, now).Ok?
       <==> && !Blank(sign.reason) && !Blank(sign.approvedBy) && sign.approvedBy != sign.who && sign.who != ""
            && !exists h :: h in v.holds && KeepsBack(h, v.cases, subject)
    ensures Shred(x, v, subject, sign, now).Ok? ==>
              var after := Shred(x, v, subject, sign, now).value;
              var live := subject in v.keys && v.keys[subject].destroyed == None;
              && after.keys == (if live then v.keys[subject := KeyRow("", Some(sign))] else v.keys)
              && after.holds == v.holds && after.cases == v.cases
              && OneRecord(x, v.log, after.log, "crypto.shredded", "subject_key", subject, sign.who, now)
              && ShredSays(after.log[|v.log|].payload.members, live, sign)
  {
    HeldExactlyWhen(v, subject);
    var live := if Live(v, subject) then 1 else 0;
    var payload := Member("keys_destroyed", JInt(live), Member("approved_by", JStr(sign.approvedBy),
      Member("reason", JStr(sign.reason), Member("irreversible", JBool(true), NoMembers))));
    AuditedWrites(x, v.(keys := Erased(v.keys, subject, sign)), "crypto.shredded", "subject_key", subject, sign.who, payload, now);
    ShredPayload(live, sign);
    hide Audited, OneRecord, Blank, Held, KeepsBack, Lookup;
  }

  ghost predicate ShredSays(p: Members, live: bool, sign: Signed) {
    && Lookup(p, "keys_destroyed") == Some(JInt(if live then 1 else 0))
    && Lookup(p, "approved_by") == Some(JStr(sign.approvedBy)) && Lookup(p, "reason") == Some(JStr(sign.reason))
    && Lookup(p, "irreversible") == Some(JBool(true))
  }

  lemma ShredPayload(live: nat, sign: Signed)
    requires live <= 1
    ensures ShredSays(Member("keys_destroyed", JInt(live), Member("approved_by", JStr(sign.approvedBy),
                        Member("reason", JStr(sign.reason), Member("irreversible", JBool(true), NoMembers)))), live == 1, sign)
  {
    var p := Member("keys_destroyed", JInt(live), Member("approved_by", JStr(sign.approvedBy),
      Member("reason", JStr(sign.reason), Member("irreversible", JBool(true), NoMembers))));
    assert Lookup(p.rest.rest, "reason") == Some(JStr(sign.reason)) && Lookup(p.rest, "reason") == Lookup(p.rest.rest, "reason");
    assert Lookup(p.rest.rest.rest, "irreversible") == Some(JBool(true));
    assert Lookup(p.rest.rest, "irreversible") == Lookup(p.rest.rest.rest, "irreversible");
    assert Lookup(p.rest, "irreversible") == Lookup(p.rest.rest, "irreversible");
    assert Lookup(p.rest, "approved_by") == Some(JStr(sign.approvedBy));
  }
}
