/** The vault and the legal holds as the objects whose rows their operations write. */
module VaultObject {
  import opened Prelude
  import opened Json
  import opened Chain
  import opened AuditLog
  import opened Vault

  class Tenant {
    const x: Context
    const trail: AuditTrail
    var keys: map<string, KeyRow>
    var holds: seq<Hold>
    var cases: seq<Case>

    constructor (x: Context)
      ensures this.x == x && Now() == NEW.store && fresh(trail) && trail.tenantId == x.tenantId
    {
      this.x := x;
      trail := new AuditTrail(x.tenantId);
      keys, holds, cases := map[], [], [];
    }

    function Now(): Store
      reads this, trail
    {
      Store(keys, holds, cases, trail.records)
    }

    method KeyForSubject(subject: string, newKey: string, nonce: nat) returns (row: KeyRow)
      modifies this`keys
      ensures keys == KeyFor(x, old(keys), subject, newKey, nonce) && subject in keys && row == keys[subject]
    {
      if subject !in keys {
        keys := keys[subject := KeyRow(x.cipher.encrypt(x.master, newKey, nonce), None)];
      }
      row := keys[subject];
    }

    /** Sealing that fails leaves no key behind. */
    method SealText(subject: string, plaintext: string, on: bool, newKey: string, nonce: nat)
      returns (r: Result<string, VaultError>)
      modifies this`keys
      ensures match Seal(x, old(Now()), subject, plaintext, on, newKey, nonce)
              case Ok((v, stored)) => r == Ok(stored) && Now() == v
              case Err(e) => r == Err(e) && Now() == old(Now())
    {
      if !on || plaintext == "" {
        return Ok(plaintext);
      }
      var saved := keys;
      var row := KeyForSubject(subject, newKey, nonce);
      var k := DataKey(x, row);
      if k.Err? {
        keys := saved;
        return Err(k.error);
      }
      return Ok(SEALED_PREFIX + x.cipher.encrypt(k.value, plaintext, nonce));
    }

    /** Every active hold that covers a case. */
    method HoldsOn(d: Case) returns (covering: seq<nat>)
      ensures forall i: nat :: i in covering <==> i < |holds| && Covers(holds[i], d)
    {
      covering := [];
      for i := 0 to |holds|
        invariant forall k: nat :: k in covering <==> k < i && Covers(holds[k], d)
      {
        if Covers(holds[i], d) {
          covering := covering + [i];
        }
      }
    }

    /** The holds that forbid erasing a subject: those on any of its cases, and those on
        the subject itself. */
    method HoldsForCustomer(subject: string) returns (covering: set<nat>)
      ensures forall i: nat :: i in covering <==> i < |holds| && Blocks(holds[i], cases, subject)
      ensures covering != {} <==> Held(Now(), subject)
      ensures covering != {} <==> exists h :: h in holds && KeepsBack(h, cases, subject)
    {
      HeldExactlyWhen(Now(), subject);
      hide KeepsBack;
      covering := {};
      for j := 0 to |cases|
        invariant forall i: nat :: i in covering <==> i < |holds| && OnSomeCase(holds[i], cases[..j], subject)
      {
        assert cases[..j + 1] == cases[..j] + [cases[j]];
        hide Covers;
        if cases[j].customer == subject {
          var more := HoldsOn(cases[j]);
          covering := covering + (set i | i in more);
        }
        forall i | 0 <= i < |holds|
          ensures OnSomeCase(holds[i], cases[..j + 1], subject)
             <==> OnSomeCase(holds[i], cases[..j], subject) || (cases[j].customer == subject && Covers(holds[i], cases[j]))
        {
          OneMoreCase(holds[i], cases[..j], cases[j], subject);
        }
      }
      assert cases[..|cases|] == cases;
      for i := 0 to |holds|
        invariant forall k: nat :: k in covering <==>
                    k < |holds| && (OnSomeCase(holds[k], cases, subject) || (k < i && OnCustomer(holds[k], subject)))
      {
        if OnCustomer(holds[i], subject) {
          covering := covering + {i};
        }
      }
      if Held(Now(), subject) {
        var i :| 0 <= i < |holds| && Blocks(holds[i], cases, subject);
        assert i in covering;
      }
      if covering != {} {
        var i :| i in covering;
        assert Blocks(Now().holds[i], cases, subject);
      }
    }

    method AppendRecord(eventType: string, subjectType: string, subjectId: string, actorId: string, payload: Members,
            now: string)
      requires actorId != "" && trail.tenantId == x.tenantId
      modifies trail
      ensures Now() == Audited(x, old(Now()), eventType, subjectType, subjectId, actorId, payload, now)
    {
      hide NextLink;
      var r := trail.Append(x.h, Entry(eventType, None, Actor("user", actorId), None, subjectType, subjectId, payload, ""),
        x.ids(|trail.records|), now, None);
    }

    method PlaceHold(hold: Hold, holdId: string, now: string) returns (failed: Option<VaultError>)
      requires trail.tenantId == x.tenantId
      modifies this, trail
      ensures match Place(x, old(Now()), hold, holdId, now)
              case Ok(v) => failed == None && Now() == v
              case Err(e) => failed == Some(e) && Now() == old(Now())
    {
      if Blank(hold.matter) || Blank(hold.reason) {
        return Some(VaultError.ReasonMissing);
      }
      if !Fits(hold) || !Targeted(hold) {
        return Some(HoldInvalid);
      }
      holds := holds + [hold.(released := None)];
      AppendRecord("legal_hold.placed", "legal_hold", holdId, hold.placedBy,
        Member("matter_reference", JStr(hold.matter), Member("reason", JStr(hold.reason), NoMembers)), now);
      return None;
    }

    method ReleaseHold(i: nat, sign: Signed, holdId: string, now: string) returns (failed: Option<VaultError>)
      requires trail.tenantId == x.tenantId
      modifies this, trail
      ensures match Release(x, old(Now()), i, sign, holdId, now)
              case Ok(v) => failed == None && Now() == v
              case Err(e) => failed == Some(e) && Now() == old(Now())
    {
      if Blank(sign.reason) {
        return Some(VaultError.ReasonMissing);
      }
      if Blank(sign.approvedBy) || sign.approvedBy == sign.who {
        return Some(TwoPeopleNeeded);
      }
      if i >= |holds| {
        return Some(NoSuchHold);
      }
      if !Active(holds[i]) {
        return Some(AlreadyReleased);
      }
      if sign.who == "" {
        return Some(VaultError.ActorMissing);
      }
      holds := holds[i := holds[i].(released := Some(sign))];
      AppendRecord("legal_hold.released", "legal_hold", holdId, sign.who,
        Member("approved_by", JStr(sign.approvedBy), Member("reason", JStr(sign.reason), NoMembers)), now);
      return None;
    }

    /** Destroy a subject's key, unless a hold keeps its material back. */
    method ShredKey(subject: string, sign: Signed, now: string) returns (failed: Option<VaultError>)
      requires trail.tenantId == x.tenantId
      modifies this, trail
      ensures match Shred(x, old(Now()), subject, sign, now)
              case Ok(v) => failed == None && Now() == v
              case Err(e) => failed == Some(e) && Now() == old(Now())
      ensures failed == Some(HeldMaterial)
         <==> !Blank(sign.reason) && !Blank(sign.approvedBy) && sign.approvedBy != sign.who
              && exists h :: h in old(holds) && KeepsBack(h, old(cases), subject)
    {
      hide KeepsBack;
      if Blank(sign.reason) {
        return Some(VaultError.ReasonMissing);
      }
      if Blank(sign.approvedBy) || sign.approvedBy == sign.who {
        return Some(TwoPeopleNeeded);
      }
      var blocking := HoldsForCustomer(subject);
      if blocking != {} {
        return Some(HeldMaterial);
      }
      hide Held, Blank;
      if sign.who == "" {
        return Some(VaultError.ActorMissing);
      }
      var destroyed := 0;
      if subject in keys && keys[subject].destroyed.None? {
        keys := keys[subject := KeyRow("", Some(sign))];
        destroyed := 1;
      }
      AppendRecord("crypto.shredded", "subject_key", subject, sign.who,
        Member("keys_destroyed", JInt(destroyed), Member("approved_by", JStr(sign.approvedBy),
        Member("reason", JStr(sign.reason), Member("irreversible", JBool(true), NoMembers)))), now);
      return None;
    }
  }

  ghost predicate OnSomeCase(h: Hold, cases: seq<Case>, subject: string) {
    exists i :: 0 <= i < |cases| && cases[i].customer == subject && Covers(h, cases[i])
  }

  predicate OnCustomer(h: Hold, subject: string) {
    Active(h) && h.scope == CustomerScope && h.customer == subject
  }

  lemma OneMoreCase(h: Hold, cases: seq<Case>, d: Case, subject: string)
    ensures OnSomeCase(h, cases + [d], subject) <==> OnSomeCase(h, cases, subject) || (d.customer == subject && Covers(h, d))
  {
    hide Covers;
    var more := cases + [d];
    if OnSomeCase(h, cases, subject) {
      var i :| 0 <= i < |cases| && cases[i].customer == subject && Covers(h, cases[i]);
      assert more[i] == cases[i];
    }
    if d.customer == subject && Covers(h, d) {
      assert more[|cases|] == d;
    }
  }
}
