/** What receiving a message and attributing one write, record by record and field by field. */
module IntakeMeaning {
  import opened Prelude
  import opened Intake
  import Vault

  // -- which case a message is about -----------------------------------------

  /** The digest a thread is known by, none for no thread. */
  ghost function KnownBy(x: Context, thread: string): string {
    if thread == "" then "" else x.digest(thread)
  }

  ghost predicate PlacedOn(r: Received, channel: string, thread: string) {
    r.channel == channel && r.thread == thread && r.caseId != None
  }

  ghost predicate LatestPlaced(rs: seq<Received>, channel: string, thread: string, i: nat) {
    && i < |rs| && PlacedOn(rs[i], channel, thread)
    && (forall j :: 0 <= j < |rs| && PlacedOn(rs[j], channel, thread) ==> rs[j].receivedAt <= rs[i].receivedAt)
  }

  ghost predicate NonePlaced(rs: seq<Received>, channel: string, thread: string) {
    forall j :: 0 <= j < |rs| ==> !PlacedOn(rs[j], channel, thread)
  }

  /** A quoted reference decides, known or not; without one the thread does: the case of the
      latest message placed on it, on the same channel. */
  lemma FindsCase(x: Context, d: Desk, m: Inbound)
    ensures m.quoted != "" ==>
              FindCase(x, d, m) == if m.quoted in d.cases then Some(d.cases[m.quoted]) else None
    ensures m.quoted == "" && KnownBy(x, m.thread) == "" ==> FindCase(x, d, m) == None
    ensures m.quoted == "" && KnownBy(x, m.thread) != "" && FindCase(x, d, m) == None ==>
              NonePlaced(d.records, m.channel, KnownBy(x, m.thread))
    ensures m.quoted == "" && KnownBy(x, m.thread) != "" && FindCase(x, d, m).Some? ==>
              exists i: nat :: LatestPlaced(d.records, m.channel, KnownBy(x, m.thread), i) && d.records[i].caseId == FindCase(x, d, m)
  {
    var t := KnownBy(x, m.thread);
    if m.quoted == "" && t != "" {
      var prior := LatestOnThread(d.records, m.channel, t);
      if prior.Some? {
        var i :| 0 <= i < |d.records| && d.records[i] == prior.value;
        assert LatestPlaced(d.records, m.channel, t, i) by {
          assert forall j :: 0 <= j < |d.records| && PlacedOn(d.records[j], m.channel, t) ==>
              OnThread(d.records[j], m.channel, t);
        }
      } else {
        forall j | 0 <= j < |d.records| ensures !PlacedOn(d.records[j], m.channel, t) {
          assert !OnThread(d.records[j], m.channel, t);
        }
      }
    }
  }

  // -- receiving -------------------------------------------------------------

  /** What arrived, as it arrived, and what became of it; sender and thread by digest. */
  ghost predicate Arrived(x: Context, m: Inbound, r: Received, state: Disposition, reason: string, caseId: Option<string>) {
    && r.channel == m.channel && r.identity == x.digest(m.from) && r.thread == KnownBy(x, m.thread)
    && r.body == m.body && r.receivedAt == m.receivedAt
    && r.state == state && r.reason == reason && r.caseId == caseId
  }

  ghost predicate Recorded(x: Context, d: Desk, after: Desk, m: Inbound, state: Disposition, reason: string,
          caseId: Option<string>)
  {
    && |after.records| == |d.records| + 1 && after.records[..|d.records|] == d.records
    && Arrived(x, m, after.records[|d.records|], state, reason, caseId)
  }

  /** The text stored for a case reads back as it was under its subject's key; it is stored as
      it is while sealing is off. */
  ghost predicate ReadsAs(s: Sealer, keys: map<string, Vault.KeyRow>, subject: string, stored: string, body: string) {
    if s.on then "sealed:v1:" <= stored && Vault.Unseal(s.vault, Vault.Store(keys, [], [], []), subject, stored) == body
    else stored == body
  }

  /** One message more on a case, in what its sender wrote. */
  ghost predicate OneMessage(s: Sealer, d: Desk, after: Desk, about: Contact, via: Via, body: string) {
    && |after.messages| == |d.messages| + 1 && after.messages[..|d.messages|] == d.messages
    && after.messages[|d.messages|].about == about && after.messages[|d.messages|].via == via
    && ReadsAs(s, after.keys, if about.caseId in d.subjects then d.subjects[about.caseId] else "",
               after.messages[|d.messages|].stored, body)
  }

  lemma SealsFor(s: Sealer, keys: map<string, Vault.KeyRow>, subject: string, body: string)
    requires Vault.CipherOk(s.vault.cipher) && SealFor(s, keys, subject, body).Ok? && body != ""
    ensures ReadsAs(s, SealFor(s, keys, subject, body).value.0, subject, SealFor(s, keys, subject, body).value.1, body)
  {
    if s.on {
      Vault.SealOpens(s.vault, Vault.Store(keys, [], [], []), subject, body, s.newKey, s.nonce);
    }
  }

  /** An automatic reply and a message from nobody are recorded and nothing else. */
  lemma IgnoredWrites(x: Context, d: Desk, m: Inbound)
    requires m.autoReply || m.from == ""
    ensures Receive(x, d, m).Ok?
    ensures var after := Receive(x, d, m).value;
            && after == d.(records := after.records)
            && Recorded(x, d, after, m, if m.autoReply then Ignored else UnmatchedReview,
                        if m.autoReply then "auto-reply or bounce" else "no sender identity", None)
  {
  }

  /** A message about a case is held when its sender is no contact of the case, and otherwise
      added to it. */
  lemma AppendWrites(x: Context, d: Desk, m: Inbound)
    requires !m.autoReply && m.from != "" && FindCase(x, d, m).Some? && Receive(x, d, m).Ok?
    requires Vault.CipherOk(x.sealer.vault.cipher)
    ensures var after, caseId := Receive(x, d, m).value, FindCase(x, d, m).value;
            var sender := Contact(caseId, m.channel, x.digest(m.from));
            && after.cases == d.cases && after.subjects == d.subjects && after.contacts == d.contacts
            && if sender !in d.contacts then
                 && Recorded(x, d, after, m, Quarantined, "sender is not a verified contact for this case", Some(caseId))
                 && after.log == d.log + [Held(sender)] && after.messages == d.messages && after.keys == d.keys
               else
                 && Recorded(x, d, after, m, MatchedTo, "", Some(caseId))
                 && after.log == d.log && OneMessage(x.sealer, d, after, sender, BySender, m.body)
  {
    var caseId := FindCase(x, d, m).value;
    hide FindCase;
    if Sender(x, m, caseId) in d.contacts {
      assert !Blank(m.body);
      SealsFor(x.sealer, d.keys, SubjectOf(d, caseId), m.body);
    }
    hide ReadsAs, SealFor, Blank;
  }

  /** Any other message opens a case for its sender, who becomes its subject and first
      contact; without a policy for its category or for the default it is left for review. */
  lemma FileWrites(x: Context, d: Desk, m: Inbound)
    requires !m.autoReply && m.from != "" && FindCase(x, d, m).None? && Receive(x, d, m).Ok?
    ensures var after, category := Receive(x, d, m).value, if m.category == "" then x.defaultCategory else m.category;
            var filer := Contact(x.newCase, m.channel, x.digest(m.from));
            && after.messages == d.messages
            && if x.hasPolicy(category) || x.hasPolicy(x.defaultCategory) then
                 && Recorded(x, d, after, m, FiledAs, "", Some(x.newCase))
                 && x.newReference !in d.cases && x.newCase !in d.cases.Values
                 && after.cases == d.cases[x.newReference := x.newCase]
                 && after.subjects == d.subjects[x.newCase := x.digest(m.from)]
                 && after.contacts == d.contacts + {filer} && after.log == d.log + [Filed(filer)]
                 && (forall s :: s in d.keys ==> s in after.keys && after.keys[s] == d.keys[s])
               else
                 && after == d.(records := after.records)
                 && Recorded(x, d, after, m, UnmatchedReview, "no SLA policy for " + x.quote(category) + " and no default", None)
  {
    hide FindCase;
    SealKeepsKeys(x.sealer, d.keys, x.digest(m.from), m.body);
    hide SealFor;
  }

  lemma SealKeepsKeys(s: Sealer, keys: map<string, Vault.KeyRow>, subject: string, body: string)
    ensures SealFor(s, keys, subject, body).Ok? ==>
              var after := SealFor(s, keys, subject, body).value.0; forall k :: k in keys ==> k in after && after[k] == keys[k]
  {
  }

  // -- attributing -----------------------------------------------------------

  /** A person's decision puts the message on the case, with who and why, and makes its
      sender a contact of it. */
  lemma AttributeWrites(s: Sealer, d: Desk, i: nat, caseId: string, actorId: string, reason: string)
    requires Attribute(s, d, i, caseId, actorId, reason).Ok? && Vault.CipherOk(s.vault.cipher)
    ensures i < |d.records|
    ensures var after, r := Attribute(s, d, i, caseId, actorId, reason).value, d.records[i];
            var sender := Contact(caseId, r.channel, r.identity);
            && after.records == d.records[i := Received(r.channel, r.identity, r.thread, r.body, r.receivedAt,
                                                        MatchedTo, reason, Some(caseId))]
            && after.cases == d.cases && after.subjects == d.subjects && after.contacts == d.contacts + {sender}
            && after.log == d.log + [Attributed(sender, actorId, reason)]
            && OneMessage(s, d, after, sender, ByPerson(actorId, reason), r.body)
  {
    assert !Blank(d.records[i].body);
    SealsFor(s, d.keys, SubjectOf(d, caseId), d.records[i].body);
    hide ReadsAs, SealFor, Blank;
  }
}
