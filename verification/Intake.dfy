/** Inbound messages: which case one may be added to, and who may ever be heard on a case. */
module Intake {
  import opened Prelude
  import Vault

  datatype Inbound = Inbound(channel: string, from: string, body: string, receivedAt: int, thread: string,
                             quoted: string, autoReply: bool, category: string)

  datatype Disposition = MatchedTo | FiledAs | UnmatchedReview | Quarantined | Ignored

  // What is kept of an inbound message: identities and threads only as digests.
  datatype Received = Received(channel: string, identity: string, thread: string, body: string, receivedAt: int,
                               state: Disposition, reason: string, caseId: Option<string>)

  datatype Contact = Contact(caseId: string, channel: string, identity: string)

  // Why a message is on a case: its sender was a contact, or a person put it there.
  datatype Via = BySender | ByPerson(actorId: string, reason: string)

  // A message on a case, as it is stored: sealed for the case's subject if sealing is on.
  datatype Posted = Posted(about: Contact, stored: string, via: Via)

  datatype Event =
    | Filed(filer: Contact)
    | Attributed(granted: Contact, actorId: string, reason: string)
    | Held(about: Contact)

  // The cases are known by their references, which are unique; each has the subject its
  // texts are sealed for, and each subject at most one key.
  datatype Desk = Desk(records: seq<Received>, cases: map<string, string>, subjects: map<string, string>,
                       contacts: set<Contact>, messages: seq<Posted>, log: seq<Event>, keys: map<string, Vault.KeyRow>)

  // What receiving needs from outside: the tenant's digest of an identity, how a text is
  // quoted in a reason, the categories with a policy in force, whether a clock can be
  // started, the identifier and reference a new case would take, and how texts are sealed.
  datatype Context = Context(digest: string -> string, quote: string -> string, hasPolicy: string -> bool,
                             defaultCategory: string, clockStarts: bool, newCase: string, newReference: string,
                             sealer: Sealer)

  // Whether sealing is on, with what cipher and master key, and what a new key would be.
  datatype Sealer = Sealer(on: bool, vault: Vault.Context, newKey: string, nonce: nat)

  datatype IntakeError =
    | EmptyMessage
    | ClockNotStarted
    | IdentifierTaken
    | SealingFailed(why: Vault.VaultError)
    | ReasonMissing
    | ActorMissing
    | NoSuchItem

  // -- finding the case ------------------------------------------------------

  predicate OnThread(r: Received, channel: string, thread: string) {
    r.channel == channel && r.thread == thread && r.caseId.Some?
  }

  /** The latest message of a thread that is on some case. */
  function LatestOnThread(rs: seq<Received>, channel: string, thread: string): (r: Option<Received>)
    ensures r.Some? ==> r.value in rs && OnThread(r.value, channel, thread)
    ensures r.Some? ==> forall i :: 0 <= i < |rs| && OnThread(rs[i], channel, thread) ==> rs[i].receivedAt <= r.value.receivedAt
    ensures r.None? ==> forall i :: 0 <= i < |rs| ==> !OnThread(rs[i], channel, thread)
  {
    if rs == [] then None
    else
      var n := |rs| - 1;
      var before := LatestOnThread(rs[..n], channel, thread);
      if !OnThread(rs[n], channel, thread) then before
      else if before.None? || rs[n].receivedAt > before.value.receivedAt then Some(rs[n])
      else before
  }

  function ThreadDigest(x: Context, thread: string): string {
    if thread == "" then "" else x.digest(thread)
  }

  /** A quoted reference decides on its own; only without one does the thread. */
  function FindCase(x: Context, d: Desk, m: Inbound): Option<string> {
    if m.quoted != "" then
      if m.quoted in d.cases then Some(d.cases[m.quoted]) else None
    else if ThreadDigest(x, m.thread) == "" then None
    else
      var prior := LatestOnThread(d.records, m.channel, ThreadDigest(x, m.thread));
      if prior.None? then None else prior.value.caseId
  }

  // -- sealing ---------------------------------------------------------------

  /** The keys there are afterwards, and the text as it is to be stored. */
  function SealFor(s: Sealer, keys: map<string, Vault.KeyRow>, subject: string, text: string)
    : Result<(map<string, Vault.KeyRow>, string), Vault.VaultError>
  {
    match Vault.Seal(s.vault, Vault.Store(keys, [], [], []), subject, text, s.on, s.newKey, s.nonce)
    case Err(e) => Err(e)
    case Ok((v, stored)) => Ok((v.keys, stored))
  }

  /** Sealing this text for this subject would fail: its key is destroyed or cannot be used. */
  predicate SealRefused(s: Sealer, keys: map<string, Vault.KeyRow>, subject: string, text: string) {
    s.on && text != "" && subject in keys && Vault.Locked(s.vault, keys[subject])
  }

  lemma SealForFails(s: Sealer, keys: map<string, Vault.KeyRow>, subject: string, text: string)
    requires Vault.CipherOk(s.vault.cipher)
    ensures SealFor(s, keys, subject, text).Err? <==> SealRefused(s, keys, subject, text)
    ensures SealRefused(s, keys, subject, text) ==> SealFor(s, keys, subject, text) == Err(Vault.WhyLocked(keys[subject]))
  {
    Vault.SealRefusedExactlyWhen(s.vault, Vault.Store(keys, [], [], []), subject, text, s.on, s.newKey, s.nonce);
    hide Vault.CipherOk, Vault.Seal, Vault.Locked, Vault.WhyLocked;
  }

  /** The subject of a case. */
  function SubjectOf(d: Desk, caseId: string): string {
    if caseId in d.subjects then d.subjects[caseId] else ""
  }

  // -- receiving -------------------------------------------------------------

  function Sender(x: Context, m: Inbound, caseId: string): Contact {
    Contact(caseId, m.channel, x.digest(m.from))
  }

  function RecordOf(x: Context, m: Inbound, state: Disposition, reason: string, caseId: Option<string>): Received {
    Received(m.channel, x.digest(m.from), ThreadDigest(x, m.thread), m.body, m.receivedAt, state, reason, caseId)
  }

  const NOT_A_CONTACT := "sender is not a verified contact for this case"

  /** Add to the case only for one of its verified contacts; hold it for a person otherwise. */
  function AppendTo(x: Context, d: Desk, m: Inbound, caseId: string): Result<Desk, IntakeError> {
    var c := Sender(x, m, caseId);
    if c !in d.contacts then
      Ok(d.(records := d.records + [RecordOf(x, m, Quarantined, NOT_A_CONTACT, Some(caseId))], log := d.log + [Held(c)]))
    else if Blank(m.body) then Err(EmptyMessage)
    else
      match SealFor(x.sealer, d.keys, SubjectOf(d, caseId), m.body)
      case Err(e) => Err(SealingFailed(e))
      case Ok((keys, stored)) =>
        Ok(d.(records := d.records + [RecordOf(x, m, MatchedTo, "", Some(caseId))],
              messages := d.messages + [Posted(c, stored, BySender)], keys := keys))
  }

  /** Open a case, its description sealed, and make whoever wrote its first contact. */
  function FileNew(x: Context, d: Desk, m: Inbound): Result<Desk, IntakeError> {
    var category := if m.category != "" then m.category else x.defaultCategory;
    if !x.hasPolicy(category) && !x.hasPolicy(x.defaultCategory) then
      var reason := "no SLA policy for " + x.quote(category) + " and no default";
      Ok(d.(records := d.records + [RecordOf(x, m, UnmatchedReview, reason, None)]))
    else if !x.clockStarts then Err(ClockNotStarted)
    else
      var c := Sender(x, m, x.newCase);
      match SealFor(x.sealer, d.keys, c.identity, m.body)
      case Err(e) => Err(SealingFailed(e))
      case Ok((keys, _)) =>
        if x.newReference in d.cases || x.newCase in d.cases.Values then Err(IdentifierTaken)
        else
          Ok(Desk(d.records + [RecordOf(x, m, FiledAs, "", Some(x.newCase))], d.cases[x.newReference := x.newCase],
                  d.subjects[x.newCase := c.identity], d.contacts + {c}, d.messages, d.log + [Filed(c)], keys))
  }

  function Receive(x: Context, d: Desk, m: Inbound): Result<Desk, IntakeError> {
    if m.autoReply then Ok(d.(records := d.records + [RecordOf(x, m, Ignored, "auto-reply or bounce", None)]))
    else if m.from == "" then Ok(d.(records := d.records + [RecordOf(x, m, UnmatchedReview, "no sender identity", None)]))
    else
      match FindCase(x, d, m)
      case Some(caseId) => AppendTo(x, d, m, caseId)
      case None => FileNew(x, d, m)
  }

  /** A person puts a received message on a case, and vouches for its sender from then on. */
  function Attribute(s: Sealer, d: Desk, i: nat, caseId: string, actorId: string, reason: string): Result<Desk, IntakeError> {
    if Blank(reason) then Err(ReasonMissing)
    else if i >= |d.records| || caseId !in d.cases.Values then Err(NoSuchItem)
    else if Blank(d.records[i].body) then Err(EmptyMessage)
    else
      match SealFor(s, d.keys, SubjectOf(d, caseId), d.records[i].body)
      case Err(e) => Err(SealingFailed(e))
      case Ok((keys, stored)) => if actorId == "" then Err(ActorMissing) else Ok(Placed(d, i, caseId, actorId, reason, keys, stored))
  }

  function Placed(d: Desk, i: nat, caseId: string, actorId: string, reason: string, keys: map<string, Vault.KeyRow>,
          stored: string): Desk
    requires i < |d.records|
  {
    var r := d.records[i];
    var c := Contact(caseId, r.channel, r.identity);
    Desk(d.records[i := r.(state := MatchedTo, reason := reason, caseId := Some(caseId))], d.cases, d.subjects,
         d.contacts + {c}, d.messages + [Posted(c, stored, ByPerson(actorId, reason))],
         d.log + [Attributed(c, actorId, reason)], keys)
  }

  // -- runs ------------------------------------------------------------------

  datatype Step =
    | DoReceive(x: Context, m: Inbound)
    | DoAttribute(s: Sealer, record: nat, caseId: string, actorId: string, reason: string)
    | DoOpenElsewhere(reference: string, caseId: string, subject: string)
    | DoSealElsewhere(s: Sealer, subject: string)
    | DoShred(subject: string, sign: Vault.Signed)

  function Kept(r: Result<Desk, IntakeError>, d: Desk): Desk {
    if r.Ok? then r.value else d
  }

  /** One step; one that fails is rolled back whole. */
  function Apply(d: Desk, s: Step): Desk {
    match s
    case DoReceive(x, m) => Kept(Receive(x, d, m), d)
    case DoAttribute(s, record, caseId, actorId, reason) => Kept(Attribute(s, d, record, caseId, actorId, reason), d)
    case DoOpenElsewhere(reference, caseId, subject) =>
      if reference in d.cases || caseId in d.cases.Values then d
      else d.(cases := d.cases[reference := caseId], subjects := d.subjects[caseId := subject])
    case DoSealElsewhere(s, subject) => d.(keys := Vault.KeyFor(s.vault, d.keys, subject, s.newKey, s.nonce))
    case DoShred(subject, sign) => d.(keys := Vault.Erased(d.keys, subject, sign))
  }

  function Run(d: Desk, steps: seq<Step>): Desk {
    var n := |steps|;
    if n == 0 then d else Apply(Run(d, steps[..n - 1]), steps[n - 1])
  }

  const EMPTY := Desk([], map[], map[], {}, [], [], map[])

  // -- who may be heard on a case --------------------------------------------

  /** The identity opened the case itself, or a named person vouched for it with a reason. */
  ghost predicate Earned(log: seq<Event>, c: Contact) {
    exists i :: 0 <= i < |log| && Grants(log[i], c)
  }

  predicate Grants(e: Event, c: Contact) {
    match e
    case Filed(filer) => filer == c
    case Attributed(granted, actorId, reason) => granted == c && actorId != "" && !Blank(reason)
    case Held(_) => false
  }

  ghost predicate PostedOk(d: Desk, p: Posted) {
    p.about in d.contacts && (p.via.ByPerson? ==> p.via.actorId != "" && !Blank(p.via.reason))
  }

  ghost predicate Inv(d: Desk) {
    && (forall c :: c in d.contacts ==> Earned(d.log, c) && c.caseId in d.cases.Values)
    && (forall caseId :: caseId in d.cases.Values ==> caseId in d.subjects)
    && (forall i :: 0 <= i < |d.messages| ==> PostedOk(d, d.messages[i]))
    && (forall i :: 0 <= i < |d.records| && d.records[i].caseId.Some? ==> d.records[i].caseId.value in d.cases.Values)
  }

  lemma EarnedMore(log: seq<Event>, e: Event, c: Contact)
    ensures Earned(log, c) ==> Earned(log + [e], c)
    ensures Grants(e, c) ==> Earned(log + [e], c)
  {
    if Earned(log, c) {
      var i :| 0 <= i < |log| && Grants(log[i], c);
      assert (log + [e])[i] == log[i];
    }
    assert (log + [e])[|log|] == e;
  }

  lemma ValuesGrow(cases: map<string, string>, reference: string, caseId: string)
    requires reference !in cases
    ensures cases[reference := caseId].Values == cases.Values + {caseId}
  {
    var after := cases[reference := caseId];
    assert after[reference] == caseId && reference in after.Keys;
    forall v | v in cases.Values ensures v in after.Values {
      var k :| k in cases && cases[k] == v;
      assert after[k] == v;
    }
  }

  lemma FoundExists(x: Context, d: Desk, m: Inbound)
    requires Inv(d) && FindCase(x, d, m).Some?
    ensures FindCase(x, d, m).value in d.cases.Values
  {
    hide Earned, PostedOk;
  }

  lemma AppendKeeps(x: Context, d: Desk, m: Inbound, caseId: string)
    requires Inv(d) && AppendTo(x, d, m, caseId).Ok? && caseId in d.cases.Values
    ensures Inv(AppendTo(x, d, m, caseId).value)
  {
    hide Earned, Blank, SealFor;
    var after := AppendTo(x, d, m, caseId).value;
    forall c | c in d.contacts ensures Earned(after.log, c) {
      EarnedMore(d.log, Held(Sender(x, m, caseId)), c);
    }
  }

  lemma FileKeeps(x: Context, d: Desk, m: Inbound)
    requires Inv(d) && FileNew(x, d, m).Ok?
    ensures Inv(FileNew(x, d, m).value)
  {
    hide Earned, Blank, SealFor;
    var after := FileNew(x, d, m).value;
    if after.contacts != d.contacts || after.cases != d.cases {
      ValuesGrow(d.cases, x.newReference, x.newCase);
      var e := Filed(Sender(x, m, x.newCase));
      forall c | c in after.contacts ensures Earned(after.log, c) {
        EarnedMore(d.log, e, c);
      }
    }
  }

  lemma AttributeKeeps(s: Sealer, d: Desk, i: nat, caseId: string, actorId: string, reason: string)
    requires Inv(d) && Attribute(s, d, i, caseId, actorId, reason).Ok?
    ensures Inv(Attribute(s, d, i, caseId, actorId, reason).value)
  {
    hide Earned, Blank, SealFor;
    var after := Attribute(s, d, i, caseId, actorId, reason).value;
    var e := Attributed(Contact(caseId, d.records[i].channel, d.records[i].identity), actorId, reason);
    forall c | c in after.contacts ensures Earned(after.log, c) {
      EarnedMore(d.log, e, c);
    }
  }

  lemma StepKeeps(d: Desk, s: Step)
    requires Inv(d)
    ensures Inv(Apply(d, s))
  {
    hide Inv, AppendTo, FileNew, Attribute;
    match s
    case DoReceive(x, m) =>
      if Receive(x, d, m).Ok? { ReceiveKeeps(x, d, m); }
    case DoAttribute(s, record, caseId, actorId, reason) =>
      if Attribute(s, d, record, caseId, actorId, reason).Ok? { AttributeKeeps(s, d, record, caseId, actorId, reason); }
    case DoOpenElsewhere(reference, caseId, subject) => OpenKeeps(d, reference, caseId, subject);
    case _ => KeysApart(d, Apply(d, s).keys);
  }

  lemma KeysApart(d: Desk, keys: map<string, Vault.KeyRow>)
    requires Inv(d)
    ensures Inv(d.(keys := keys))
  {
    hide Earned, Blank;
  }

  lemma OpenKeeps(d: Desk, reference: string, caseId: string, subject: string)
    requires Inv(d)
    ensures Inv(Apply(d, DoOpenElsewhere(reference, caseId, subject)))
  {
    hide Earned, Blank;
    if reference !in d.cases {
      ValuesGrow(d.cases, reference, caseId);
    }
  }

  lemma ReceiveKeeps(x: Context, d: Desk, m: Inbound)
    requires Inv(d) && Receive(x, d, m).Ok?
    ensures Inv(Receive(x, d, m).value)
  {
    hide Earned, Blank, PostedOk, AppendTo, FileNew, FindCase;
    if !m.autoReply && m.from != "" {
      match FindCase(x, d, m)
      case Some(caseId) =>
        FoundExists(x, d, m);
        AppendKeeps(x, d, m, caseId);
      case None => FileKeeps(x, d, m);
    } else {
      RecordKeeps(d, Receive(x, d, m).value);
    }
  }

  lemma RecordKeeps(d: Desk, after: Desk)
    requires Inv(d) && |after.records| == |d.records| + 1 && after == d.(records := after.records)
    requires after.records[..|d.records|] == d.records && after.records[|d.records|].caseId.None?
    ensures Inv(after)
  {
    hide Earned, Blank;
    forall i | 0 <= i < |after.records| && after.records[i].caseId.Some? ensures after.records[i].caseId.value in d.cases.Values {
      assert after.records[..|d.records|][i] == after.records[i];
    }
  }

  lemma {:induction false} RunKeeps(steps: seq<Step>)
    ensures Inv(Run(EMPTY, steps))
    decreases |steps|
  {
    hide Inv, Apply;
    var n := |steps|;
    if n > 0 {
      RunKeeps(steps[..n - 1]);
      StepKeeps(Run(EMPTY, steps[..n - 1]), steps[n - 1]);
    } else {
      EmptyKeeps();
    }
  }

  lemma EmptyKeeps()
    ensures Inv(EMPTY)
  {
  }

  /** In every run: whoever is heard on a case is a contact of it on that channel, and a
      contact only by having opened the case or by a named person's reasoned decision. */
  lemma EveryMessageEarned(steps: seq<Step>, i: nat)
    requires i < |Run(EMPTY, steps).messages|
    ensures var d := Run(EMPTY, steps);
            && d.messages[i].about in d.contacts && Earned(d.log, d.messages[i].about)
            && (d.messages[i].via.ByPerson? ==> d.messages[i].via.actorId != "" && !Blank(d.messages[i].via.reason))
  {
    RunKeeps(steps);
    hide Earned, Blank, Run;
    assert PostedOk(Run(EMPTY, steps), Run(EMPTY, steps).messages[i]);
  }

  // -- one message -----------------------------------------------------------

  /** A message is added to a case exactly when it found that case, its sender was already a
      contact of it, and its body is not blank and can be sealed for the case's subject; it
      is then stored sealed. A stranger's is held, and changes nothing but the record. */
  lemma AppendedExactlyWhen(x: Context, d: Desk, m: Inbound)
    requires Vault.CipherOk(x.sealer.vault.cipher)
    ensures var after := Kept(Receive(x, d, m), d);
            (after.messages != d.messages
             <==> !m.autoReply && m.from != "" && !Blank(m.body)
                  && FindCase(x, d, m).Some? && Sender(x, m, FindCase(x, d, m).value) in d.contacts
                  && !SealRefused(x.sealer, d.keys, SubjectOf(d, FindCase(x, d, m).value), m.body))
    ensures var after := Kept(Receive(x, d, m), d);
            after.messages != d.messages ==>
              var caseId := FindCase(x, d, m).value;
              && Landed(d, after, Sender(x, m, caseId))
              && SealFor(x.sealer, d.keys, SubjectOf(d, caseId), m.body) == Ok((after.keys, after.messages[|d.messages|].stored))
              && after.contacts == d.contacts && after.cases == d.cases && after.subjects == d.subjects
    ensures !m.autoReply && m.from != "" && FindCase(x, d, m).Some? && Sender(x, m, FindCase(x, d, m).value) !in d.contacts ==>
              Receive(x, d, m) == Ok(d.(records := d.records + [RecordOf(x, m, Quarantined, NOT_A_CONTACT, FindCase(x, d, m))],
                                        log := d.log + [Held(Sender(x, m, FindCase(x, d, m).value))]))
  {
    if FindCase(x, d, m).Some? {
      SealForFails(x.sealer, d.keys, SubjectOf(d, FindCase(x, d, m).value), m.body);
    }
    hide FindCase, Blank, RecordOf, SealFor, SealRefused, SubjectOf, Vault.CipherOk;
  }

  /** One more message is on this contact's case, as theirs. */
  ghost predicate Landed(d: Desk, after: Desk, c: Contact) {
    && |after.messages| == |d.messages| + 1 && after.messages[..|d.messages|] == d.messages
    && after.messages[|d.messages|].about == c && after.messages[|d.messages|].via == BySender
  }

  /** Whatever arrives is kept, with these exceptions, which leave no record at all: a message
      from a case's own contact that is blank, or cannot be sealed for the case's subject; and
      one that would open a case, when its clock cannot be started, its text not sealed for
      the sender, or its names are taken. */
  lemma RecordedExactlyWhen(x: Context, d: Desk, m: Inbound)
    requires Vault.CipherOk(x.sealer.vault.cipher)
    ensures |Kept(Receive(x, d, m), d).records| == |d.records| + (if Receive(x, d, m).Ok? then 1 else 0)
    ensures Receive(x, d, m).Err? ==> Kept(Receive(x, d, m), d) == d
    ensures Receive(x, d, m).Err? <==>
              !m.autoReply && m.from != ""
              && match FindCase(x, d, m)
                 case Some(caseId) =>
                   && Sender(x, m, caseId) in d.contacts
                   && (Blank(m.body) || SealRefused(x.sealer, d.keys, SubjectOf(d, caseId), m.body))
                 case None =>
                   && (x.hasPolicy(if m.category != "" then m.category else x.defaultCategory) || x.hasPolicy(x.defaultCategory))
                   && (!x.clockStarts || SealRefused(x.sealer, d.keys, x.digest(m.from), m.body)
                       || x.newReference in d.cases || x.newCase in d.cases.Values)
  {
    match FindCase(x, d, m) {
      case Some(caseId) => SealForFails(x.sealer, d.keys, SubjectOf(d, caseId), m.body);
      case None => SealForFails(x.sealer, d.keys, x.digest(m.from), m.body);
    }
    hide FindCase, Blank, RecordOf, SealFor, SealRefused, SubjectOf, Vault.CipherOk;
  }

  /** A person's decision goes through exactly when it has a reason and names who took it,
      the message and the case exist, and the message is not blank and can be sealed. */
  lemma AttributedExactlyWhen(s: Sealer, d: Desk, i: nat, caseId: string, actorId: string, reason: string)
    requires Vault.CipherOk(s.vault.cipher)
    ensures Attribute(s, d, i, caseId, actorId, reason).Ok?
       <==> && !Blank(reason) && actorId != "" && i < |d.records| && caseId in d.cases.Values
            && !Blank(d.records[i].body) && !SealRefused(s, d.keys, SubjectOf(d, caseId), d.records[i].body)
  {
    if i < |d.records| {
      SealForFails(s, d.keys, SubjectOf(d, caseId), d.records[i].body);
    }
    hide Blank, SealFor, SealRefused, SubjectOf, Vault.CipherOk, Placed;
  }

  // -- poisoned threads ------------------------------------------------------

  /** A step that gives this identity a hearing on this case. */
  ghost predicate Vouches(d: Desk, s: Step, c: Contact) {
    s.DoAttribute? && s.record < |d.records| && Contact(s.caseId, d.records[s.record].channel, d.records[s.record].identity) == c
  }

  ghost predicate NobodyVouches(d: Desk, steps: seq<Step>, c: Contact) {
    forall n :: 0 <= n < |steps| ==> !Vouches(Run(d, steps[..n]), steps[n], c)
  }

  ghost predicate HeardFrom(d: Desk, c: Contact) {
    exists i :: 0 <= i < |d.messages| && d.messages[i].about == c
  }

  lemma StrangerStep(d: Desk, s: Step, c: Contact)
    requires Inv(d) && c.caseId in d.cases.Values && c !in d.contacts && !Vouches(d, s, c)
    ensures var after := Apply(d, s);
            && c !in after.contacts && c.caseId in after.cases.Values
            && (HeardFrom(after, c) ==> HeardFrom(d, c))
  {
    hide FindCase, Blank, RecordOf, Earned, SealFor;
    if s.DoReceive? {
      if NamesFree(s.x, d, s.m) {
        ValuesGrow(d.cases, s.x.newReference, s.x.newCase);
      }
    } else if s.DoOpenElsewhere? && s.reference !in d.cases {
      ValuesGrow(d.cases, s.reference, s.caseId);
    }
    var after := Apply(d, s);
    assert d.messages <= after.messages;
  }

  predicate NamesFree(x: Context, d: Desk, m: Inbound) {
    x.newReference !in d.cases && x.newCase !in d.cases.Values
  }

  /** However many messages anyone sends, to whatever threads and quoting whatever
      references, nobody becomes a contact of an existing case, and nobody who is not one
      is added to it, unless a person vouches for exactly that identity. */
  lemma {:induction false} NobodyTalksTheirWayIn(d: Desk, steps: seq<Step>, c: Contact)
    requires Inv(d) && c.caseId in d.cases.Values && c !in d.contacts && NobodyVouches(d, steps, c)
    ensures var after := Run(d, steps);
            && Inv(after) && c !in after.contacts && c.caseId in after.cases.Values
            && (HeardFrom(after, c) ==> HeardFrom(d, c))
    decreases |steps|
  {
    hide Inv, Apply, Vouches, HeardFrom;
    var n := |steps|;
    if n > 0 {
      var before := steps[..n - 1];
      assert forall k :: 0 <= k < n - 1 ==> before[k] == steps[k] && before[..k] == steps[..k];
      NobodyTalksTheirWayIn(d, before, c);
      StepKeeps(Run(d, before), steps[n - 1]);
      StrangerStep(Run(d, before), steps[n - 1], c);
    }
  }

  /** A contact's reply that quotes nothing reaches their case exactly while the thread's
      latest message is on it and the reply can be sealed: a held message counts, so one that
      names another case in the same thread turns the replies away from theirs, into review,
      never into it; and once the subject's key is destroyed no reply lands at all. */
  lemma ThreadReplyLandsExactlyWhen(x: Context, d: Desk, m: Inbound, caseId: string)
    requires !m.autoReply && m.from != "" && m.quoted == "" && !Blank(m.body) && ThreadDigest(x, m.thread) != ""
    requires Sender(x, m, caseId) in d.contacts && Vault.CipherOk(x.sealer.vault.cipher)
    ensures var prior := LatestOnThread(d.records, m.channel, ThreadDigest(x, m.thread));
            (Landed(d, Kept(Receive(x, d, m), d), Sender(x, m, caseId))
             <==> prior.Some? && prior.value.caseId == Some(caseId)
                  && !SealRefused(x.sealer, d.keys, SubjectOf(d, caseId), m.body))
  {
    AppendedExactlyWhen(x, d, m);
    hide Blank, RecordOf, SealFor, SealRefused, SubjectOf, Vault.CipherOk, Receive;
  }

  /** A record that is on no case yet plays no part in the search. */
  lemma UnplacedIsIgnored(x: Context, d: Desk, m: Inbound, r: Received)
    requires r.caseId.None?
    ensures FindCase(x, d.(records := d.records + [r]), m) == FindCase(x, d, m)
  {
    assert (d.records + [r])[..|d.records|] == d.records;
  }

  // -- a thread turned away, and messages lost -------------------------------

  /** Digests that keep texts apart, a policy for everything, and the next case's names. */
  function PlainContext(s: Sealer, clockStarts: bool): Context {
    Context(text => text, text => text, _ => true, "general", clockStarts, "c-1", "R-1", s)
  }

  function Mail(from: string, body: string, receivedAt: int, quoted: string): Inbound {
    Inbound("email", from, body, receivedAt, "t", quoted, false, "")
  }

  function AliceWrites(s: Sealer): Step {
    DoReceive(PlainContext(s, true), Mail("alice", "my card", 1, ""))
  }

  function AliceDesk(s: Sealer): Desk {
    var c := Contact("c-1", "email", "alice");
    var keys := if s.on then Vault.KeyFor(s.vault, map[], "alice", s.newKey, s.nonce) else map[];
    Desk([Received("email", "alice", "t", "my card", 1, FiledAs, "", Some("c-1"))], map["R-1" := "c-1"],
         map["c-1" := "alice"], {c}, [], [Filed(c)], keys)
  }

  lemma OneMoreStep(d: Desk, steps: seq<Step>, s: Step)
    ensures Run(d, steps + [s]) == Apply(Run(d, steps), s)
  {
    assert (steps + [s])[..|steps|] == steps;
  }

  lemma AliceFiled(s: Sealer)
    requires Vault.CipherOk(s.vault.cipher)
    ensures Run(EMPTY, [AliceWrites(s)]) == AliceDesk(s)
  {
    assert Run(EMPTY, []) == EMPTY;
    hide Run, Receive, AliceDesk, PlainContext, Mail, Vault.CipherOk;
    OneMoreStep(EMPTY, [], AliceWrites(s));
    assert [] + [AliceWrites(s)] == [AliceWrites(s)];
    AliceReceived(s);
  }

  lemma FirstSeal(s: Sealer, subject: string, text: string)
    requires Vault.CipherOk(s.vault.cipher) && text != ""
    ensures SealFor(s, map[], subject, text).Ok?
    ensures SealFor(s, map[], subject, text).value.0
         == if s.on then Vault.KeyFor(s.vault, map[], subject, s.newKey, s.nonce) else map[]
  {
    SealForFails(s, map[], subject, text);
    hide Vault.CipherOk, Vault.DataKey;
  }

  lemma AliceReceived(s: Sealer)
    requires Vault.CipherOk(s.vault.cipher)
    ensures Receive(PlainContext(s, true), EMPTY, Mail("alice", "my card", 1, "")) == Ok(AliceDesk(s))
  {
    NothingOnThread();
    FirstSeal(s, "alice", "my card");
    hide LatestOnThread, Blank, SealFor, Vault.KeyFor, Vault.CipherOk;
    var x, m := PlainContext(s, true), Mail("alice", "my card", 1, "");
    var none: map<string, string> := map[];
    assert FindCase(x, EMPTY, m) == None;
    assert "R-1" !in none && "c-1" !in none.Values;
    var c := Contact("c-1", "email", "alice");
    assert Sender(x, m, "c-1") == c;
    var d := FileNew(x, EMPTY, m).value;
    assert d.cases == map["R-1" := "c-1"] && d.subjects == map["c-1" := "alice"];
    assert d.contacts == {c} && d.messages == [] && d.log == [Filed(c)];
    assert d.records == AliceDesk(s).records;
  }

  lemma LatestOfTwo(a: Received, b: Received, channel: string, thread: string)
    requires OnThread(a, channel, thread) && OnThread(b, channel, thread)
    ensures LatestOnThread([a], channel, thread) == Some(a)
    ensures LatestOnThread([a, b], channel, thread) == Some(if b.receivedAt > a.receivedAt then b else a)
  {
    assert [a][..0] == [] && [a, b][..1] == [a];
    assert LatestOnThread([], channel, thread) == None;
  }

  lemma NothingOnThread()
    ensures LatestOnThread([], "email", "t") == None
  {
  }

  /** Whatever Alice writes in that thread next finds her case. */
  lemma AliceFound(s: Sealer, keys: map<string, Vault.KeyRow>, body: string, receivedAt: int)
    ensures FindCase(PlainContext(s, true), AliceDesk(s).(keys := keys), Mail("alice", body, receivedAt, "")) == Some("c-1")
  {
    var r := AliceDesk(s).records[0];
    LatestOfTwo(r, r, "email", "t");
    hide LatestOnThread;
    assert AliceDesk(s).records == [r];
  }

  function Intruding(s: Sealer): seq<Step> {
    [AliceWrites(s), DoOpenElsewhere("R-2", "c-2", "bob"),
     DoReceive(PlainContext(s, true), Mail("mallory", "hi", 2, "R-2"))]
  }

  function IntrusionHeld(): Received {
    Received("email", "mallory", "t", "hi", 2, Quarantined, NOT_A_CONTACT, Some("c-2"))
  }

  lemma Intruded(s: Sealer)
    requires Vault.CipherOk(s.vault.cipher)
    ensures var d := Run(EMPTY, Intruding(s));
            d.contacts == AliceDesk(s).contacts && d.messages == [] && d.records == AliceDesk(s).records + [IntrusionHeld()]
  {
    AliceFiled(s);
    IntrusionPrepared(s);
    IntrusionArrives(s);
    hide Run, Apply, AliceWrites, AliceDesk, Vault.CipherOk, IntrusionHeld;
    var r := Intruding(s);
    OneMoreStep(EMPTY, [r[0]], r[1]);
    assert [r[0]] + [r[1]] == [r[0], r[1]];
    OneMoreStep(EMPTY, [r[0], r[1]], r[2]);
    assert [r[0], r[1]] + [r[2]] == r;
  }

  /** Another customer's case is opened beside hers. */
  lemma IntrusionPrepared(s: Sealer)
    ensures Apply(AliceDesk(s), DoOpenElsewhere("R-2", "c-2", "bob"))
         == AliceDesk(s).(cases := AliceDesk(s).cases["R-2" := "c-2"], subjects := AliceDesk(s).subjects["c-2" := "bob"])
  {
    hide Vault.KeyFor;
    ValuesGrow(map[], "R-1", "c-1");
  }

  /** A stranger who names that case in her thread is held. */
  lemma IntrusionArrives(s: Sealer)
    ensures var d := AliceDesk(s).(cases := AliceDesk(s).cases["R-2" := "c-2"], subjects := AliceDesk(s).subjects["c-2" := "bob"]);
            var after := Apply(d, DoReceive(PlainContext(s, true), Mail("mallory", "hi", 2, "R-2")));
            after.contacts == d.contacts && after.messages == [] && after.records == d.records + [IntrusionHeld()]
  {
    hide Vault.KeyFor, LatestOnThread;
  }

  /** Alice opened a case by writing in a thread, and her next message there is added to it.
      With one stranger's message held in between, in the same thread and naming another
      case, the same next message is held instead, and not added to any case. */
  lemma ThreadTurnedAway(s: Sealer)
    requires Vault.CipherOk(s.vault.cipher) && !s.on
    ensures var reply := DoReceive(PlainContext(s, true), Mail("alice", "more", 3, ""));
            var c := Contact("c-1", "email", "alice");
            && Run(EMPTY, [AliceWrites(s)] + [reply]).messages == [Posted(c, "more", BySender)]
            && var d := Run(EMPTY, Intruding(s) + [reply]);
               c in d.contacts && d.messages == [] && |d.records| == 3
               && d.records[2] == Received("email", "alice", "t", "more", 3, Quarantined, NOT_A_CONTACT, Some("c-2"))
  {
    var reply := DoReceive(PlainContext(s, true), Mail("alice", "more", 3, ""));
    OneMoreStep(EMPTY, [AliceWrites(s)], reply);
    OneMoreStep(EMPTY, Intruding(s), reply);
    AliceFiled(s);
    Intruded(s);
    RepliedBefore(s);
    RepliedAfter(s, Run(EMPTY, Intruding(s)));
    hide Run, Receive, AliceWrites, Intruding, Vault.CipherOk;
  }

  lemma RepliedBefore(s: Sealer)
    requires !s.on
    ensures var r := Receive(PlainContext(s, true), AliceDesk(s), Mail("alice", "more", 3, ""));
            r.Ok? && r.value.messages == [Posted(Contact("c-1", "email", "alice"), "more", BySender)]
  {
    AliceFound(s, AliceDesk(s).keys, "more", 3);
    var body := "more";
    assert !Blank(body) by { assert !IsSpace(body[0]); }
    hide Blank, FindCase;
  }

  lemma RepliedAfter(s: Sealer, d: Desk)
    requires d.contacts == AliceDesk(s).contacts && d.messages == [] && d.records == AliceDesk(s).records + [IntrusionHeld()]
    ensures var r := Receive(PlainContext(s, true), d, Mail("alice", "more", 3, ""));
            && r.Ok? && r.value.contacts == d.contacts && r.value.messages == []
            && r.value.records == d.records + [Received("email", "alice", "t", "more", 3, Quarantined, NOT_A_CONTACT, Some("c-2"))]
  {
    hide Blank, LatestOnThread;
    LatestOfTwo(AliceDesk(s).records[0], IntrusionHeld(), "email", "t");
    assert d.records == [AliceDesk(s).records[0], IntrusionHeld()];
  }

  /** Two of the exceptions: Alice's empty follow-up is refused and leaves no record, and so
      does her first message when the new case's clock cannot be started. */
  lemma UnrecordedMessages(s: Sealer)
    requires Vault.CipherOk(s.vault.cipher)
    ensures var d, m := Run(EMPTY, [AliceWrites(s)]), Mail("alice", "", 2, "");
            Receive(PlainContext(s, true), d, m) == Err(EmptyMessage)
            && Run(EMPTY, [AliceWrites(s)] + [DoReceive(PlainContext(s, true), m)]) == d
    ensures var m := Mail("alice", "my card", 1, "");
            Receive(PlainContext(s, false), EMPTY, m) == Err(ClockNotStarted)
            && Run(EMPTY, [] + [DoReceive(PlainContext(s, false), m)]) == EMPTY
  {
    var m := Mail("alice", "", 2, "");
    OneMoreStep(EMPTY, [AliceWrites(s)], DoReceive(PlainContext(s, true), m));
    OneMoreStep(EMPTY, [], DoReceive(PlainContext(s, false), Mail("alice", "my card", 1, "")));
    assert Run(EMPTY, []) == EMPTY;
    AliceFiled(s);
    AliceFound(s, AliceDesk(s).keys, "", 2);
    NothingOnThread();
    hide Run, LatestOnThread, AliceWrites, Vault.CipherOk;
  }

  /** And the third: with sealing on, Alice's key is made with her case and later destroyed
      under a lawful request. From then on neither her reply in the thread nor a new
      complaint of hers is added or recorded. */
  lemma ShreddedIsNotHeard(s: Sealer, sign: Vault.Signed, newReference: string, newCase: string)
    requires Vault.CipherOk(s.vault.cipher) && s.on
    ensures var shredded := [AliceWrites(s)] + [DoShred("alice", sign)];
            var d, reply := Run(EMPTY, shredded), Mail("alice", "more", 3, "");
            var x := PlainContext(s, true).(newReference := newReference, newCase := newCase);
            var complaint := reply.(thread := "");
            && Contact("c-1", "email", "alice") in d.contacts
            && Receive(x, d, reply) == Err(SealingFailed(Vault.ContentShredded))
            && Receive(x, d, complaint) == Err(SealingFailed(Vault.ContentShredded))
            && Run(EMPTY, shredded + [DoReceive(x, reply)]) == d && Run(EMPTY, shredded + [DoReceive(x, complaint)]) == d
  {
    var shredded := [AliceWrites(s)] + [DoShred("alice", sign)];
    var x := PlainContext(s, true).(newReference := newReference, newCase := newCase);
    var reply := Mail("alice", "more", 3, "");
    OneMoreStep(EMPTY, [AliceWrites(s)], DoShred("alice", sign));
    OneMoreStep(EMPTY, shredded, DoReceive(x, reply));
    hide Run, Receive, AliceWrites, Vault.CipherOk, Vault.Erased;
    OneMoreStep(EMPTY, shredded, DoReceive(x, reply.(thread := "")));
    AliceFiled(s);
    RefusedAfterShred(s, sign, x);
  }

  lemma RefusedAfterShred(s: Sealer, sign: Vault.Signed, x: Context)
    requires Vault.CipherOk(s.vault.cipher) && s.on
    requires x == PlainContext(s, true).(newReference := x.newReference, newCase := x.newCase)
    ensures var d := AliceDesk(s).(keys := Vault.Erased(AliceDesk(s).keys, "alice", sign));
            var reply := Mail("alice", "more", 3, "");
            && Receive(x, d, reply) == Err(SealingFailed(Vault.ContentShredded))
            && Receive(x, d, reply.(thread := "")) == Err(SealingFailed(Vault.ContentShredded))
  {
    var d := AliceDesk(s).(keys := Vault.Erased(AliceDesk(s).keys, "alice", sign));
    AliceFound(s, d.keys, "more", 3);
    assert SealRefused(s, d.keys, "alice", "more") && Vault.WhyLocked(d.keys["alice"]) == Vault.ContentShredded;
    SealForFails(s, d.keys, "alice", "more");
    var body := "more";
    assert !Blank(body) by { assert !IsSpace(body[0]); }
    hide Blank, SealFor, LatestOnThread, Vault.CipherOk, Vault.KeyFor, Vault.Erased, SealRefused;
  }

  // -- the router ------------------------------------------------------------

  /** A tenant's inbound desk. */
  class Router {
    var records: seq<Received>
    var cases: map<string, string>
    var subjects: map<string, string>
    var contacts: set<Contact>
    var messages: seq<Posted>
    var log: seq<Event>
    var keys: map<string, Vault.KeyRow>

    constructor ()
      ensures View() == EMPTY
    {
      records, cases, subjects, contacts, messages, log, keys := [], map[], map[], {}, [], [], map[];
    }

    function View(): Desk
      reads this
    {
      Desk(records, cases, subjects, contacts, messages, log, keys)
    }

    method Latest(channel: string, thread: string) returns (best: Option<Received>)
      ensures best == LatestOnThread(records, channel, thread)
    {
      best := None;
      for i := 0 to |records|
        invariant best == LatestOnThread(records[..i], channel, thread)
      {
        assert records[..i + 1][..i] == records[..i];
        if OnThread(records[i], channel, thread) && (best.None? || records[i].receivedAt > best.value.receivedAt) {
          best := Some(records[i]);
        }
      }
      assert records[..|records|] == records;
    }

    method Find(x: Context, m: Inbound) returns (caseId: Option<string>)
      ensures caseId == FindCase(x, View(), m)
    {
      if m.quoted != "" {
        return if m.quoted in cases then Some(cases[m.quoted]) else None;
      }
      var thread := if m.thread == "" then "" else x.digest(m.thread);
      if thread == "" {
        return None;
      }
      var prior := Latest(m.channel, thread);
      return if prior.None? then None else prior.value.caseId;
    }

    method Rollback(saved: Desk)
      modifies this
      ensures View() == saved
    {
      records, cases, subjects, contacts := saved.records, saved.cases, saved.subjects, saved.contacts;
      messages, log, keys := saved.messages, saved.log, saved.keys;
    }

    /** Record what arrived, then decide. */
    method ReceiveMessage(x: Context, m: Inbound) returns (failed: Option<IntakeError>)
      modifies this
      ensures match Receive(x, old(View()), m)
              case Ok(d) => failed == None && View() == d
              case Err(e) => failed == Some(e) && View() == old(View())
    {
      hide FindCase, Blank, SealFor;
      var saved := View();
      var record :=
        Received(m.channel, x.digest(m.from), ThreadDigest(x, m.thread), m.body, m.receivedAt, UnmatchedReview, "", None);
      records := records + [record];
      if m.autoReply {
        Dispose(record.(state := Ignored, reason := "auto-reply or bounce"));
        return None;
      }
      if m.from == "" {
        Dispose(record.(reason := "no sender identity"));
        return None;
      }
      var found := Find(x, m);
      UnplacedIsIgnored(x, saved, m, record);
      if found.Some? {
        failed := AppendToCase(x.sealer, record, found.value);
      } else {
        failed := FileCase(x, m, record);
      }
      if failed.Some? {
        Rollback(saved);
      }
    }

    /** Write down what became of the message just recorded. */
    method Dispose(record: Received)
      requires records != []
      modifies this`records
      ensures records == old(records)[..|old(records)| - 1] + [record]
    {
      records := records[..|records| - 1] + [record];
    }

    /** The body of a message as it is to be stored on a case. */
    method SealBody(s: Sealer, caseId: string, body: string) returns (r: Result<string, Vault.VaultError>)
      modifies this`keys
      ensures match SealFor(s, old(keys), SubjectOf(View(), caseId), body)
              case Err(e) => r == Err(e) && keys == old(keys)
              case Ok((after, stored)) => r == Ok(stored) && keys == after
    {
      hide Vault.Seal;
      var sealed := SealFor(s, keys, SubjectOf(View(), caseId), body);
      if sealed.Err? {
        return Err(sealed.error);
      }
      keys := sealed.value.0;
      return Ok(sealed.value.1);
    }

    method AppendToCase(s: Sealer, record: Received, caseId: string) returns (failed: Option<IntakeError>)
      requires records != []
      modifies this
      ensures var c, kept := Contact(caseId, record.channel, record.identity), old(records)[..|old(records)| - 1];
              cases == old(cases) && subjects == old(subjects) && contacts == old(contacts)
              && if c !in old(contacts) then
                   && failed == None && messages == old(messages) && log == old(log) + [Held(c)] && keys == old(keys)
                   && records == kept + [record.(state := Quarantined, reason := NOT_A_CONTACT, caseId := Some(caseId))]
                 else if Blank(record.body) then failed == Some(EmptyMessage)
                 else
                   match SealFor(s, old(keys), SubjectOf(old(View()), caseId), record.body)
                   case Err(e) => failed == Some(SealingFailed(e))
                   case Ok((after, stored)) =>
                     && failed == None && messages == old(messages) + [Posted(c, stored, BySender)] && log == old(log)
                     && records == kept + [record.(state := MatchedTo, reason := "", caseId := Some(caseId))] && keys == after
    {
      hide SealFor;
      var c := Contact(caseId, record.channel, record.identity);
      if c !in contacts {
        log := log + [Held(c)];
        Dispose(record.(state := Quarantined, reason := NOT_A_CONTACT, caseId := Some(caseId)));
        return None;
      }
      if Blank(record.body) {
        return Some(EmptyMessage);
      }
      var stored := SealBody(s, caseId, record.body);
      if stored.Err? {
        return Some(SealingFailed(stored.error));
      }
      messages := messages + [Posted(c, stored.value, BySender)];
      Dispose(record.(state := MatchedTo, reason := "", caseId := Some(caseId)));
      return None;
    }

    method FileCase(x: Context, m: Inbound, record: Received) returns (failed: Option<IntakeError>)
      requires records != [] && record.state == UnmatchedReview && record.reason == "" && record.caseId.None?
      requires record == RecordOf(x, m, UnmatchedReview, "", None)
      modifies this
      ensures match FileNew(x, old(View()).(records := old(records)[..|old(records)| - 1]), m)
              case Ok(d) => failed == None && View() == d
              case Err(e) => failed == Some(e)
    {
      hide SealFor;
      var category := if m.category != "" then m.category else x.defaultCategory;
      if !x.hasPolicy(category) && !x.hasPolicy(x.defaultCategory) {
        Dispose(record.(reason := "no SLA policy for " + x.quote(category) + " and no default"));
        return None;
      }
      if !x.clockStarts {
        return Some(ClockNotStarted);
      }
      var sealed := SealFor(x.sealer, keys, record.identity, m.body);
      if sealed.Err? {
        return Some(SealingFailed(sealed.error));
      }
      keys := sealed.value.0;
      if x.newReference in cases || x.newCase in cases.Values {
        return Some(IdentifierTaken);
      }
      var c := Contact(x.newCase, record.channel, record.identity);
      cases, subjects := cases[x.newReference := x.newCase], subjects[x.newCase := record.identity];
      contacts := contacts + {c};
      log := log + [Filed(c)];
      Dispose(record.(state := FiledAs, caseId := Some(x.newCase)));
      return None;
    }

    /** A person decides where a message belongs. */
    method AttributeMessage(s: Sealer, i: nat, caseId: string, actorId: string, reason: string)
      returns (failed: Option<IntakeError>)
      modifies this
      ensures match Attribute(s, old(View()), i, caseId, actorId, reason)
              case Ok(d) => failed == None && View() == d
              case Err(e) => failed == Some(e) && View() == old(View())
    {
      if Blank(reason) {
        return Some(ReasonMissing);
      }
      if i >= |records| || caseId !in cases.Values {
        return Some(NoSuchItem);
      }
      var saved := View();
      var r := records[i];
      var c := Contact(caseId, r.channel, r.identity);
      contacts := contacts + {c};
      if Blank(r.body) {
        Rollback(saved);
        return Some(EmptyMessage);
      }
      hide SealFor;
      var stored := SealBody(s, caseId, r.body);
      if stored.Err? {
        Rollback(saved);
        return Some(SealingFailed(stored.error));
      }
      messages := messages + [Posted(c, stored.value, ByPerson(actorId, reason))];
      if actorId == "" {
        Rollback(saved);
        return Some(ActorMissing);
      }
      log := log + [Attributed(c, actorId, reason)];
      records := records[i := r.(state := MatchedTo, reason := reason, caseId := Some(caseId))];
      return None;
    }
  }
}
