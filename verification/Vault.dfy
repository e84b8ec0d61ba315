/** Sealing content under a subject's own key, destroying that key, and the legal holds
    that forbid it. */
module Vault {
  import opened Prelude
  import opened Json
  import opened Chain
  import opened AuditLog

  const SEALED_PREFIX := "sealed:v1:"
  const SHREDDED_MARKER := "[content erased under a lawful request]"

  // Symmetric encryption: key, text and nonce to a token, and back when the key fits.
  datatype Cipher = Cipher(encrypt: (string, string, nat) -> string, decrypt: (string, string) -> Option<string>)

  ghost predicate CipherOk(c: Cipher) {
    forall k, p, n :: Inverts(c, k, p, n)
  }

  ghost predicate Inverts(c: Cipher, k: string, p: string, n: nat) {
    c.decrypt(k, c.encrypt(k, p, n)) == Some(p)
  }

  // -- holds -----------------------------------------------------------------

  datatype Scope = DisputeScope | CustomerScope | CategoryScope | PeriodScope

  datatype Hold = Hold(name: string, matter: string, reason: string, scope: Scope, caseId: Option<string>, customer: string,
                       category: string, from: Option<int>, to: Option<int>, placedBy: string, released: Option<Signed>)

  // Two people and a reason.
  datatype Signed = Signed(who: string, approvedBy: string, reason: string)

  datatype Case = Case(id: string, customer: string, category: string, submittedAt: int)

  /** A hold has the field that defines its scope. */
  predicate Targeted(h: Hold) {
    match h.scope
    case DisputeScope => h.caseId.Some?
    case CustomerScope => h.customer != ""
    case CategoryScope => h.category != ""
    case PeriodScope => h.from.Some? && h.to.Some?
  }

  /** Its texts fit their columns, and none that must be there is missing. */
  predicate Fits(h: Hold) {
    && 0 < |h.name| <= 128 && |h.matter| <= 128 && 0 < |h.placedBy| <= 64
    && |h.customer| <= 64 && |h.category| <= 64
  }

  predicate Active(h: Hold) {
    h.released.None?
  }

  predicate Covers(h: Hold, d: Case) {
    Active(h) &&
    match h.scope
    case DisputeScope => h.caseId == Some(d.id)
    case CustomerScope => h.customer == d.customer
    case CategoryScope => h.category == d.category
    case PeriodScope => h.from.Some? && h.to.Some? && h.from.value <= d.submittedAt < h.to.value
  }

  /** What an erasure of this subject would destroy evidence for. */
  ghost predicate Blocks(h: Hold, cases: seq<Case>, subject: string) {
    || (exists i :: 0 <= i < |cases| && cases[i].customer == subject && Covers(h, cases[i]))
    || (Active(h) && h.scope == CustomerScope && h.customer == subject)
  }

  ghost predicate Held(v: Store, subject: string) {
    exists i :: 0 <= i < |v.holds| && Blocks(v.holds[i], v.cases, subject)
  }

  /** A hold nobody has released keeps the subject's material: it names one of the subject's
      cases, or the subject, or the category of one of its cases, or a period in which one of
      them was filed, the first instant of it counting and the last not. */
  ghost predicate KeepsBack(h: Hold, cases: seq<Case>, subject: string) {
    h.released.None? &&
    match h.scope
    case DisputeScope => exists d :: d in cases && d.customer == subject && h.caseId == Some(d.id)
    case CustomerScope => h.customer == subject
    case CategoryScope => exists d :: d in cases && d.customer == subject && h.category == d.category
    case PeriodScope =>
      h.from.Some? && h.to.Some?
      && exists d :: d in cases && d.customer == subject && h.from.value <= d.submittedAt && d.submittedAt < h.to.value
  }

  lemma BlocksIs(h: Hold, cases: seq<Case>, subject: string)
    ensures Blocks(h, cases, subject) <==> KeepsBack(h, cases, subject)
  {
    if Blocks(h, cases, subject) && h.scope != CustomerScope {
      var i :| 0 <= i < |cases| && cases[i].customer == subject && Covers(h, cases[i]);
      assert cases[i] in cases;
    }
    if KeepsBack(h, cases, subject) && h.scope != CustomerScope {
      var d :| d in cases && d.customer == subject && Covers(h, d);
      var i :| 0 <= i < |cases| && cases[i] == d;
    }
  }

  /** A subject is held exactly when one of the holds keeps its material back. */
  lemma HeldExactlyWhen(v: Store, subject: string)
    ensures Held(v, subject) <==> exists h :: h in v.holds && KeepsBack(h, v.cases, subject)
  {
    hide Blocks, KeepsBack;
    if Held(v, subject) {
      var i :| 0 <= i < |v.holds| && Blocks(v.holds[i], v.cases, subject);
      BlocksIs(v.holds[i], v.cases, subject);
    }
    if h :| h in v.holds && KeepsBack(h, v.cases, subject) {
      BlocksIs(h, v.cases, subject);
      var i :| 0 <= i < |v.holds| && v.holds[i] == h;
    }
  }

  // -- keys ------------------------------------------------------------------

  // A data key wrapped by the master key; the wrapping is erased when it is destroyed.
  datatype KeyRow = KeyRow(wrapped: string, destroyed: Option<Signed>)

  datatype Store = Store(keys: map<string, KeyRow>, holds: seq<Hold>, cases: seq<Case>, log: seq<Record>)

  // What stays fixed for a tenant, and the identifiers new records will take.
  datatype Context = Context(cipher: Cipher, master: string, h: Hasher, tenantId: string, ids: nat -> string)

  datatype VaultError =
    | ContentShredded
    | KeyUnavailable
    | ReasonMissing
    | TwoPeopleNeeded
    | HeldMaterial
    | AlreadyReleased
    | HoldInvalid
    | ActorMissing
    | NoSuchHold

  function DataKey(x: Context, row: KeyRow): Result<string, VaultError> {
    if row.destroyed.Some? then Err(ContentShredded)
    else
      match x.cipher.decrypt(x.master, row.wrapped)
      case None => Err(KeyUnavailable)
      case Some(k) => Ok(k)
  }

  /** A key that gives nothing back: it was destroyed, or the master key does not unwrap it. */
  predicate Locked(x: Context, row: KeyRow) {
    row.destroyed.Some? || x.cipher.decrypt(x.master, row.wrapped).None?
  }

  function WhyLocked(row: KeyRow): VaultError {
    if row.destroyed.Some? then ContentShredded else KeyUnavailable
  }

  function KeyFor(x: Context, keys: map<string, KeyRow>, subject: string, newKey: string,
          nonce: nat): map<string, KeyRow> {
    if subject in keys then keys else keys[subject := KeyRow(x.cipher.encrypt(x.master, newKey, nonce), None)]
  }

  /** Encrypt under the subject's key, made the first time; nothing is done to empty text,
      or while sealing is off. */
  function Seal(x: Context, v: Store, subject: string, plaintext: string, on: bool, newKey: string, nonce: nat)
    : Result<(Store, string), VaultError>
  {
    if !on || plaintext == "" then Ok((v, plaintext))
    else
      var keys := KeyFor(x, v.keys, subject, newKey, nonce);
      match DataKey(x, keys[subject])
      case Err(e) => Err(e)
      case Ok(k) => Ok((v.(keys := keys), SEALED_PREFIX + x.cipher.encrypt(k, plaintext, nonce)))
  }

  /** Decrypt, or say that the content was erased. */
  function Unseal(x: Context, v: Store, subject: string, stored: string): string {
    if !(SEALED_PREFIX <= stored) then stored
    else if subject !in v.keys then SHREDDED_MARKER
    else
      match DataKey(x, v.keys[subject])
      case Err(_) => SHREDDED_MARKER
      case Ok(k) =>
        match x.cipher.decrypt(k, stored[|SEALED_PREFIX|..])
        case None => SHREDDED_MARKER
        case Some(p) => p
  }

  // -- what people do --------------------------------------------------------

  function Audited(x: Context, v: Store, eventType: string, subjectType: string, subjectId: string, actorId: string,
                   payload: Members, now: string): Store
  {
    var e := Entry(eventType, None, Actor("user", actorId), None, subjectType, subjectId, payload, "");
    v.(log := AppendOne(x.h, x.tenantId, v.log, e, x.ids(|v.log|), now))
  }

  function Place(x: Context, v: Store, hold: Hold, holdId: string, now: string): Result<Store, VaultError> {
    if Blank(hold.matter) || Blank(hold.reason) then Err(ReasonMissing)
    else if !Fits(hold) || !Targeted(hold) then Err(HoldInvalid)
    else
      Ok(Audited(x, v.(holds := v.holds + [hold.(released := None)]), "legal_hold.placed", "legal_hold", holdId, hold.placedBy,
                 Member("matter_reference", JStr(hold.matter), Member("reason", JStr(hold.reason), NoMembers)), now))
  }

  /** A hold is placed exactly when it has a matter and a reason, a name and somebody who
      placed it, texts that fit their columns, and the target its scope asks for; it then
      stands unreleased behind the others. */
  lemma PlacedExactlyWhen(x: Context, v: Store, h: Hold, holdId: string, now: string)
    ensures Place(x, v, h, holdId, now).Ok?
       <==> && !Blank(h.matter) && !Blank(h.reason) && h.name != "" && h.placedBy != ""
            && |h.name| <= 128 && |h.matter| <= 128 && |h.customer| <= 64 && |h.category| <= 64 && |h.placedBy| <= 64
            && (h.scope == DisputeScope ==> h.caseId.Some?) && (h.scope == CustomerScope ==> h.customer != "")
            && (h.scope == CategoryScope ==> h.category != "") && (h.scope == PeriodScope ==> h.from.Some? && h.to.Some?)
    ensures Place(x, v, h, holdId, now).Ok? ==>
              var after := Place(x, v, h, holdId, now).value;
              && after.holds == v.holds + [h.(released := None)] && after.keys == v.keys && after.cases == v.cases
              && |after.log| == |v.log| + 1
  {
    hide NextLink, Blank;
  }

  function Release(x: Context, v: Store, i: nat, sign: Signed, holdId: string, now: string): Result<Store, VaultError> {
    if Blank(sign.reason) then Err(ReasonMissing)
    else if Blank(sign.approvedBy) || sign.approvedBy == sign.who then Err(TwoPeopleNeeded)
    else if i >= |v.holds| then Err(NoSuchHold)
    else if !Active(v.holds[i]) then Err(AlreadyReleased)
    else if sign.who == "" then Err(ActorMissing)
    else
      Ok(Audited(x, v.(holds := v.holds[i := v.holds[i].(released := Some(sign))]), "legal_hold.released", "legal_hold",
                 holdId, sign.who,
                 Member("approved_by", JStr(sign.approvedBy), Member("reason", JStr(sign.reason), NoMembers)), now))
  }

  /** Everything a shred asks before it touches a key. */
  ghost function ShredRefused(v: Store, subject: string, sign: Signed): Option<VaultError> {
    if Blank(sign.reason) then Some(ReasonMissing)
    else if Blank(sign.approvedBy) || sign.approvedBy == sign.who then Some(TwoPeopleNeeded)
    else if Held(v, subject) then Some(HeldMaterial)
    else None
  }

  predicate Live(v: Store, subject: string) {
    subject in v.keys && v.keys[subject].destroyed.None?
  }

  function Erased(keys: map<string, KeyRow>, subject: string, sign: Signed): map<string, KeyRow> {
    if subject in keys && keys[subject].destroyed.None? then keys[subject := KeyRow("", Some(sign))] else keys
  }

  /** Destroy the subject's key, if there is one left, and record that it was asked for. */
  function Destroy(x: Context, v: Store, subject: string, sign: Signed, now: string): Result<Store, VaultError> {
    if sign.who == "" then Err(ActorMissing)
    else
      Ok(Audited(x, v.(keys := Erased(v.keys, subject, sign)), "crypto.shredded", "subject_key", subject, sign.who,
                 Member("keys_destroyed", JInt(if Live(v, subject) then 1 else 0), Member("approved_by", JStr(sign.approvedBy),
                 Member("reason", JStr(sign.reason), Member("irreversible", JBool(true), NoMembers)))), now))
  }

  ghost function Shred(x: Context, v: Store, subject: string, sign: Signed, now: string): Result<Store, VaultError> {
    match ShredRefused(v, subject, sign)
    case Some(e) => Err(e)
    case None => Destroy(x, v, subject, sign, now)
  }

  // -- runs ------------------------------------------------------------------

  // A text somebody sealed: whose it is, what it said, and what is stored for it.
  datatype SealedText = SealedText(subject: string, plaintext: string, stored: string)

  // The shreds in `cleared` passed their checks and have not begun their transaction yet.
  datatype World = World(store: Store, items: seq<SealedText>, cleared: multiset<(string, Signed)>)

  datatype Step =
    | DoSeal(subject: string, plaintext: string, on: bool, newKey: string, nonce: nat)
    | DoPlace(hold: Hold, holdId: string, now: string)
    | DoRelease(i: nat, sign: Signed, holdId: string, now: string)
    | DoCheck(subject: string, sign: Signed)
    | DoDestroy(subject: string, sign: Signed, now: string)
    | DoFile(case_: Case)

  ghost function Kept(r: Result<Store, VaultError>, v: Store): Store {
    if r.Ok? then r.value else v
  }

  /** One step; one that is refused changes nothing. A shred is two of them: its checks
      are read first, and only a later transaction destroys the key. */
  ghost function Apply(x: Context, w: World, s: Step): World {
    match s
    case DoSeal(subject, plaintext, on, newKey, nonce) =>
      (match Seal(x, w.store, subject, plaintext, on, newKey, nonce)
       case Err(_) => w
       case Ok((v, stored)) =>
         w.(store := v, items := w.items + (if on && plaintext != "" then [SealedText(subject, plaintext, stored)] else [])))
    case DoPlace(hold, holdId, now) => w.(store := Kept(Place(x, w.store, hold, holdId, now), w.store))
    case DoRelease(i, sign, holdId, now) => w.(store := Kept(Release(x, w.store, i, sign, holdId, now), w.store))
    case DoCheck(subject, sign) =>
      if ShredRefused(w.store, subject, sign).Some? then w else w.(cleared := w.cleared + multiset{(subject, sign)})
    case DoDestroy(subject, sign, now) =>
      if (subject, sign) !in w.cleared then w
      else w.(store := Kept(Destroy(x, w.store, subject, sign, now), w.store), cleared := w.cleared - multiset{(subject, sign)})
    case DoFile(case_) => w.(store := w.store.(cases := w.store.cases + [case_]))
  }

  ghost function Run(x: Context, w: World, steps: seq<Step>): World {
    var n := |steps|;
    if n == 0 then w else Apply(x, Run(x, w, steps[..n - 1]), steps[n - 1])
  }

  const NEW := World(Store(map[], [], [], []), [], multiset{})

  // -- what every run keeps --------------------------------------------------

  /** A sealed text is readable while its subject's key is, and erased once it is not. */
  ghost predicate ItemOk(x: Context, v: Store, item: SealedText) {
    && item.subject in v.keys
    && SEALED_PREFIX <= item.stored
    && Unseal(x, v, item.subject, item.stored) == if Live(v, item.subject) then item.plaintext else SHREDDED_MARKER
  }

  ghost predicate KeyOk(x: Context, row: KeyRow) {
    row.destroyed.None? ==> x.cipher.decrypt(x.master, row.wrapped).Some?
  }

  ghost predicate Inv(x: Context, w: World) {
    && (forall s :: s in w.store.keys ==> KeyOk(x, w.store.keys[s]))
    && (forall i :: 0 <= i < |w.items| ==> ItemOk(x, w.store, w.items[i]))
    && Genuine(x.h, w.store.log)
  }

  lemma AuditedKeeps(x: Context, v: Store, eventType: string, subjectType: string, subjectId: string, actorId: string,
                     payload: Members, now: string)
    requires Genuine(x.h, v.log)
    ensures var after := Audited(x, v, eventType, subjectType, subjectId, actorId, payload, now);
            Genuine(x.h, after.log) && after == v.(log := after.log)
  {
    var e := Entry(eventType, None, Actor("user", actorId), None, subjectType, subjectId, payload, "");
    AppendOneGenuine(x.h, x.tenantId, v.log, e, x.ids(|v.log|), now);
    hide Genuine, AppendOne;
  }

  lemma SealOpens(x: Context, v: Store, subject: string, plaintext: string, newKey: string, nonce: nat)
    requires CipherOk(x.cipher) && plaintext != ""
    ensures Seal(x, v, subject, plaintext, true, newKey, nonce).Err? <==> subject in v.keys && Locked(x, v.keys[subject])
    ensures subject in v.keys && Locked(x, v.keys[subject]) ==>
              Seal(x, v, subject, plaintext, true, newKey, nonce) == Err(WhyLocked(v.keys[subject]))
    ensures Seal(x, v, subject, plaintext, true, newKey, nonce).Ok? ==>
              var r := Seal(x, v, subject, plaintext, true, newKey, nonce).value;
              ItemOk(x, r.0, SealedText(subject, plaintext, r.1)) && Live(r.0, subject) && KeyOk(x, r.0.keys[subject])
              && r.0 == v.(keys := KeyFor(x, v.keys, subject, newKey, nonce))
  {
    assert Inverts(x.cipher, x.master, newKey, nonce);
    var keys := KeyFor(x, v.keys, subject, newKey, nonce);
    if DataKey(x, keys[subject]).Ok? {
      var k := DataKey(x, keys[subject]).value;
      var token := x.cipher.encrypt(k, plaintext, nonce);
      assert Inverts(x.cipher, k, plaintext, nonce);
      assert (SEALED_PREFIX + token)[|SEALED_PREFIX|..] == token;
    }
  }

  /** A text already stored reads the same while its subject's key does. */
  lemma SameKeySameText(x: Context, v: Store, after: Store, item: SealedText)
    requires ItemOk(x, v, item) && item.subject in after.keys && after.keys[item.subject] == v.keys[item.subject]
    ensures ItemOk(x, after, item)
  {
  }

  lemma DestroyedText(x: Context, v: Store, item: SealedText)
    requires item.subject in v.keys && v.keys[item.subject].destroyed.Some? && SEALED_PREFIX <= item.stored
    ensures ItemOk(x, v, item)
  {
  }

  lemma SealKeeps(x: Context, w: World, subject: string, plaintext: string, on: bool, newKey: string, nonce: nat)
    requires CipherOk(x.cipher) && Inv(x, w)
    ensures Inv(x, Apply(x, w, DoSeal(subject, plaintext, on, newKey, nonce)))
  {
    hide Genuine, CipherOk, KeyOk, ItemOk;
    var after := Apply(x, w, DoSeal(subject, plaintext, on, newKey, nonce));
    if on && plaintext != "" {
      SealOpens(x, w.store, subject, plaintext, newKey, nonce);
      forall i | 0 <= i < |w.items| ensures ItemOk(x, after.store, w.items[i]) {
        ItemKeyed(x, w.store, w.items[i]);
        SameKeySameText(x, w.store, after.store, w.items[i]);
      }
    } else {
      assert w.items + [] == w.items;
    }
  }

  lemma ItemKeyed(x: Context, v: Store, item: SealedText)
    requires ItemOk(x, v, item)
    ensures item.subject in v.keys && SEALED_PREFIX <= item.stored
  {
  }

  lemma SameKeysKeep(x: Context, w: World, v: Store)
    requires Inv(x, w) && v.keys == w.store.keys && Genuine(x.h, v.log)
    ensures Inv(x, w.(store := v))
  {
    hide Genuine, KeyOk, ItemOk;
    forall i | 0 <= i < |w.items| ensures ItemOk(x, v, w.items[i]) {
      ItemKeyed(x, w.store, w.items[i]);
      SameKeySameText(x, w.store, v, w.items[i]);
    }
  }

  lemma HoldKeeps(x: Context, w: World, s: Step)
    requires Inv(x, w) && (s.DoPlace? || s.DoRelease? || s.DoCheck? || s.DoFile?)
    ensures Inv(x, Apply(x, w, s))
  {
    var v := Apply(x, w, s).store;
    if s.DoPlace? {
      AuditedKeeps(x, w.store.(holds := w.store.holds + [s.hold.(released := None)]), "legal_hold.placed", "legal_hold",
                   s.holdId, s.hold.placedBy,
                   Member("matter_reference", JStr(s.hold.matter), Member("reason", JStr(s.hold.reason), NoMembers)), s.now);
    } else if s.DoRelease? && s.i < |w.store.holds| {
      AuditedKeeps(x, w.store.(holds := w.store.holds[s.i := w.store.holds[s.i].(released := Some(s.sign))]),
                   "legal_hold.released", "legal_hold", s.holdId, s.sign.who,
                   Member("approved_by", JStr(s.sign.approvedBy), Member("reason", JStr(s.sign.reason), NoMembers)), s.now);
    }
    hide Genuine, KeyOk, ItemOk, Audited, Blank, Targeted, Fits, ShredRefused;
    SameKeysKeep(x, w, v);
  }

  lemma DestroyIs(x: Context, v: Store, subject: string, sign: Signed, now: string)
    requires Genuine(x.h, v.log)
    ensures Destroy(x, v, subject, sign, now).Err? <==> sign.who == ""
    ensures Destroy(x, v, subject, sign, now).Ok? ==>
              var after := Destroy(x, v, subject, sign, now).value;
              && Genuine(x.h, after.log)
              && after == Store(if Live(v, subject) then v.keys[subject := KeyRow("", Some(sign))] else v.keys,
                                v.holds, v.cases, after.log)
  {
    var keys := Erased(v.keys, subject, sign);
    AuditedKeeps(x, v.(keys := keys), "crypto.shredded", "subject_key", subject, sign.who,
                 Member("keys_destroyed", JInt(if Live(v, subject) then 1 else 0), Member("approved_by", JStr(sign.approvedBy),
                 Member("reason", JStr(sign.reason), Member("irreversible", JBool(true), NoMembers)))), now);
    hide Genuine, Audited;
  }

  lemma DestroyKeeps(x: Context, w: World, subject: string, sign: Signed, now: string)
    requires Inv(x, w)
    ensures Inv(x, Apply(x, w, DoDestroy(subject, sign, now)))
  {
    DestroyIs(x, w.store, subject, sign, now);
    hide Genuine, ItemOk, Destroy, Held, Blank;
    var after := Apply(x, w, DoDestroy(subject, sign, now)).store;
    forall i | 0 <= i < |w.items| ensures ItemOk(x, after, w.items[i]) {
      ItemKeyed(x, w.store, w.items[i]);
      if after.keys[w.items[i].subject] == w.store.keys[w.items[i].subject] {
        SameKeySameText(x, w.store, after, w.items[i]);
      } else {
        DestroyedText(x, after, w.items[i]);
      }
    }
  }

  lemma {:induction false} RunKeeps(x: Context, steps: seq<Step>)
    requires CipherOk(x.cipher)
    ensures Inv(x, Run(x, NEW, steps))
    decreases |steps|
  {
    hide Inv, Apply, CipherOk;
    var n := |steps|;
    if n > 0 {
      RunKeeps(x, steps[..n - 1]);
      StepKeeps(x, Run(x, NEW, steps[..n - 1]), steps[n - 1]);
    } else {
      NewKeeps(x);
    }
  }

  lemma NewKeeps(x: Context)
    ensures Inv(x, NEW)
  {
  }

  lemma StepKeeps(x: Context, w: World, s: Step)
    requires CipherOk(x.cipher) && Inv(x, w)
    ensures Inv(x, Apply(x, w, s))
  {
    hide Inv, Apply, CipherOk;
    match s
    case DoSeal(subject, plaintext, on, newKey, nonce) => SealKeeps(x, w, subject, plaintext, on, newKey, nonce);
    case DoDestroy(subject, sign, now) => DestroyKeeps(x, w, subject, sign, now);
    case _ => HoldKeeps(x, w, s);
  }

  // -- the promises ----------------------------------------------------------

  /** In every run: sealed content reads back as it was written while its subject's key is
      live, and as the marker once that key is destroyed, whatever happened to the keys of
      others; and the audit chain verifies throughout. */
  lemma SealedContentInEveryRun(x: Context, steps: seq<Step>, i: nat)
    requires CipherOk(x.cipher) && i < |Run(x, NEW, steps).items|
    ensures var w := Run(x, NEW, steps);
            && Unseal(x, w.store, w.items[i].subject, w.items[i].stored)
               == (if Live(w.store, w.items[i].subject) then w.items[i].plaintext else SHREDDED_MARKER)
            && Genuine(x.h, w.store.log)
  {
    RunKeeps(x, steps);
    hide Genuine, Run, CipherOk, Unseal, Live;
    assert ItemOk(x, Run(x, NEW, steps).store, Run(x, NEW, steps).items[i]);
  }

  /** A hold is lifted only by its own release, two different people and a reason behind
      it; it stays on record otherwise unchanged, and every other hold stands. */
  lemma HoldLiftedOnlyByTwo(x: Context, w: World, s: Step, i: nat)
    requires i < |w.store.holds|
    ensures var after := Apply(x, w, s).store.holds;
            && i < |after|
            && (after[i] == w.store.holds[i]
                || (&& Active(w.store.holds[i]) && s.DoRelease? && s.i == i
                    && after[i] == w.store.holds[i].(released := Some(s.sign))
                    && !Blank(s.sign.reason) && !Blank(s.sign.approvedBy)
                    && s.sign.approvedBy != s.sign.who && s.sign.who != ""))
  {
    hide Held, Blank, AppendOne, Targeted, Fits;
  }

  /** Destroyed is destroyed: no step gives the subject a key again, and whatever is sealed
      under its name reads as the marker from then on. */
  lemma {:induction false} DestroyedForGood(x: Context, w: World, steps: seq<Step>, subject: string, stored: string)
    requires subject in w.store.keys && w.store.keys[subject].destroyed.Some?
    ensures var after := Run(x, w, steps).store;
            && subject in after.keys && after.keys[subject] == w.store.keys[subject]
            && (SEALED_PREFIX <= stored ==> Unseal(x, after, subject, stored) == SHREDDED_MARKER)
    decreases |steps|
  {
    var n := |steps|;
    if n > 0 {
      DestroyedForGood(x, w, steps[..n - 1], subject, stored);
      DestroyedStep(x, Run(x, w, steps[..n - 1]), steps[n - 1], subject);
    }
    hide Apply;
  }

  lemma DestroyedStep(x: Context, w: World, s: Step, subject: string)
    requires subject in w.store.keys && w.store.keys[subject].destroyed.Some?
    ensures var after := Apply(x, w, s).store; subject in after.keys && after.keys[subject] == w.store.keys[subject]
  {
    hide Held, Blank, AppendOne;
  }

  /** Nothing can be sealed for a subject whose key is destroyed, nor for one whose key the
      master key no longer unwraps; anything else can. */
  lemma SealRefusedExactlyWhen(x: Context, v: Store, subject: string, plaintext: string, on: bool, newKey: string,
          nonce: nat)
    requires CipherOk(x.cipher)
    ensures Seal(x, v, subject, plaintext, on, newKey, nonce).Err?
       <==> on && plaintext != "" && subject in v.keys && Locked(x, v.keys[subject])
    ensures Seal(x, v, subject, plaintext, on, newKey, nonce).Err? ==>
              Seal(x, v, subject, plaintext, on, newKey, nonce) == Err(WhyLocked(v.keys[subject]))
  {
    hide CipherOk, Locked, WhyLocked;
    if on && plaintext != "" {
      SealOpens(x, v, subject, plaintext, newKey, nonce);
    }
  }

  /** A shred that goes through puts the subject's sealed content beyond reach for good
      exactly when the subject already had a key: with none, it destroys nothing, and the
      next text sealed for the subject can be read back. */
  lemma ShredErasesExactlyWhen(x: Context, v: Store, subject: string, sign: Signed, now: string, plaintext: string,
          newKey: string, nonce: nat)
    requires CipherOk(x.cipher) && Genuine(x.h, v.log) && plaintext != "" && plaintext != SHREDDED_MARKER
    requires Shred(x, v, subject, sign, now).Ok?
    ensures var after := Shred(x, v, subject, sign, now).value;
            var next := Seal(x, after, subject, plaintext, true, newKey, nonce);
            && (subject in v.keys <==> subject in after.keys && after.keys[subject].destroyed.Some?)
            && (subject in v.keys <==> next.Err?)
            && (subject !in v.keys ==> Unseal(x, next.value.0, subject, next.value.1) == plaintext)
  {
    DestroyIs(x, v, subject, sign, now);
    hide Genuine, Held, Blank, Destroy, CipherOk;
    var after := Shred(x, v, subject, sign, now).value;
    SealOpens(x, after, subject, plaintext, newKey, nonce);
  }

  /** What is decrypted is never longer than the token it came from. */
  ghost predicate TokensNoShorter(c: Cipher) {
    forall k, t :: NoLonger(c, k, t)
  }

  ghost predicate NoLonger(c: Cipher, k: string, t: string) {
    c.decrypt(k, t).Some? ==> |c.decrypt(k, t).value| <= |t|
  }

  /** With sealing off, text is stored as it is, and so it reads back exactly when it does
      not itself begin like sealed text. */
  lemma UnsealedRoundTripExactlyWhen(x: Context, v: Store, subject: string, plaintext: string, newKey: string, nonce: nat)
    requires TokensNoShorter(x.cipher)
    ensures Seal(x, v, subject, plaintext, false, newKey, nonce) == Ok((v, plaintext))
    ensures Unseal(x, v, subject, plaintext) == plaintext <==> !(SEALED_PREFIX <= plaintext)
  {
    assert SEALED_PREFIX[0] == 's' && SHREDDED_MARKER[0] == '[';
    if subject in v.keys && DataKey(x, v.keys[subject]).Ok? && SEALED_PREFIX <= plaintext {
      assert NoLonger(x.cipher, DataKey(x, v.keys[subject]).value, plaintext[|SEALED_PREFIX|..]);
    }
  }

  // -- what the check is worth -----------------------------------------------

  /** The `k`-th step of a run is a shred's check, and it passed. */
  ghost predicate PassedAt(x: Context, steps: seq<Step>, k: nat, subject: string, sign: Signed) {
    && k < |steps| && steps[k] == DoCheck(subject, sign)
    && ShredRefused(Run(x, NEW, steps[..k]).store, subject, sign).None?
  }

  lemma {:induction false} ClearedWasChecked(x: Context, steps: seq<Step>, subject: string, sign: Signed) returns (k: nat)
    requires (subject, sign) in Run(x, NEW, steps).cleared
    ensures PassedAt(x, steps, k, subject, sign)
    decreases |steps|
  {
    hide ShredRefused, Kept, Destroy, Seal, Place, Release;
    var n := |steps| - 1;
    var before := Run(x, NEW, steps[..n]);
    if (subject, sign) in before.cleared {
      k := ClearedWasChecked(x, steps[..n], subject, sign);
      assert steps[..n][..k] == steps[..k];
    } else {
      k := n;
    }
  }

  lemma {:induction false} RunSplits(x: Context, w: World, steps: seq<Step>, k: nat)
    requires k <= |steps|
    ensures Run(x, w, steps) == Run(x, Run(x, w, steps[..k]), steps[k..])
    decreases |steps|
  {
    hide Apply;
    var n := |steps|;
    if k < n {
      RunSplits(x, w, steps[..n - 1], k);
      assert steps[..n - 1][..k] == steps[..k] && steps[..n - 1][k..] == steps[k..][..n - 1 - k];
    } else {
      assert steps[..k] == steps;
    }
  }

  /** Holds and cases are only added, and a hold among the old ones is as it was or has
      been released. */
  ghost predicate Grew(v: Store, after: Store) {
    && |v.holds| <= |after.holds| && |v.cases| <= |after.cases|
    && after.cases[..|v.cases|] == v.cases
    && (forall i :: 0 <= i < |v.holds| && Active(after.holds[i]) ==> after.holds[i] == v.holds[i])
  }

  lemma GrowsStep(x: Context, w: World, s: Step)
    ensures Grew(w.store, Apply(x, w, s).store)
    ensures !s.DoPlace? ==> |Apply(x, w, s).store.holds| == |w.store.holds|
    ensures !s.DoFile? ==> |Apply(x, w, s).store.cases| == |w.store.cases|
  {
    hide Held, Blank, AppendOne, Targeted;
  }

  lemma {:induction false} Grows(x: Context, w: World, steps: seq<Step>)
    ensures Grew(w.store, Run(x, w, steps).store)
    ensures (forall j :: 0 <= j < |steps| ==> !steps[j].DoPlace? && !steps[j].DoFile?) ==>
              |Run(x, w, steps).store.holds| == |w.store.holds| && |Run(x, w, steps).store.cases| == |w.store.cases|
    decreases |steps|
  {
    hide Apply, Active;
    var n := |steps|;
    if n > 0 {
      Grows(x, w, steps[..n - 1]);
      GrowsStep(x, Run(x, w, steps[..n - 1]), steps[n - 1]);
    }
  }

  /** Hold `i` of `after` covers the subject, and either the hold was not there in `v` or
      a case it covers was not. */
  ghost predicate BlocksLate(v: Store, after: Store, i: nat, subject: string)
    requires |v.cases| <= |after.cases|
  {
    && i < |after.holds|
    && (if i < |v.holds| then exists j :: |v.cases| <= j < |after.cases| && after.cases[j].customer == subject
                                          && Covers(after.holds[i], after.cases[j])
        else Blocks(after.holds[i], after.cases, subject))
  }

  /** The exact worth of a shred's check: once it has passed, and whatever happens then, the
      subject is held exactly when an active hold placed since covers the subject or one of
      its cases, or an older one that is still active covers a case of the subject filed since. */
  lemma HeldSinceExactlyWhen(x: Context, w: World, steps: seq<Step>, subject: string, sign: Signed)
    requires ShredRefused(w.store, subject, sign).None?
    ensures |w.store.cases| <= |Run(x, w, steps).store.cases|
    ensures var after := Run(x, w, steps).store;
            (Held(after, subject) <==> exists i: nat :: BlocksLate(w.store, after, i, subject))
  {
    Grows(x, w, steps);
    hide Run, Blank;
    var v, after := w.store, Run(x, w, steps).store;
    if Held(after, subject) {
      var i :| 0 <= i < |after.holds| && Blocks(after.holds[i], after.cases, subject);
      if i < |v.holds| {
        assert !Blocks(v.holds[i], v.cases, subject);
        assert after.holds[i] == v.holds[i];
        assert forall m :: 0 <= m < |v.cases| ==> v.cases[m] == after.cases[m];
        var j :| 0 <= j < |after.cases| && after.cases[j].customer == subject && Covers(after.holds[i], after.cases[j]);
      }
      assert BlocksLate(v, after, i, subject);
    }
    if i: nat :| BlocksLate(v, after, i, subject) {
      assert Blocks(after.holds[i], after.cases, subject);
    }
  }

  lemma SincePassed(x: Context, steps: seq<Step>, k: nat, subject: string, sign: Signed)
    requires PassedAt(x, steps, k, subject, sign)
    ensures var checked, after := Run(x, NEW, steps[..k]).store, Run(x, NEW, steps).store;
            && |checked.cases| <= |after.cases|
            && (Held(after, subject) <==> exists i: nat :: BlocksLate(checked, after, i, subject))
            && ((forall j :: k < j < |steps| ==> !steps[j].DoPlace? && !steps[j].DoFile?) ==> !Held(after, subject))
  {
    hide Run, Held, BlocksLate, ShredRefused;
    var checked, rest := Run(x, NEW, steps[..k]), steps[k..];
    RunSplits(x, NEW, steps, k);
    HeldSinceExactlyWhen(x, checked, rest, subject, sign);
    if forall j :: k < j < |steps| ==> !steps[j].DoPlace? && !steps[j].DoFile? {
      forall j | 0 <= j < |rest| ensures !rest[j].DoPlace? && !rest[j].DoFile? {
        assert rest[j] == steps[k + j];
      }
      Grows(x, checked, rest);
      NothingLate(checked.store, Run(x, NEW, steps).store, subject);
    }
  }

  /** In every run, a key that a step destroys had a shred ask for it: two different people
      with a reason, a passed check earlier in the run, and that step its transaction. The
      subject is under hold at that moment exactly by way of a hold placed or a case filed
      since the check; so with neither in between, it is not. */
  lemma DestroyedOnlyUnheld(x: Context, steps: seq<Step>, last: Step, subject: string) returns (k: nat)
    requires Live(Run(x, NEW, steps).store, subject) && !Live(Run(x, NEW, steps + [last]).store, subject)
    ensures last.DoDestroy? && last.subject == subject && PassedAt(x, steps, k, subject, last.sign)
    ensures !Blank(last.sign.reason) && !Blank(last.sign.approvedBy)
            && last.sign.approvedBy != last.sign.who && last.sign.who != ""
    ensures subject in Run(x, NEW, steps + [last]).store.keys
            && Run(x, NEW, steps + [last]).store.keys[subject] == KeyRow("", Some(last.sign))
    ensures var checked, after := Run(x, NEW, steps[..k]).store, Run(x, NEW, steps).store;
            && |checked.cases| <= |after.cases|
            && (Held(after, subject) <==> exists i: nat :: BlocksLate(checked, after, i, subject))
            && ((forall j :: k < j < |steps| ==> !steps[j].DoPlace? && !steps[j].DoFile?) ==> !Held(after, subject))
  {
    OneMoreStep(x, NEW, steps, last);
    hide Run, Held, BlocksLate, Live, Apply;
    KeyGone(x, Run(x, NEW, steps), last, subject);
    k := ClearedWasChecked(x, steps, subject, last.sign);
    SincePassed(x, steps, k, subject, last.sign);
  }

  lemma OneMoreStep(x: Context, w: World, steps: seq<Step>, s: Step)
    ensures Run(x, w, steps + [s]) == Apply(x, Run(x, w, steps), s)
  {
    assert (steps + [s])[..|steps|] == steps;
  }

  lemma KeyGone(x: Context, w: World, s: Step, subject: string)
    requires Live(w.store, subject) && !Live(Apply(x, w, s).store, subject)
    ensures s.DoDestroy? && s.subject == subject && (subject, s.sign) in w.cleared && s.sign.who != ""
    ensures subject in Apply(x, w, s).store.keys && Apply(x, w, s).store.keys[subject] == KeyRow("", Some(s.sign))
  {
    hide Held, Blank, AppendOne;
  }

  lemma NothingLate(v: Store, after: Store, subject: string)
    requires |v.holds| == |after.holds| && |v.cases| == |after.cases|
    ensures !exists i: nat :: BlocksLate(v, after, i, subject)
  {
  }

  // -- two runs in which a held subject's key is destroyed -------------------

  const ASKED := Signed("ada", "ben", "erasure request")

  function SealAlice(): Step {
    DoSeal("alice", "text", true, "key", 0)
  }

  /** After `before`, a shred's check passes; the step `between` puts its subject under hold;
      and the shred's transaction destroys the key all the same. */
  ghost predicate DestroyedWhileHeld(x: Context, before: seq<Step>, between: Step) {
    var steps := before + [DoCheck("alice", ASKED)] + [between];
    && PassedAt(x, steps, |before|, "alice", ASKED)
    && Live(Run(x, NEW, steps).store, "alice") && Held(Run(x, NEW, steps).store, "alice")
    && var after := Run(x, NEW, steps + [DoDestroy("alice", ASKED, "now")]).store;
       !Live(after, "alice") && Held(after, "alice")
  }

  lemma DestroysAnyway(x: Context, before: seq<Step>, between: Step)
    requires between.DoPlace? || between.DoFile?
    requires var w := Run(x, NEW, before);
             && Live(w.store, "alice") && ShredRefused(w.store, "alice", ASKED).None?
             && Held(Apply(x, w, between).store, "alice")
    ensures DestroyedWhileHeld(x, before, between)
  {
    var w, check, destroy := Run(x, NEW, before), DoCheck("alice", ASKED), DoDestroy("alice", ASKED, "now");
    hide Run, Held, ShredRefused, AppendOne, Blank, Targeted;
    OneMoreStep(x, NEW, before, check);
    OneMoreStep(x, NEW, before + [check], between);
    OneMoreStep(x, NEW, before + [check] + [between], destroy);
    var steps := before + [check] + [between];
    assert steps[..|before|] == before && steps[|before|] == check;
    var held := Apply(x, w.(cleared := w.cleared + multiset{("alice", ASKED)}), between);
    assert held.store == Apply(x, w, between).store;
    SameHolds(held.store, Apply(x, held, destroy).store, "alice");
  }

  lemma SameHolds(v: Store, after: Store, subject: string)
    requires after.holds == v.holds && after.cases == v.cases
    ensures Held(after, subject) == Held(v, subject)
  {
  }

  lemma AliceSealed(x: Context, before: seq<Step>)
    requires CipherOk(x.cipher) && "alice" !in Run(x, NEW, before).store.keys
    ensures var v, after := Run(x, NEW, before).store, Run(x, NEW, before + [SealAlice()]).store;
            Live(after, "alice") && after.holds == v.holds && after.cases == v.cases
  {
    hide Run, CipherOk;
    OneMoreStep(x, NEW, before, SealAlice());
    SealOpens(x, Run(x, NEW, before).store, "alice", "text", "key", 0);
  }

  lemma AskedInOrder(v: Store)
    requires forall i :: 0 <= i < |v.holds| ==> !Blocks(v.holds[i], v.cases, "alice")
    ensures ShredRefused(v, "alice", ASKED).None?
  {
    var approver, reason := ASKED.approvedBy, ASKED.reason;
    assert approver == "ben" && reason == "erasure request";
    assert !IsSpace(approver[0]) && !IsSpace(reason[0]);
  }

  /** A hold on the subject placed after the check does not stop the transaction. */
  lemma HoldPlacedMeanwhile(x: Context)
    requires CipherOk(x.cipher)
    ensures DestroyedWhileHeld(x, [SealAlice()], DoPlace(AliceHold(), "h-1", "now"))
  {
    hide CipherOk, AppendOne, Blank, SealAlice;
    assert Run(x, NEW, []) == NEW;
    AliceSealed(x, []);
    assert [] + [SealAlice()] == [SealAlice()];
    var w := Run(x, NEW, [SealAlice()]);
    AskedInOrder(w.store);
    NotBlank();
    var held := Apply(x, w, DoPlace(AliceHold(), "h-1", "now")).store;
    assert Blocks(held.holds[0], held.cases, "alice");
    DestroysAnyway(x, [SealAlice()], DoPlace(AliceHold(), "h-1", "now"));
  }

  function AliceHold(): Hold {
    Hold("hold", "M-1", "litigation", CustomerScope, None, "alice", "", None, None, "ada", None)
  }

  function FraudHold(): Hold {
    Hold("hold", "M-1", "litigation", CategoryScope, None, "", "fraud", None, None, "ada", None)
  }

  lemma NotBlank()
    ensures !Blank("M-1") && !Blank("litigation")
  {
    var matter, reason := "M-1", "litigation";
    assert !IsSpace(matter[0]) && !IsSpace(reason[0]);
  }

  /** Nor does a case filed after it, which a hold on its category covers. */
  lemma CaseFiledMeanwhile(x: Context)
    requires CipherOk(x.cipher)
    ensures DestroyedWhileHeld(x, [DoPlace(FraudHold(), "h-1", "now"), SealAlice()], DoFile(Case("c-1", "alice", "fraud", 0)))
  {
    hide CipherOk, AppendOne, Blank, SealAlice;
    var place, file := DoPlace(FraudHold(), "h-1", "now"), DoFile(Case("c-1", "alice", "fraud", 0));
    NotBlank();
    OneMoreStep(x, NEW, [], place);
    assert [] + [place] == [place] && Run(x, NEW, []) == NEW;
    AliceSealed(x, [place]);
    var before := [place, SealAlice()];
    assert [place] + [SealAlice()] == before;
    var w := Run(x, NEW, before);
    AskedInOrder(w.store);
    var held := Apply(x, w, file).store;
    assert held.cases[0].customer == "alice" && Covers(held.holds[0], held.cases[0]);
    assert Blocks(held.holds[0], held.cases, "alice");
    DestroysAnyway(x, before, file);
  }

  /** A shred asked for before anything of the subject was sealed goes through and destroys
      nothing; what is sealed next is readable, under a live key. */
  lemma ShredOfNothing(x: Context)
    requires CipherOk(x.cipher)
    ensures var shred := [DoCheck("alice", ASKED)] + [DoDestroy("alice", ASKED, "now")];
            var shredded, sealed := Run(x, NEW, shred), Run(x, NEW, shred + [SealAlice()]);
            && PassedAt(x, shred, 0, "alice", ASKED) && shredded.cleared == multiset{}
            && |shredded.store.log| == 1 && shredded.store.keys == map[]
            && |sealed.items| == 1 && sealed.items[0].subject == "alice" && Live(sealed.store, "alice")
            && Unseal(x, sealed.store, "alice", sealed.items[0].stored) == "text"
  {
    hide CipherOk, NextLink, Blank;
    var check, destroy := DoCheck("alice", ASKED), DoDestroy("alice", ASKED, "now");
    assert Run(x, NEW, []) == NEW;
    AskedInOrder(NEW.store);
    OneMoreStep(x, NEW, [], check);
    assert [] + [check] == [check] && ([check] + [destroy])[..0] == [];
    OneMoreStep(x, NEW, [check], destroy);
    hide Run, AppendOne;
    var shred := [check] + [destroy];
    OneMoreStep(x, NEW, shred, SealAlice());
    SealOpens(x, Run(x, NEW, shred).store, "alice", "text", "key", 0);
  }

  // -- shreds that a hold refuses --------------------------------------------

  const ALICE := Case("c-1", "alice", "fraud", 100)

  function CaseHold(caseId: string): Hold {
    Hold("hold", "M-1", "litigation", DisputeScope, Some(caseId), "", "", None, None, "ada", None)
  }

  function PeriodHold(from: int, to: int): Hold {
    Hold("hold", "M-1", "litigation", PeriodScope, None, "", "", Some(from), Some(to), "ada", None)
  }

  lemma OneHold(v: Store, h: Hold)
    requires v.holds == [h] && v.cases == [ALICE]
    ensures Held(v, "alice") <==> KeepsBack(h, [ALICE], "alice")
  {
    HeldExactlyWhen(v, "alice");
    hide KeepsBack, Held;
    assert v.holds[0] == h;
  }

  /** Alice's key cannot be shredded while a hold names her case, and can be while one names
      another. A case filed at the first instant of a held period is held, and one filed at
      the instant the period ends is not. */
  lemma HeldAndNot(keys: map<string, KeyRow>, log: seq<Record>)
    ensures ShredRefused(Store(keys, [CaseHold("c-1")], [ALICE], log), "alice", ASKED) == Some(HeldMaterial)
    ensures ShredRefused(Store(keys, [CaseHold("c-2")], [ALICE], log), "alice", ASKED) == None
    ensures ShredRefused(Store(keys, [PeriodHold(100, 200)], [ALICE], log), "alice", ASKED) == Some(HeldMaterial)
    ensures ShredRefused(Store(keys, [PeriodHold(0, 100)], [ALICE], log), "alice", ASKED) == None
    ensures ShredRefused(Store(keys, [PeriodHold(101, 200)], [ALICE], log), "alice", ASKED) == None
  {
    OneHold(Store(keys, [CaseHold("c-1")], [ALICE], log), CaseHold("c-1"));
    OneHold(Store(keys, [CaseHold("c-2")], [ALICE], log), CaseHold("c-2"));
    OneHold(Store(keys, [PeriodHold(100, 200)], [ALICE], log), PeriodHold(100, 200));
    OneHold(Store(keys, [PeriodHold(0, 100)], [ALICE], log), PeriodHold(0, 100));
    OneHold(Store(keys, [PeriodHold(101, 200)], [ALICE], log), PeriodHold(101, 200));
    assert ALICE in [ALICE];
    var id, other := "c-1", "c-2";
    assert id[2] != other[2];
    hide Held;
    AskedProperly();
  }

  lemma AskedProperly()
    ensures !Blank(ASKED.reason) && !Blank(ASKED.approvedBy) && ASKED.approvedBy != ASKED.who
  {
    var who, approver, reason := ASKED.who, ASKED.approvedBy, ASKED.reason;
    assert who[0] == 'a' && approver[0] == 'b' && !IsSpace(approver[0]) && !IsSpace(reason[0]);
  }
}
