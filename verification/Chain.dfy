/** The audit chain: what each record's hash covers, and what a genuine chain is. */
module Chain {
  import opened Prelude
  import opened Json
  import opened Canonical

  // The digest of some text, already written out with its algorithm prefix.
  type Hasher = string -> string

  const GENESIS := "sha256:0000000000000000000000000000000000000000000000000000000000000000"

  datatype Record = Record(id: string, tenantId: string, sequence: int, eventType: string, occurredAt: string,
                           actorType: string, actorId: string, actorIp: Option<string>, subjectType: string,
                           subjectId: string, payload: Json, corrects: string, prevHash: string, hash: string)

  // -- canonical content -----------------------------------------------------

  const COVERED_FIELDS := [
    "id", "tenant_id", "sequence", "event_type", "occurred_at", "actor_type", "actor_id", "actor_ip",
    "subject_type", "subject_id", "payload", "corrects"
  ]

  /** The covered fields of a dictionary, or nothing if one is missing. */
  function Pick(content: Members, fields: seq<string>): Option<Members>
    decreases |fields|
  {
    if fields == [] then Some(NoMembers)
    else
      match (Lookup(content, fields[0]), Pick(content, fields[1..]))
      case (Some(v), Some(rest)) => Some(Member(fields[0], v, rest))
      case _ => None
  }

  /** The text the hash covers; refused when a covered field is missing. */
  function Canonicalise(content: Members): Option<string> {
    match Pick(content, COVERED_FIELDS)
    case None => None
    case Some(ms) => Some(Text(JObj(ms)))
  }

  function NullOr(s: Option<string>): Json {
    if s.None? then JNull else JStr(s.value)
  }

  /** The covered fields of a record, in the order they are listed. */
  function RecordContent(r: Record): Members {
    Member("id", JStr(r.id), Member("tenant_id", JStr(r.tenantId), Member("sequence", JInt(r.sequence),
    Member("event_type", JStr(r.eventType), Member("occurred_at", JStr(r.occurredAt), Content6(r))))))
  }

  function Content6(r: Record): Members {
    Member("actor_type", JStr(r.actorType), Member("actor_id", JStr(r.actorId), Member("actor_ip", NullOr(r.actorIp),
    Member("subject_type", JStr(r.subjectType), Content10(r)))))
  }

  function Content10(r: Record): Members {
    Member("subject_id", JStr(r.subjectId), Member("payload", r.payload, Member("corrects", JStr(r.corrects), NoMembers)))
  }

  /** Under which name each field of a record is hashed, and that nothing else is. */
  lemma ContentNames(r: Record)
    ensures var c := RecordContent(r);
            && Lookup(c, "id") == Some(JStr(r.id)) && Lookup(c, "tenant_id") == Some(JStr(r.tenantId))
            && Lookup(c, "sequence") == Some(JInt(r.sequence))
            && Lookup(c, "event_type") == Some(JStr(r.eventType)) && Lookup(c, "occurred_at") == Some(JStr(r.occurredAt))
            && Lookup(c, "actor_type") == Some(JStr(r.actorType)) && Lookup(c, "actor_id") == Some(JStr(r.actorId))
            && Lookup(c, "actor_ip") == Some(if r.actorIp.None? then JNull else JStr(r.actorIp.value))
            && Lookup(c, "subject_type") == Some(JStr(r.subjectType)) && Lookup(c, "subject_id") == Some(JStr(r.subjectId))
            && Lookup(c, "payload") == Some(r.payload) && Lookup(c, "corrects") == Some(JStr(r.corrects))
    ensures forall name :: Lookup(RecordContent(r), name).Some? ==> name in COVERED_FIELDS
  {
    CoveredDistinct();
    hide RecordContent, Content6, Lookup;
    forall name ensures Lookup(RecordContent(r), name) ==
                          if name == COVERED_FIELDS[0] then Some(JStr(r.id))
                          else if name == COVERED_FIELDS[1] then Some(JStr(r.tenantId))
                          else if name == COVERED_FIELDS[2] then Some(JInt(r.sequence))
                          else if name == COVERED_FIELDS[3] then Some(JStr(r.eventType))
                          else if name == COVERED_FIELDS[4] then Some(JStr(r.occurredAt))
                          else Lookup(Content6(r), name)
    {
      FirstNames(r, name);
    }
    Content6Names(r);
  }

  lemma FirstNames(r: Record, name: string)
    ensures Lookup(RecordContent(r), name) ==
            if name == COVERED_FIELDS[0] then Some(JStr(r.id))
            else if name == COVERED_FIELDS[1] then Some(JStr(r.tenantId))
            else if name == COVERED_FIELDS[2] then Some(JInt(r.sequence))
            else if name == COVERED_FIELDS[3] then Some(JStr(r.eventType))
            else if name == COVERED_FIELDS[4] then Some(JStr(r.occurredAt))
            else Lookup(Content6(r), name)
  {
    var c, fs := RecordContent(r), COVERED_FIELDS;
    assert Lookup(c.rest.rest.rest, name) == if name == fs[3] then Some(JStr(r.eventType)) else Lookup(c.rest.rest.rest.rest, name);
    assert Lookup(c.rest, name) == if name == fs[1] then Some(JStr(r.tenantId)) else Lookup(c.rest.rest, name);
  }

  lemma Content6Names(r: Record)
    ensures var c, fs := Content6(r), COVERED_FIELDS;
            && Lookup(c, fs[5]) == Some(JStr(r.actorType)) && Lookup(c, fs[6]) == Some(JStr(r.actorId))
            && Lookup(c, fs[7]) == Some(NullOr(r.actorIp)) && Lookup(c, fs[8]) == Some(JStr(r.subjectType))
            && Lookup(c, fs[9]) == Some(JStr(r.subjectId)) && Lookup(c, fs[10]) == Some(r.payload)
            && Lookup(c, fs[11]) == Some(JStr(r.corrects))
    ensures forall name :: Lookup(Content6(r), name).Some? ==> name in COVERED_FIELDS
  {
    CoveredDistinct();
    var c, fs := Content6(r), COVERED_FIELDS;
    forall name ensures Lookup(c, name) ==
                          if name == fs[5] then Some(JStr(r.actorType))
                          else if name == fs[6] then Some(JStr(r.actorId))
                          else if name == fs[7] then Some(NullOr(r.actorIp))
                          else if name == fs[8] then Some(JStr(r.subjectType))
                          else Lookup(Content10(r), name)
    {
      assert Lookup(c.rest.rest, name) == if name == fs[7] then Some(NullOr(r.actorIp)) else Lookup(c.rest.rest.rest, name);
    }
    forall name ensures Lookup(Content10(r), name) ==
                          if name == fs[9] then Some(JStr(r.subjectId))
                          else if name == fs[10] then Some(r.payload)
                          else if name == fs[11] then Some(JStr(r.corrects))
                          else None
    {
      assert Lookup(Content10(r).rest.rest, name) == if name == fs[11] then Some(JStr(r.corrects)) else None;
    }
    hide Content6, Content10, Lookup, NullOr;
  }

  /** The same covered content, a payload's member order aside. */
  ghost predicate SameContent(r: Record, s: Record) {
    && Normal(r.payload) == Normal(s.payload)
    && r.(payload := s.payload, prevHash := s.prevHash, hash := s.hash) == s
  }

  function CanonicalText(r: Record): string {
    Text(JObj(RecordContent(r)))
  }

  /** What is hashed of a dictionary: exactly its covered fields, refused when one is
      missing; a record's own dictionary always has them all. */
  lemma {:induction false} PickCovers(content: Members, fields: seq<string>)
    ensures Pick(content, fields).None? <==> !forall i :: 0 <= i < |fields| ==> Lookup(content, fields[i]).Some?
    decreases |fields|
  {
    if fields != [] {
      PickCovers(content, fields[1..]);
      assert forall i :: 1 <= i < |fields| ==> fields[i] == fields[1..][i - 1];
    }
  }

  lemma {:induction false} PickSkips(key: string, value: Json, rest: Members, fields: seq<string>)
    requires key !in fields
    ensures Pick(Member(key, value, rest), fields) == Pick(rest, fields)
    decreases |fields|
  {
    if fields != [] {
      PickSkips(key, value, rest, fields[1..]);
    }
  }

  function Keys(ms: Members): seq<string> {
    if ms.NoMembers? then [] else [ms.key] + Keys(ms.rest)
  }

  lemma {:induction false} PickOwnKeys(ms: Members)
    requires forall i, j :: 0 <= i < j < |Keys(ms)| ==> Keys(ms)[i] != Keys(ms)[j]
    ensures Pick(ms, Keys(ms)) == Some(ms)
  {
    if ms.Member? {
      var ks := Keys(ms);
      assert ks[1..] == Keys(ms.rest);
      assert forall i, j :: 0 <= i < j < |ks[1..]| ==> ks[1..][i] == ks[i + 1] && ks[1..][j] == ks[j + 1];
      PickOwnKeys(ms.rest);
      assert forall j :: 0 < j < |ks| ==> ks[0] != ks[j];
      PickSkips(ms.key, ms.value, ms.rest, ks[1..]);
    }
  }

  lemma ContentKeysAre(r: Record)
    ensures Keys(RecordContent(r)) == COVERED_FIELDS
  {
    var c := Content10(r);
    assert Keys(c.rest.rest) == ["corrects"];
    assert Keys(c) == ["subject_id", "payload", "corrects"];
    var b := Content6(r);
    assert Keys(b.rest.rest) == ["actor_ip", "subject_type"] + Keys(c);
    assert Keys(b) == ["actor_type", "actor_id"] + Keys(b.rest.rest);
    var a := RecordContent(r);
    assert Keys(a.rest.rest.rest) == ["event_type", "occurred_at"] + Keys(b);
    assert Keys(a.rest) == ["tenant_id", "sequence"] + Keys(a.rest.rest.rest);
    assert Keys(a) == ["id"] + Keys(a.rest);
  }

  lemma CoveredDistinct()
    ensures forall i, j :: 0 <= i < j < |COVERED_FIELDS| ==> COVERED_FIELDS[i] != COVERED_FIELDS[j]
  {
    var fs := COVERED_FIELDS;
    assert |fs[0]| == 2 && |fs[1]| == 9 && |fs[2]| == 8 && |fs[3]| == 10 && |fs[4]| == 11 && |fs[5]| == 10;
    assert |fs[6]| == 8 && |fs[7]| == 8 && |fs[8]| == 12 && |fs[9]| == 10 && |fs[10]| == 7 && |fs[11]| == 8;
    assert fs[2][0] == 's' && fs[6][6] == 'i' && fs[7][6] == 'i' && fs[7][7] == 'p' && fs[6][7] == 'd' && fs[11][0] == 'c';
    assert fs[3][0] == 'e' && fs[5][0] == 'a' && fs[9][0] == 's';
  }

  /** A record is hashed over all of its covered fields, and a dictionary lacking one
      of them is refused rather than hashed without it. */
  lemma CanonicaliseCovers(content: Members, r: Record)
    ensures Canonicalise(content).Some? <==> forall f :: f in COVERED_FIELDS ==> Lookup(content, f).Some?
    ensures Canonicalise(RecordContent(r)) == Some(CanonicalText(r))
  {
    RefusedWhenMissing(content, COVERED_FIELDS);
    ContentPicksItself(r);
    hide COVERED_FIELDS, Pick, RecordContent, Text, Lookup;
  }

  lemma RefusedWhenMissing(content: Members, fields: seq<string>)
    ensures Pick(content, fields).Some? <==> forall f :: f in fields ==> Lookup(content, f).Some?
  {
    PickCovers(content, fields);
    hide Pick, Lookup;
    assert forall i :: 0 <= i < |fields| ==> fields[i] in fields;
  }

  lemma ContentPicksItself(r: Record)
    ensures Pick(RecordContent(r), COVERED_FIELDS) == Some(RecordContent(r))
  {
    ContentKeysAre(r);
    CoveredDistinct();
    hide RecordContent, COVERED_FIELDS, Keys, Pick;
    PickOwnKeys(RecordContent(r));
  }

  // -- the hash input --------------------------------------------------------

  function HashInput(r: Record, prevHash: string): string {
    CanonicalText(r) + "\0" + prevHash
  }

  function ComputeHash(h: Hasher, r: Record, prevHash: string): string {
    h(HashInput(r, prevHash))
  }

  lemma ContentKeys(r: Record, s: Record)
    ensures SameKeys(RecordContent(r), RecordContent(s))
  {
    Content6Keys(r, s);
    var a, b := RecordContent(r).rest.rest, RecordContent(s).rest.rest;
    assert SameKeys(a.rest.rest, b.rest.rest);
    assert SameKeys(a, b);
  }

  lemma Content6Keys(r: Record, s: Record)
    ensures SameKeys(Content6(r), Content6(s))
  {
    assert SameKeys(Content10(r).rest, Content10(s).rest);
    assert SameKeys(Content10(r), Content10(s));
    assert SameKeys(Content6(r).rest.rest, Content6(s).rest.rest);
  }

  /** Equal normal forms agree member by member. */
  lemma Peel(a: Members, b: Members)
    requires a.Member? && b.Member? && NormalMembers(a) == NormalMembers(b)
    ensures Normal(a.value) == Normal(b.value) && NormalMembers(a.rest) == NormalMembers(b.rest)
  {
  }

  lemma ContentDetermined(r: Record, s: Record)
    requires NormalMembers(RecordContent(r)) == NormalMembers(RecordContent(s))
    ensures SameContent(r, s)
  {
    var a, b := RecordContent(r), RecordContent(s);
    Peel(a, b);
    Peel(a.rest, b.rest);
    Peel(a.rest.rest, b.rest.rest);
    Peel(a.rest.rest.rest, b.rest.rest.rest);
    Peel(a.rest.rest.rest.rest, b.rest.rest.rest.rest);
    Content6Determined(r, s);
  }

  lemma Content6Determined(r: Record, s: Record)
    requires NormalMembers(Content6(r)) == NormalMembers(Content6(s))
    ensures r.actorType == s.actorType && r.actorId == s.actorId && r.actorIp == s.actorIp && r.subjectType == s.subjectType
    ensures r.subjectId == s.subjectId && Normal(r.payload) == Normal(s.payload) && r.corrects == s.corrects
  {
    var a, b := Content6(r), Content6(s);
    Peel(a, b);
    Peel(a.rest, b.rest);
    Peel(a.rest.rest, b.rest.rest);
    Peel(a.rest.rest.rest, b.rest.rest.rest);
    var c, d := Content10(r), Content10(s);
    Peel(c, d);
    Peel(c.rest, d.rest);
    Peel(c.rest.rest, d.rest.rest);
  }

  /** The canonical text of a record determines everything the hash covers. */
  lemma CanonicalTextDetermines(r: Record, s: Record)
    requires CanonicalText(r) == CanonicalText(s)
    ensures SameContent(r, s)
  {
    TextDetermines(JObj(RecordContent(r)), JObj(RecordContent(s)));
    ContentKeys(r, s);
    NormalSameKeys(RecordContent(r), RecordContent(s));
    SortSameKeys(NormalMembers(RecordContent(r)), NormalMembers(RecordContent(s)));
    ContentDetermined(r, s);
  }

  lemma SameContentSameText(r: Record, s: Record)
    requires SameContent(r, s)
    ensures CanonicalText(r) == CanonicalText(s)
  {
    var a, b := Content10(r), Content10(s);
    assert NormalMembers(a.rest.rest) == NormalMembers(b.rest.rest);
    assert NormalMembers(a.rest) == NormalMembers(b.rest);
    assert NormalMembers(a) == NormalMembers(b);
    var c, d := Content6(r), Content6(s);
    assert NormalMembers(c.rest.rest.rest) == NormalMembers(d.rest.rest.rest);
    assert NormalMembers(c.rest.rest) == NormalMembers(d.rest.rest);
    assert NormalMembers(c.rest) == NormalMembers(d.rest);
    assert NormalMembers(c) == NormalMembers(d);
    var e, f := RecordContent(r), RecordContent(s);
    assert NormalMembers(e.rest.rest.rest.rest) == NormalMembers(f.rest.rest.rest.rest);
    assert NormalMembers(e.rest.rest.rest) == NormalMembers(f.rest.rest.rest);
    assert NormalMembers(e.rest.rest) == NormalMembers(f.rest.rest);
    assert NormalMembers(e.rest) == NormalMembers(f.rest);
    assert NormalMembers(e) == NormalMembers(f);
  }

  /** The canonical text has no NUL, so the separator splits the input one way. */
  lemma SplitAtNul(a: string, p: string, b: string, q: string)
    requires Printable(a) && Printable(b)
    requires a + "\0" + p == b + "\0" + q
    ensures a == b && p == q
  {
    var s, t := a + "\0" + p, b + "\0" + q;
    assert s[|a|] == '\0' && t[|b|] == '\0';
    assert forall i :: 0 <= i < |a| ==> s[i] == a[i] != '\0';
    assert forall i :: 0 <= i < |b| ==> t[i] == b[i] != '\0';
    assert |a| == |b|;
    assert s[..|a|] == a && t[..|b|] == b;
    assert s[|a| + 1..] == p && t[|b| + 1..] == q;
  }

  /** What is hashed determines the record's content and its predecessor, and nothing
      else about it matters. */
  lemma HashInputDetermines(r: Record, p: string, s: Record, q: string)
    ensures HashInput(r, p) == HashInput(s, q) <==> SameContent(r, s) && p == q
  {
    if HashInput(r, p) == HashInput(s, q) {
      RenderPrintable(Normal(JObj(RecordContent(r))));
      RenderPrintable(Normal(JObj(RecordContent(s))));
      SplitAtNul(CanonicalText(r), p, CanonicalText(s), q);
      CanonicalTextDetermines(r, s);
    } else if SameContent(r, s) {
      SameContentSameText(r, s);
    }
  }

  // -- the chain -------------------------------------------------------------

  /** Two different inputs with one digest. */
  ghost predicate Collides(h: Hasher, x: string, y: string) {
    x != y && h(x) == h(y)
  }

  /** Equal hashes mean equal content and an equal predecessor, unless the two
      hashed texts are themselves a collision. */
  lemma HashDetermines(h: Hasher, r: Record, p: string, s: Record, q: string)
    requires ComputeHash(h, r, p) == ComputeHash(h, s, q)
    ensures (SameContent(r, s) && p == q) || Collides(h, HashInput(r, p), HashInput(s, q))
  {
    HashInputDetermines(r, p, s, q);
  }

  function HashBefore(rs: seq<Record>, i: nat): string
    requires i <= |rs|
  {
    if i == 0 then GENESIS else rs[i - 1].hash
  }

  function Head(rs: seq<Record>): string {
    HashBefore(rs, |rs|)
  }

  /** The record at position `i` is the one an append at that position writes. */
  ghost predicate LinkOk(h: Hasher, rs: seq<Record>, i: nat)
    requires i < |rs|
  {
    && rs[i].sequence == i + 1
    && rs[i].prevHash == HashBefore(rs, i)
    && rs[i].hash == ComputeHash(h, rs[i], HashBefore(rs, i))
  }

  /** A genuine chain: numbered from 1 without a gap, and linked back to genesis. */
  ghost predicate Genuine(h: Hasher, rs: seq<Record>) {
    forall i :: 0 <= i < |rs| ==> LinkOk(h, rs, i)
  }

  lemma GenuinePrefix(h: Hasher, rs: seq<Record>, n: nat)
    requires n <= |rs| && Genuine(h, rs)
    ensures Genuine(h, rs[..n])
  {
    forall i | 0 <= i < n ensures LinkOk(h, rs[..n], i) {
      assert LinkOk(h, rs, i);
    }
  }

  lemma GenuineAppend(h: Hasher, rs: seq<Record>, r: Record)
    requires Genuine(h, rs)
    requires r.sequence == |rs| + 1 && r.prevHash == Head(rs) && r.hash == ComputeHash(h, r, Head(rs))
    ensures Genuine(h, rs + [r])
  {
    forall i | 0 <= i < |rs + [r]| ensures LinkOk(h, rs + [r], i) {
      if i < |rs| {
        assert LinkOk(h, rs, i);
      }
    }
  }

  /** Record for record the same, payload member order aside. */
  ghost predicate SameRecords(a: seq<Record>, b: seq<Record>) {
    && |a| == |b|
    && (forall i :: 0 <= i < |a| ==> SameContent(a[i], b[i]) && a[i].prevHash == b[i].prevHash && a[i].hash == b[i].hash)
  }

  /** Among the texts hashed by two chains, two different ones have one digest. */
  ghost predicate CollisionBetween(h: Hasher, a: seq<Record>, b: seq<Record>) {
    exists i: nat, j: nat :: i < |a| && j < |b|
      && Collides(h, HashInput(a[i], HashBefore(a, i)), HashInput(b[j], HashBefore(b, j)))
  }

  /** The head hash commits to the whole chain: two genuine chains with one head are
      the same chain, or exhibit a collision of the hash function. */
  lemma {:induction false} HeadCommits(h: Hasher, a: seq<Record>, b: seq<Record>)
    requires Genuine(h, a) && Genuine(h, b) && a != [] && b != []
    requires Head(a) == Head(b)
    ensures SameRecords(a, b) || CollisionBetween(h, a, b)
    decreases |a|
  {
    var m, n := |a| - 1, |b| - 1;
    assert LinkOk(h, a, m) && LinkOk(h, b, n);
    HashDetermines(h, a[m], HashBefore(a, m), b[n], HashBefore(b, n));
    if !Collides(h, HashInput(a[m], HashBefore(a, m)), HashInput(b[n], HashBefore(b, n))) {
      assert m == n;
      if m > 0 {
        GenuinePrefix(h, a, m);
        GenuinePrefix(h, b, n);
        HeadCommits(h, a[..m], b[..n]);
        CommitStep(h, a, b);
      }
    }
  }

  lemma CommitStep(h: Hasher, a: seq<Record>, b: seq<Record>)
    requires |a| == |b| && a != []
    requires var m := |a| - 1;
             && SameContent(a[m], b[m]) && a[m].prevHash == b[m].prevHash && a[m].hash == b[m].hash
             && (SameRecords(a[..m], b[..m]) || CollisionBetween(h, a[..m], b[..m]))
    ensures SameRecords(a, b) || CollisionBetween(h, a, b)
  {
    hide *;
    var m := |a| - 1;
    if SameRecords(a[..m], b[..m]) {
      SameExtends(a, b);
    } else {
      CollisionExtends(h, a, b, m);
    }
  }

  lemma SameExtends(a: seq<Record>, b: seq<Record>)
    requires |a| == |b| && a != []
    requires var m := |a| - 1;
             && SameContent(a[m], b[m]) && a[m].prevHash == b[m].prevHash && a[m].hash == b[m].hash
             && SameRecords(a[..m], b[..m])
    ensures SameRecords(a, b)
  {
    hide SameContent;
    var m := |a| - 1;
    forall i | 0 <= i < |a| ensures SameContent(a[i], b[i]) && a[i].prevHash == b[i].prevHash && a[i].hash == b[i].hash {
      assert i < m ==> a[..m][i] == a[i] && b[..m][i] == b[i];
    }
  }

  lemma CollisionExtends(h: Hasher, a: seq<Record>, b: seq<Record>, m: nat)
    requires m <= |a| && m <= |b|
    requires CollisionBetween(h, a[..m], b[..m])
    ensures CollisionBetween(h, a, b)
  {
    hide HashInput, Collides;
    var i: nat, j: nat :| i < m && j < m
      && Collides(h, HashInput(a[..m][i], HashBefore(a[..m], i)), HashInput(b[..m][j], HashBefore(b[..m], j)));
    assert HashBefore(a[..m], i) == HashBefore(a, i) && HashBefore(b[..m], j) == HashBefore(b, j);
    assert a[..m][i] == a[i] && b[..m][j] == b[j];
  }
}
