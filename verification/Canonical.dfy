/** The canonical form of a JSON value: members sorted by key at every level, then
    printed. */
module Canonical {
  import opened Prelude
  import opened Json

  // -- the order of keys -----------------------------------------------------

  /** By code point, a proper prefix first. */
  predicate Before(a: string, b: string) {
    if b == "" then false
    else if a == "" then true
    else a[0] < b[0] || (a[0] == b[0] && Before(a[1..], b[1..]))
  }

  lemma {:induction false} BeforeTotal(a: string, b: string)
    ensures Before(a, b) || a == b || Before(b, a)
    ensures !(Before(a, b) && Before(b, a)) && (a == b ==> !Before(a, b))
  {
    if a != "" && b != "" {
      assert a == [a[0]] + a[1..] && b == [b[0]] + b[1..];
      BeforeTotal(a[1..], b[1..]);
    }
  }

  ghost predicate DifferFirstAt(a: string, b: string, i: nat) {
    i < |a| && i < |b| && a[..i] == b[..i] && a[i] != b[i]
  }

  lemma FirstSame(a: string, b: string, i: nat)
    requires DifferFirstAt(a, b, i) && i > 0
    ensures a[0] == b[0]
  {
    assert a[..i][0] == b[..i][0];
  }

  /** A text comes before another exactly when it is a proper prefix of the other, or has the
      smaller character where they first differ. */
  lemma {:induction false} BeforeIs(a: string, b: string)
    ensures Before(a, b) <==>
            (|a| < |b| && b[..|a|] == a) || exists i: nat :: DifferFirstAt(a, b, i) && a[i] < b[i]
  {
    if a == "" || b == "" {
      assert forall i: nat :: !DifferFirstAt(a, b, i);
    } else if a[0] != b[0] {
      assert DifferFirstAt(a, b, 0);
      assert forall i: nat :: DifferFirstAt(a, b, i) ==> i == 0 by {
        forall i: nat | DifferFirstAt(a, b, i) ensures i == 0 {
          if i > 0 {
            FirstSame(a, b, i);
          }
        }
      }
    } else {
      var s, t := a[1..], b[1..];
      BeforeIs(s, t);
      assert a == [a[0]] + s && b == [a[0]] + t;
      assert |a| < |b| ==> (b[..|a|] == a <==> t[..|s|] == s) by {
        if |a| < |b| {
          assert b[..|a|] == [a[0]] + t[..|s|];
        }
      }
      forall i: nat ensures DifferFirstAt(s, t, i) <==> DifferFirstAt(a, b, i + 1) {
        if i < |s| && i < |t| {
          assert a[..i + 1] == [a[0]] + s[..i] && b[..i + 1] == [a[0]] + t[..i];
          assert s[..i] == a[..i + 1][1..] && t[..i] == b[..i + 1][1..];
        }
      }
      if i: nat :| DifferFirstAt(s, t, i) && s[i] < t[i] {
        assert DifferFirstAt(a, b, i + 1) && a[i + 1] < b[i + 1];
      }
      if i: nat :| DifferFirstAt(a, b, i) && a[i] < b[i] {
        assert i > 0;
        assert DifferFirstAt(s, t, i - 1) && s[i - 1] < t[i - 1];
      }
    }
  }

  lemma {:induction false} BeforeTransitive(a: string, b: string, c: string)
    requires Before(a, b) && Before(b, c)
    ensures Before(a, c)
  {
    if a != "" && a[0] == b[0] && b[0] == c[0] {
      BeforeTransitive(a[1..], b[1..], c[1..]);
    }
  }

  // -- sorting and normalising -----------------------------------------------

  function InsertMember(key: string, value: Json, ms: Members): Members {
    if ms.NoMembers? || Before(key, ms.key) then Member(key, value, ms)
    else Member(ms.key, ms.value, InsertMember(key, value, ms.rest))
  }

  function SortMembers(ms: Members): Members {
    if ms.NoMembers? then NoMembers else InsertMember(ms.key, ms.value, SortMembers(ms.rest))
  }

  function Normal(v: Json): Json {
    match v
    case JArr(items) => JArr(NormalItems(items))
    case JObj(members) => JObj(SortMembers(NormalMembers(members)))
    case _ => v
  }

  function NormalItems(items: Items): Items {
    if items.NoItems? then NoItems else Item(Normal(items.head), NormalItems(items.tail))
  }

  function NormalMembers(ms: Members): Members {
    if ms.NoMembers? then NoMembers else Member(ms.key, Normal(ms.value), NormalMembers(ms.rest))
  }

  /** The canonical text of a value. */
  function Text(v: Json): string {
    Render(Normal(v))
  }

  /** The canonical text determines the value, up to the order of its members. */
  lemma TextDetermines(v: Json, w: Json)
    ensures Text(v) == Text(w) <==> Normal(v) == Normal(w)
    ensures Parse(Text(v)) == Some((Normal(v), ""))
  {
    RenderRead(Normal(v), "");
    assert Text(v) + "" == Text(v);
    if Text(v) == Text(w) {
      RenderInjective(Normal(v), Normal(w));
    }
  }

  lemma EscapeOne(c: char)
    ensures Escape([c]) == EscapeChar(c)
  {
    assert Escape([c]) == EscapeChar(c) + Escape([c][1..]);
  }

  const SOME_ITEMS := Item(JNull, Item(JStr("\U{e9}"), NoItems))

  lemma SomeItemsText()
    ensures Render(JArr(SOME_ITEMS)) == "[null,\"" + "\\u00e9" + "\"]"
  {
    EscapeOne('\U{e9}');
    assert Hex4(0xe9) == "00e9";
    var e := Escape("\U{e9}");
    assert e == "\\u00e9";
    hide Escape, EscapeChar, Hex4, Number;
    assert RenderItems(SOME_ITEMS.tail) == "\"" + e + "\"" + "]";
    assert RenderItems(SOME_ITEMS) == "null" + ("," + ("\"" + e + "\"" + "]"));
  }

  lemma SomeMembersText(a: Json, text: string)
    requires Render(a) == text
    ensures RenderMembers(Member("a", a, Member("b", JInt(-7), NoMembers))) == "\"a\":" + text + ",\"b\":-7}"
  {
    EscapeOne('a');
    EscapeOne('b');
    assert Number(-7) == "-7";
    hide Escape, EscapeChar, Number;
    var tail := Member("b", JInt(-7), NoMembers);
    assert RenderMembers(tail) == "\"b\":-7}";
    assert RenderMore(tail) == ",\"b\":-7}";
  }

  lemma SomeNormal()
    ensures Normal(JObj(Member("b", JInt(-7), Member("a", JArr(SOME_ITEMS), NoMembers))))
         == JObj(Member("a", JArr(SOME_ITEMS), Member("b", JInt(-7), NoMembers)))
  {
    var a, ms := JArr(SOME_ITEMS), Member("b", JInt(-7), Member("a", JArr(SOME_ITEMS), NoMembers));
    assert NormalItems(SOME_ITEMS) == SOME_ITEMS;
    assert NormalMembers(ms) == ms;
    assert SortMembers(ms.rest) == ms.rest;
    assert SortMembers(ms) == Member("a", a, Member("b", JInt(-7), NoMembers));
  }

  /** Members by key, no spaces, everything but printable ASCII escaped. */
  lemma TextOfOne()
    ensures Text(JObj(Member("b", JInt(-7), Member("a", JArr(SOME_ITEMS), NoMembers))))
         == "{" + ("\"a\":" + ("[null,\"" + "\\u00e9" + "\"]") + ",\"b\":-7}")
  {
    SomeNormal();
    SomeItemsText();
    var a := JArr(SOME_ITEMS);
    SomeMembersText(a, Render(a));
    assert Render(JObj(Member("a", a, Member("b", JInt(-7), NoMembers))))
        == "{" + RenderMembers(Member("a", a, Member("b", JInt(-7), NoMembers)));
    hide *;
  }

  // -- objects as dictionaries -----------------------------------------------

  function Lookup(ms: Members, key: string): Option<Json> {
    if ms.NoMembers? then None else if ms.key == key then Some(ms.value) else Lookup(ms.rest, key)
  }

  ghost predicate DistinctKeys(ms: Members) {
    ms.Member? ==> Lookup(ms.rest, ms.key).None? && DistinctKeys(ms.rest)
  }

  /** Every key of `ms` comes after `key`. */
  ghost predicate AllAfter(key: string, ms: Members) {
    ms.Member? ==> Before(key, ms.key) && AllAfter(key, ms.rest)
  }

  ghost predicate SortedMembers(ms: Members) {
    ms.Member? ==> AllAfter(ms.key, ms.rest) && SortedMembers(ms.rest)
  }

  lemma {:induction false} AllAfterTransitive(a: string, b: string, ms: Members)
    requires Before(a, b) && AllAfter(b, ms)
    ensures AllAfter(a, ms)
  {
    if ms.Member? {
      BeforeTransitive(a, b, ms.key);
      AllAfterTransitive(a, b, ms.rest);
    }
  }

  lemma {:induction false} AbsentFromAfter(key: string, ms: Members)
    requires AllAfter(key, ms)
    ensures Lookup(ms, key).None?
  {
    if ms.Member? {
      BeforeTotal(key, ms.key);
      AbsentFromAfter(key, ms.rest);
    }
  }

  lemma {:induction false} InsertAfter(a: string, key: string, value: Json, ms: Members)
    requires AllAfter(a, ms) && Before(a, key)
    ensures AllAfter(a, InsertMember(key, value, ms))
  {
    if ms.Member? {
      InsertAfter(a, key, value, ms.rest);
    }
  }

  lemma {:induction false} InsertMemberSorted(key: string, value: Json, ms: Members)
    requires SortedMembers(ms) && Lookup(ms, key).None?
    ensures SortedMembers(InsertMember(key, value, ms))
  {
    if ms.Member? {
      BeforeTotal(key, ms.key);
      if Before(key, ms.key) {
        AllAfterTransitive(key, ms.key, ms.rest);
      } else {
        InsertMemberSorted(key, value, ms.rest);
        InsertAfter(ms.key, key, value, ms.rest);
      }
    }
  }

  lemma {:induction false} InsertMemberLookup(key: string, value: Json, ms: Members, k: string)
    requires Lookup(ms, key).None?
    ensures Lookup(InsertMember(key, value, ms), k) == if k == key then Some(value) else Lookup(ms, k)
  {
    if ms.Member? && !Before(key, ms.key) {
      InsertMemberLookup(key, value, ms.rest, k);
    }
  }

  lemma {:induction false} SortMembersLookup(ms: Members, k: string)
    requires DistinctKeys(ms)
    ensures Lookup(SortMembers(ms), k) == Lookup(ms, k)
  {
    if ms.Member? {
      SortMembersLookup(ms.rest, k);
      SortMembersLookup(ms.rest, ms.key);
      InsertMemberLookup(ms.key, ms.value, SortMembers(ms.rest), k);
    }
  }

  lemma {:induction false} SortMembersSorted(ms: Members)
    requires DistinctKeys(ms)
    ensures SortedMembers(SortMembers(ms))
  {
    if ms.Member? {
      SortMembersSorted(ms.rest);
      SortMembersLookup(ms.rest, ms.key);
      InsertMemberSorted(ms.key, ms.value, SortMembers(ms.rest));
    }
  }

  /** Sorted members are determined by what they map each key to. */
  lemma {:induction false} SortedDetermined(a: Members, b: Members)
    requires SortedMembers(a) && SortedMembers(b)
    requires forall k :: Lookup(a, k) == Lookup(b, k)
    ensures a == b
  {
    if a.NoMembers? {
      var k := if b.Member? then b.key else "";
      assert Lookup(b, k) == Lookup(a, k);
    } else {
      assert Lookup(a, a.key) == Some(a.value) == Lookup(b, a.key);
      FirstKeyLeast(a, b.key);
      FirstKeyLeast(b, a.key);
      BeforeTotal(a.key, b.key);
      forall k ensures Lookup(a.rest, k) == Lookup(b.rest, k) {
        AbsentFromAfter(a.key, a.rest);
        AbsentFromAfter(b.key, b.rest);
        assert Lookup(a, k) == Lookup(b, k);
      }
      SortedDetermined(a.rest, b.rest);
    }
  }

  lemma {:induction false} AfterFound(key: string, ms: Members, k: string)
    requires AllAfter(key, ms) && Lookup(ms, k).Some?
    ensures Before(key, k)
  {
    if ms.key != k {
      AfterFound(key, ms.rest, k);
    }
  }

  lemma FirstKeyLeast(a: Members, k: string)
    requires a.Member? && SortedMembers(a)
    ensures Lookup(a, k).Some? ==> k == a.key || Before(a.key, k)
  {
    if Lookup(a, k).Some? && k != a.key {
      AfterFound(a.key, a.rest, k);
    }
  }

  function NormalOption(v: Option<Json>): Option<Json> {
    if v.None? then None else Some(Normal(v.value))
  }

  lemma {:induction false} NormalMembersLookup(ms: Members, k: string)
    ensures Lookup(NormalMembers(ms), k) == NormalOption(Lookup(ms, k))
  {
    if ms.Member? {
      NormalMembersLookup(ms.rest, k);
    }
  }

  lemma {:induction false} NormalMembersDistinct(ms: Members)
    requires DistinctKeys(ms)
    ensures DistinctKeys(NormalMembers(ms))
  {
    if ms.Member? {
      NormalMembersDistinct(ms.rest);
      NormalMembersLookup(ms.rest, ms.key);
    }
  }

  /** The same dictionary: every key maps to the same value, up to member order below it. */
  ghost predicate SameDictionary(a: Members, b: Members) {
    forall k :: NormalOption(Lookup(a, k)) == NormalOption(Lookup(b, k))
  }

  lemma SortedSame(a: Members, b: Members, sa: Members, sb: Members)
    requires SortedMembers(sa) && SortedMembers(sb)
    requires forall k :: Lookup(sa, k) == NormalOption(Lookup(a, k))
    requires forall k :: Lookup(sb, k) == NormalOption(Lookup(b, k))
    ensures sa == sb <==> SameDictionary(a, b)
  {
    hide SortedMembers, Lookup, NormalOption;
    if SameDictionary(a, b) {
      forall k ensures Lookup(sa, k) == Lookup(sb, k) {
        assert NormalOption(Lookup(a, k)) == NormalOption(Lookup(b, k));
      }
      SortedDetermined(sa, sb);
    }
    if sa == sb {
      forall k ensures NormalOption(Lookup(a, k)) == NormalOption(Lookup(b, k)) {
        assert Lookup(sa, k) == Lookup(sb, k);
      }
    }
  }

  /** Two objects have the same canonical text exactly when they are the same
      dictionary: insertion order never shows, and nothing else is lost. */
  lemma ObjectTextIsDictionary(a: Members, b: Members)
    requires DistinctKeys(a) && DistinctKeys(b)
    ensures Text(JObj(a)) == Text(JObj(b)) <==> SameDictionary(a, b)
  {
    TextDetermines(JObj(a), JObj(b));
    NormalObject(a);
    NormalObject(b);
    var sa, sb := SortMembers(NormalMembers(a)), SortMembers(NormalMembers(b));
    assert Normal(JObj(a)) == JObj(sa) && Normal(JObj(b)) == JObj(sb);
    hide *;
    SortedSame(a, b, sa, sb);
  }

  /** The normal form of an object: sorted, and the same dictionary of normal forms. */
  lemma NormalObject(a: Members)
    requires DistinctKeys(a)
    ensures SortedMembers(SortMembers(NormalMembers(a)))
    ensures forall k :: Lookup(SortMembers(NormalMembers(a)), k) == NormalOption(Lookup(a, k))
  {
    NormalMembersDistinct(a);
    SortMembersSorted(NormalMembers(a));
    forall k ensures Lookup(SortMembers(NormalMembers(a)), k) == NormalOption(Lookup(a, k)) {
      NormalMembersLookup(a, k);
      SortMembersLookup(NormalMembers(a), k);
    }
  }

  // -- objects with the same keys in the same order --------------------------

  ghost predicate SameKeys(a: Members, b: Members) {
    if a.NoMembers? then b.NoMembers? else b.Member? && a.key == b.key && SameKeys(a.rest, b.rest)
  }

  lemma {:induction false} InsertSameKeys(key: string, v: Json, w: Json, a: Members, b: Members)
    requires SameKeys(a, b)
    ensures SameKeys(InsertMember(key, v, a), InsertMember(key, w, b))
    ensures InsertMember(key, v, a) == InsertMember(key, w, b) ==> v == w && a == b
  {
    if a.Member? && !Before(key, a.key) {
      InsertSameKeys(key, v, w, a.rest, b.rest);
    }
  }

  /** Sorting moves values by their keys alone, so it loses none of them. */
  lemma {:induction false} SortSameKeys(a: Members, b: Members)
    requires SameKeys(a, b)
    ensures SameKeys(SortMembers(a), SortMembers(b))
    ensures SortMembers(a) == SortMembers(b) ==> a == b
  {
    if a.Member? {
      SortSameKeys(a.rest, b.rest);
      InsertSameKeys(a.key, a.value, b.value, SortMembers(a.rest), SortMembers(b.rest));
    }
  }

  lemma {:induction false} NormalSameKeys(a: Members, b: Members)
    requires SameKeys(a, b)
    ensures SameKeys(NormalMembers(a), NormalMembers(b))
  {
    if a.Member? {
      NormalSameKeys(a.rest, b.rest);
    }
  }
}
