/** What a canonical text stands for: a value up to the order of its members, at every level. */
module CanonicalMeaning {
  import opened Prelude
  import opened Json
  import opened Canonical

  ghost function Size(v: Json): nat
    decreases v
  {
    match v
    case JArr(items) => 1 + ItemsSize(items)
    case JObj(ms) => 1 + MembersSize(ms)
    case _ => 1
  }

  ghost function ItemsSize(items: Items): nat
    decreases items
  {
    if items.NoItems? then 0 else 1 + Size(items.head) + ItemsSize(items.tail)
  }

  ghost function MembersSize(ms: Members): nat
    decreases ms
  {
    if ms.NoMembers? then 0 else 1 + Size(ms.value) + MembersSize(ms.rest)
  }

  lemma {:induction false} FoundSize(ms: Members, k: string)
    requires Lookup(ms, k).Some?
    ensures Size(Lookup(ms, k).value) < MembersSize(ms)
  {
    if ms.key != k {
      FoundSize(ms.rest, k);
    }
  }

  /** Equal but for the order of members: lists item by item, objects key by key. */
  ghost predicate Same(v: Json, w: Json)
    decreases Size(v), 0
  {
    match v
    case JArr(items) => w.JArr? && SameItems(items, w.items)
    case JObj(ms) => w.JObj? && SameObject(ms, w.members)
    case _ => v == w
  }

  ghost predicate SameItems(a: Items, b: Items)
    decreases ItemsSize(a), 0
  {
    if a.NoItems? then b.NoItems? else b.Item? && Same(a.head, b.head) && SameItems(a.tail, b.tail)
  }

  ghost predicate SameObject(a: Members, b: Members)
    decreases MembersSize(a), 2
  {
    forall k :: SameAt(a, b, k)
  }

  ghost predicate SameAt(a: Members, b: Members, k: string)
    decreases MembersSize(a), 1
  {
    match (Lookup(a, k), Lookup(b, k))
    case (None, None) => true
    case (Some(x), Some(y)) => FoundSize(a, k); Same(x, y)
    case _ => false
  }

  /** No object, at any level, has a key twice. */
  ghost predicate Proper(v: Json)
    decreases v
  {
    match v
    case JArr(items) => ProperItems(items)
    case JObj(ms) => DistinctKeys(ms) && ProperMembers(ms)
    case _ => true
  }

  ghost predicate ProperItems(items: Items)
    decreases items
  {
    items.Item? ==> Proper(items.head) && ProperItems(items.tail)
  }

  ghost predicate ProperMembers(ms: Members)
    decreases ms
  {
    ms.Member? ==> Proper(ms.value) && ProperMembers(ms.rest)
  }

  lemma {:induction false} FoundProper(ms: Members, k: string)
    requires ProperMembers(ms) && Lookup(ms, k).Some?
    ensures Proper(Lookup(ms, k).value)
  {
    if ms.key != k {
      FoundProper(ms.rest, k);
    }
  }

  lemma {:induction false} SameNormal(v: Json, w: Json)
    requires Proper(v) && Proper(w)
    ensures Same(v, w) <==> Normal(v) == Normal(w)
    decreases Size(v), 0
  {
    if v.JArr? && w.JArr? {
      SameNormalItems(v.items, w.items);
    } else if v.JObj? && w.JObj? {
      SameNormalObject(v.members, w.members);
    }
  }

  lemma {:induction false} SameNormalItems(a: Items, b: Items)
    requires ProperItems(a) && ProperItems(b)
    ensures SameItems(a, b) <==> NormalItems(a) == NormalItems(b)
    decreases ItemsSize(a), 0
  {
    if a.Item? && b.Item? {
      SameNormal(a.head, b.head);
      SameNormalItems(a.tail, b.tail);
    }
  }

  lemma {:induction false} SameNormalObject(a: Members, b: Members)
    requires DistinctKeys(a) && ProperMembers(a) && DistinctKeys(b) && ProperMembers(b)
    ensures SameObject(a, b) <==> Normal(JObj(a)) == Normal(JObj(b))
    decreases MembersSize(a), 1
  {
    forall k ensures SameAt(a, b, k) <==> NormalOption(Lookup(a, k)) == NormalOption(Lookup(b, k)) {
      if Lookup(a, k).Some? && Lookup(b, k).Some? {
        FoundSize(a, k);
        FoundProper(a, k);
        FoundProper(b, k);
        SameNormal(Lookup(a, k).value, Lookup(b, k).value);
      }
    }
    assert SameObject(a, b) <==> SameDictionary(a, b) by {
      hide SameAt, NormalOption, Lookup;
      if SameObject(a, b) {
        forall k ensures NormalOption(Lookup(a, k)) == NormalOption(Lookup(b, k)) {
          assert SameAt(a, b, k);
        }
      }
      if SameDictionary(a, b) {
        forall k ensures SameAt(a, b, k) {
          assert NormalOption(Lookup(a, k)) == NormalOption(Lookup(b, k));
        }
      }
    }
    NormalObject(a);
    NormalObject(b);
    hide SameObject, SameAt, NormalOption, Lookup, SortMembers, NormalMembers, SameDictionary;
    SortedSame(a, b, SortMembers(NormalMembers(a)), SortMembers(NormalMembers(b)));
  }

  /** Two values have one canonical text exactly when they are the same but for the order in
      which their members, at any level, were put in. */
  lemma TextIsSame(v: Json, w: Json)
    requires Proper(v) && Proper(w)
    ensures Text(v) == Text(w) <==> Same(v, w)
  {
    TextDetermines(v, w);
    SameNormal(v, w);
    hide *;
  }
}
