/** Whom a report may go to, and the key that makes a delivery the same delivery. */
module Recipients {
  import opened Prelude
  import opened Json
  import opened Canonical

  // The active allowlist, by lower-cased address.
  type Registry = map<string, string>

  datatype RecipientError = NoRecipients | UnknownRecipient

  // -- the allowlist ---------------------------------------------------------

  /** The addresses asked for, as they are looked up; blank ones are dropped. */
  function Wanted(fold: string -> string, addresses: seq<string>): seq<string> {
    var n := |addresses|;
    if n == 0 then []
    else Wanted(fold, addresses[..n - 1]) + (if Blank(addresses[n - 1]) then [] else [fold(addresses[n - 1])])
  }

  ghost predicate AllKnown(registry: Registry, wanted: seq<string>) {
    forall i :: 0 <= i < |wanted| ==> wanted[i] in registry
  }

  /** Each wanted address once, where it first occurs, as it was registered. */
  function FirstOfEach(registry: Registry, wanted: seq<string>): seq<string>
    requires AllKnown(registry, wanted)
  {
    var n := |wanted|;
    if n == 0 then []
    else FirstOfEach(registry, wanted[..n - 1]) + (if wanted[n - 1] in wanted[..n - 1] then [] else [registry[wanted[n - 1]]])
  }

  ghost function Resolved(fold: string -> string, registry: Registry,
          addresses: seq<string>): Result<seq<string>, RecipientError> {
    var wanted := Wanted(fold, addresses);
    if wanted == [] then Err(NoRecipients)
    else if !AllKnown(registry, wanted) then Err(UnknownRecipient)
    else Ok(FirstOfEach(registry, wanted))
  }

  /** The whole request is refused if any address is not on the allowlist. */
  method ResolveRecipients(fold: string -> string, registry: Registry, addresses: seq<string>)
    returns (r: Result<seq<string>, RecipientError>)
    ensures r == Resolved(fold, registry, addresses)
  {
    var wanted: seq<string> := [];
    for i := 0 to |addresses|
      invariant wanted == Wanted(fold, addresses[..i])
    {
      assert addresses[..i + 1][..i] == addresses[..i];
      if !Blank(addresses[i]) {
        wanted := wanted + [fold(addresses[i])];
      }
    }
    assert addresses[..|addresses|] == addresses;
    if wanted == [] {
      return Err(NoRecipients);
    }
    for i := 0 to |wanted|
      invariant forall j :: 0 <= j < i ==> wanted[j] in registry
    {
      if wanted[i] !in registry {
        return Err(UnknownRecipient);
      }
    }
    var seen: set<string> := {};
    var resolved: seq<string> := [];
    for i := 0 to |wanted|
      invariant forall a :: a in seen <==> a in wanted[..i]
      invariant AllKnown(registry, wanted[..i]) && resolved == FirstOfEach(registry, wanted[..i])
    {
      assert wanted[..i + 1][..i] == wanted[..i];
      assert wanted[..i + 1] == wanted[..i] + [wanted[i]];
      if wanted[i] !in seen {
        seen := seen + {wanted[i]};
        resolved := resolved + [registry[wanted[i]]];
      }
    }
    assert wanted[..|wanted|] == wanted;
    return Ok(resolved);
  }

  /** What the allowlist promises of its entries: each is found again under its key. */
  ghost predicate RegistryOk(fold: string -> string, registry: Registry) {
    forall k :: k in registry ==> fold(registry[k]) == k && !Blank(registry[k])
  }

  lemma WantedOneMore(fold: string -> string, xs: seq<string>, x: string)
    requires !Blank(x)
    ensures Wanted(fold, xs + [x]) == Wanted(fold, xs) + [fold(x)]
  {
    assert (xs + [x])[..|xs|] == xs;
  }

  lemma FirstOneMore(registry: Registry, wanted: seq<string>, w: string)
    requires AllKnown(registry, wanted) && w in registry
    ensures AllKnown(registry, wanted + [w])
    ensures FirstOfEach(registry, wanted + [w])
         == if w in wanted then FirstOfEach(registry, wanted) else FirstOfEach(registry, wanted) + [registry[w]]
  {
    assert (wanted + [w])[..|wanted|] == wanted;
    var first := FirstOfEach(registry, wanted);
    assert first + [] == first;
  }

  lemma {:induction false} FirstOfEachWanted(fold: string -> string, registry: Registry, wanted: seq<string>)
    requires RegistryOk(fold, registry) && AllKnown(registry, wanted)
    ensures var back := Wanted(fold, FirstOfEach(registry, wanted));
            && AllKnown(registry, back)
            && FirstOfEach(registry, back) == FirstOfEach(registry, wanted)
            && (forall a :: a in back <==> a in wanted)
    decreases |wanted|
  {
    var n := |wanted|;
    if n > 0 {
      var before, last := wanted[..n - 1], wanted[n - 1];
      assert wanted == before + [last] && last in registry;
      FirstOfEachWanted(fold, registry, before);
      FirstOneMore(registry, before, last);
      hide FirstOfEach, Wanted, Blank;
      var back := Wanted(fold, FirstOfEach(registry, before));
      if last !in before {
        WantedOneMore(fold, FirstOfEach(registry, before), registry[last]);
        FirstOneMore(registry, back, last);
      }
    }
  }

  /** A list that was resolved once resolves to itself, so a schedule that stores what
      its recipients resolved to keeps finding the deliveries it opened. */
  lemma ResolvedIsStable(fold: string -> string, registry: Registry, addresses: seq<string>)
    requires RegistryOk(fold, registry) && Resolved(fold, registry, addresses).Ok?
    ensures var r := Resolved(fold, registry, addresses).value;
            Resolved(fold, registry, r) == Ok(r) && r != []
  {
    FirstOfEachWanted(fold, registry, Wanted(fold, addresses));
    var wanted := Wanted(fold, addresses);
    assert wanted[0] in wanted;
  }

  // -- the idempotency key ---------------------------------------------------

  function Place(a: string, sorted: seq<string>): seq<string> {
    if sorted == [] || !Before(sorted[0], a) then [a] + sorted else [sorted[0]] + Place(a, sorted[1..])
  }

  function Sorted(addresses: seq<string>): seq<string> {
    if addresses == [] then [] else Place(addresses[0], Sorted(addresses[1..]))
  }

  function Joined(addresses: seq<string>): string {
    if addresses == [] then "" else if |addresses| == 1 then addresses[0] else addresses[0] + "," + Joined(addresses[1..])
  }

  /** The text a delivery's key is the digest of. */
  function Material(from: string, to: string, addresses: seq<string>, attempt: nat): string {
    from + ("|" + (to + ("|" + (Joined(Sorted(addresses)) + (if attempt == 0 then "" else "|" + Decimal(attempt))))))
  }

  ghost predicate Ordered(xs: seq<string>) {
    forall i, j :: 0 <= i < j < |xs| ==> !Before(xs[j], xs[i])
  }

  lemma {:induction false} PlaceOrders(a: string, xs: seq<string>)
    requires Ordered(xs)
    ensures Ordered(Place(a, xs)) && multiset(Place(a, xs)) == multiset(xs) + multiset{a}
    decreases |xs|
  {
    if xs == [] {
    } else if !Before(xs[0], a) {
      var placed := [a] + xs;
      forall j | 0 <= j < |xs| ensures !Before(xs[j], a) {
        BeforeTotal(xs[0], a);
        BeforeTotal(xs[j], xs[0]);
        if Before(xs[j], a) && a != xs[0] {
          BeforeTransitive(xs[j], a, xs[0]);
        }
      }
      assert multiset(placed) == multiset{a} + multiset(xs);
    } else {
      PlaceOrders(a, xs[1..]);
      var rest := Place(a, xs[1..]);
      assert xs == [xs[0]] + xs[1..];
      forall j | 0 <= j < |rest| ensures !Before(rest[j], xs[0]) {
        assert rest[j] in multiset(rest);
        if rest[j] == a {
          BeforeTotal(xs[0], a);
        } else {
          var k :| 0 <= k < |xs[1..]| && xs[1..][k] == rest[j];
          assert xs[k + 1] == rest[j];
        }
      }
    }
  }

  lemma {:induction false} SortedOrders(xs: seq<string>)
    ensures Ordered(Sorted(xs)) && multiset(Sorted(xs)) == multiset(xs)
    decreases |xs|
  {
    if xs != [] {
      SortedOrders(xs[1..]);
      PlaceOrders(xs[0], Sorted(xs[1..]));
      assert xs == [xs[0]] + xs[1..];
    }
  }

  lemma FirstsAgree(a: seq<string>, b: seq<string>)
    requires Ordered(a) && Ordered(b) && multiset(a) == multiset(b) && a != []
    ensures b != [] && a[0] == b[0]
  {
    assert a[0] in multiset(b) && |multiset(b)| > 0;
    assert b[0] in multiset(a);
    var i :| 0 <= i < |a| && a[i] == b[0];
    var j :| 0 <= j < |b| && b[j] == a[0];
    BeforeTotal(a[0], b[0]);
  }

  lemma {:induction false} OrderedDetermined(a: seq<string>, b: seq<string>)
    requires Ordered(a) && Ordered(b) && multiset(a) == multiset(b)
    ensures a == b
    decreases |a|
  {
    if a == [] {
      assert |multiset(b)| == 0;
    } else {
      FirstsAgree(a, b);
      assert a == [a[0]] + a[1..] && b == [b[0]] + b[1..];
      assert multiset(a[1..]) == multiset(a) - multiset{a[0]};
      assert multiset(b[1..]) == multiset(b) - multiset{b[0]};
      OrderedDetermined(a[1..], b[1..]);
    }
  }

  ghost predicate Lacks(s: string, c: char) {
    forall i :: 0 <= i < |s| ==> s[i] != c
  }

  /** An at sign with no bar after it. */
  predicate EndsInDomain(s: string) {
    if s == "" || s[|s| - 1] == '|' then false
    else s[|s| - 1] == '@' || EndsInDomain(s[..|s| - 1])
  }

  /** What the key needs of an address: no comma, and no bar after its at sign. */
  ghost predicate AddressOk(a: string) {
    Lacks(a, ',') && EndsInDomain(a)
  }

  ghost predicate AddressesOk(addresses: seq<string>) {
    addresses != [] && forall i :: 0 <= i < |addresses| ==> AddressOk(addresses[i])
  }

  lemma SplitFirst(a: string, p: string, b: string, q: string, c: char)
    requires Lacks(a, c) && Lacks(b, c) && a + ([c] + p) == b + ([c] + q)
    ensures a == b && p == q
  {
    var s, t := a + ([c] + p), b + ([c] + q);
    assert s[|a|] == c && t[|b|] == c;
    assert forall i :: 0 <= i < |a| ==> s[i] == a[i];
    assert forall i :: 0 <= i < |b| ==> t[i] == b[i];
    assert |a| == |b|;
    assert s[..|a|] == a && t[..|b|] == b;
    assert s[|a| + 1..] == p && t[|b| + 1..] == q;
  }

  lemma SplitLast(a: string, p: string, b: string, q: string, c: char)
    requires Lacks(p, c) && Lacks(q, c) && a + ([c] + p) == b + ([c] + q)
    ensures a == b && p == q
  {
    var s, t := a + ([c] + p), b + ([c] + q);
    assert s[|a|] == c && t[|b|] == c;
    assert forall i :: |a| < i < |s| ==> s[i] == p[i - |a| - 1];
    assert forall i :: |b| < i < |t| ==> t[i] == q[i - |b| - 1];
    assert |a| == |b|;
    assert s[..|a|] == a && t[..|b|] == b;
    assert s[|a| + 1..] == p && t[|b| + 1..] == q;
  }

  lemma {:induction false} DecimalDigits(n: nat)
    ensures Decimal(n) != "" && forall i :: 0 <= i < |Decimal(n)| ==> IsDigit(Decimal(n)[i])
    decreases n
  {
    if n >= 10 {
      DecimalDigits(n / 10);
    }
  }

  lemma {:induction false} DomainAfter(x: string, s: string)
    requires EndsInDomain(s)
    ensures EndsInDomain(x + s)
    decreases |s|
  {
    assert (x + s)[|x + s| - 1] == s[|s| - 1];
    if s[|s| - 1] != '@' {
      DomainAfter(x, s[..|s| - 1]);
      assert (x + s)[..|x + s| - 1] == x + s[..|s| - 1];
    }
  }

  lemma {:induction false} NoDomainAfterBar(x: string, digits: string)
    requires forall i :: 0 <= i < |digits| ==> IsDigit(digits[i])
    ensures !EndsInDomain(x + ("|" + digits))
    decreases |digits|
  {
    var s := x + ("|" + digits);
    if digits != "" {
      var n := |digits| - 1;
      assert s[|s| - 1] == digits[n];
      assert s[..|s| - 1] == x + ("|" + digits[..n]);
      NoDomainAfterBar(x, digits[..n]);
    } else {
      assert s[|s| - 1] == '|';
    }
  }

  lemma {:induction false} JoinedEndsInDomain(xs: seq<string>)
    requires AddressesOk(xs)
    ensures EndsInDomain(Joined(xs))
    decreases |xs|
  {
    if |xs| == 1 {
      assert AddressOk(xs[0]);
    } else {
      assert forall i :: 0 <= i < |xs[1..]| ==> xs[1..][i] == xs[i + 1];
      JoinedEndsInDomain(xs[1..]);
      DomainAfter(xs[0] + ",", Joined(xs[1..]));
    }
  }

  lemma {:induction false} JoinedDetermines(xs: seq<string>, ys: seq<string>)
    requires AddressesOk(xs) && AddressesOk(ys) && Joined(xs) == Joined(ys)
    ensures xs == ys
    decreases |xs|
  {
    assert AddressOk(xs[0]) && AddressOk(ys[0]);
    assert forall i :: 0 <= i < |xs[1..]| ==> xs[1..][i] == xs[i + 1];
    assert forall i :: 0 <= i < |ys[1..]| ==> ys[1..][i] == ys[i + 1];
    if |xs| == 1 && |ys| > 1 {
      assert Joined(ys)[|ys[0]|] == ',';
    } else if |xs| > 1 && |ys| == 1 {
      assert Joined(xs)[|xs[0]|] == ',';
    } else if |xs| > 1 {
      assert Joined(xs) == xs[0] + ([','] + Joined(xs[1..]));
      assert Joined(ys) == ys[0] + ([','] + Joined(ys[1..]));
      SplitFirst(xs[0], Joined(xs[1..]), ys[0], Joined(ys[1..]), ',');
      JoinedDetermines(xs[1..], ys[1..]);
      assert xs == [xs[0]] + xs[1..] && ys == [ys[0]] + ys[1..];
    } else {
      assert xs == [xs[0]] && ys == [ys[0]];
    }
  }

  /** The end of a key's text: the addresses, and the attempt unless it is the first. */
  function Tail(j: string, attempt: nat): string {
    j + (if attempt == 0 then "" else "|" + Decimal(attempt))
  }

  lemma TailDetermines(j: string, m: nat, k: string, n: nat)
    requires EndsInDomain(j) && EndsInDomain(k) && Tail(j, m) == Tail(k, n)
    ensures j == k && m == n
  {
    DecimalDigits(m);
    DecimalDigits(n);
    NoDomainAfterBar(j, Decimal(m));
    NoDomainAfterBar(k, Decimal(n));
    assert j + "" == j && k + "" == k;
    assert (m == 0) == EndsInDomain(Tail(j, m)) == EndsInDomain(Tail(k, n)) == (n == 0);
    if m != 0 {
      SplitLast(j, Decimal(m), k, Decimal(n), '|');
      DecimalRead(m, "");
      DecimalRead(n, "");
      assert Decimal(m) + "" == Decimal(m) && Decimal(n) + "" == Decimal(n);
    }
  }

  lemma SortedOk(addresses: seq<string>)
    requires AddressesOk(addresses)
    ensures AddressesOk(Sorted(addresses))
  {
    SortedOrders(addresses);
    var s := Sorted(addresses);
    assert |multiset(s)| == |multiset(addresses)|;
    forall i | 0 <= i < |s| ensures AddressOk(s[i]) {
      assert s[i] in multiset(addresses);
      var k :| 0 <= k < |addresses| && addresses[k] == s[i];
    }
  }

  /** Two deliveries have the same key exactly when they are about the same period, go to
      the same people in whatever order, and are the same attempt. Without a domain to end
      an address an attempt could pass for part of it: "x" tried again reads "x|1". */
  lemma KeySaysWhatItIsAbout(f: string, t: string, a: seq<string>, m: nat, g: string, u: string, b: seq<string>, n: nat)
    requires Lacks(f, '|') && Lacks(t, '|') && Lacks(g, '|') && Lacks(u, '|')
    requires AddressesOk(a) && AddressesOk(b)
    ensures Material(f, t, a, m) == Material(g, u, b, n) <==> f == g && t == u && multiset(a) == multiset(b) && m == n
  {
    hide Decimal, Joined, EndsInDomain;
    SortedOrders(a);
    SortedOrders(b);
    if multiset(a) == multiset(b) {
      OrderedDetermined(Sorted(a), Sorted(b));
    }
    if Material(f, t, a, m) == Material(g, u, b, n) {
      var j, k := Joined(Sorted(a)), Joined(Sorted(b));
      SplitFirst(f, t + ("|" + Tail(j, m)), g, u + ("|" + Tail(k, n)), '|');
      SplitFirst(t, Tail(j, m), u, Tail(k, n), '|');
      SortedOk(a);
      SortedOk(b);
      JoinedEndsInDomain(Sorted(a));
      JoinedEndsInDomain(Sorted(b));
      TailDetermines(j, m, k, n);
      JoinedDetermines(Sorted(a), Sorted(b));
    }
  }
}
