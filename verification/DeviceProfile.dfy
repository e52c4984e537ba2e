/** The device profile: a canonical form of the device requests, independent of how the claims are named and of the
    order of claims and selectors. */
module DeviceProfile {
  import opened Text
  import opened Sorting
  import opened DeviceClaims

  datatype Profile = Profile(fingerprint: string, classes: seq<string>, canonical: string)

  function Join(parts: seq<string>, separator: string): string
    decreases |parts|
  {
    if parts == [] then ""
    else if |parts| == 1 then parts[0]
    else parts[0] + separator + Join(parts[1..], separator)
  }

  function Number(n: int): string {
    if n < 0 then "-" + Decimal(-n) else Decimal(n)
  }

  function Entry(c: DeviceClaim): string {
    "class=" + c.request.deviceClass +
    ";selectors=" + Join(StableSort(Less, c.request.selectors), ",") +
    ";count=" + Number(c.request.count)
  }

  function Entries(claims: seq<DeviceClaim>): (r: seq<string>)
    ensures |r| == |claims|
  {
    seq(|claims|, i requires 0 <= i < |claims| => Entry(claims[i]))
  }

  function Canonical(claims: seq<DeviceClaim>): string {
    Join(StableSort(Less, Entries(claims)), "\n")
  }

  /** The classes that the claims ask for, each once, in order. */
  ghost predicate ClassList(classes: seq<string>, claims: seq<DeviceClaim>) {
    && (forall i, j :: 0 <= i < j < |classes| ==> Less(classes[i], classes[j]))
    && (forall x :: x in classes <==> x in Classes(claims))
  }

  function Classes(claims: seq<DeviceClaim>): set<string> {
    set c | c in claims :: c.request.deviceClass
  }

  lemma LessIsStrictWeakOrder()
    ensures StrictWeakOrder(Less)
  {
    forall a: string ensures !Less(a, a) { LessIrreflexive(a); }
    forall a, b, c | Less(a, b) && Less(b, c) ensures Less(a, c) { LessTransitive(a, b, c); }
    forall a, b, c | Less(a, c) ensures Less(a, b) || Less(b, c) {
      LessTotal(a, b);
      if Less(b, a) { LessTransitive(b, a, c); }
    }
  }

  lemma LessSeparates(s: seq<string>)
    ensures Separates(Less, s)
  {
    forall a, b | a in s && b in s && a != b ensures Less(a, b) || Less(b, a) { LessTotal(a, b); }
  }

  /** Sorting forgets the order it was given. */
  lemma SortForgetsOrder(s: seq<string>, t: seq<string>)
    requires multiset(s) == multiset(t)
    ensures StableSort(Less, s) == StableSort(Less, t)
  {
    LessIsStrictWeakOrder();
    StableSortSorted(Less, s);
    StableSortSorted(Less, t);
    LessSeparates(StableSort(Less, s));
    OneSortedOrder(Less, StableSort(Less, s), StableSort(Less, t));
  }

  /** A set of names as a sorted list. The set is emptied in an arbitrary order, as a range over a Go map is. */
  method SortedNames(names: set<string>) returns (sorted: seq<string>)
    ensures forall i, j :: 0 <= i < j < |sorted| ==> Less(sorted[i], sorted[j])
    ensures forall x :: x in sorted <==> x in names
  {
    var unsorted: seq<string> := [];
    var rest := names;
    while rest != {}
      invariant rest <= names
      invariant forall x :: x in unsorted <==> x in names && x !in rest
      invariant forall i, j :: 0 <= i < j < |unsorted| ==> unsorted[i] != unsorted[j]
      decreases |rest|
    {
      var c :| c in rest;
      rest := rest - {c};
      unsorted := unsorted + [c];
    }
    SortedWithoutRepeats(unsorted);
    sorted := StableSort(Less, unsorted);
  }

  method CollectClaims(claims: seq<DeviceClaim>) returns (entries: seq<string>, classes: set<string>)
    ensures entries == Entries(claims)
    ensures classes == Classes(claims)
  {
    entries, classes := [], {};
    for i := 0 to |claims|
      invariant entries == Entries(claims[..i])
      invariant classes == Classes(claims[..i])
    {
      assert claims[..i + 1] == claims[..i] + [claims[i]];
      assert Classes(claims[..i + 1]) == Classes(claims[..i]) + {claims[i].request.deviceClass};
      assert Entries(claims[..i + 1]) == Entries(claims[..i]) + [Entry(claims[i])];
      classes := classes + {claims[i].request.deviceClass};
      entries := entries + [Entry(claims[i])];
    }
    assert claims[..|claims|] == claims;
  }

  /** BuildProfile; `hash` stands for the hexadecimal SHA-256 digest. */
  method BuildProfile(hash: string -> string, enabled: bool, claims: seq<DeviceClaim>) returns (p: Profile)
    ensures !enabled || claims == [] ==> p == Profile("", [], "")
    ensures enabled && claims != [] ==>
      p.canonical == Canonical(claims) && p.fingerprint == hash(p.canonical) && ClassList(p.classes, claims)
  {
    if !enabled || claims == [] { return Profile("", [], ""); }
    var entries, classSet := CollectClaims(claims);
    var classes := SortedNames(classSet);
    var canonical := Join(StableSort(Less, entries), "\n");
    p := Profile(hash(canonical), classes, canonical);
  }

  lemma SortedWithoutRepeats(s: seq<string>)
    requires forall i, j :: 0 <= i < j < |s| ==> s[i] != s[j]
    ensures var r := StableSort(Less, s);
            && (forall i, j :: 0 <= i < j < |r| ==> Less(r[i], r[j]))
            && (forall x :: x in r <==> x in s)
  {
    var r := StableSort(Less, s);
    LessIsStrictWeakOrder();
    StableSortSorted(Less, s);
    forall x ensures x in r <==> x in s { assert x in r <==> x in multiset(r); assert x in s <==> x in multiset(s); }
    NoRepeats(s);
    forall i, j | 0 <= i < j < |r| ensures Less(r[i], r[j]) {
      LessTotal(r[i], r[j]);
      assert !Less(r[j], r[i]);
      assert r[i] in s;
      if r[i] == r[j] { Repeats(r, i, j); }
    }
  }

  lemma {:induction false} NoRepeats(s: seq<string>)
    requires forall i, j :: 0 <= i < j < |s| ==> s[i] != s[j]
    ensures forall x :: x in s ==> multiset(s)[x] == 1
    decreases |s|
  {
    if s != [] {
      assert s == [s[0]] + s[1..];
      NoRepeats(s[1..]);
      forall x | x in s ensures multiset(s)[x] == 1 {
        assert multiset(s) == multiset{s[0]} + multiset(s[1..]);
        assert s[0] !in s[1..];
      }
    }
  }

  lemma Repeats(s: seq<string>, i: nat, j: nat)
    requires i < j < |s| && s[i] == s[j]
    ensures multiset(s)[s[i]] >= 2
  {
    assert s == s[..j] + [s[j]] + s[j + 1..];
    assert s[i] in s[..j];
  }

  // ---- Canonicality ----

  /** What a claim asks for, once names and the order of selectors are forgotten. */
  datatype Need = Need(deviceClass: string, selectors: multiset<string>, count: int)

  function NeedOf(c: DeviceClaim): Need {
    Need(c.request.deviceClass, multiset(c.request.selectors), c.request.count)
  }

  function Needs(claims: seq<DeviceClaim>): (r: seq<Need>)
    ensures |r| == |claims|
  {
    seq(|claims|, i requires 0 <= i < |claims| => NeedOf(claims[i]))
  }

  lemma EntryIsNeed(c: DeviceClaim, d: DeviceClaim)
    requires NeedOf(c) == NeedOf(d)
    ensures Entry(c) == Entry(d)
  {
    SortForgetsOrder(c.request.selectors, d.request.selectors);
  }

  function Without<T>(s: seq<T>, j: nat): (r: seq<T>)
    requires j < |s|
    ensures multiset(s) == multiset(r) + multiset{s[j]}
  {
    assert s == s[..j] + [s[j]] + s[j + 1..];
    s[..j] + s[j + 1..]
  }

  lemma NeedsWithout(d: seq<DeviceClaim>, j: nat)
    requires j < |d|
    ensures Needs(Without(d, j)) == Without(Needs(d), j)
  {
  }

  lemma EntriesWithout(d: seq<DeviceClaim>, j: nat)
    requires j < |d|
    ensures Entries(Without(d, j)) == Without(Entries(d), j)
  {
    EntriesAppend(d[..j], d[j + 1..]);
    assert Entries(d[..j]) == Entries(d)[..j];
    assert Entries(d[j + 1..]) == Entries(d)[j + 1..];
  }

  lemma EntriesAppend(c: seq<DeviceClaim>, d: seq<DeviceClaim>)
    ensures Entries(c + d) == Entries(c) + Entries(d)
  {
  }

  /** The same needs in any order make the same entries in some order. */
  lemma {:induction false} SameEntries(c: seq<DeviceClaim>, d: seq<DeviceClaim>)
    requires multiset(Needs(c)) == multiset(Needs(d))
    ensures multiset(Entries(c)) == multiset(Entries(d))
    decreases |c|
  {
    assert |multiset(Needs(c))| == |c| && |multiset(Needs(d))| == |d|;
    if c == [] {
      assert Entries(c) == Entries(d) == [];
    } else {
      var j := NeedIndex(c, d, 0);
      EntryIsNeed(c[0], d[j]);
      NeedsWithout(c, 0);
      NeedsWithout(d, j);
      EntriesWithout(c, 0);
      EntriesWithout(d, j);
      WithoutSame(Needs(c), 0, Needs(d), j);
      SameEntries(Without(c, 0), Without(d, j));
      WithoutSame(Entries(c), 0, Entries(d), j);
    }
  }

  /** Taking one equal element away from both sides changes nothing about their being permutations. */
  lemma WithoutSame<T>(s: seq<T>, i: nat, t: seq<T>, j: nat)
    requires i < |s| && j < |t| && s[i] == t[j]
    ensures multiset(s) == multiset(t) <==> multiset(Without(s, i)) == multiset(Without(t, j))
  {
    assert multiset(Without(s, i)) == multiset(s) - multiset{s[i]};
    assert multiset(Without(t, j)) == multiset(t) - multiset{t[j]};
  }

  lemma NeedIndex(c: seq<DeviceClaim>, d: seq<DeviceClaim>, i: nat) returns (j: nat)
    requires multiset(Needs(c)) == multiset(Needs(d)) && i < |c|
    ensures j < |d| && NeedOf(d[j]) == NeedOf(c[i])
  {
    assert Needs(c)[i] in multiset(Needs(d));
    j :| 0 <= j < |d| && Needs(d)[j] == Needs(c)[i];
  }

  /** A class list is determined by the set of classes asked for. */
  lemma SameClasses(x: seq<string>, y: seq<string>, c: seq<DeviceClaim>, d: seq<DeviceClaim>)
    requires multiset(Needs(c)) == multiset(Needs(d))
    requires ClassList(x, c) && ClassList(y, d)
    ensures x == y
  {
    StrictIsSorted(x);
    StrictIsSorted(y);
    Distinct(x);
    Distinct(y);
    forall a ensures multiset(x)[a] == multiset(y)[a] {
      if a in x { AskedByBoth(a, x, y, c, d); }
      if a in y { AskedByBoth(a, y, x, d, c); }
    }
    LessSeparates(x);
    OneSortedOrder(Less, x, y);
  }

  lemma AskedByBoth(a: string, x: seq<string>, y: seq<string>, c: seq<DeviceClaim>, d: seq<DeviceClaim>)
    requires multiset(Needs(c)) == multiset(Needs(d))
    requires ClassList(x, c) && ClassList(y, d) && a in x
    ensures a in y
  {
    assert a in Classes(c);
    var claim :| claim in c && claim.request.deviceClass == a;
    var i :| 0 <= i < |c| && c[i] == claim;
    var j := NeedIndex(c, d, i);
    assert d[j].request.deviceClass in Classes(d);
  }

  lemma StrictIsSorted(x: seq<string>)
    requires forall i, j :: 0 <= i < j < |x| ==> Less(x[i], x[j])
    ensures Sorted(Less, x)
  {
    forall i, j | 0 <= i < j < |x| ensures !Less(x[j], x[i]) {
      LessIrreflexive(x[i]);
      if Less(x[j], x[i]) { LessTransitive(x[i], x[j], x[i]); }
    }
  }

  lemma Distinct(x: seq<string>)
    requires forall i, j :: 0 <= i < j < |x| ==> Less(x[i], x[j])
    ensures forall a :: multiset(x)[a] == if a in x then 1 else 0
  {
    forall i, j | 0 <= i < j < |x| ensures x[i] != x[j] { LessIrreflexive(x[i]); }
    NoRepeats(x);
  }

  /** Permuting claims, permuting selectors within claims and renaming claims, in any combination, leave canonical form,
      class list and fingerprint unchanged. */
  lemma FingerprintIsCanonical(hash: string -> string, c: seq<DeviceClaim>, d: seq<DeviceClaim>, p: Profile, q: Profile)
    requires multiset(Needs(c)) == multiset(Needs(d))
    requires p.canonical == Canonical(c) && p.fingerprint == hash(p.canonical) && ClassList(p.classes, c)
    requires q.canonical == Canonical(d) && q.fingerprint == hash(q.canonical) && ClassList(q.classes, d)
    ensures p == q
  {
    SameEntries(c, d);
    SortForgetsOrder(Entries(c), Entries(d));
    SameClasses(p.classes, q.classes, c, d);
  }

  // ---- The canonical form tells requests apart ----

  predicate Free(s: string, c: char) {
    c !in s
  }

  /** Two texts that are cut at their first c are equal exactly part by part. */
  lemma CutOnce(x: string, u: string, y: string, v: string, c: char)
    requires Free(x, c) && Free(y, c)
    ensures x + [c] + u == y + [c] + v ==> x == y && u == v
    ensures x != y + [c] + v
  {
    var s, t := x + [c] + u, y + [c] + v;
    assert t[|y|] == c && s[|x|] == c;
    assert forall i :: 0 <= i < |x| ==> s[i] == x[i];
    assert forall i :: 0 <= i < |y| ==> t[i] == y[i];
    if s == t {
      assert |x| == |y|;
      assert x == s[..|x|] && y == t[..|y|] && u == s[|x| + 1..] && v == t[|y| + 1..];
    }
    assert c in t;
  }

  predicate Parts(parts: seq<string>, c: char) {
    forall i :: 0 <= i < |parts| ==> parts[i] != "" && Free(parts[i], c)
  }

  lemma JoinShape(parts: seq<string>, c: char)
    requires Parts(parts, c)
    ensures parts == [] <==> Join(parts, [c]) == ""
    ensures |parts| > 1 ==> Join(parts, [c]) == parts[0] + [c] + Join(parts[1..], [c])
  {
    if |parts| > 1 { assert Join(parts, [c]) == parts[0] + [c] + Join(parts[1..], [c]); }
  }

  /** Parts that are not empty and do not hold the separator can be read back. */
  lemma {:induction false} JoinInjective(a: seq<string>, b: seq<string>, c: char)
    requires Parts(a, c) && Parts(b, c) && Join(a, [c]) == Join(b, [c])
    ensures a == b
    decreases |a|
  {
    JoinShape(a, c);
    JoinShape(b, c);
    if a != [] {
      var x, y := a[0], b[0];
      CutOnce(x, if |a| > 1 then Join(a[1..], [c]) else "", y, if |b| > 1 then Join(b[1..], [c]) else "", c);
      CutOnce(y, "", x, if |a| > 1 then Join(a[1..], [c]) else "", c);
      if |a| > 1 && |b| > 1 {
        JoinInjective(a[1..], b[1..], c);
        assert a == [x] + a[1..] && b == [y] + b[1..];
      }
    }
  }

  lemma {:induction false} JoinFree(parts: seq<string>, c: char, d: char)
    requires c != d && forall i :: 0 <= i < |parts| ==> Free(parts[i], d)
    ensures Free(Join(parts, [c]), d)
    decreases |parts|
  {
    if |parts| > 1 { JoinFree(parts[1..], c, d); }
  }

  lemma NumberInjective(m: int, n: int)
    ensures Number(m) == Number(n) ==> m == n
    ensures Free(Number(n), ';') && Free(Number(n), '\n')
  {
    DecimalInjective(if m < 0 then -m else m, if n < 0 then -n else n);
    if m < 0 { assert Number(m)[1..] == Decimal(-m) && Number(m)[0] == '-'; }
    if n < 0 { assert Number(n)[1..] == Decimal(-n) && Number(n)[0] == '-'; }
  }

  /** Class and selectors can be told apart in the text: they do not hold the characters that separate them, and no selector is
      empty. */
  predicate Plain(c: DeviceClaim) {
    && Free(c.request.deviceClass, ';') && Free(c.request.deviceClass, '\n')
    && forall i :: 0 <= i < |c.request.selectors| ==>
         && c.request.selectors[i] != "" && Free(c.request.selectors[i], ';')
         && Free(c.request.selectors[i], ',') && Free(c.request.selectors[i], '\n')
  }

  lemma SelectorsPlain(c: DeviceClaim)
    requires Plain(c)
    ensures var sorted := StableSort(Less, c.request.selectors);
            && Parts(sorted, ',')
            && Free(Join(sorted, ","), ';') && Free(Join(sorted, ","), '\n')
  {
    var sorted := StableSort(Less, c.request.selectors);
    forall i | 0 <= i < |sorted|
      ensures sorted[i] != "" && Free(sorted[i], ',') && Free(sorted[i], ';') && Free(sorted[i], '\n')
    {
      assert sorted[i] in multiset(sorted);
      assert sorted[i] in c.request.selectors;
    }
    JoinFree(sorted, ',', ';');
    JoinFree(sorted, ',', '\n');
  }

  lemma Regroup(a: string, x: string, b: string, y: string, d: string, z: string, c: char)
    ensures a + x + ([c] + b) + y + ([c] + d) + z == (a + x) + [c] + ((b + y) + [c] + (d + z))
  {
  }

  lemma StaysFree(a: string, b: string, e: char, c: char)
    requires Free(a, c) && Free(b, c) && e != c
    ensures Free(a + b, c) && Free(a + [e] + b, c)
  {
  }

  /** The two cuts of an entry. */
  function Cut(cls: string, joined: string, number: string): string {
    ("class=" + cls) + [';'] + (("selectors=" + joined) + [';'] + ("count=" + number))
  }

  lemma EntryIsCut(c: DeviceClaim)
    ensures Entry(c) == Cut(c.request.deviceClass, Join(StableSort(Less, c.request.selectors), ","), Number(c.request.count))
  {
    assert ";selectors=" == [';'] + "selectors=" && ";count=" == [';'] + "count=";
    Regroup("class=", c.request.deviceClass, "selectors=", Join(StableSort(Less, c.request.selectors), ","), "count=", Number(c.request.count), ';');
  }

  lemma CutIsFree(cls: string, joined: string, number: string)
    requires Free(cls, '\n') && Free(joined, '\n') && Free(number, '\n')
    ensures Cut(cls, joined, number) != "" && Free(Cut(cls, joined, number), '\n')
  {
    StaysFree("class=", cls, ';', '\n');
    StaysFree("selectors=", joined, ';', '\n');
    StaysFree("count=", number, ';', '\n');
    StaysFree("selectors=" + joined, "count=" + number, ';', '\n');
    StaysFree("class=" + cls, ("selectors=" + joined) + [';'] + ("count=" + number), ';', '\n');
  }

  lemma EntryShape(c: DeviceClaim)
    requires Plain(c)
    ensures var joined := Join(StableSort(Less, c.request.selectors), ",");
            Entry(c) == ("class=" + c.request.deviceClass) + [';'] + (("selectors=" + joined) + [';'] + ("count=" + Number(c.request.count)))
    ensures Entry(c) != "" && Free(Entry(c), '\n')
  {
    SelectorsPlain(c);
    NumberInjective(0, c.request.count);
    EntryIsCut(c);
    CutIsFree(c.request.deviceClass, Join(StableSort(Less, c.request.selectors), ","), Number(c.request.count));
  }

  lemma TailEqual(p: string, x: string, y: string)
    ensures p + x == p + y ==> x == y
  {
    assert (p + x)[|p|..] == x && (p + y)[|p|..] == y;
  }

  /** The entry of a plain claim determines what it asks for. */
  lemma EntryInjective(c: DeviceClaim, d: DeviceClaim)
    requires Plain(c) && Plain(d) && Entry(c) == Entry(d)
    ensures NeedOf(c) == NeedOf(d)
  {
    EntryShape(c);
    EntryShape(d);
    SelectorsPlain(c);
    SelectorsPlain(d);
    var sc, sd := StableSort(Less, c.request.selectors), StableSort(Less, d.request.selectors);
    var jc, jd, nc, nd := Join(sc, ","), Join(sd, ","), Number(c.request.count), Number(d.request.count);
    CutOnce("class=" + c.request.deviceClass, ("selectors=" + jc) + [';'] + ("count=" + nc),
            "class=" + d.request.deviceClass, ("selectors=" + jd) + [';'] + ("count=" + nd), ';');
    CutOnce("selectors=" + jc, "count=" + nc, "selectors=" + jd, "count=" + nd, ';');
    TailEqual("class=", c.request.deviceClass, d.request.deviceClass);
    TailEqual("selectors=", jc, jd);
    TailEqual("count=", nc, nd);
    NumberInjective(c.request.count, d.request.count);
    JoinInjective(sc, sd, ',');
  }

  predicate AllPlain(claims: seq<DeviceClaim>) {
    forall i :: 0 <= i < |claims| ==> Plain(claims[i])
  }

  lemma PlainWithout(claims: seq<DeviceClaim>, j: nat)
    requires AllPlain(claims) && j < |claims|
    ensures AllPlain(Without(claims, j))
  {
  }

  lemma EntryIndex(c: seq<DeviceClaim>, d: seq<DeviceClaim>) returns (j: nat)
    requires c != [] && multiset(Entries(c)) == multiset(Entries(d))
    ensures j < |d| && Entry(d[j]) == Entry(c[0])
  {
    assert Entries(c)[0] in multiset(Entries(d));
    j :| 0 <= j < |d| && Entries(d)[j] == Entries(c)[0];
  }

  /** Equal entries in any order stand for equal needs in some order. */
  lemma {:induction false} SameNeeds(c: seq<DeviceClaim>, d: seq<DeviceClaim>)
    requires AllPlain(c) && AllPlain(d) && multiset(Entries(c)) == multiset(Entries(d))
    ensures multiset(Needs(c)) == multiset(Needs(d))
    decreases |c|
  {
    assert |multiset(Entries(c))| == |c| && |multiset(Entries(d))| == |d|;
    if c == [] {
      assert Needs(c) == Needs(d) == [];
    } else {
      var j := EntryIndex(c, d);
      EntryInjective(c[0], d[j]);
      PlainWithout(c, 0);
      PlainWithout(d, j);
      NeedsWithout(c, 0);
      NeedsWithout(d, j);
      EntriesWithout(c, 0);
      EntriesWithout(d, j);
      WithoutSame(Entries(c), 0, Entries(d), j);
      SameNeeds(Without(c, 0), Without(d, j));
      WithoutSame(Needs(c), 0, Needs(d), j);
    }
  }

  lemma SortedEntriesArePlain(claims: seq<DeviceClaim>)
    requires AllPlain(claims)
    ensures Parts(StableSort(Less, Entries(claims)), '\n')
  {
    var sorted := StableSort(Less, Entries(claims));
    forall i | 0 <= i < |sorted| ensures sorted[i] != "" && Free(sorted[i], '\n') {
      assert sorted[i] in multiset(sorted);
      assert sorted[i] in Entries(claims);
      var j :| 0 <= j < |claims| && Entries(claims)[j] == sorted[i];
      EntryShape(claims[j]);
    }
  }

  /** For plain claims the canonical form is exact: two lists have the same one if and only if they ask for the same things. */
  lemma CanonicalExactly(c: seq<DeviceClaim>, d: seq<DeviceClaim>)
    requires AllPlain(c) && AllPlain(d)
    ensures Canonical(c) == Canonical(d) <==> multiset(Needs(c)) == multiset(Needs(d))
  {
    if multiset(Needs(c)) == multiset(Needs(d)) {
      SameEntries(c, d);
      SortForgetsOrder(Entries(c), Entries(d));
    }
    if Canonical(c) == Canonical(d) {
      SortedEntriesArePlain(c);
      SortedEntriesArePlain(d);
      JoinInjective(StableSort(Less, Entries(c)), StableSort(Less, Entries(d)), '\n');
      assert multiset(Entries(c)) == multiset(StableSort(Less, Entries(c))) == multiset(StableSort(Less, Entries(d)));
      SameNeeds(c, d);
    }
  }
}
