/** Kueue's compressed topology assignments: decoding them, and the node selector that a whole PodSet can share. */
module Topology {
  import opened Foundation

  /** The fields of the API types; when both encodings are present the universal one counts. */
  datatype Individual = Individual(prefix: string, suffix: string, roots: seq<string>)

  datatype LevelValues = LevelValues(universal: Option<string>, individual: Option<Individual>)

  datatype PodCounts = PodCounts(universal: Option<int>, individual: seq<int>)

  datatype Slice = Slice(domainCount: int, valuesPerLevel: seq<LevelValues>, podCounts: PodCounts)

  datatype Domain = Domain(labels: map<string, string>, count: int)

  datatype PodSetTopology = PodSetTopology(levels: seq<string>, domains: seq<Domain>)

  datatype DomainStatus = DomainStatus(values: seq<string>, count: int)

  // ---- What a slice denotes ----

  predicate ValuesOk(v: LevelValues, n: nat) {
    v.universal.Some? || (v.individual.Some? && |v.individual.value.roots| == n)
  }

  predicate CountsOk(c: PodCounts, n: nat) {
    c.universal.Some? || (c.individual != [] && |c.individual| == n)
  }

  predicate SliceOk(s: Slice, levels: seq<string>) {
    && s.domainCount >= 1 && |s.valuesPerLevel| == |levels|
    && CountsOk(s.podCounts, s.domainCount)
    && forall l :: 0 <= l < |levels| ==> ValuesOk(s.valuesPerLevel[l], s.domainCount)
  }

  /** The value of domain d at one level. */
  function ValueAt(v: LevelValues, n: nat, d: nat): string
    requires ValuesOk(v, n) && d < n
  {
    if v.universal.Some? then v.universal.value
    else v.individual.value.prefix + v.individual.value.roots[d] + v.individual.value.suffix
  }

  function CountAt(c: PodCounts, n: nat, d: nat): int
    requires CountsOk(c, n) && d < n
  {
    if c.universal.Some? then c.universal.value else c.individual[d]
  }

  /** The labels of domain d over the first l levels; a repeated level key keeps its last value. */
  function LabelsUpTo(s: Slice, levels: seq<string>, d: nat, l: nat): map<string, string>
    requires SliceOk(s, levels) && d < s.domainCount && l <= |levels|
  {
    if l == 0 then map[]
    else LabelsUpTo(s, levels, d, l - 1)[levels[l - 1] := ValueAt(s.valuesPerLevel[l - 1], s.domainCount, d)]
  }

  function DomainAt(s: Slice, levels: seq<string>, d: nat): Domain
    requires SliceOk(s, levels) && d < s.domainCount
  {
    Domain(LabelsUpTo(s, levels, d, |levels|), CountAt(s.podCounts, s.domainCount, d))
  }

  function SliceDomains(s: Slice, levels: seq<string>): (r: seq<Domain>)
    requires SliceOk(s, levels)
    ensures |r| == s.domainCount
  {
    seq(s.domainCount, d requires 0 <= d < s.domainCount => DomainAt(s, levels, d))
  }

  predicate AllOk(slices: seq<Slice>, levels: seq<string>) {
    forall i :: 0 <= i < |slices| ==> SliceOk(slices[i], levels)
  }

  function AllDomains(slices: seq<Slice>, levels: seq<string>): seq<Domain>
    requires AllOk(slices, levels)
    decreases |slices|
  {
    if slices == [] then []
    else AllDomains(slices[..|slices| - 1], levels) + SliceDomains(slices[|slices| - 1], levels)
  }

  // ---- The decoder ----

  method ResolveLevelValues(v: LevelValues, n: nat) returns (values: Option<seq<string>>)
    ensures values.Some? <==> ValuesOk(v, n)
    ensures values.Some? ==> |values.value| == n && forall d :: 0 <= d < n ==> values.value[d] == ValueAt(v, n, d)
  {
    if v.universal.Some? {
      return Some(seq(n, _ => v.universal.value));
    }
    if v.individual.Some? {
      var x := v.individual.value;
      if |x.roots| != n { return None; }
      var resolved: seq<string> := [];
      for i := 0 to n
        invariant |resolved| == i && forall d :: 0 <= d < i ==> resolved[d] == ValueAt(v, n, d)
      {
        resolved := resolved + [x.prefix + x.roots[i] + x.suffix];
      }
      return Some(resolved);
    }
    return None;
  }

  method ResolvePodCounts(c: PodCounts, n: nat) returns (counts: Option<seq<int>>)
    ensures counts.Some? <==> CountsOk(c, n)
    ensures counts.Some? ==> |counts.value| == n && forall d :: 0 <= d < n ==> counts.value[d] == CountAt(c, n, d)
  {
    if c.universal.Some? {
      return Some(seq(n, _ => c.universal.value));
    }
    if c.individual != [] {
      return if |c.individual| == n then Some(c.individual) else None;
    }
    return None;
  }

  method DecodeDomains(levels: seq<string>, s: Slice) returns (domains: Option<seq<Domain>>)
    requires s.domainCount >= 1 && |s.valuesPerLevel| == |levels|
    ensures domains.Some? <==> SliceOk(s, levels)
    ensures domains.Some? ==> domains.value == SliceDomains(s, levels)
  {
    var n := s.domainCount;
    var levelValues: seq<seq<string>> := [];
    for l := 0 to |levels|
      invariant |levelValues| == l
      invariant forall k :: 0 <= k < l ==> ValuesOk(s.valuesPerLevel[k], n) && |levelValues[k]| == n
      invariant forall k, d :: 0 <= k < l && 0 <= d < n ==> levelValues[k][d] == ValueAt(s.valuesPerLevel[k], n, d)
    {
      var values := ResolveLevelValues(s.valuesPerLevel[l], n);
      if values.None? { return None; }
      levelValues := levelValues + [values.value];
    }
    var counts := ResolvePodCounts(s.podCounts, n);
    if counts.None? { return None; }
    var result: seq<Domain> := [];
    for d := 0 to n
      invariant |result| == d && forall k :: 0 <= k < d ==> result[k] == DomainAt(s, levels, k)
    {
      var labels: map<string, string> := map[];
      for l := 0 to |levels|
        invariant labels == LabelsUpTo(s, levels, d, l)
      {
        labels := labels[levels[l] := levelValues[l][d]];
      }
      result := result + [Domain(labels, counts.value[d])];
    }
    assert result == SliceDomains(s, levels);
    return Some(result);
  }

  /** parsePodSetAssignment fails on the first slice that is not well formed. */
  method ParseAssignment(levels: seq<string>, slices: seq<Slice>) returns (r: Option<PodSetTopology>)
    ensures r.Some? <==> levels != [] && AllOk(slices, levels)
    ensures r.Some? ==> r.value == PodSetTopology(levels, AllDomains(slices, levels))
  {
    if levels == [] { return None; }
    var domains: seq<Domain> := [];
    for i := 0 to |slices|
      invariant AllOk(slices[..i], levels) && domains == AllDomains(slices[..i], levels)
    {
      assert slices[..i + 1][..i] == slices[..i];
      var s := slices[i];
      if s.domainCount < 1 || |s.valuesPerLevel| != |levels| { return None; }
      var more := DecodeDomains(levels, s);
      if more.None? { return None; }
      domains := domains + more.value;
    }
    assert slices[..|slices|] == slices;
    return Some(PodSetTopology(levels, domains));
  }

  // ---- Conservation ----

  function Sum(xs: seq<int>): int
    decreases |xs|
  {
    if xs == [] then 0 else Sum(xs[..|xs| - 1]) + xs[|xs| - 1]
  }

  function Pods(domains: seq<Domain>): int
    decreases |domains|
  {
    if domains == [] then 0 else Pods(domains[..|domains| - 1]) + domains[|domains| - 1].count
  }

  /** The pods of a slice, read off its encoding. */
  function SlicePods(s: Slice): int {
    if s.podCounts.universal.Some? then s.podCounts.universal.value * s.domainCount else Sum(s.podCounts.individual)
  }

  function TotalDomains(slices: seq<Slice>): int
    decreases |slices|
  {
    if slices == [] then 0 else TotalDomains(slices[..|slices| - 1]) + slices[|slices| - 1].domainCount
  }

  function TotalPods(slices: seq<Slice>): int
    decreases |slices|
  {
    if slices == [] then 0 else TotalPods(slices[..|slices| - 1]) + SlicePods(slices[|slices| - 1])
  }

  lemma {:induction false} PodsAppend(x: seq<Domain>, y: seq<Domain>)
    ensures Pods(x + y) == Pods(x) + Pods(y)
    decreases |y|
  {
    if y == [] {
      assert x + y == x;
    } else {
      assert (x + y)[..|x + y| - 1] == x + y[..|y| - 1];
      PodsAppend(x, y[..|y| - 1]);
    }
  }

  lemma {:induction false} UniversalPods(s: Slice, levels: seq<string>, n: nat)
    requires SliceOk(s, levels) && n <= s.domainCount && s.podCounts.universal.Some?
    ensures Pods(SliceDomains(s, levels)[..n]) == s.podCounts.universal.value * n
  {
    if n > 0 {
      var ds := SliceDomains(s, levels);
      assert ds[..n][..n - 1] == ds[..n - 1];
      UniversalPods(s, levels, n - 1);
    }
  }

  lemma {:induction false} IndividualPods(s: Slice, levels: seq<string>, n: nat)
    requires SliceOk(s, levels) && n <= s.domainCount && s.podCounts.universal.None?
    ensures Pods(SliceDomains(s, levels)[..n]) == Sum(s.podCounts.individual[..n])
  {
    if n > 0 {
      var ds, cs := SliceDomains(s, levels), s.podCounts.individual;
      assert ds[..n][..n - 1] == ds[..n - 1] && cs[..n][..n - 1] == cs[..n - 1];
      IndividualPods(s, levels, n - 1);
    }
  }

  lemma SliceConserves(s: Slice, levels: seq<string>)
    requires SliceOk(s, levels)
    ensures Pods(SliceDomains(s, levels)) == SlicePods(s)
  {
    var ds := SliceDomains(s, levels);
    assert ds[..s.domainCount] == ds;
    if s.podCounts.universal.Some? {
      UniversalPods(s, levels, s.domainCount);
    } else {
      assert s.podCounts.individual[..s.domainCount] == s.podCounts.individual;
      IndividualPods(s, levels, s.domainCount);
    }
  }

  /** Decoding conserves the number of domains and the number of pods, whichever encodings the slices use. */
  lemma {:induction false} DecodingConserves(slices: seq<Slice>, levels: seq<string>)
    requires AllOk(slices, levels)
    ensures |AllDomains(slices, levels)| == TotalDomains(slices)
    ensures Pods(AllDomains(slices, levels)) == TotalPods(slices)
    decreases |slices|
  {
    if slices != [] {
      DecodingConserves(slices[..|slices| - 1], levels);
      SliceConserves(slices[|slices| - 1], levels);
      PodsAppend(AllDomains(slices[..|slices| - 1], levels), SliceDomains(slices[|slices| - 1], levels));
    }
  }

  // ---- Decoded labels ----

  /** Every domain is labelled at exactly the levels. */
  predicate Labelled(t: PodSetTopology) {
    forall i :: 0 <= i < |t.domains| ==> t.domains[i].labels.Keys == LevelKeys(t.levels)
  }

  function LevelKeys(levels: seq<string>): set<string> {
    set k | k in levels
  }

  lemma {:induction false} LabelKeys(s: Slice, levels: seq<string>, d: nat, l: nat)
    requires SliceOk(s, levels) && d < s.domainCount && l <= |levels|
    ensures forall k :: k in LabelsUpTo(s, levels, d, l) <==> k in levels[..l]
  {
    if l > 0 {
      LabelKeys(s, levels, d, l - 1);
      assert levels[..l] == levels[..l - 1] + [levels[l - 1]];
    }
  }

  lemma {:induction false} DecodedIsLabelled(slices: seq<Slice>, levels: seq<string>)
    requires AllOk(slices, levels)
    ensures Labelled(PodSetTopology(levels, AllDomains(slices, levels)))
    decreases |slices|
  {
    if slices != [] {
      DecodedIsLabelled(slices[..|slices| - 1], levels);
      var s := slices[|slices| - 1];
      forall d | 0 <= d < s.domainCount
        ensures SliceDomains(s, levels)[d].labels.Keys == LevelKeys(levels)
      {
        LabelKeys(s, levels, d, |levels|);
        assert levels[..|levels|] == levels;
      }
    }
  }

  predicate DistinctLevels(levels: seq<string>) {
    forall i, j :: 0 <= i < j < |levels| ==> levels[i] != levels[j]
  }

  lemma {:induction false} LabelValues(s: Slice, levels: seq<string>, d: nat, l: nat, j: nat)
    requires SliceOk(s, levels) && d < s.domainCount && j < l <= |levels| && DistinctLevels(levels)
    ensures levels[j] in LabelsUpTo(s, levels, d, l)
    ensures LabelsUpTo(s, levels, d, l)[levels[j]] == ValueAt(s.valuesPerLevel[j], s.domainCount, d)
  {
    if j < l - 1 { LabelValues(s, levels, d, l - 1, j); }
  }

  // ---- The status form ----

  function ToStatus(t: PodSetTopology): (r: seq<DomainStatus>)
    requires Labelled(t)
    ensures |r| == |t.domains|
  {
    seq(|t.domains|, i requires 0 <= i < |t.domains| =>
      DomainStatus(seq(|t.levels|, j requires 0 <= j < |t.levels| => t.domains[i].labels[t.levels[j]]), t.domains[i].count))
  }

  /** A status written as one slice with individual values. */
  function Encoded(levels: seq<string>, ds: seq<DomainStatus>): Slice
    requires forall i :: 0 <= i < |ds| ==> |ds[i].values| == |levels|
  {
    Slice(|ds|,
          seq(|levels|, l requires 0 <= l < |levels| =>
            LevelValues(None, Some(Individual("", "", seq(|ds|, d requires 0 <= d < |ds| => ds[d].values[l]))))),
          PodCounts(None, seq(|ds|, d requires 0 <= d < |ds| => ds[d].count)))
  }

  /** The status loses nothing: encoded again and decoded, it gives back every domain with labels and count. */
  lemma StatusRoundTrip(t: PodSetTopology)
    requires Labelled(t) && t.domains != [] && DistinctLevels(t.levels)
    ensures var s := Encoded(t.levels, ToStatus(t));
            SliceOk(s, t.levels) && SliceDomains(s, t.levels) == t.domains
  {
    var ds := ToStatus(t);
    var s := Encoded(t.levels, ds);
    forall d | 0 <= d < |t.domains| ensures DomainAt(s, t.levels, d) == t.domains[d] {
      var labels := LabelsUpTo(s, t.levels, d, |t.levels|);
      LabelKeys(s, t.levels, d, |t.levels|);
      assert t.levels[..|t.levels|] == t.levels;
      forall k | k in labels ensures labels[k] == t.domains[d].labels[k] {
        var j :| 0 <= j < |t.levels| && t.levels[j] == k;
        LabelValues(s, t.levels, d, |t.levels|, j);
        assert "" + ds[d].values[j] + "" == ds[d].values[j];
      }
      assert labels == t.domains[d].labels;
    }
    assert SliceDomains(s, t.levels) == t.domains;
  }

  // ---- The common selector ----

  type Selector = map<string, string>

  /** A node of this domain satisfies the selector. */
  predicate Satisfies(d: Domain, sel: Selector) {
    forall k :: k in sel ==> k in d.labels && d.labels[k] == sel[k]
  }

  predicate Contains(big: Selector, small: Selector) {
    forall k :: k in small ==> k in big && big[k] == small[k]
  }

  /** Reading a Go map: a missing key reads as the empty string. */
  function Label(d: Domain, key: string): string {
    if key in d.labels then d.labels[key] else ""
  }

  predicate Uniform(domains: seq<Domain>, key: string) {
    forall i :: 0 <= i < |domains| ==> Label(domains[i], key) == Label(domains[0], key)
  }

  /** The scan of one level, which stops at the first domain that differs from the first. */
  method AllSame(domains: seq<Domain>, key: string) returns (same: bool)
    requires domains != []
    ensures same <==> Uniform(domains, key)
  {
    for i := 1 to |domains|
      invariant forall j :: 0 <= j < i ==> Label(domains[j], key) == Label(domains[0], key)
    {
      if Label(domains[i], key) != Label(domains[0], key) { return false; }
    }
    return true;
  }

  /** The uniform keys among the levels, with the value of the first domain. */
  ghost predicate CommonOver(levels: seq<string>, domains: seq<Domain>, sel: Selector) {
    && (forall k :: k in sel ==> k in levels && Uniform(domains, k) && domains != [] && sel[k] == Label(domains[0], k))
    && (forall l :: 0 <= l < |levels| && Uniform(domains, levels[l]) ==> levels[l] in sel)
  }

  ghost predicate IsCommon(t: PodSetTopology, sel: Selector) {
    if t.domains == [] then sel == map[]
    else if |t.domains| == 1 then sel == t.domains[0].labels
    else CommonOver(t.levels, t.domains, sel)
  }

  function Common(t: PodSetTopology): Selector {
    if t.domains == [] then map[]
    else if |t.domains| == 1 then t.domains[0].labels
    else map k | k in t.levels && Uniform(t.domains, k) :: Label(t.domains[0], k)
  }

  lemma CommonIsUnique(t: PodSetTopology, sel: Selector)
    ensures IsCommon(t, sel) <==> sel == Common(t)
  {
    if |t.domains| > 1 && IsCommon(t, sel) {
      forall k ensures k in sel <==> k in Common(t) {
        if k in Common(t) {
          var l :| 0 <= l < |t.levels| && t.levels[l] == k;
        }
      }
    }
  }

  method CommonNodeSelector(t: PodSetTopology) returns (sel: Selector)
    ensures IsCommon(t, sel) && sel == Common(t)
  {
    sel := map[];
    if t.domains == [] { return; }
    if |t.domains| == 1 { return t.domains[0].labels; }
    for l := 0 to |t.levels|
      invariant CommonOver(t.levels[..l], t.domains, sel)
    {
      var same := AllSame(t.domains, t.levels[l]);
      CommonSnoc(t.levels, t.domains, sel, l);
      if same { sel := sel[t.levels[l] := Label(t.domains[0], t.levels[l])]; }
    }
    assert t.levels[..|t.levels|] == t.levels;
    CommonIsUnique(t, sel);
  }

  lemma CommonSnoc(levels: seq<string>, domains: seq<Domain>, sel: Selector, l: nat)
    requires l < |levels| && domains != [] && CommonOver(levels[..l], domains, sel)
    ensures Uniform(domains, levels[l]) ==> CommonOver(levels[..l + 1], domains, sel[levels[l] := Label(domains[0], levels[l])])
    ensures !Uniform(domains, levels[l]) ==> CommonOver(levels[..l + 1], domains, sel)
  {
    assert levels[..l + 1] == levels[..l] + [levels[l]];
    assert forall k :: 0 <= k < l ==> levels[..l + 1][k] == levels[..l][k];
  }

  /** The common selector is the greatest one that all assigned domains satisfy. */
  lemma CommonIsGreatest(t: PodSetTopology, common: Selector, sel: Selector)
    requires Labelled(t) && t.domains != [] && IsCommon(t, common)
    ensures Contains(common, sel) <==> forall i :: 0 <= i < |t.domains| ==> Satisfies(t.domains[i], sel)
  {
    if |t.domains| == 1 {
      assert forall i :: 0 <= i < |t.domains| ==> t.domains[i].labels == common;
      return;
    }
    if Contains(common, sel) {
      forall i | 0 <= i < |t.domains| ensures Satisfies(t.domains[i], sel) {
        forall k | k in sel ensures k in t.domains[i].labels && t.domains[i].labels[k] == sel[k] {
          assert k in common && k in LevelKeys(t.levels);
          assert Label(t.domains[i], k) == Label(t.domains[0], k);
        }
      }
    }
    if forall i :: 0 <= i < |t.domains| ==> Satisfies(t.domains[i], sel) {
      forall k | k in sel ensures k in common && common[k] == sel[k] {
        assert Satisfies(t.domains[0], sel);
        assert k in LevelKeys(t.levels);
        var l :| 0 <= l < |t.levels| && t.levels[l] == k;
        forall i | 0 <= i < |t.domains| ensures Label(t.domains[i], k) == sel[k] {
          assert Satisfies(t.domains[i], sel);
        }
        assert Uniform(t.domains, t.levels[l]);
      }
    }
  }

  // ---- Representability ----

  predicate Homogeneous(t: PodSetTopology) {
    || |t.domains| <= 1 || |t.levels| <= 1
    || forall i :: 1 <= i < |t.domains| ==> SameHigherLevels(t.levels, t.domains[0], t.domains[i])
  }

  predicate SameHigherLevels(levels: seq<string>, a: Domain, b: Domain) {
    forall l :: 0 <= l < |levels| - 1 ==> Label(a, levels[l]) == Label(b, levels[l])
  }

  /** CanRepresentInJobSet. */
  predicate Representable(t: PodSetTopology) {
    if |t.domains| <= 1 then true else if |t.levels| == 1 then false else Homogeneous(t)
  }

  lemma HomogeneousExactly(t: PodSetTopology, common: Selector)
    requires |t.domains| > 1 && |t.levels| > 1 && IsCommon(t, common)
    ensures Homogeneous(t) <==> forall l :: 0 <= l < |t.levels| - 1 ==> t.levels[l] in common
  {
    if Homogeneous(t) {
      forall l | 0 <= l < |t.levels| - 1 ensures t.levels[l] in common {
        forall i | 0 <= i < |t.domains| ensures Label(t.domains[i], t.levels[l]) == Label(t.domains[0], t.levels[l]) {
          if i > 0 { assert SameHigherLevels(t.levels, t.domains[0], t.domains[i]); }
        }
        assert Uniform(t.domains, t.levels[l]);
      }
    } else {
      var i :| 1 <= i < |t.domains| && !SameHigherLevels(t.levels, t.domains[0], t.domains[i]);
      var l :| 0 <= l < |t.levels| - 1 && Label(t.domains[0], t.levels[l]) != Label(t.domains[i], t.levels[l]);
      assert !Uniform(t.domains, t.levels[l]);
    }
  }

  /** An assignment is representable exactly when it has one domain, or several domains over several levels of which
      the common selector fixes all but possibly the lowest; a single domain is fixed at every level. */
  lemma RepresentableExactly(t: PodSetTopology, common: Selector)
    requires Labelled(t) && t.levels != [] && t.domains != [] && IsCommon(t, common)
    ensures Representable(t) <==>
      |t.domains| == 1 || (|t.levels| > 1 && forall l :: 0 <= l < |t.levels| - 1 ==> t.levels[l] in common)
    ensures |t.domains| == 1 ==> forall l :: 0 <= l < |t.levels| ==> t.levels[l] in common
  {
    if |t.domains| == 1 {
      assert forall l :: 0 <= l < |t.levels| ==> t.levels[l] in LevelKeys(t.levels);
    } else if |t.levels| > 1 {
      HomogeneousExactly(t, common);
    }
  }

  // ---- What decoding gives, in the fields of the encoding ----

  /** The label of a decoded domain is the universal value, or prefix, own root and suffix in this order; its count is the
      universal one, or its own. */
  lemma DecodedExactly(s: Slice, levels: seq<string>, d: nat, l: nat)
    requires SliceOk(s, levels) && DistinctLevels(levels) && d < s.domainCount && l < |levels|
    ensures var domain, v := SliceDomains(s, levels)[d], s.valuesPerLevel[l];
            && levels[l] in domain.labels
            && domain.labels[levels[l]] ==
               (if v.universal.Some? then v.universal.value
                else v.individual.value.prefix + v.individual.value.roots[d] + v.individual.value.suffix)
            && domain.count == (if s.podCounts.universal.Some? then s.podCounts.universal.value else s.podCounts.individual[d])
  {
    LabelValues(s, levels, d, |levels|, l);
  }

  /** So an encoding that shares any prefix and suffix, with these cut off the values, decodes to the values. */
  lemma AffixesRoundTrip(level: string, prefix: string, suffix: string, roots: seq<string>, counts: seq<int>, d: nat)
    requires d < |roots| == |counts|
    ensures var s := Slice(|roots|, [LevelValues(None, Some(Individual(prefix, suffix, roots)))], PodCounts(None, counts));
            && SliceOk(s, [level])
            && SliceDomains(s, [level])[d] == Domain(map[level := prefix + roots[d] + suffix], counts[d])
  {
    var s := Slice(|roots|, [LevelValues(None, Some(Individual(prefix, suffix, roots)))], PodCounts(None, counts));
    assert LabelsUpTo(s, [level], d, 0) == map[];
  }
}
