/** Choosing the checkpoint to resume from: the controller's compatibility test and the
    newest compatible manifest. */
module Selection {
  import opened Foundation
  import opened Text
  import opened Checkpoints
  import opened Sorting

  datatype ResumeRequest = ResumeRequest(
    clusterIdentity: string,
    rtjIdentity: string,
    runtimeMode: string,
    worldSize: int,
    gpuShape: string,
    imageIdentity: string,
    codeVersionIdentity: string,
    optimizerMode: string,
    shardingMode: string,
    supportedFormatVersions: seq<string>,
    allowWorldSizeChange: bool,
    deviceProfileFingerprint: string)

  predicate Matches(have: string, want: string) {
    !IsBlank(have) && have == want
  }

  predicate SupportedFormat(version: string, supported: seq<string>) {
    && !IsBlank(version)
    && version in (if supported == [] then [SUPPORTED_FORMAT] else supported)
  }

  predicate WorldSizeAllowed(m: Manifest, r: ResumeRequest) {
    m.worldSize == r.worldSize || (r.allowWorldSizeChange && m.crossSizeRestoreSupported == Some(true))
  }

  /** CheckManifestCompatibility accepts. */
  predicate Compatible(m: Manifest, r: ResumeRequest) {
    && Complete(m)
    && Matches(m.clusterIdentity, r.clusterIdentity)
    && Matches(m.rtjIdentity, r.rtjIdentity)
    && Matches(m.runtimeMode, r.runtimeMode)
    && WorldSizeAllowed(m, r)
    && Matches(m.gpuShape, r.gpuShape)
    && Matches(m.imageIdentity, r.imageIdentity)
    && Matches(m.codeVersionIdentity, r.codeVersionIdentity)
    && SupportedFormat(m.formatVersion, r.supportedFormatVersions)
    && Matches(m.optimizerMode, r.optimizerMode)
    && Matches(m.shardingMode, r.shardingMode)
    && (r.deviceProfileFingerprint != "" ==> m.deviceProfileFingerprint == r.deviceProfileFingerprint)
  }

  /** The sort comparator: parseable before unparseable, then later completion, then greater URI. */
  predicate Newer(a: Manifest, b: Manifest) {
    if a.completedAt.Some? && b.completedAt.None? then true
    else if a.completedAt.None? && b.completedAt.Some? then false
    else if a.completedAt == b.completedAt then Less(b.manifestURI, a.manifestURI)
    else a.completedAt.value > b.completedAt.value
  }

  lemma NewerTransitive(a: Manifest, b: Manifest, c: Manifest)
    requires Newer(a, b) && Newer(b, c)
    ensures Newer(a, c)
  {
    if a.completedAt == b.completedAt == c.completedAt {
      LessTransitive(c.manifestURI, b.manifestURI, a.manifestURI);
    }
  }

  lemma NewerNegativelyTransitive(a: Manifest, b: Manifest, c: Manifest)
    requires Newer(a, c)
    ensures Newer(a, b) || Newer(b, c)
  {
    if a.completedAt == b.completedAt == c.completedAt {
      LessTotal(a.manifestURI, b.manifestURI);
      if Less(a.manifestURI, b.manifestURI) {
        LessTransitive(c.manifestURI, a.manifestURI, b.manifestURI);
      }
    }
  }

  /** The comparator is a strict weak order on all manifests, unparseable times included. */
  lemma NewerIsStrictWeakOrder()
    ensures StrictWeakOrder(Newer)
  {
    forall a: Manifest ensures !Newer(a, a) { LessIrreflexive(a.manifestURI); }
    forall a, b, c | Newer(a, b) && Newer(b, c) ensures Newer(a, c) { NewerTransitive(a, b, c); }
    forall a, b, c | Newer(a, c) ensures Newer(a, b) || Newer(b, c) { NewerNegativelyTransitive(a, b, c); }
  }

  /** A newest compatible manifest of a collection. */
  ghost predicate IsLatest(candidates: seq<Manifest>, request: ResumeRequest, m: Manifest) {
    && m in candidates && Compatible(m, request)
    && forall c :: c in candidates && Compatible(c, request) ==> !Newer(c, m)
  }

  /** The first compatible manifest of a sorted permutation is a newest one. */
  lemma FirstIsLatest(candidates: seq<Manifest>, sorted: seq<Manifest>, request: ResumeRequest, i: nat)
    requires multiset(sorted) == multiset(candidates) && Sorted(Newer, sorted)
    requires i < |sorted| && Compatible(sorted[i], request)
    requires forall j :: 0 <= j < i ==> !Compatible(sorted[j], request)
    ensures IsLatest(candidates, request, sorted[i])
  {
    assert sorted[i] in multiset(sorted);
    forall m | m in candidates && Compatible(m, request) ensures !Newer(m, sorted[i]) {
      assert m in multiset(candidates) && m in multiset(sorted);
      var j :| 0 <= j < |sorted| && sorted[j] == m;
      LessIrreflexive(m.manifestURI);
    }
  }

  /** x stands at i, and is strictly newer than every compatible manifest listed before it. */
  ghost predicate ListedFirst(candidates: seq<Manifest>, request: ResumeRequest, i: int, x: Manifest) {
    && 0 <= i < |candidates| && candidates[i] == x
    && forall j :: 0 <= j < i && Compatible(candidates[j], request) ==> Newer(x, candidates[j])
  }

  lemma {:induction false} FirstFound(sorted: seq<Manifest>, request: ResumeRequest, i: nat)
    requires i < |sorted| && Compatible(sorted[i], request) && forall j :: 0 <= j < i ==> !Compatible(sorted[j], request)
    ensures FirstOf(m => Compatible(m, request), sorted) == Some(sorted[i])
    decreases i
  {
    if i > 0 { FirstFound(sorted[1..], request, i - 1); }
  }

  /** The first compatible manifest of the stably sorted candidates was listed before all equally new ones. */
  lemma FirstWasListedFirst(candidates: seq<Manifest>, request: ResumeRequest, i: nat)
    requires var sorted := StableSort(Newer, candidates);
             i < |sorted| && Compatible(sorted[i], request) && forall j :: 0 <= j < i ==> !Compatible(sorted[j], request)
    ensures exists k :: ListedFirst(candidates, request, k, StableSort(Newer, candidates)[i])
  {
    var p := m => Compatible(m, request);
    NewerIsStrictWeakOrder();
    FirstFound(StableSort(Newer, candidates), request, i);
    FirstOfSortIsBest(Newer, p, candidates);
    BestIsFirstAmongBest(Newer, p, candidates);
    var x := StableSort(Newer, candidates)[i];
    var k :| FirstAmongBest(Newer, p, candidates, k, x);
    assert ListedFirst(candidates, request, k, x);
  }

  /** Copy, sort newest first, return the first compatible manifest; of several that are equally new, the one listed first. */
  method SelectLatestCompatible(candidates: seq<Manifest>, request: ResumeRequest) returns (r: Option<Manifest>)
    ensures r.Some? ==> IsLatest(candidates, request, r.value)
    ensures r.Some? <==> exists m :: m in candidates && Compatible(m, request)
    ensures r.Some? ==> exists i :: ListedFirst(candidates, request, i, r.value)
  {
    var sorted := StableSort(Newer, candidates);
    var i := FirstCompatible(sorted, request);
    if i == |sorted| {
      NothingCompatible(candidates, request);
      return None;
    }
    SortedNewest(candidates);
    FirstIsLatest(candidates, sorted, request, i);
    FirstWasListedFirst(candidates, request, i);
    r := Some(sorted[i]);
  }

  /** The scan: the first compatible position, or the end. */
  method FirstCompatible(sorted: seq<Manifest>, request: ResumeRequest) returns (i: nat)
    ensures i <= |sorted| && forall j :: 0 <= j < i ==> !Compatible(sorted[j], request)
    ensures i < |sorted| ==> Compatible(sorted[i], request)
  {
    i := 0;
    while i < |sorted| && !Compatible(sorted[i], request)
      invariant i <= |sorted| && forall j :: 0 <= j < i ==> !Compatible(sorted[j], request)
    {
      i := i + 1;
    }
  }

  lemma NothingCompatible(candidates: seq<Manifest>, request: ResumeRequest)
    requires forall j :: 0 <= j < |StableSort(Newer, candidates)| ==> !Compatible(StableSort(Newer, candidates)[j], request)
    ensures forall m :: m in candidates ==> !Compatible(m, request)
  {
    var sorted := StableSort(Newer, candidates);
    forall m | m in candidates ensures !Compatible(m, request) {
      assert m in multiset(candidates) && m in multiset(sorted);
    }
  }

  lemma SortedNewest(candidates: seq<Manifest>)
    ensures Sorted(Newer, StableSort(Newer, candidates))
  {
    NewerIsStrictWeakOrder();
    StableSortSorted(Newer, candidates);
  }

  /** When no two candidates share both completion time and URI, the choice does not depend on
      the order in which candidates are listed. */
  lemma ChoiceIgnoresOrder(s: seq<Manifest>, t: seq<Manifest>, request: ResumeRequest, x: Manifest, y: Manifest)
    requires multiset(s) == multiset(t)
    requires forall a, b :: a in s && b in s && a.completedAt == b.completedAt && a.manifestURI == b.manifestURI ==> a == b
    requires IsLatest(s, request, x) && IsLatest(t, request, y)
    ensures x == y
  {
    assert y in multiset(s) && x in multiset(t);
    LessTotal(x.manifestURI, y.manifestURI);
  }

  /** The choice is the lexicographic maximum of (completion time, manifest URI). */
  lemma LatestIsMaximum(s: seq<Manifest>, request: ResumeRequest, x: Manifest, c: Manifest)
    requires IsLatest(s, request, x)
    requires c in s && Compatible(c, request)
    ensures c.completedAt.value <= x.completedAt.value
    ensures c.completedAt == x.completedAt ==> c.manifestURI == x.manifestURI || Less(c.manifestURI, x.manifestURI)
  {
    LessTotal(x.manifestURI, c.manifestURI);
  }
}
