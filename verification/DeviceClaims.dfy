/** Device claims are injected twice by independent code: into the PodSets that Kueue accounts for (claims in the
    outer loop, appending blindly) and into the JobSet that is launched (jobs in the outer loop, skipping names that
    are present). This module proves when the two agree. */
module DeviceClaims {
  import opened Text
  import opened Sorting

  datatype Request = Request(deviceClass: string, selectors: seq<string>, count: int)

  datatype DeviceClaim = DeviceClaim(name: string, containers: seq<string>, request: Request)

  datatype PodClaim = PodClaim(name: string, template: string)

  datatype Container = Container(name: string, claims: seq<string>)

  datatype Pod = Pod(containers: seq<Container>, claims: seq<PodClaim>)

  datatype TemplateRef = TemplateRef(template: string, claim: string)

  datatype Injection = Injection(claim: string, template: string, containers: seq<string>)

  function TemplateName(rtj: string, claim: string): string {
    rtj + "-" + claim
  }

  // ---- Which pods and containers a claim is for ----

  predicate Targets(name: string, targets: seq<string>) {
    targets == [] || name in targets
  }

  predicate AnyTarget(pod: Pod, targets: seq<string>) {
    exists i :: 0 <= i < |pod.containers| && Targets(pod.containers[i].name, targets)
  }

  /** The search the code makes: targets outside, containers inside. */
  method AnyContainerMatches(pod: Pod, targets: seq<string>) returns (found: bool)
    ensures found <==> AnyTarget(pod, targets)
  {
    if targets == [] {
      assert |pod.containers| > 0 ==> Targets(pod.containers[0].name, targets);
      return |pod.containers| > 0;
    }
    for t := 0 to |targets|
      invariant forall i :: 0 <= i < |pod.containers| ==> pod.containers[i].name !in targets[..t]
    {
      for c := 0 to |pod.containers|
        invariant forall i :: 0 <= i < c ==> pod.containers[i].name != targets[t]
      {
        if pod.containers[c].name == targets[t] {
          assert Targets(pod.containers[c].name, targets);
          return true;
        }
      }
      assert targets[..t + 1] == targets[..t] + [targets[t]];
    }
    assert targets[..|targets|] == targets;
    return false;
  }

  // ---- What each injector leaves behind, pod by pod ----

  /** The entries that a list of injections calls for in one pod, in order. */
  function ForPod(pod: Pod, xs: seq<Injection>): (r: seq<PodClaim>)
    decreases |xs|
  {
    if xs == [] then []
    else
      var x := xs[|xs| - 1];
      ForPod(pod, xs[..|xs| - 1]) + if AnyTarget(pod, x.containers) then [PodClaim(x.claim, x.template)] else []
  }

  function ForContainer(name: string, xs: seq<Injection>): seq<string>
    decreases |xs|
  {
    if xs == [] then []
    else
      var x := xs[|xs| - 1];
      ForContainer(name, xs[..|xs| - 1]) + if Targets(name, x.containers) then [x.claim] else []
  }

  predicate HasName(s: seq<PodClaim>, name: string) {
    exists i :: 0 <= i < |s| && s[i].name == name
  }

  /** Append the entries whose name is not there yet. */
  function AddNewClaims(s: seq<PodClaim>, xs: seq<PodClaim>): seq<PodClaim>
    decreases |xs|
  {
    if xs == [] then s
    else
      var t, x := AddNewClaims(s, xs[..|xs| - 1]), xs[|xs| - 1];
      if HasName(t, x.name) then t else t + [x]
  }

  function AddNew(s: seq<string>, xs: seq<string>): seq<string>
    decreases |xs|
  {
    if xs == [] then s
    else
      var t, x := AddNew(s, xs[..|xs| - 1]), xs[|xs| - 1];
      if x in t then t else t + [x]
  }

  function Accounted(pod: Pod, xs: seq<Injection>): Pod {
    Pod(seq(|pod.containers|, i requires 0 <= i < |pod.containers| =>
          pod.containers[i].(claims := pod.containers[i].claims + ForContainer(pod.containers[i].name, xs))),
        pod.claims + ForPod(pod, xs))
  }

  function Launched(pod: Pod, xs: seq<Injection>): Pod {
    Pod(seq(|pod.containers|, i requires 0 <= i < |pod.containers| =>
          pod.containers[i].(claims := AddNew(pod.containers[i].claims, ForContainer(pod.containers[i].name, xs)))),
        AddNewClaims(pod.claims, ForPod(pod, xs)))
  }

  lemma NoTargetNoClaim(pod: Pod, x: Injection)
    ensures AnyTarget(pod, x.containers) || forall i :: 0 <= i < |pod.containers| ==> !Targets(pod.containers[i].name, x.containers)
  {
  }

  /** One more injection calls for its own entry at the end, if it calls for any. */
  lemma OneMore(pod: Pod, name: string, xs: seq<Injection>, x: Injection)
    ensures ForContainer(name, [x]) == if Targets(name, x.containers) then [x.claim] else []
    ensures ForContainer(name, xs + [x]) == ForContainer(name, xs) + ForContainer(name, [x])
    ensures ForPod(pod, [x]) == if AnyTarget(pod, x.containers) then [PodClaim(x.claim, x.template)] else []
    ensures ForPod(pod, xs + [x]) == ForPod(pod, xs) + ForPod(pod, [x])
  {
    assert (xs + [x])[..|xs|] == xs && [x][..0] == [];
    assert ForContainer(name, [x][..0]) == [] && ForPod(pod, [x][..0]) == [];
  }

  lemma AddOne(s: seq<string>, x: string, t: seq<PodClaim>, y: PodClaim)
    ensures AddNew(s, [x]) == if x in s then s else s + [x]
    ensures AddNewClaims(t, [y]) == if HasName(t, y.name) then t else t + [y]
  {
    assert [x][..0] == [] && [y][..0] == [];
    assert AddNew(s, [x][..0]) == s && AddNewClaims(t, [y][..0]) == t;
  }

  // ---- The injector for Kueue's PodSets ----

  /** Every claim of the spec, with the template name computed from the job's name. */
  function SpecInjections(rtj: string, claims: seq<DeviceClaim>): (r: seq<Injection>)
    ensures |r| == |claims|
  {
    seq(|claims|, i requires 0 <= i < |claims| =>
      Injection(claims[i].name, TemplateName(rtj, claims[i].name), claims[i].containers))
  }

  method AppendClaim(pod: Pod, x: Injection) returns (r: Pod)
    ensures r == Accounted(pod, [x])
  {
    var containers := pod.containers;
    assert [x][..0] == [];
    for c := 0 to |containers|
      invariant |containers| == |pod.containers|
      invariant forall i :: 0 <= i < |containers| ==>
        containers[i] == if i < c then pod.containers[i].(claims := pod.containers[i].claims + ForContainer(pod.containers[i].name, [x]))
                         else pod.containers[i]
    {
      if Targets(containers[c].name, x.containers) {
        containers := containers[c := containers[c].(claims := containers[c].claims + [x.claim])];
      } else {
        assert containers[c].claims + [] == containers[c].claims;
      }
    }
    var any := AnyContainerMatches(pod, x.containers);
    r := Pod(containers, if any then pod.claims + [PodClaim(x.claim, x.template)] else pod.claims);
    NoTargetNoClaim(pod, x);
    assert any ==> ForPod(pod, [x]) == [PodClaim(x.claim, x.template)];
    assert r.containers == Accounted(pod, [x]).containers;
    assert pod.claims + [] == pod.claims;
  }

  /** Injecting into the accounted pod one more claim accounts for one more claim. */
  lemma AccountedSnoc(pod: Pod, xs: seq<Injection>, x: Injection)
    ensures Accounted(Accounted(pod, xs), [x]) == Accounted(pod, xs + [x])
  {
    var mid := Accounted(pod, xs);
    var a, b := Accounted(mid, [x]), Accounted(pod, xs + [x]);
    forall i | 0 <= i < |pod.containers| ensures a.containers[i] == b.containers[i] {
      AccountedContainer(pod, pod.containers[i], xs, x);
    }
    assert a.containers == b.containers;
    AccountedClaims(pod, mid, xs, x);
  }

  lemma AccountedContainer(pod: Pod, c: Container, xs: seq<Injection>, x: Injection)
    ensures c.claims + ForContainer(c.name, xs) + ForContainer(c.name, [x]) == c.claims + ForContainer(c.name, xs + [x])
  {
    OneMore(pod, c.name, xs, x);
  }

  lemma AccountedClaims(pod: Pod, mid: Pod, xs: seq<Injection>, x: Injection)
    requires |pod.containers| == |mid.containers|
    requires forall i :: 0 <= i < |pod.containers| ==> pod.containers[i].name == mid.containers[i].name
    ensures pod.claims + ForPod(pod, xs) + ForPod(mid, [x]) == pod.claims + ForPod(pod, xs + [x])
  {
    SameTargets(pod, mid, x.containers);
    OneMore(pod, "", xs, x);
    OneMore(mid, "", xs, x);
  }

  lemma SameTargets(p: Pod, q: Pod, targets: seq<string>)
    requires |p.containers| == |q.containers|
    requires forall i :: 0 <= i < |p.containers| ==> p.containers[i].name == q.containers[i].name
    ensures AnyTarget(p, targets) <==> AnyTarget(q, targets)
  {
    if AnyTarget(p, targets) {
      var i :| 0 <= i < |p.containers| && Targets(p.containers[i].name, targets);
      assert Targets(q.containers[i].name, targets);
    }
    if AnyTarget(q, targets) {
      var i :| 0 <= i < |q.containers| && Targets(q.containers[i].name, targets);
      assert Targets(p.containers[i].name, targets);
    }
  }

  /** injectDRAIntoPodSets: one claim after another, each into every PodSet that it targets. */
  method InjectIntoPodSets(podSets: array<Pod>, rtj: string, claims: seq<DeviceClaim>)
    modifies podSets
    ensures forall k :: 0 <= k < podSets.Length ==> podSets[k] == Accounted(old(podSets[k]), SpecInjections(rtj, claims))
  {
    ghost var xs := SpecInjections(rtj, claims);
    forall k | 0 <= k < podSets.Length ensures podSets[k] == Accounted(old(podSets[k]), xs[..0]) {
      NothingToAccount(podSets[k]);
    }
    for j := 0 to |claims|
      invariant forall k :: 0 <= k < podSets.Length ==> podSets[k] == Accounted(old(podSets[k]), xs[..j])
    {
      var x := Injection(claims[j].name, TemplateName(rtj, claims[j].name), claims[j].containers);
      assert xs[..j + 1] == xs[..j] + [x];
      for i := 0 to podSets.Length
        invariant forall k :: 0 <= k < podSets.Length ==>
          podSets[k] == Accounted(old(podSets[k]), if k < i then xs[..j + 1] else xs[..j])
      {
        AccountedSnoc(old(podSets[i]), xs[..j], x);
        podSets[i] := AppendClaim(podSets[i], x);
      }
    }
    assert xs[..|claims|] == xs;
  }

  lemma NothingToAccount(pod: Pod)
    ensures Accounted(pod, []) == pod
  {
    assert pod.claims + [] == pod.claims;
    forall i | 0 <= i < |pod.containers| ensures pod.containers[i].claims + [] == pod.containers[i].claims { }
    assert Accounted(pod, []).containers == pod.containers;
  }

  // ---- The injector for the launched JobSet ----

  /** Later refs win, as in a map filled in order. */
  function RefMap(refs: seq<TemplateRef>): map<string, string>
    decreases |refs|
  {
    if refs == [] then map[]
    else RefMap(refs[..|refs| - 1])[refs[|refs| - 1].claim := refs[|refs| - 1].template]
  }

  function Resolved(claims: seq<DeviceClaim>, refs: map<string, string>): seq<Injection>
    decreases |claims|
  {
    if claims == [] then []
    else
      var c := claims[|claims| - 1];
      Resolved(claims[..|claims| - 1], refs) +
      if c.name in refs then [Injection(c.name, refs[c.name], c.containers)] else []
  }

  method BuildInjections(enabled: bool, claims: seq<DeviceClaim>, refs: seq<TemplateRef>) returns (xs: seq<Injection>)
    ensures xs == if enabled then Resolved(claims, RefMap(refs)) else []
  {
    xs := [];
    if !enabled { return; }
    var m: map<string, string> := map[];
    for r := 0 to |refs|
      invariant m == RefMap(refs[..r])
    {
      assert refs[..r + 1][..r] == refs[..r];
      m := m[refs[r].claim := refs[r].template];
    }
    assert refs[..|refs|] == refs;
    for j := 0 to |claims|
      invariant xs == Resolved(claims[..j], m)
    {
      assert claims[..j + 1][..j] == claims[..j];
      if claims[j].name in m {
        xs := xs + [Injection(claims[j].name, m[claims[j].name], claims[j].containers)];
      }
    }
    assert claims[..|claims|] == claims;
  }

  method AttachToContainers(pod: Pod, x: Injection) returns (containers: seq<Container>)
    ensures containers == Launched(pod, [x]).containers
  {
    containers := pod.containers;
    for c := 0 to |containers|
      invariant |containers| == |pod.containers|
      invariant forall i :: 0 <= i < |containers| ==>
        containers[i] == if i < c then Launched(pod, [x]).containers[i] else pod.containers[i]
    {
      OneMore(pod, containers[c].name, [], x);
      AddOne(containers[c].claims, x.claim, [], PodClaim("", ""));
      if Targets(containers[c].name, x.containers) && x.claim !in containers[c].claims {
        containers := containers[c := containers[c].(claims := containers[c].claims + [x.claim])];
      }
    }
  }

  lemma NothingAttached(pod: Pod, x: Injection)
    requires !AnyTarget(pod, x.containers)
    ensures Launched(pod, [x]) == pod
  {
    OneMore(pod, "", [], x);
    forall i | 0 <= i < |pod.containers| ensures Launched(pod, [x]).containers[i] == pod.containers[i] {
      OneMore(pod, pod.containers[i].name, [], x);
    }
    assert Launched(pod, [x]).containers == pod.containers;
  }

  method AttachClaim(pod: Pod, x: Injection) returns (r: Pod)
    ensures r == Launched(pod, [x])
  {
    var any := AnyContainerMatches(pod, x.containers);
    if !any {
      NothingAttached(pod, x);
      return pod;
    }
    var entry := PodClaim(x.claim, x.template);
    var claims := if HasName(pod.claims, x.claim) then pod.claims else pod.claims + [entry];
    OneMore(pod, "", [], x);
    AddOne([], "", pod.claims, entry);
    var containers := AttachToContainers(pod, x);
    r := Pod(containers, claims);
  }

  lemma ContainerSnoc(pod: Pod, c: Container, xs: seq<Injection>, x: Injection)
    ensures AddNew(AddNew(c.claims, ForContainer(c.name, xs)), ForContainer(c.name, [x])) ==
            AddNew(c.claims, ForContainer(c.name, xs + [x]))
  {
    OneMore(pod, c.name, xs, x);
    var old_ := ForContainer(c.name, xs);
    AddOne(AddNew(c.claims, old_), x.claim, [], PodClaim("", ""));
    assert old_ + [] == old_ && (old_ + [x.claim])[..|old_|] == old_;
  }

  lemma ClaimsSnoc(pod: Pod, mid: Pod, xs: seq<Injection>, x: Injection)
    requires |pod.containers| == |mid.containers|
    requires forall i :: 0 <= i < |pod.containers| ==> pod.containers[i].name == mid.containers[i].name
    ensures AddNewClaims(AddNewClaims(pod.claims, ForPod(pod, xs)), ForPod(mid, [x])) ==
            AddNewClaims(pod.claims, ForPod(pod, xs + [x]))
  {
    var old_, entry := ForPod(pod, xs), PodClaim(x.claim, x.template);
    SameTargets(pod, mid, x.containers);
    OneMore(pod, "", xs, x);
    OneMore(mid, "", xs, x);
    AddOne([], "", AddNewClaims(pod.claims, old_), entry);
    assert old_ + [] == old_ && (old_ + [entry])[..|old_|] == old_;
  }

  lemma LaunchedSnoc(pod: Pod, xs: seq<Injection>, x: Injection)
    ensures Launched(Launched(pod, xs), [x]) == Launched(pod, xs + [x])
  {
    var mid := Launched(pod, xs);
    var a, b := Launched(mid, [x]), Launched(pod, xs + [x]);
    forall i | 0 <= i < |pod.containers| ensures a.containers[i] == b.containers[i] {
      ContainerSnoc(pod, pod.containers[i], xs, x);
    }
    assert a.containers == b.containers;
    ClaimsSnoc(pod, mid, xs, x);
  }

  /** InjectDRAClaims: one replicated job after another, each given every claim that targets it. */
  method InjectClaims(jobs: array<Pod>, xs: seq<Injection>)
    modifies jobs
    ensures forall k :: 0 <= k < jobs.Length ==> jobs[k] == Launched(old(jobs[k]), xs)
  {
    for i := 0 to jobs.Length
      invariant forall k :: 0 <= k < jobs.Length ==> jobs[k] == if k < i then Launched(old(jobs[k]), xs) else old(jobs[k])
    {
      NothingToLaunch(jobs[i]);
      for j := 0 to |xs|
        invariant forall k :: 0 <= k < jobs.Length && k != i ==> jobs[k] == if k < i then Launched(old(jobs[k]), xs) else old(jobs[k])
        invariant jobs[i] == Launched(old(jobs[i]), xs[..j])
      {
        assert xs[..j + 1] == xs[..j] + [xs[j]];
        LaunchedSnoc(old(jobs[i]), xs[..j], xs[j]);
        jobs[i] := AttachClaim(jobs[i], xs[j]);
      }
      assert xs[..|xs|] == xs;
    }
  }

  lemma NothingToLaunch(pod: Pod)
    ensures Launched(pod, []) == pod
  {
    assert Launched(pod, []).containers == pod.containers;
  }

  // ---- Template refs ----

  predicate EarlierRef(a: TemplateRef, b: TemplateRef) {
    Less(a.claim, b.claim)
  }

  function TemplateRefs(rtj: string, claims: seq<DeviceClaim>): seq<TemplateRef> {
    StableSort(EarlierRef, seq(|claims|, i requires 0 <= i < |claims| => TemplateRef(TemplateName(rtj, claims[i].name), claims[i].name)))
  }

  /** A map filled from refs that follow the naming rule holds exactly the rule. */
  lemma {:induction false} RefMapFollowsRule(rtj: string, refs: seq<TemplateRef>)
    requires forall r :: r in refs ==> r.template == TemplateName(rtj, r.claim)
    ensures forall n :: n in RefMap(refs) ==> RefMap(refs)[n] == TemplateName(rtj, n)
    ensures forall r :: r in refs ==> r.claim in RefMap(refs)
    decreases |refs|
  {
    if refs != [] {
      var front := refs[..|refs| - 1];
      assert forall r :: r in front ==> r in refs;
      RefMapFollowsRule(rtj, front);
      assert forall r :: r in refs ==> r in front || r == refs[|refs| - 1];
    }
  }

  lemma {:induction false} ResolvedFollowsRule(rtj: string, claims: seq<DeviceClaim>, m: map<string, string>)
    requires forall n :: n in m ==> m[n] == TemplateName(rtj, n)
    requires forall i :: 0 <= i < |claims| ==> claims[i].name in m
    ensures Resolved(claims, m) == SpecInjections(rtj, claims)
    decreases |claims|
  {
    if claims != [] {
      ResolvedFollowsRule(rtj, claims[..|claims| - 1], m);
      assert SpecInjections(rtj, claims) ==
        SpecInjections(rtj, claims[..|claims| - 1]) + [SpecInjections(rtj, claims)[|claims| - 1]];
    }
  }

  /** Once status carries the refs that TemplateRefs produces, both injectors work from the same list. */
  lemma RefsResolveEveryClaim(rtj: string, claims: seq<DeviceClaim>)
    ensures Resolved(claims, RefMap(TemplateRefs(rtj, claims))) == SpecInjections(rtj, claims)
  {
    var unsorted := seq(|claims|, i requires 0 <= i < |claims| => TemplateRef(TemplateName(rtj, claims[i].name), claims[i].name));
    var refs := TemplateRefs(rtj, claims);
    forall r | r in refs ensures r.template == TemplateName(rtj, r.claim) {
      assert r in multiset(refs);
      assert r in multiset(unsorted);
    }
    RefMapFollowsRule(rtj, refs);
    forall i | 0 <= i < |claims| ensures claims[i].name in RefMap(refs) {
      assert unsorted[i] in multiset(unsorted);
      assert unsorted[i] in multiset(refs);
    }
    ResolvedFollowsRule(rtj, claims, RefMap(refs));
  }

  // ---- When the two agree ----

  /** Pairwise different, and none of them there already. */
  predicate AllNew(s: seq<string>, xs: seq<string>) {
    forall i :: 0 <= i < |xs| ==> xs[i] !in s && xs[i] !in xs[..i]
  }

  function NamesOf(s: seq<PodClaim>): (r: seq<string>)
    ensures |r| == |s|
  {
    seq(|s|, i requires 0 <= i < |s| => s[i].name)
  }

  lemma {:induction false} AddNewAgrees(s: seq<string>, xs: seq<string>)
    ensures |AddNew(s, xs)| <= |s + xs|
    ensures AddNew(s, xs) == s + xs <==> AllNew(s, xs)
    decreases |xs|
  {
    if xs == [] {
      assert s + xs == s;
    } else {
      var front, x := xs[..|xs| - 1], xs[|xs| - 1];
      AddNewAgrees(s, front);
      assert s + xs == (s + front) + [x];
      assert forall i :: 0 <= i < |front| ==> xs[i] == front[i] && xs[..i] == front[..i];
      if AddNew(s, xs) == s + xs {
        assert x !in AddNew(s, front);
        assert AddNew(s, front) == (s + xs)[..|s + front|];
        assert AddNew(s, front) == s + front;
      } else if AddNew(s, front) == s + front {
        assert x in s + front;
      } else {
        var i :| 0 <= i < |front| && !(front[i] !in s && front[i] !in front[..i]);
        assert xs[i] in s || xs[i] in xs[..i];
      }
    }
  }

  /** Claim lists behave as their name lists do. */
  lemma {:induction false} ClaimsFollowNames(s: seq<PodClaim>, xs: seq<PodClaim>)
    ensures NamesOf(AddNewClaims(s, xs)) == AddNew(NamesOf(s), NamesOf(xs))
    ensures AddNewClaims(s, xs) == s + xs <==> AddNew(NamesOf(s), NamesOf(xs)) == NamesOf(s) + NamesOf(xs)
    decreases |xs|
  {
    if xs == [] {
      assert s + xs == s;
    } else {
      var front, x := xs[..|xs| - 1], xs[|xs| - 1];
      ClaimsFollowNames(s, front);
      var t := AddNewClaims(s, front);
      assert NamesOf(xs)[..|xs| - 1] == NamesOf(front);
      HasNameInNames(t, x.name);
      assert NamesOf(t + [x]) == NamesOf(t) + [x.name];
      assert s + xs == (s + front) + [x];
      assert NamesOf(s) + NamesOf(xs) == (NamesOf(s) + NamesOf(front)) + [x.name];
      AddNewAgrees(NamesOf(s), NamesOf(front));
      if HasName(t, x.name) {
        assert |AddNewClaims(s, xs)| < |s + xs|;
      } else {
        SameFront(t, s + front, x);
        SameFront(NamesOf(t), NamesOf(s) + NamesOf(front), x.name);
      }
    }
  }

  lemma SameFront<T>(s: seq<T>, t: seq<T>, x: T)
    ensures s + [x] == t + [x] <==> s == t
  {
    if s + [x] == t + [x] {
      assert s == (s + [x])[..|s|] && t == (t + [x])[..|t|];
    }
  }

  lemma HasNameInNames(s: seq<PodClaim>, name: string)
    ensures HasName(s, name) <==> name in NamesOf(s)
  {
    if HasName(s, name) {
      var i :| 0 <= i < |s| && s[i].name == name;
      assert NamesOf(s)[i] == name;
    }
  }

  /** The claims that reach a pod, and each of its containers, are new there. */
  predicate FreshFor(pod: Pod, xs: seq<Injection>) {
    && AllNew(NamesOf(pod.claims), NamesOf(ForPod(pod, xs)))
    && forall i :: 0 <= i < |pod.containers| ==> AllNew(pod.containers[i].claims, ForContainer(pod.containers[i].name, xs))
  }

  /** What is accounted for is what is launched, entry for entry and in order, exactly when the claims that reach the pod
      have names that are pairwise different and absent from its template. */
  lemma AccountedEqualsLaunched(pod: Pod, xs: seq<Injection>)
    ensures Accounted(pod, xs) == Launched(pod, xs) <==> FreshFor(pod, xs)
  {
    var a, b := Accounted(pod, xs), Launched(pod, xs);
    ClaimsFollowNames(pod.claims, ForPod(pod, xs));
    AddNewAgrees(NamesOf(pod.claims), NamesOf(ForPod(pod, xs)));
    forall i | 0 <= i < |pod.containers|
      ensures a.containers[i] == b.containers[i] <==> AllNew(pod.containers[i].claims, ForContainer(pod.containers[i].name, xs))
    {
      AddNewAgrees(pod.containers[i].claims, ForContainer(pod.containers[i].name, xs));
    }
    if FreshFor(pod, xs) {
      assert a.containers == b.containers;
    }
  }

  // ---- From the claims of a validated spec ----

  /** The webhook lets no two claims share a name. */
  predicate UniqueNames(claims: seq<DeviceClaim>) {
    forall i, j :: 0 <= i < j < |claims| ==> claims[i].name != claims[j].name
  }

  predicate AbsentFrom(pod: Pod, claims: seq<DeviceClaim>) {
    forall j :: 0 <= j < |claims| ==>
      && claims[j].name !in NamesOf(pod.claims)
      && forall i :: 0 <= i < |pod.containers| ==> claims[j].name !in pod.containers[i].claims
  }

  predicate SomeClaim(claims: seq<DeviceClaim>, name: string) {
    exists j :: 0 <= j < |claims| && claims[j].name == name
  }

  predicate NamedBy(names: seq<string>, claims: seq<DeviceClaim>) {
    forall i :: 0 <= i < |names| ==> SomeClaim(claims, names[i]) && names[i] !in names[..i]
  }

  /** A claim of the front is a claim of the whole, and is not the last one. */
  lemma InFront(claims: seq<DeviceClaim>, name: string)
    requires claims != [] && UniqueNames(claims) && SomeClaim(claims[..|claims| - 1], name)
    ensures SomeClaim(claims, name) && name != claims[|claims| - 1].name
  {
    var front := claims[..|claims| - 1];
    var j :| 0 <= j < |front| && front[j].name == name;
    assert claims[j] == front[j];
  }

  lemma ExtendNamed(names: seq<string>, claims: seq<DeviceClaim>)
    requires claims != [] && UniqueNames(claims) && NamedBy(names, claims[..|claims| - 1])
    ensures NamedBy(names, claims) && NamedBy(names + [claims[|claims| - 1].name], claims)
  {
    var last := claims[|claims| - 1].name;
    var more := names + [last];
    forall i | 0 <= i < |names| ensures SomeClaim(claims, names[i]) && names[i] != last { InFront(claims, names[i]); }
    assert more[..|names|] == names;
    assert forall i :: 0 <= i < |names| ==> more[i] == names[i] && more[..i] == names[..i];
    assert SomeClaim(claims, last);
  }

  lemma {:induction false} InjectionsNamed(rtj: string, claims: seq<DeviceClaim>, pod: Pod, name: string)
    requires UniqueNames(claims)
    ensures NamedBy(NamesOf(ForPod(pod, SpecInjections(rtj, claims))), claims)
    ensures NamedBy(ForContainer(name, SpecInjections(rtj, claims)), claims)
    decreases |claims|
  {
    if claims != [] {
      var front := claims[..|claims| - 1];
      var xs := SpecInjections(rtj, claims);
      assert xs[..|xs| - 1] == SpecInjections(rtj, front);
      InjectionsNamed(rtj, front, pod, name);
      ExtendNamed(NamesOf(ForPod(pod, xs[..|xs| - 1])), claims);
      ExtendNamed(ForContainer(name, xs[..|xs| - 1]), claims);
      var x := xs[|xs| - 1];
      assert NamesOf(ForPod(pod, xs[..|xs| - 1]) + [PodClaim(x.claim, x.template)]) == NamesOf(ForPod(pod, xs[..|xs| - 1])) + [x.claim];
      assert ForPod(pod, xs[..|xs| - 1]) + [] == ForPod(pod, xs[..|xs| - 1]);
    }
  }

  /** For claims with unique names that the templates do not use yet, and refs as TemplateRefs writes them, every pod is
      accounted for exactly as it is launched. */
  lemma UniqueClaimsAgree(rtj: string, claims: seq<DeviceClaim>, pod: Pod)
    requires UniqueNames(claims) && AbsentFrom(pod, claims)
    ensures Accounted(pod, SpecInjections(rtj, claims)) ==
            Launched(pod, Resolved(claims, RefMap(TemplateRefs(rtj, claims))))
  {
    var xs := SpecInjections(rtj, claims);
    RefsResolveEveryClaim(rtj, claims);
    InjectionsNamed(rtj, claims, pod, "");
    forall i | 0 <= i < |pod.containers|
      ensures AllNew(pod.containers[i].claims, ForContainer(pod.containers[i].name, xs))
    {
      InjectionsNamed(rtj, claims, pod, pod.containers[i].name);
    }
    AccountedEqualsLaunched(pod, xs);
  }

  // ---- Idempotence ----

  lemma {:induction false} AddNewHolds(s: seq<string>, xs: seq<string>)
    ensures forall x :: x in s ==> x in AddNew(s, xs)
    ensures forall i :: 0 <= i < |xs| ==> xs[i] in AddNew(s, xs)
    decreases |xs|
  {
    if xs != [] {
      AddNewHolds(s, xs[..|xs| - 1]);
      assert forall i :: 0 <= i < |xs| - 1 ==> xs[i] == xs[..|xs| - 1][i];
    }
  }

  lemma {:induction false} AddNewNothing(s: seq<string>, xs: seq<string>)
    requires forall i :: 0 <= i < |xs| ==> xs[i] in s
    ensures AddNew(s, xs) == s
    decreases |xs|
  {
    if xs != [] { AddNewNothing(s, xs[..|xs| - 1]); }
  }

  lemma {:induction false} AddNewClaimsNothing(s: seq<PodClaim>, xs: seq<PodClaim>)
    requires forall i :: 0 <= i < |xs| ==> HasName(s, xs[i].name)
    ensures AddNewClaims(s, xs) == s
    decreases |xs|
  {
    if xs != [] { AddNewClaimsNothing(s, xs[..|xs| - 1]); }
  }

  lemma {:induction false} ForPodKeepsNames(p: Pod, q: Pod, xs: seq<Injection>)
    requires |p.containers| == |q.containers|
    requires forall i :: 0 <= i < |p.containers| ==> p.containers[i].name == q.containers[i].name
    ensures ForPod(p, xs) == ForPod(q, xs)
    decreases |xs|
  {
    if xs != [] {
      SameTargets(p, q, xs[|xs| - 1].containers);
      ForPodKeepsNames(p, q, xs[..|xs| - 1]);
    }
  }

  /** Whatever the claims and whatever the template holds, launching twice is launching once. */
  lemma LaunchedTwice(pod: Pod, xs: seq<Injection>)
    ensures Launched(Launched(pod, xs), xs) == Launched(pod, xs)
  {
    var once := Launched(pod, xs);
    forall i | 0 <= i < |pod.containers| ensures Launched(once, xs).containers[i] == once.containers[i] {
      var c := pod.containers[i];
      AddNewHolds(c.claims, ForContainer(c.name, xs));
      AddNewNothing(once.containers[i].claims, ForContainer(c.name, xs));
    }
    assert Launched(once, xs).containers == once.containers;
    var ys := ForPod(pod, xs);
    ForPodKeepsNames(pod, once, xs);
    ClaimsFollowNames(pod.claims, ys);
    AddNewHolds(NamesOf(pod.claims), NamesOf(ys));
    forall i | 0 <= i < |ys| ensures HasName(once.claims, ys[i].name) {
      assert NamesOf(ys)[i] in AddNew(NamesOf(pod.claims), NamesOf(ys));
      HasNameInNames(once.claims, ys[i].name);
    }
    AddNewClaimsNothing(once.claims, ys);
  }

  // ---- Which container gets which claim ----

  lemma {:induction false} ForContainerExactly(name: string, xs: seq<Injection>, n: string)
    ensures n in ForContainer(name, xs) <==>
      exists j :: 0 <= j < |xs| && xs[j].claim == n && (xs[j].containers == [] || name in xs[j].containers)
    decreases |xs|
  {
    if xs != [] {
      var front, last := xs[..|xs| - 1], xs[|xs| - 1];
      ForContainerExactly(name, front, n);
      assert forall j :: 0 <= j < |front| ==> xs[j] == front[j];
      assert xs[|xs| - 1] == last;
    }
  }

  lemma {:induction false} ForPodExactly(pod: Pod, xs: seq<Injection>, e: PodClaim)
    ensures e in ForPod(pod, xs) <==>
      exists j :: 0 <= j < |xs| && e == PodClaim(xs[j].claim, xs[j].template) && AnyTarget(pod, xs[j].containers)
    decreases |xs|
  {
    if xs != [] {
      var front, last := xs[..|xs| - 1], xs[|xs| - 1];
      ForPodExactly(pod, front, e);
      assert forall j :: 0 <= j < |front| ==> xs[j] == front[j];
      assert xs[|xs| - 1] == last;
    }
  }

  /** Claim j is for a container of this name: it names no containers, or this one. */
  predicate IsFor(c: DeviceClaim, container: string) {
    c.containers == [] || container in c.containers
  }

  /** After either injection a container holds a claim if and only if it held it before or a claim of the spec with that name is
      for it; the pod holds, besides its own, exactly the claims that are for one of its containers, each with the template
      named after job and claim. */
  lemma InjectedExactly(rtj: string, claims: seq<DeviceClaim>, pod: Pod, n: string)
    ensures var xs := SpecInjections(rtj, claims);
            && (forall i :: 0 <= i < |pod.containers| ==>
                  && (n in Accounted(pod, xs).containers[i].claims <==> n in Launched(pod, xs).containers[i].claims)
                  && (n in Accounted(pod, xs).containers[i].claims <==>
                      n in pod.containers[i].claims ||
                      exists j :: 0 <= j < |claims| && claims[j].name == n && IsFor(claims[j], pod.containers[i].name)))
            && (forall t :: PodClaim(n, t) in Accounted(pod, xs).claims <==>
                  PodClaim(n, t) in pod.claims ||
                  (t == rtj + "-" + n && exists j, i :: 0 <= j < |claims| && 0 <= i < |pod.containers| &&
                                           claims[j].name == n && IsFor(claims[j], pod.containers[i].name)))
  {
    var xs := SpecInjections(rtj, claims);
    forall i | 0 <= i < |pod.containers|
      ensures n in Accounted(pod, xs).containers[i].claims <==> n in Launched(pod, xs).containers[i].claims
      ensures n in Accounted(pod, xs).containers[i].claims <==>
        (n in pod.containers[i].claims || exists j :: 0 <= j < |claims| && claims[j].name == n && IsFor(claims[j], pod.containers[i].name))
    {
      var c := pod.containers[i];
      ForContainerExactly(c.name, xs, n);
      AddNewExactly(c.claims, ForContainer(c.name, xs), n);
      if j :| 0 <= j < |claims| && claims[j].name == n && IsFor(claims[j], c.name) { assert xs[j].claim == n; }
      if j :| 0 <= j < |xs| && xs[j].claim == n && (xs[j].containers == [] || c.name in xs[j].containers) {
        assert claims[j].name == n && IsFor(claims[j], c.name);
      }
    }
    forall t ensures PodClaim(n, t) in ForPod(pod, xs) <==>
      t == rtj + "-" + n && exists j, i :: 0 <= j < |claims| && 0 <= i < |pod.containers| &&
                              claims[j].name == n && IsFor(claims[j], pod.containers[i].name)
    {
      ForPodExactly(pod, xs, PodClaim(n, t));
      if j :| 0 <= j < |xs| && PodClaim(n, t) == PodClaim(xs[j].claim, xs[j].template) && AnyTarget(pod, xs[j].containers) {
        var i :| 0 <= i < |pod.containers| && Targets(pod.containers[i].name, xs[j].containers);
        assert claims[j].name == n && IsFor(claims[j], pod.containers[i].name);
      }
      if j, i :| 0 <= j < |claims| && 0 <= i < |pod.containers| && claims[j].name == n && IsFor(claims[j], pod.containers[i].name) {
        assert Targets(pod.containers[i].name, xs[j].containers) && AnyTarget(pod, xs[j].containers);
        assert xs[j].claim == n && xs[j].template == rtj + "-" + n;
      }
    }
  }

  lemma {:induction false} AddNewExactly(s: seq<string>, xs: seq<string>, n: string)
    ensures n in AddNew(s, xs) <==> n in s || n in xs
    decreases |xs|
  {
    if xs != [] {
      AddNewExactly(s, xs[..|xs| - 1], n);
      assert n in xs <==> n in xs[..|xs| - 1] || n == xs[|xs| - 1];
    }
  }

  /** Claims keep the order of the spec: of two that are for a container, the earlier one comes first there. */
  lemma {:induction false} OrderIsKept(name: string, xs: seq<Injection>, i: nat, j: nat) returns (p: nat, q: nat)
    requires i < j < |xs|
    requires (xs[i].containers == [] || name in xs[i].containers) && (xs[j].containers == [] || name in xs[j].containers)
    ensures p < q < |ForContainer(name, xs)| && ForContainer(name, xs)[p] == xs[i].claim && ForContainer(name, xs)[q] == xs[j].claim
    decreases |xs|
  {
    var front := xs[..|xs| - 1];
    var before := ForContainer(name, front);
    if j == |xs| - 1 {
      ForContainerExactly(name, front, xs[i].claim);
      assert front[i] == xs[i];
      p :| 0 <= p < |before| && before[p] == xs[i].claim;
      q := |before|;
    } else {
      p, q := OrderIsKept(name, front, i, j);
    }
  }

  // ---- Refs and what they resolve ----

  /** The refs are those of the claims, sorted by claim name. */
  lemma TemplateRefsAreSorted(rtj: string, claims: seq<DeviceClaim>)
    ensures var refs := TemplateRefs(rtj, claims);
            && (forall i, j :: 0 <= i < j < |refs| ==> !Less(refs[j].claim, refs[i].claim))
            && multiset(refs) == multiset(seq(|claims|, i requires 0 <= i < |claims| => TemplateRef(rtj + "-" + claims[i].name, claims[i].name)))
  {
    forall a: TemplateRef ensures !EarlierRef(a, a) { LessIrreflexive(a.claim); }
    forall a, b, c | EarlierRef(a, b) && EarlierRef(b, c) ensures EarlierRef(a, c) { LessTransitive(a.claim, b.claim, c.claim); }
    forall a, b, c | EarlierRef(a, c) ensures EarlierRef(a, b) || EarlierRef(b, c) {
      LessTotal(a.claim, b.claim);
      if Less(b.claim, a.claim) { LessTransitive(b.claim, a.claim, c.claim); }
    }
    var unsorted := seq(|claims|, i requires 0 <= i < |claims| => TemplateRef(TemplateName(rtj, claims[i].name), claims[i].name));
    StableSortSorted(EarlierRef, unsorted);
    assert unsorted == seq(|claims|, i requires 0 <= i < |claims| => TemplateRef(rtj + "-" + claims[i].name, claims[i].name));
    var refs := TemplateRefs(rtj, claims);
    forall i, j | 0 <= i < j < |refs| ensures !Less(refs[j].claim, refs[i].claim) { assert !EarlierRef(refs[j], refs[i]); }
  }

  /** A claim is injected if and only if it has a ref; one without is left out, and nothing else is injected. */
  lemma {:induction false} ResolvedExactly(claims: seq<DeviceClaim>, m: map<string, string>, x: Injection)
    ensures x in Resolved(claims, m) <==>
      exists j :: 0 <= j < |claims| && claims[j].name in m && x == Injection(claims[j].name, m[claims[j].name], claims[j].containers)
    decreases |claims|
  {
    if claims != [] {
      var front, c := claims[..|claims| - 1], claims[|claims| - 1];
      ResolvedExactly(front, m, x);
      assert forall j :: 0 <= j < |front| ==> claims[j] == front[j];
      assert claims[|claims| - 1] == c;
    }
  }

  /** Of several refs for a claim the last one counts. */
  lemma {:induction false} LastRefCounts(refs: seq<TemplateRef>, i: nat)
    requires i < |refs| && forall j :: i < j < |refs| ==> refs[j].claim != refs[i].claim
    ensures refs[i].claim in RefMap(refs) && RefMap(refs)[refs[i].claim] == refs[i].template
    decreases |refs|
  {
    if i < |refs| - 1 {
      LastRefCounts(refs[..|refs| - 1], i);
      assert refs[|refs| - 1].claim != refs[i].claim;
    }
  }
}
