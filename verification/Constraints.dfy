/** What rendering does to a pod template: Kueue's own labels and annotations are removed, topology overwrites node selector
    entries, and the updates suggested by admission checks are merged in, additively or not at all. */
module Constraints {
  import opened Foundation
  import opened Topology

  type Strings = map<string, string>

  datatype Toleration = Toleration(key: string, operator: string, value: string, effect: string, seconds: Option<int>)

  datatype Template = Template(labels: Strings, annotations: Strings, nodeSelector: Strings, tolerations: seq<Toleration>)

  datatype Job = Job(name: string, template: Template)

  datatype Update = Update(labels: Strings, annotations: Strings, nodeSelector: Strings, tolerations: seq<Toleration>)

  const NO_UPDATE := Update(map[], map[], map[], [])

  datatype UpdateEntry = UpdateEntry(podSet: string, update: Update)

  // ---- Kueue's own metadata ----

  const KUEUE_PREFIX := "kueue.x-k8s.io/"
  const PROVISIONING_PREFIX := "provreq.kueue.x-k8s.io/"

  /** The four labels that are named besides the prefix carry the prefix. */
  predicate IsKueueLabel(key: string) {
    || KUEUE_PREFIX <= key
    || key == KUEUE_PREFIX + "queue-name" || key == KUEUE_PREFIX + "priority-class"
    || key == KUEUE_PREFIX + "prebuilt-workload-name" || key == KUEUE_PREFIX + "max-exec-time-seconds"
  }

  predicate IsKueueAnnotation(key: string) {
    KUEUE_PREFIX <= key || PROVISIONING_PREFIX <= key
  }

  function Without(m: Strings, dropped: string -> bool): Strings {
    map k | k in m && !dropped(k) :: m[k]
  }

  function Stripped(job: Job): Job {
    job.(template := job.template.(labels := Without(job.template.labels, IsKueueLabel),
                                   annotations := Without(job.template.annotations, IsKueueAnnotation)))
  }

  /** Exactly the keys under Kueue's prefix go, and of the annotations those under its provisioning prefix as well. */
  lemma StrippedExactly(job: Job, k: string)
    ensures var t, bare := job.template, Stripped(job).template;
            && (k in bare.labels <==> k in t.labels && !("kueue.x-k8s.io/" <= k))
            && (k in bare.annotations <==> k in t.annotations && !("kueue.x-k8s.io/" <= k) && !("provreq.kueue.x-k8s.io/" <= k))
            && (k in bare.labels ==> bare.labels[k] == t.labels[k])
            && (k in bare.annotations ==> bare.annotations[k] == t.annotations[k])
            && bare.nodeSelector == t.nodeSelector && bare.tolerations == t.tolerations && Stripped(job).name == job.name
  {
  }

  /** Delete while ranging over the map, in whatever order. */
  method Delete(m: Strings, dropped: string -> bool) returns (r: Strings)
    ensures r == Without(m, dropped)
  {
    r := m;
    var rest := m.Keys;
    while rest != {}
      invariant rest <= m.Keys
      invariant forall k :: k in r <==> k in m && (k in rest || !dropped(k))
      invariant forall k :: k in r ==> r[k] == m[k]
      decreases |rest|
    {
      var k :| k in rest;
      rest := rest - {k};
      if dropped(k) { r := r - {k}; }
    }
  }

  /** stripKueuePodTemplateLabels. */
  method Strip(job: Job) returns (r: Job)
    ensures r == Stripped(job)
  {
    var labels := Delete(job.template.labels, IsKueueLabel);
    var annotations := Delete(job.template.annotations, IsKueueAnnotation);
    r := job.(template := job.template.(labels := labels, annotations := annotations));
  }

  // ---- Topology ----

  function Selector(topo: map<string, PodSetTopology>, name: string): Strings {
    if name in topo then Common(topo[name]) else map[]
  }

  function Placed(job: Job, topo: map<string, PodSetTopology>): Job {
    job.(template := job.template.(nodeSelector := job.template.nodeSelector + Selector(topo, job.name)))
  }

  /** What the updates are applied to while rendering. */
  function Prepared(job: Job, topo: map<string, PodSetTopology>): Job {
    Placed(Stripped(job), topo)
  }

  predicate Placeable(job: Job, topo: map<string, PodSetTopology>) {
    job.name in topo ==> Representable(topo[job.name])
  }

  method Place(job: Job, topo: map<string, PodSetTopology>) returns (ok: bool, placed: Job)
    ensures ok <==> Placeable(job, topo)
    ensures ok ==> placed == Placed(job, topo)
  {
    var pod := job.template;
    if job.name !in topo {
      assert pod.nodeSelector + map[] == pod.nodeSelector;
      return true, job;
    }
    if !Representable(topo[job.name]) { return false, job; }
    var selector := CommonNodeSelector(topo[job.name]);
    return true, job.(template := pod.(nodeSelector := pod.nodeSelector + selector));
  }

  /** InjectTopology stops at the first assignment that cannot be represented. */
  method InjectTopology(jobs: array<Job>, topo: map<string, PodSetTopology>) returns (ok: bool)
    modifies jobs
    ensures ok <==> forall k :: 0 <= k < jobs.Length ==> Placeable(old(jobs[k]), topo)
    ensures ok ==> forall k :: 0 <= k < jobs.Length ==> jobs[k] == Placed(old(jobs[k]), topo)
  {
    for i := 0 to jobs.Length
      invariant forall k :: 0 <= k < i ==> Placeable(old(jobs[k]), topo) && jobs[k] == Placed(old(jobs[k]), topo)
      invariant forall k :: i <= k < jobs.Length ==> jobs[k] == old(jobs[k])
    {
      var done, placed := Place(jobs[i], topo);
      if !done { return false; }
      jobs[i] := placed;
    }
    return true;
  }

  // ---- Additive updates ----

  predicate Conflict(dst: Strings, src: Strings, k: string) {
    k in src && k in dst && dst[k] != src[k]
  }

  ghost predicate Conflicting(dst: Strings, src: Strings) {
    exists k :: Conflict(dst, src, k)
  }

  ghost function Merged(dst: Strings, src: Strings): Strings {
    if Conflicting(dst, src) then dst else dst + src
  }

  function AddTolerations(dst: seq<Toleration>, src: seq<Toleration>): seq<Toleration>
    decreases |src|
  {
    if src == [] then dst
    else
      var t, x := AddTolerations(dst, src[..|src| - 1]), src[|src| - 1];
      if x in t then t else t + [x]
  }

  function UpdateFor(updates: map<string, Update>, name: string): Update {
    if name in updates then updates[name] else NO_UPDATE
  }

  ghost function Updated(job: Job, u: Update): Job {
    var t := job.template;
    job.(template := Template(Merged(t.labels, u.labels), Merged(t.annotations, u.annotations),
                              Merged(t.nodeSelector, u.nodeSelector), AddTolerations(t.tolerations, u.tolerations)))
  }

  ghost predicate Clashes(job: Job, u: Update) {
    var t := job.template;
    Conflicting(t.labels, u.labels) || Conflicting(t.annotations, u.annotations) || Conflicting(t.nodeSelector, u.nodeSelector)
  }

  /** applyMapAdditive lists the conflicting keys, in whatever order the map is ranged over. */
  method ConflictingKeys(dst: Strings, src: Strings) returns (keys: seq<string>)
    ensures forall k :: k in keys <==> Conflict(dst, src, k)
    ensures keys == [] <==> !Conflicting(dst, src)
  {
    keys := [];
    var rest := src.Keys;
    while rest != {}
      invariant rest <= src.Keys
      invariant forall k :: k in keys <==> Conflict(dst, src, k) && k !in rest
      decreases |rest|
    {
      var k :| k in rest;
      rest := rest - {k};
      if k in dst && dst[k] != src[k] { keys := keys + [k]; }
    }
    assert keys != [] ==> Conflict(dst, src, keys[0]);
  }

  method MergeField(dst: Strings, src: Strings) returns (r: Strings, ok: bool)
    ensures r == Merged(dst, src)
    ensures ok <==> !Conflicting(dst, src)
  {
    var conflicts := ConflictingKeys(dst, src);
    ok := conflicts == [];
    r := if ok then dst + src else dst;
  }

  method AppendUniqueTolerations(dst: seq<Toleration>, src: seq<Toleration>) returns (r: seq<Toleration>)
    ensures r == AddTolerations(dst, src)
  {
    r := dst;
    for i := 0 to |src|
      invariant r == AddTolerations(dst, src[..i])
    {
      assert src[..i + 1][..i] == src[..i];
      if src[i] !in r { r := r + [src[i]]; }
    }
    assert src[..|src|] == src;
  }

  method ApplyUpdate(job: Job, u: Update) returns (r: Job, ok: bool)
    ensures r == Updated(job, u)
    ensures ok <==> !Clashes(job, u)
  {
    var t := job.template;
    var labels, okLabels := MergeField(t.labels, u.labels);
    var annotations, okAnnotations := MergeField(t.annotations, u.annotations);
    var selector, okSelector := MergeField(t.nodeSelector, u.nodeSelector);
    var tolerations := AppendUniqueTolerations(t.tolerations, u.tolerations);
    ok := okLabels && okAnnotations && okSelector;
    r := job.(template := Template(labels, annotations, selector, tolerations));
  }

  ghost function After(job: Job, updates: map<string, Update>): Job {
    Updated(job, UpdateFor(updates, job.name))
  }

  ghost predicate Fits(job: Job, updates: map<string, Update>) {
    !Clashes(job, UpdateFor(updates, job.name))
  }

  method ApplyUpdateFor(job: Job, updates: map<string, Update>) returns (r: Job, ok: bool)
    ensures r == After(job, updates)
    ensures ok <==> Fits(job, updates)
  {
    if job.name !in updates {
      NoUpdateChangesNothing(job);
      return job, true;
    }
    r, ok := ApplyUpdate(job, updates[job.name]);
  }

  /** Each field of each job is merged or, when it conflicts, left alone. */
  method ApplyPodSetUpdates(jobs: array<Job>, updates: map<string, Update>) returns (applied: bool)
    modifies jobs
    ensures forall k :: 0 <= k < jobs.Length ==> jobs[k] == After(old(jobs[k]), updates)
    ensures applied <==> forall k :: 0 <= k < jobs.Length ==> Fits(old(jobs[k]), updates)
  {
    ghost var was := jobs[..];
    applied := true;
    for i := 0 to jobs.Length
      invariant |was| == jobs.Length
      invariant forall k :: 0 <= k < i ==> jobs[k] == After(was[k], updates)
      invariant jobs[i..] == was[i..]
      invariant applied ==> forall k :: 0 <= k < i ==> Fits(was[k], updates)
      invariant !applied ==> exists k :: 0 <= k < i && !Fits(was[k], updates)
    {
      assert jobs[i] == was[i];
      var updated, ok := ApplyUpdateFor(jobs[i], updates);
      if !ok { applied := false; }
      jobs[i] := updated;
    }
  }

  lemma NoUpdateChangesNothing(job: Job)
    ensures Updated(job, NO_UPDATE) == job && !Clashes(job, NO_UPDATE)
  {
    var t := job.template;
    assert t.labels + map[] == t.labels && t.annotations + map[] == t.annotations && t.nodeSelector + map[] == t.nodeSelector;
  }

  // ---- Composition ----

  lemma MergedContains(dst: Strings, src: Strings)
    requires !Conflicting(dst, src)
    ensures Contains(Merged(dst, src), dst) && Contains(Merged(dst, src), src)
    ensures Merged(dst, src).Keys == dst.Keys + src.Keys
    ensures !Conflicting(Merged(dst, src), src) && Merged(Merged(dst, src), src) == Merged(dst, src)
  {
    forall k | k in dst && k in src ensures dst[k] == src[k] { assert !Conflict(dst, src, k); }
    var r := Merged(dst, src);
    assert r + src == r;
  }

  /** When both steps succeed, the final node selector holds the whole topology selector and the whole update, every
      other key of the template keeps its value, and there is nothing else; the pod's labels and annotations hold the whole
      update and keep those of the template that are not Kueue's, and nothing else. */
  lemma ConstraintsCompose(job: Job, topo: map<string, PodSetTopology>, u: Update)
    requires !Clashes(Prepared(job, topo), u)
    ensures var final, t, bare := Updated(Prepared(job, topo), u).template, job.template, Stripped(job).template;
            && Contains(final.nodeSelector, Selector(topo, job.name)) && Contains(final.nodeSelector, u.nodeSelector)
            && (forall k :: k in t.nodeSelector && k !in Selector(topo, job.name) ==>
                  k in final.nodeSelector && final.nodeSelector[k] == t.nodeSelector[k])
            && final.nodeSelector.Keys == t.nodeSelector.Keys + Selector(topo, job.name).Keys + u.nodeSelector.Keys
            && Contains(final.labels, bare.labels) && Contains(final.labels, u.labels)
            && final.labels.Keys == bare.labels.Keys + u.labels.Keys
            && Contains(final.annotations, bare.annotations) && Contains(final.annotations, u.annotations)
            && final.annotations.Keys == bare.annotations.Keys + u.annotations.Keys
  {
    var placed := Prepared(job, topo).template;
    MergedContains(placed.nodeSelector, u.nodeSelector);
    MergedContains(placed.labels, u.labels);
    MergedContains(placed.annotations, u.annotations);
  }

  lemma {:induction false} TolerationsHold(dst: seq<Toleration>, src: seq<Toleration>)
    ensures dst <= AddTolerations(dst, src)
    ensures forall i :: 0 <= i < |src| ==> src[i] in AddTolerations(dst, src)
    decreases |src|
  {
    if src != [] {
      TolerationsHold(dst, src[..|src| - 1]);
      assert forall i :: 0 <= i < |src| - 1 ==> src[i] == src[..|src| - 1][i];
    }
  }

  lemma {:induction false} TolerationsStay(dst: seq<Toleration>, src: seq<Toleration>)
    requires forall i :: 0 <= i < |src| ==> src[i] in dst
    ensures AddTolerations(dst, src) == dst
    decreases |src|
  {
    if src != [] { TolerationsStay(dst, src[..|src| - 1]); }
  }

  /** Applying the same update again finds no clash and changes nothing. */
  lemma ReapplyingChangesNothing(job: Job, u: Update)
    requires !Clashes(job, u)
    ensures !Clashes(Updated(job, u), u) && Updated(Updated(job, u), u) == Updated(job, u)
  {
    var t := job.template;
    MergedContains(t.labels, u.labels);
    MergedContains(t.annotations, u.annotations);
    MergedContains(t.nodeSelector, u.nodeSelector);
    TolerationsHold(t.tolerations, u.tolerations);
    TolerationsStay(AddTolerations(t.tolerations, u.tolerations), u.tolerations);
  }

  // ---- Rendering, and the check before the launch ----

  method StripAll(jobs: array<Job>)
    modifies jobs
    ensures forall k :: 0 <= k < jobs.Length ==> jobs[k] == Stripped(old(jobs[k]))
  {
    for i := 0 to jobs.Length
      invariant forall k :: 0 <= k < i ==> jobs[k] == Stripped(old(jobs[k]))
      invariant forall k :: i <= k < jobs.Length ==> jobs[k] == old(jobs[k])
    {
      jobs[i] := Strip(jobs[i]);
    }
  }

  /** Rendering stops when the topology of some job cannot be represented or the update clashes with some job. */
  ghost predicate RenderFailsAt(job: Job, topo: map<string, PodSetTopology>, updates: map<string, Update>) {
    !Placeable(job, topo) || !Fits(Prepared(job, topo), updates)
  }

  ghost predicate RenderFails(jobs: seq<Job>, topo: map<string, PodSetTopology>, updates: map<string, Update>) {
    exists i :: 0 <= i < |jobs| && RenderFailsAt(jobs[i], topo, updates)
  }

  /** The constraint steps of RenderChildJobSet, in order, on all replicated jobs. */
  method RenderConstraints(jobs: array<Job>, topo: map<string, PodSetTopology>, updates: map<string, Update>) returns (ok: bool)
    modifies jobs
    ensures ok <==> !RenderFails(old(jobs[..]), topo, updates)
    ensures ok ==> forall k :: 0 <= k < jobs.Length ==> jobs[k] == After(Prepared(old(jobs[k]), topo), updates)
  {
    ghost var was := jobs[..];
    StripAll(jobs);
    ghost var bare := jobs[..];
    assert forall k :: 0 <= k < |was| ==> bare[k] == Stripped(was[k]);
    ok := InjectTopology(jobs, topo);
    if !ok {
      ghost var k :| 0 <= k < |was| && !Placeable(bare[k], topo);
      assert RenderFailsAt(was[k], topo, updates);
      return;
    }
    ghost var placed := jobs[..];
    assert forall k :: 0 <= k < |was| ==> placed[k] == Prepared(was[k], topo) && Placeable(was[k], topo) by {
      forall k | 0 <= k < |was| ensures placed[k] == Prepared(was[k], topo) && Placeable(was[k], topo) {
        assert Placeable(bare[k], topo) && placed[k] == Placed(bare[k], topo);
      }
    }
    ok := ApplyPodSetUpdates(jobs, updates);
    if !ok {
      ghost var k :| 0 <= k < |was| && !Fits(placed[k], updates);
      assert RenderFailsAt(was[k], topo, updates);
    } else {
      assert forall k :: 0 <= k < |was| ==> Fits(placed[k], updates);
    }
  }

  /** Before the launch the updates are tried on the parsed template as it is. */
  ghost predicate DryRunFails(jobs: seq<Job>, updates: map<string, Update>) {
    exists i :: 0 <= i < |jobs| && !Fits(jobs[i], updates)
  }

  method DryRun(template: seq<Job>, updates: map<string, Update>) returns (ok: bool)
    ensures ok <==> !DryRunFails(template, updates)
  {
    var copy := new Job[|template|](i requires 0 <= i < |template| => template[i]);
    assert copy[..] == template;
    ok := ApplyPodSetUpdates(copy, updates);
  }

  // ---- Where the two verdicts come from ----

  ghost predicate ConflictingKept(dst: Strings, src: Strings, dropped: string -> bool) {
    exists k :: !dropped(k) && Conflict(dst, src, k)
  }

  ghost predicate ConflictingDropped(dst: Strings, src: Strings, dropped: string -> bool) {
    exists k :: dropped(k) && Conflict(dst, src, k)
  }

  /** A clash that neither stripping nor topology has a say in. */
  ghost predicate BothSee(job: Job, topo: map<string, PodSetTopology>, u: Update) {
    var t, sel := job.template, Selector(topo, job.name);
    || ConflictingKept(t.labels, u.labels, IsKueueLabel)
    || ConflictingKept(t.annotations, u.annotations, IsKueueAnnotation)
    || ConflictingKept(t.nodeSelector, u.nodeSelector, k => k in sel)
  }

  /** A clash with what rendering removes or overwrites: a Kueue label or annotation, or a key that topology sets. */
  ghost predicate OnlyDryRunSees(job: Job, topo: map<string, PodSetTopology>, u: Update) {
    var t, sel := job.template, Selector(topo, job.name);
    || ConflictingDropped(t.labels, u.labels, IsKueueLabel)
    || ConflictingDropped(t.annotations, u.annotations, IsKueueAnnotation)
    || ConflictingDropped(t.nodeSelector, u.nodeSelector, k => k in sel)
  }

  /** A topology that cannot be represented, or that clashes with the update. */
  ghost predicate OnlyRenderingSees(job: Job, topo: map<string, PodSetTopology>, u: Update) {
    !Placeable(job, topo) || Conflicting(Selector(topo, job.name), u.nodeSelector)
  }

  lemma ConflictsSplit(dst: Strings, src: Strings, dropped: string -> bool)
    ensures Conflicting(dst, src) <==> ConflictingKept(dst, src, dropped) || ConflictingDropped(dst, src, dropped)
    ensures Conflicting(Without(dst, dropped), src) <==> ConflictingKept(dst, src, dropped)
  {
    if k :| Conflict(dst, src, k) { assert dropped(k) || !dropped(k); }
    if k :| !dropped(k) && Conflict(dst, src, k) { assert Conflict(Without(dst, dropped), src, k); }
    if k :| Conflict(Without(dst, dropped), src, k) { assert !dropped(k) && Conflict(dst, src, k); }
  }

  /** Overwriting clashes with an update where the overwriting part does, or where the rest of the old part does. */
  lemma OverwrittenConflicts(dst: Strings, over: Strings, src: Strings)
    ensures Conflicting(dst + over, src) <==> ConflictingKept(dst, src, k => k in over) || Conflicting(over, src)
  {
    var dropped := k => k in over;
    if k :| Conflict(dst + over, src, k) {
      assert k in over ==> Conflict(over, src, k);
      assert k !in over ==> !dropped(k) && Conflict(dst, src, k);
    }
    if k :| Conflict(over, src, k) { assert Conflict(dst + over, src, k); }
    if k :| !dropped(k) && Conflict(dst, src, k) { assert Conflict(dst + over, src, k); }
  }

  lemma VerdictsSplit(job: Job, topo: map<string, PodSetTopology>, updates: map<string, Update>)
    ensures var u := UpdateFor(updates, job.name);
            && (!Fits(job, updates) <==> BothSee(job, topo, u) || OnlyDryRunSees(job, topo, u))
            && (RenderFailsAt(job, topo, updates) <==> BothSee(job, topo, u) || OnlyRenderingSees(job, topo, u))
  {
    var t, sel, u := job.template, Selector(topo, job.name), UpdateFor(updates, job.name);
    ConflictsSplit(t.labels, u.labels, IsKueueLabel);
    ConflictsSplit(t.annotations, u.annotations, IsKueueAnnotation);
    ConflictsSplit(t.nodeSelector, u.nodeSelector, k => k in sel);
    OverwrittenConflicts(t.nodeSelector, sel, u.nodeSelector);
  }

  /** The check before the launch and the one while rendering agree on a list of jobs exactly when some job has a clash that both
      see, or some job has one that only the first sees just when some job has a failure that only the second sees. */
  lemma DryRunAgreesExactly(jobs: seq<Job>, topo: map<string, PodSetTopology>, updates: map<string, Update>)
    ensures (DryRunFails(jobs, updates) <==> RenderFails(jobs, topo, updates)) <==>
            (|| (exists i :: 0 <= i < |jobs| && BothSee(jobs[i], topo, UpdateFor(updates, jobs[i].name)))
             || ((exists i :: 0 <= i < |jobs| && OnlyDryRunSees(jobs[i], topo, UpdateFor(updates, jobs[i].name))) <==>
                 (exists i :: 0 <= i < |jobs| && OnlyRenderingSees(jobs[i], topo, UpdateFor(updates, jobs[i].name)))))
  {
    forall i | 0 <= i < |jobs|
      ensures var u := UpdateFor(updates, jobs[i].name);
              && (!Fits(jobs[i], updates) <==> BothSee(jobs[i], topo, u) || OnlyDryRunSees(jobs[i], topo, u))
              && (RenderFailsAt(jobs[i], topo, updates) <==> BothSee(jobs[i], topo, u) || OnlyRenderingSees(jobs[i], topo, u))
    {
      VerdictsSplit(jobs[i], topo, updates);
    }
  }

  /** For every representable topology that sets a key, the verdicts differ either way: updates can pass before the launch and
      fail while rendering, and the other way round. */
  lemma DryRunCanDiffer(topo: map<string, PodSetTopology>, name: string, key: string)
    requires key in Selector(topo, name) && Representable(topo[name])
    ensures exists job: Job, u: Update :: !DryRunFails([job], map[name := u]) && RenderFails([job], topo, map[name := u])
    ensures exists job: Job, u: Update :: DryRunFails([job], map[name := u]) && !RenderFails([job], topo, map[name := u])
  {
    var t := Selector(topo, name);
    var other := t[key] + "x";
    var bare, elsewhere := Job(name, Template(map[], map[], map[], [])), NO_UPDATE.(nodeSelector := map[key := other]);
    VerdictsSplit(bare, topo, map[name := elsewhere]);
    assert Conflict(t, elsewhere.nodeSelector, key);
    Single(bare, topo, map[name := elsewhere]);
    var pinned, here := Job(name, Template(map[], map[], map[key := other], [])), NO_UPDATE.(nodeSelector := map[key := t[key]]);
    VerdictsSplit(pinned, topo, map[name := here]);
    assert Conflict(pinned.template.nodeSelector, here.nodeSelector, key);
    Single(pinned, topo, map[name := here]);
  }

  /** And whatever the topology, an update that changes a Kueue label of the template is refused before the launch although
      rendering would accept it. */
  lemma KueueLabelsDiffer(topo: map<string, PodSetTopology>, name: string, key: string, a: string, b: string)
    requires "kueue.x-k8s.io/" <= key && a != b && (name in topo ==> Representable(topo[name]))
    ensures var job := Job(name, Template(map[key := a], map[], map[], []));
            var updates := map[name := NO_UPDATE.(labels := map[key := b])];
            DryRunFails([job], updates) && !RenderFails([job], topo, updates)
  {
    var job := Job(name, Template(map[key := a], map[], map[], []));
    var u := NO_UPDATE.(labels := map[key := b]);
    VerdictsSplit(job, topo, map[name := u]);
    assert Conflict(job.template.labels, u.labels, key);
    Single(job, topo, map[name := u]);
  }

  lemma Single(job: Job, topo: map<string, PodSetTopology>, updates: map<string, Update>)
    ensures DryRunFails([job], updates) <==> !Fits(job, updates)
    ensures RenderFails([job], topo, updates) <==> RenderFailsAt(job, topo, updates)
  {
    assert [job][0] == job;
  }

  // ---- Updates from several admission checks ----

  datatype Field = Labels | Annotations | NodeSelector

  function Get(u: Update, f: Field): Strings {
    match f
    case Labels => u.labels
    case Annotations => u.annotations
    case NodeSelector => u.nodeSelector
  }

  function Combined(a: Update, b: Update): Update {
    Update(a.labels + b.labels, a.annotations + b.annotations, a.nodeSelector + b.nodeSelector, a.tolerations + b.tolerations)
  }

  function MergedEntries(es: seq<UpdateEntry>): map<string, Update>
    decreases |es|
  {
    if es == [] then map[]
    else
      var m, e := MergedEntries(es[..|es| - 1]), es[|es| - 1];
      m[e.podSet := Combined(UpdateFor(m, e.podSet), e.update)]
  }

  function Flattened(sets: seq<seq<UpdateEntry>>): seq<UpdateEntry>
    decreases |sets|
  {
    if sets == [] then [] else Flattened(sets[..|sets| - 1]) + sets[|sets| - 1]
  }

  lemma MergedSnoc(es: seq<UpdateEntry>, e: UpdateEntry)
    ensures MergedEntries(es + [e]) ==
            MergedEntries(es)[e.podSet := Combined(UpdateFor(MergedEntries(es), e.podSet), e.update)]
  {
    assert (es + [e])[..|es|] == es;
  }

  method MergeSet(before: map<string, Update>, ghost done: seq<UpdateEntry>, es: seq<UpdateEntry>)
    returns (merged: map<string, Update>)
    requires before == MergedEntries(done)
    ensures merged == MergedEntries(done + es)
  {
    merged := before;
    assert done + es[..0] == done;
    for j := 0 to |es|
      invariant merged == MergedEntries(done + es[..j])
    {
      assert done + es[..j + 1] == (done + es[..j]) + [es[j]];
      MergedSnoc(done + es[..j], es[j]);
      var existing := UpdateFor(merged, es[j].podSet);
      merged := merged[es[j].podSet := Combined(existing, es[j].update)];
    }
    assert es[..|es|] == es;
  }

  /** MergePodSetUpdates: set after set, entry after entry. */
  method MergePodSetUpdates(sets: seq<seq<UpdateEntry>>) returns (merged: map<string, Update>)
    ensures merged == MergedEntries(Flattened(sets))
  {
    merged := map[];
    for i := 0 to |sets|
      invariant merged == MergedEntries(Flattened(sets[..i]))
    {
      assert sets[..i + 1][..i] == sets[..i];
      merged := MergeSet(merged, Flattened(sets[..i]), sets[i]);
    }
    assert sets[..|sets|] == sets;
  }

  /** Entry i sets key k of field f for a pod set. */
  predicate Sets(es: seq<UpdateEntry>, i: int, podSet: string, f: Field, k: string) {
    0 <= i < |es| && es[i].podSet == podSet && k in Get(es[i].update, f)
  }

  predicate LastToSet(es: seq<UpdateEntry>, i: int, podSet: string, f: Field, k: string) {
    Sets(es, i, podSet, f, k) && forall j :: i < j < |es| ==> !Sets(es, j, podSet, f, k)
  }

  /** The merged value of one field of one pod set. */
  function MergedField(es: seq<UpdateEntry>, podSet: string, f: Field): Strings {
    Get(UpdateFor(MergedEntries(es), podSet), f)
  }

  lemma MergedFieldSnoc(es: seq<UpdateEntry>, e: UpdateEntry, podSet: string, f: Field)
    ensures MergedField(es + [e], podSet, f) ==
            if e.podSet == podSet then MergedField(es, podSet, f) + Get(e.update, f) else MergedField(es, podSet, f)
  {
    MergedSnoc(es, e);
  }

  lemma LastOfMore(es: seq<UpdateEntry>, e: UpdateEntry, podSet: string, f: Field, k: string, i: int)
    ensures LastToSet(es + [e], i, podSet, f, k) <==>
      if e.podSet == podSet && k in Get(e.update, f) then i == |es| else LastToSet(es, i, podSet, f, k)
  {
    var more := es + [e];
    assert forall j :: 0 <= j < |es| ==> (Sets(more, j, podSet, f, k) <==> Sets(es, j, podSet, f, k));
    assert Sets(more, |es|, podSet, f, k) <==> e.podSet == podSet && k in Get(e.update, f);
    if LastToSet(es, i, podSet, f, k) && !Sets(more, |es|, podSet, f, k) {
      assert forall j :: i < j < |more| ==> !Sets(more, j, podSet, f, k);
    }
    if LastToSet(more, i, podSet, f, k) && i < |es| {
      assert forall j :: i < j < |es| ==> !Sets(es, j, podSet, f, k);
    }
  }

  /** A merged key exists exactly when some check sets it, and carries the value of the last one that does. */
  lemma {:induction false} LastValueWins(es: seq<UpdateEntry>, podSet: string, f: Field, k: string)
    ensures k in MergedField(es, podSet, f) <==> exists i :: LastToSet(es, i, podSet, f, k)
    ensures forall i :: LastToSet(es, i, podSet, f, k) ==> MergedField(es, podSet, f)[k] == Get(es[i].update, f)[k]
    decreases |es|
  {
    if es != [] {
      var front, e := es[..|es| - 1], es[|es| - 1];
      assert es == front + [e];
      LastValueWins(front, podSet, f, k);
      MergedFieldSnoc(front, e, podSet, f);
      forall i ensures LastToSet(es, i, podSet, f, k) <==>
        if e.podSet == podSet && k in Get(e.update, f) then i == |front| else LastToSet(front, i, podSet, f, k)
      {
        LastOfMore(front, e, podSet, f, k, i);
      }
      assert forall i :: 0 <= i < |front| ==> es[i] == front[i];
      if e.podSet == podSet && k in Get(e.update, f) { assert LastToSet(es, |front|, podSet, f, k); }
    } else {
      assert forall i :: !LastToSet(es, i, podSet, f, k);
    }
  }

  /** The tolerations of every entry for a pod set, one after another. */
  function TolerationsFor(es: seq<UpdateEntry>, podSet: string): seq<Toleration>
    decreases |es|
  {
    if es == [] then []
    else (if es[0].podSet == podSet then es[0].update.tolerations else []) + TolerationsFor(es[1..], podSet)
  }

  lemma {:induction false} TolerationsForSnoc(es: seq<UpdateEntry>, e: UpdateEntry, podSet: string)
    ensures TolerationsFor(es + [e], podSet) == TolerationsFor(es, podSet) + if e.podSet == podSet then e.update.tolerations else []
    decreases |es|
  {
    if es == [] {
      assert (es + [e])[1..] == [];
    } else {
      assert (es + [e])[1..] == es[1..] + [e];
      TolerationsForSnoc(es[1..], e, podSet);
    }
  }

  /** Merging keeps every check's tolerations, in the order of the checks. */
  lemma {:induction false} TolerationsAreConcatenated(es: seq<UpdateEntry>, podSet: string)
    ensures UpdateFor(MergedEntries(es), podSet).tolerations == TolerationsFor(es, podSet)
    decreases |es|
  {
    if es != [] {
      var front, e := es[..|es| - 1], es[|es| - 1];
      assert es == front + [e];
      TolerationsAreConcatenated(front, podSet);
      TolerationsForSnoc(front, e, podSet);
      MergedSnoc(front, e);
    }
  }

  /** Appending keeps the old tolerations as they are, adds every new one, and nothing else. */
  lemma {:induction false} TolerationsExactly(dst: seq<Toleration>, src: seq<Toleration>, x: Toleration)
    ensures dst <= AddTolerations(dst, src)
    ensures x in AddTolerations(dst, src) <==> x in dst || x in src
    decreases |src|
  {
    if src != [] {
      TolerationsExactly(dst, src[..|src| - 1], x);
      assert x in src <==> x in src[..|src| - 1] || x == src[|src| - 1];
    }
  }
}
