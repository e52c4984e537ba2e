/** The gates before a launch: the sequential code that fills a result with the first reason to wait, against the readiness
    predicate of the provisioning view. */
module LaunchGate {
  import opened Foundation
  import opened Topology

  /** An unknown check state counts as pending. */
  datatype CheckState = CheckPending | CheckReady | CheckRetry | CheckRejected | CheckUnknown

  /** `readiness` says that the check's message names the resume-readiness controller. */
  datatype Check = Check(name: string, state: CheckState, readiness: bool)

  datatype Delayed = DelayedPending | DelayedReady | DelayedUnknown

  datatype Encoding = Encoding(levels: seq<string>, slices: seq<Slice>)

  datatype Assignment = Assignment(podSet: string, topology: Option<Encoding>, delayed: Option<Delayed>)

  datatype Workload = Workload(admission: Option<seq<Assignment>>, checks: seq<Check>)

  datatype Provisioning = NotConfigured | Pending | Provisioned | Retry | Failed

  datatype TopologyView = TopologyView(configured: bool, hasAssignment: bool, secondPassPending: bool)

  datatype View = View(quotaReserved: bool, allChecksReady: bool, provisioning: Provisioning, topology: TopologyView)

  datatype Reason =
    | QuotaNotReserved | ProvisioningInProgress | ProvisioningFailed | WaitingForReadinessGate | ReadinessGateRejected
    | AdmissionCheckPending | TopologyPendingSecondPass | WaitingForTopology | TopologyNotRepresentable | LaunchReady

  datatype Gate = Gate(ready: bool, reason: Reason, topology: Option<map<string, PodSetTopology>>)

  // ---- What the view means ----

  predicate AllReady(checks: seq<Check>) {
    forall i :: 0 <= i < |checks| ==> checks[i].state == CheckReady
  }

  predicate AnyAssigned(xs: seq<Assignment>) {
    exists i :: 0 <= i < |xs| && xs[i].topology.Some?
  }

  predicate AnyDelayed(xs: seq<Assignment>) {
    exists i :: 0 <= i < |xs| && xs[i].delayed.Some? && xs[i].delayed.value != DelayedReady
  }

  predicate Decodable(xs: seq<Assignment>) {
    forall i :: 0 <= i < |xs| ==> DecodableAt(xs[i])
  }

  predicate IsTopologyReady(t: TopologyView) {
    !t.configured || (t.hasAssignment && !t.secondPassPending)
  }

  predicate IsLaunchReady(v: View) {
    v.quotaReserved && v.allChecksReady && IsTopologyReady(v.topology)
  }

  // ---- Building the view ----

  method ParseTopology(xs: seq<Assignment>, configured: bool) returns (t: TopologyView)
    ensures t.configured == configured
    ensures t.hasAssignment <==> AnyAssigned(xs)
    ensures t.secondPassPending <==> configured && (!AnyAssigned(xs) || AnyDelayed(xs))
  {
    if xs == [] { return TopologyView(configured, false, configured); }
    var anyAssigned, anyDelayed := false, false;
    for i := 0 to |xs|
      invariant anyAssigned <==> exists k :: 0 <= k < i && xs[k].topology.Some?
      invariant anyDelayed <==> exists k :: 0 <= k < i && xs[k].delayed.Some? && xs[k].delayed.value != DelayedReady
    {
      if xs[i].topology.Some? { anyAssigned := true; }
      if xs[i].delayed.Some? && xs[i].delayed.value != DelayedReady { anyDelayed := true; }
    }
    var pending := false;
    if configured && !anyAssigned { pending := true; }
    if configured && anyDelayed { pending := true; }
    return TopologyView(configured, anyAssigned, pending);
  }

  function Classified(s: CheckState): Provisioning {
    match s
    case CheckReady => Provisioned
    case CheckPending => Pending
    case CheckRetry => Retry
    case CheckRejected => Failed
    case CheckUnknown => Pending
  }

  /** The first check that provisions decides; without one, provisioning is not configured. */
  ghost predicate DecidedBy(checks: seq<Check>, provisioners: set<string>, p: Provisioning) {
    if forall i :: 0 <= i < |checks| ==> checks[i].name !in provisioners then p == NotConfigured
    else exists i :: FirstProvisioner(checks, provisioners, i) && Means(checks[i].state, p)
  }

  /** A ready check has provisioned, a rejected one has failed, a retried one is retried, and anything else is pending. */
  predicate Means(s: CheckState, p: Provisioning) {
    && (p == Provisioned <==> s == CheckReady) && (p == Failed <==> s == CheckRejected)
    && (p == Retry <==> s == CheckRetry) && (p == Pending <==> s == CheckPending || s == CheckUnknown)
  }

  predicate FirstProvisioner(checks: seq<Check>, provisioners: set<string>, i: int) {
    0 <= i < |checks| && checks[i].name in provisioners && forall k :: 0 <= k < i ==> checks[k].name !in provisioners
  }

  method ClassifyProvisioning(checks: seq<Check>, provisioners: set<string>) returns (p: Provisioning)
    ensures DecidedBy(checks, provisioners, p)
    ensures AllReady(checks) ==> p == NotConfigured || p == Provisioned
  {
    for i := 0 to |checks|
      invariant forall k :: 0 <= k < i ==> checks[k].name !in provisioners
    {
      if checks[i].name in provisioners {
        assert FirstProvisioner(checks, provisioners, i);
        return Classified(checks[i].state);
      }
    }
    return NotConfigured;
  }

  /** The view says of a Workload whether quota is reserved, whether every check is ready, and how provisioning and topology stand. */
  ghost predicate Describes(v: View, w: Workload, topologyEnabled: bool, provisioners: set<string>) {
    var given := w.admission.Some? && AnyAssigned(w.admission.value);
    && DecidedBy(w.checks, provisioners, v.provisioning)
    && (v.quotaReserved <==> w.admission.Some?)
    && (v.allChecksReady <==> AllReady(w.checks))
    && v.topology.configured == topologyEnabled
    && (v.topology.hasAssignment <==> given)
    && (v.topology.secondPassPending <==> (topologyEnabled && (!given || AnyDelayed(w.admission.value))))
  }

  method BuildView(workload: Option<Workload>, topologyEnabled: bool, provisioners: set<string>) returns (v: View)
    ensures workload.None? ==> v == View(false, true, NotConfigured, TopologyView(topologyEnabled, false, false))
    ensures workload.Some? ==> Describes(v, workload.value, topologyEnabled, provisioners)
  {
    if workload.None? { return View(false, true, NotConfigured, TopologyView(topologyEnabled, false, false)); }
    var w := workload.value;
    var allReady := true;
    for i := 0 to |w.checks|
      invariant allReady <==> forall k :: 0 <= k < i ==> w.checks[k].state == CheckReady
    {
      if w.checks[i].state != CheckReady { allReady := false; }
    }
    var provisioning := ClassifyProvisioning(w.checks, provisioners);
    var topology := TopologyView(topologyEnabled, false, topologyEnabled);
    if w.admission.Some? { topology := ParseTopology(w.admission.value, topologyEnabled); }
    return View(w.admission.Some?, allReady, provisioning, topology);
  }

  // ---- Parsing the admission ----

  /** Assignment i is the last one that gives this PodSet a topology. */
  predicate LastFor(xs: seq<Assignment>, i: int, podSet: string) {
    && 0 <= i < |xs| && xs[i].podSet == podSet && xs[i].topology.Some?
    && forall j :: i < j < |xs| ==> !(xs[j].podSet == podSet && xs[j].topology.Some?)
  }

  predicate DecodableAt(x: Assignment) {
    x.topology.Some? ==> x.topology.value.levels != [] && AllOk(x.topology.value.slices, x.topology.value.levels)
  }

  function Decoded(x: Assignment): PodSetTopology
    requires x.topology.Some? && DecodableAt(x)
  {
    PodSetTopology(x.topology.value.levels, AllDomains(x.topology.value.slices, x.topology.value.levels))
  }

  /** Every PodSet with a topology is in the result with its own decoded assignment, the last one if it has several, and
      nothing else is. */
  ghost predicate Decodes(xs: seq<Assignment>, r: map<string, PodSetTopology>)
    requires forall i :: 0 <= i < |xs| ==> DecodableAt(xs[i])
  {
    && (forall i :: 0 <= i < |xs| && xs[i].topology.Some? ==> xs[i].podSet in r)
    && (forall n :: n in r ==> exists i :: LastFor(xs, i, n) && r[n] == Decoded(xs[i]))
  }

  lemma DecodesMore(xs: seq<Assignment>, m: nat, r: map<string, PodSetTopology>)
    requires m < |xs| && (forall i :: 0 <= i <= m ==> DecodableAt(xs[i])) && Decodes(xs[..m], r)
    ensures Decodes(xs[..m + 1], if xs[m].topology.Some? then r[xs[m].podSet := Decoded(xs[m])] else r)
  {
    var x, ys, zs := xs[m], xs[..m], xs[..m + 1];
    var s := if x.topology.Some? then r[x.podSet := Decoded(x)] else r;
    forall n | n in s ensures exists i :: LastFor(zs, i, n) && s[n] == Decoded(zs[i]) {
      if x.topology.Some? && n == x.podSet {
        assert LastFor(zs, m, n) && zs[m] == x;
      } else {
        var i :| LastFor(ys, i, n) && r[n] == Decoded(ys[i]);
        assert LastFor(zs, i, n) && zs[i] == ys[i];
      }
    }
    assert forall i :: 0 <= i < m ==> zs[i] == ys[i];
  }

  lemma DecodedAreLabelled(xs: seq<Assignment>, r: map<string, PodSetTopology>)
    requires forall i :: 0 <= i < |xs| ==> DecodableAt(xs[i])
    requires Decodes(xs, r)
    ensures forall n :: n in r ==> Labelled(r[n])
    ensures r == map[] <==> !AnyAssigned(xs)
  {
    forall n | n in r ensures Labelled(r[n]) && AnyAssigned(xs) {
      var i :| LastFor(xs, i, n) && r[n] == Decoded(xs[i]);
      DecodedIsLabelled(xs[i].topology.value.slices, xs[i].topology.value.levels);
    }
    if r != map[] {
      var n :| n in r;
    }
  }

  /** ParseFromAdmission: none when some assignment does not decode; an empty map when there is none. */
  method ParseAdmission(xs: seq<Assignment>) returns (r: Option<map<string, PodSetTopology>>)
    ensures r.Some? <==> Decodable(xs)
    ensures r.Some? ==> Decodes(xs, r.value)
    ensures r.Some? ==> (r.value == map[] <==> !AnyAssigned(xs))
    ensures r.Some? ==> forall n :: n in r.value ==> Labelled(r.value[n])
  {
    var result: map<string, PodSetTopology> := map[];
    for i := 0 to |xs|
      invariant forall k :: 0 <= k < i ==> DecodableAt(xs[k])
      invariant Decodes(xs[..i], result)
    {
      if xs[i].topology.Some? {
        var e := xs[i].topology.value;
        var parsed := ParseAssignment(e.levels, e.slices);
        if parsed.None? { return None; }
        DecodesMore(xs, i, result);
        result := result[xs[i].podSet := parsed.value];
      } else {
        DecodesMore(xs, i, result);
      }
    }
    assert xs[..|xs|] == xs;
    DecodedAreLabelled(xs, result);
    return Some(result);
  }

  // ---- The gates ----

  /** Check i is the first readiness check in a known state. */
  predicate FirstKnown(checks: seq<Check>, i: int) {
    && 0 <= i < |checks| && checks[i].readiness && checks[i].state != CheckUnknown
    && forall k :: 0 <= k < i && checks[k].readiness ==> checks[k].state == CheckUnknown
  }

  /** What the readiness search finds: its state, or None when no such check is configured. */
  method EvaluateReadinessCheck(checks: seq<Check>) returns (s: Option<CheckState>)
    ensures s.None? <==> forall i :: 0 <= i < |checks| && checks[i].readiness ==> checks[i].state == CheckUnknown
    ensures s.Some? ==> exists i :: FirstKnown(checks, i) && s == Some(checks[i].state)
  {
    for i := 0 to |checks|
      invariant forall k :: 0 <= k < i && checks[k].readiness ==> checks[k].state == CheckUnknown
    {
      if checks[i].readiness && checks[i].state != CheckUnknown {
        assert FirstKnown(checks, i);
        return Some(checks[i].state);
      }
    }
    return None;
  }

  /** The reason while some check is not ready: provisioning under way or failed, else what the first readiness check in a
      known state says, else just that a check is pending. */
  ghost predicate ReasonFor(checks: seq<Check>, provisioning: Provisioning, reason: Reason) {
    var open_ := provisioning == NotConfigured || provisioning == Provisioned;
    var waits := exists i :: FirstKnown(checks, i) && (checks[i].state == CheckPending || checks[i].state == CheckRetry);
    var refused := exists i :: FirstKnown(checks, i) && checks[i].state == CheckRejected;
    && (reason == ProvisioningInProgress <==> provisioning == Pending || provisioning == Retry)
    && (reason == ProvisioningFailed <==> provisioning == Failed)
    && (reason == WaitingForReadinessGate <==> open_ && waits)
    && (reason == ReadinessGateRejected <==> open_ && refused)
    && (reason == AdmissionCheckPending <==> open_ && !waits && !refused)
  }

  method ChecksReason(checks: seq<Check>, provisioning: Provisioning) returns (reason: Reason)
    ensures ReasonFor(checks, provisioning, reason)
  {
    if provisioning == Pending || provisioning == Retry { return ProvisioningInProgress; }
    if provisioning == Failed { return ProvisioningFailed; }
    var s := EvaluateReadinessCheck(checks);
    if s == Some(CheckPending) || s == Some(CheckRetry) { return WaitingForReadinessGate; }
    if s == Some(CheckRejected) { return ReadinessGateRejected; }
    return AdmissionCheckPending;
  }

  /** evaluateLaunchGates. With a Workload it is ready exactly when the view is launch ready and, if topology is enabled, the
      assignment decodes; the later missing-assignment branch is then never taken. Without one it is ready exactly when
      topology is off. A ready gate with topology carries a decoded assignment for every PodSet that has one. */
  method EvaluateLaunchGates(workload: Option<Workload>, topologyEnabled: bool, provisioners: set<string>)
    returns (gate: Gate, view: View)
    ensures gate.ready <==> gate.reason == LaunchReady
    ensures workload.Some? ==> Describes(view, workload.value, topologyEnabled, provisioners)
    ensures workload.Some? ==>
      (gate.ready <==> IsLaunchReady(view) && (topologyEnabled ==> Decodable(workload.value.admission.value)))
    ensures workload.Some? ==> gate.reason != WaitingForTopology
    ensures workload.None? ==> (gate.ready <==> !topologyEnabled)
    ensures workload.None? && topologyEnabled ==> gate.reason == WaitingForTopology
    ensures workload.Some? ==>
      (var w := workload.value;
       if w.admission.None? then gate.reason == QuotaNotReserved
       else if !AllReady(w.checks) then ReasonFor(w.checks, view.provisioning, gate.reason)
       else if topologyEnabled && (!AnyAssigned(w.admission.value) || AnyDelayed(w.admission.value)) then
         gate.reason == TopologyPendingSecondPass
       else if topologyEnabled && !Decodable(w.admission.value) then gate.reason == TopologyNotRepresentable
       else gate.reason == LaunchReady)
    ensures gate.topology.Some? <==> gate.ready && topologyEnabled
    ensures gate.topology.Some? ==>
      && workload.Some? && workload.value.admission.Some? && gate.topology.value != map[]
      && (forall n :: n in gate.topology.value ==> Labelled(gate.topology.value[n]))
      && Decodable(workload.value.admission.value) && Decodes(workload.value.admission.value, gate.topology.value)
    ensures workload.Some? && gate.ready ==>
      workload.value.admission.Some? && AllReady(workload.value.checks) &&
      (topologyEnabled ==> AnyAssigned(workload.value.admission.value) && !AnyDelayed(workload.value.admission.value))
  {
    view := BuildView(workload, topologyEnabled, provisioners);
    if workload.Some? && !view.quotaReserved { return Gate(false, QuotaNotReserved, None), view; }
    if workload.Some? && !view.allChecksReady {
      var reason := ChecksReason(workload.value.checks, view.provisioning);
      return Gate(false, reason, None), view;
    }
    if topologyEnabled && view.topology.secondPassPending { return Gate(false, TopologyPendingSecondPass, None), view; }
    if topologyEnabled {
      if workload.None? || workload.value.admission.None? { return Gate(false, WaitingForTopology, None), view; }
      var parsed := ParseAdmission(workload.value.admission.value);
      if parsed.None? { return Gate(false, TopologyNotRepresentable, None), view; }
      if parsed.value == map[] { return Gate(false, WaitingForTopology, None), view; }
      return Gate(true, LaunchReady, parsed), view;
    }
    return Gate(true, LaunchReady, None), view;
  }
}
