/** One reconcile of a running elastic job: complete a finished relaunch, plan, write the plan into
    status.elasticity, and carry it out. The Workload patch lands before the status write, which may not land. */
module Resize {
  import opened Foundation
  import opened ElasticPlan

  datatype ResizePath = NoPath | InPlace | CheckpointAndRelaunch

  /** status.elasticity; a job without one is as good as one with all fields zero. */
  datatype Elasticity = Elasticity(
    desired: int,
    target: int,
    admitted: int,
    inPlaceSupported: bool,
    state: ResizeState,
    path: ResizePath,
    reclaimable: int,
    published: bool)

  const NEW_ELASTICITY := Elasticity(0, 0, 0, false, NoState, NoPath, 0, false)

  /** The bounds of the spec: effective minimum and preferred counts, and the worker PodSet. */
  datatype Bounds = Bounds(minimum: int, preferred: int, podSet: string)

  /** What one reconcile meets: what the runtime has reported since the last one about shrinking in place (the controller
      itself only copies that field), the spec's elasticity section, the Workload, whether the run has just been
      restored, and whether the Workload patch and the status write succeed. */
  datatype Env = Env(
    reports: Option<bool>,
    enabled: bool,
    target: int,
    policyNever: bool,
    admitted: bool,
    preempting: bool,
    wasRestoring: bool,
    patchFails: bool,
    persists: bool)

  datatype State = State(es: Elasticity, pods: ReclaimablePods)

  // ---- On values ----

  /** The worker count that the planner takes for the current one. */
  function Current(b: Bounds, es: Elasticity): int {
    if es.admitted > 0 then es.admitted else b.preferred
  }

  function BuildInput(b: Bounds, es: Elasticity, env: Env): PlanInput {
    PlanInput(env.enabled, if env.enabled then env.target else 0, Current(b, es), b.minimum, b.preferred, env.policyNever,
              es.inPlaceSupported, env.admitted, env.preempting, es.published, es.state, false)
  }

  function StateOf(k: PlanKind): ResizeState {
    match k
    case NoResize => Idle
    case ShrinkInPlace => Pending
    case ShrinkViaRelaunch => Pending
    case GrowViaRelaunch => Pending
    case ResizeBlocked => Blocked
    case ResizeInProgress => InProgress
    case ReclaimPublished => InProgress
  }

  function PathOf(k: PlanKind): ResizePath {
    match k
    case ShrinkInPlace => InPlace
    case ReclaimPublished => InPlace
    case ShrinkViaRelaunch => CheckpointAndRelaunch
    case GrowViaRelaunch => CheckpointAndRelaunch
    case _ => NoPath
  }

  function Synced(es: Elasticity, p: Plan, x: PlanInput): Elasticity {
    es.(desired := x.maximum, target := x.target, admitted := x.current, inPlaceSupported := x.inPlaceSupported,
        state := StateOf(p.kind), path := PathOf(p.kind), reclaimable := p.reclaim)
  }

  predicate ResizeTriggeredStop(es: Elasticity) {
    es.state == InProgress && es.path == CheckpointAndRelaunch
  }

  predicate Completes(es: Elasticity, env: Env) {
    env.wasRestoring && ResizeTriggeredStop(es)
  }

  /** status.elasticity as the reconcile reads it. */
  function Reported(es: Elasticity, env: Env): Elasticity {
    if env.reports.Some? then es.(inPlaceSupported := env.reports.value) else es
  }

  /** status.elasticity when the planner gets to see it. */
  function Entering(es: Elasticity, env: Env): Elasticity {
    var read := Reported(es, env);
    if Completes(read, env) then read.(state := Completed, path := NoPath) else read
  }

  function PlanFor(b: Bounds, es: Elasticity, env: Env): Plan {
    EvaluatePlan(BuildInput(b, Entering(es, env), env))
  }

  function Cleared(es: Elasticity): Elasticity {
    var state := if es.state == Idle || es.state == NoState then es.state
                 else if es.state == InProgress then Completed else Idle;
    es.(state := state, published := false)
  }

  function Executed(b: Bounds, st: State, p: Plan, patchFails: bool): State {
    match p.kind
    case NoResize => st.(es := Cleared(st.es))
    case ShrinkInPlace =>
      if p.reclaim <= 0 || patchFails then st
      else State(st.es.(published := true, state := InProgress), Patched(st.pods, b.podSet, p.reclaim))
    case ShrinkViaRelaunch => Relaunching(b, st, p, patchFails)
    case GrowViaRelaunch => Relaunching(b, st, p, patchFails)
    case _ => st
  }

  function Relaunching(b: Bounds, st: State, p: Plan, patchFails: bool): State {
    State(st.es.(published := false, state := InProgress, target := p.workers),
          if patchFails then st.pods else Patched(st.pods, b.podSet, 0))
  }

  /** Plan, write the plan into status, carry it out. */
  function Acted(b: Bounds, st: State, env: Env): State {
    var x := BuildInput(b, st.es, env);
    var p := EvaluatePlan(x);
    Executed(b, State(Synced(st.es, p, x), st.pods), p, env.patchFails)
  }

  /** Everything up to the status write. */
  function Worked(b: Bounds, st: State, env: Env): State {
    var entered := st.(es := Entering(st.es, env));
    if env.enabled then Acted(b, entered, env) else entered
  }

  function Next(b: Bounds, st: State, env: Env): State {
    var w := Worked(b, st, env);
    if env.persists then w else State(Reported(st.es, env), w.pods)
  }

  // ---- The controller code ----

  class Workload {
    var pods: ReclaimablePods
    var patches: nat  // patches sent so far

    /** patchWorkloadReclaimablePods; `fails` stands for a missing reference, a failed read or a rejected patch. */
    method Patch(podSet: string, count: int, fails: bool) returns (ok: bool, sent: bool)
      modifies this
      ensures ok <==> !fails
      ensures pods == if fails then old(pods) else Patched(old(pods), podSet, count)
      ensures sent <==> !fails && NeedsReclaimUpdate(old(pods), podSet, count)
      ensures patches == old(patches) + if sent then 1 else 0
      ensures count >= 0 ==> (sent <==> pods != old(pods))
    {
      if fails { return false, false; }
      if !NeedsReclaimUpdate(pods, podSet, count) { return true, false; }
      if count > 0 {
        pods := pods[podSet := count];
      } else {
        pods := pods - {podSet};
      }
      patches := patches + 1;
      return true, true;
    }
  }

  class ElasticJob {
    const bounds: Bounds
    var desired: int
    var target: int
    var admitted: int
    var inPlaceSupported: bool
    var state: ResizeState
    var path: ResizePath
    var reclaimable: int
    var published: bool

    function Value(): Elasticity
      reads this
    {
      Elasticity(desired, target, admitted, inPlaceSupported, state, path, reclaimable, published)
    }

    constructor (bounds: Bounds, es: Elasticity)
      ensures this.bounds == bounds && Value() == es
    {
      this.bounds := bounds;
      desired, target, admitted, inPlaceSupported := es.desired, es.target, es.admitted, es.inPlaceSupported;
      state, path, reclaimable, published := es.state, es.path, es.reclaimable, es.published;
    }

    method CompleteAfterRelaunch() returns (changed: bool)
      modifies this`state, this`path
      ensures ResizeTriggeredStop(old(Value())) ==> Value() == old(Value()).(state := Completed, path := NoPath)
      ensures changed <==> Value() != old(Value())
    {
      changed := false;
      if state == InProgress {
        state := Completed;
        changed := true;
      }
      if path != NoPath {
        path := NoPath;
        changed := true;
      }
    }

    method SyncStatus(p: Plan, x: PlanInput) returns (changed: bool)
      modifies this
      ensures Value() == Synced(old(Value()), p, x)
      ensures changed <==> Value() != old(Value())
    {
      changed := false;
      if desired != x.maximum { desired := x.maximum; changed := true; }
      if target != x.target { target := x.target; changed := true; }
      if admitted != x.current { admitted := x.current; changed := true; }
      if inPlaceSupported != x.inPlaceSupported { inPlaceSupported := x.inPlaceSupported; changed := true; }
      if state != StateOf(p.kind) { state := StateOf(p.kind); changed := true; }
      if path != PathOf(p.kind) { path := PathOf(p.kind); changed := true; }
      if reclaimable != p.reclaim { reclaimable := p.reclaim; changed := true; }
    }

    method ClearStale() returns (changed: bool)
      modifies this`state, this`published
      ensures Value() == Cleared(old(Value()))
      ensures changed <==> Value() != old(Value())
    {
      changed := false;
      if state != Idle && state != NoState {
        if state == InProgress { state := Completed; } else { state := Idle; }
        changed := true;
      }
      if published {
        published := false;
        changed := true;
      }
    }

    method ExecuteShrinkInPlace(w: Workload, p: Plan, patchFails: bool) returns (changed: bool)
      requires p.kind.ShrinkInPlace?
      modifies this, w
      ensures State(Value(), w.pods) == Executed(bounds, State(old(Value()), old(w.pods)), p, patchFails)
      ensures Value() != old(Value()) ==> changed
      ensures w.patches == old(w.patches) + if w.pods != old(w.pods) then 1 else 0
    {
      changed := false;
      if p.reclaim <= 0 { return; }
      var ok, _ := w.Patch(bounds.podSet, p.reclaim, patchFails);
      if !ok { return; }
      if !published { published := true; changed := true; }
      if state != InProgress { state := InProgress; changed := true; }
    }

    method ExecuteRelaunch(w: Workload, p: Plan, patchFails: bool) returns (changed: bool)
      requires Relaunches(p.kind)
      modifies this, w
      ensures State(Value(), w.pods) == Executed(bounds, State(old(Value()), old(w.pods)), p, patchFails)
      ensures Value() != old(Value()) ==> changed
      ensures w.patches == old(w.patches) + if w.pods != old(w.pods) then 1 else 0
    {
      changed := false;
      if state != InProgress { state := InProgress; changed := true; }
      if target != p.workers { target := p.workers; changed := true; }
      if published { published := false; changed := true; }
      var _, _ := w.Patch(bounds.podSet, 0, patchFails);
    }

    method Execute(w: Workload, p: Plan, patchFails: bool) returns (changed: bool, triggerStop: bool)
      modifies this, w
      ensures State(Value(), w.pods) == Executed(bounds, State(old(Value()), old(w.pods)), p, patchFails)
      ensures Value() != old(Value()) ==> changed
      ensures triggerStop <==> Relaunches(p.kind)
      ensures w.patches == old(w.patches) + if w.pods != old(w.pods) then 1 else 0
    {
      changed, triggerStop := false, false;
      if p.kind == NoResize {
        changed := ClearStale();
      } else if p.kind == ShrinkInPlace {
        changed := ExecuteShrinkInPlace(w, p, patchFails);
      } else if p.kind == ShrinkViaRelaunch || p.kind == GrowViaRelaunch {
        changed := ExecuteRelaunch(w, p, patchFails);
        triggerStop := true;
      }
    }

    /** evaluateElasticPlan followed by executeElasticPlan. */
    method PlanAndExecute(w: Workload, env: Env) returns (changed: bool, triggerStop: bool)
      modifies this, w
      ensures State(Value(), w.pods) == Acted(bounds, State(old(Value()), old(w.pods)), env)
      ensures Value() != old(Value()) ==> changed
      ensures triggerStop <==> Relaunches(EvaluatePlan(BuildInput(bounds, old(Value()), env)).kind)
      ensures w.patches == old(w.patches) + if w.pods != old(w.pods) then 1 else 0
    {
      var x := BuildInput(bounds, Value(), env);
      var p := EvaluatePlan(x);
      var synced := SyncStatus(p, x);
      changed, triggerStop := Execute(w, p, env.patchFails);
      changed := synced || changed;
    }

    /** What others wrote before the reconcile reads the job. */
    method Receive(env: Env)
      modifies this`inPlaceSupported
      ensures Value() == Reported(old(Value()), env)
    {
      if env.reports.Some? {
        inPlaceSupported := env.reports.value;
      }
    }

    /** The elastic part of a reconcile that finds the run active. Before it reads, the runtime may have reported. The status
        is written when something changed; what the server then holds is `stored`. */
    method ReconcileResize(w: Workload, env: Env) returns (stored: Elasticity, triggerStop: bool)
      modifies this, w
      ensures State(stored, w.pods) == Next(bounds, State(old(Value()), old(w.pods)), env)
      ensures triggerStop <==> env.enabled && Relaunches(PlanFor(bounds, old(Value()), env).kind)
      ensures w.patches == old(w.patches) + if w.pods != old(w.pods) then 1 else 0
    {
      Receive(env);
      var read := Value();
      var changed := false;
      triggerStop := false;
      if env.wasRestoring && ResizeTriggeredStop(Value()) {
        changed := CompleteAfterRelaunch();
      }
      assert Value() == Entering(old(Value()), env);
      if env.enabled {
        var acted;
        acted, triggerStop := PlanAndExecute(w, env);
        changed := changed || acted;
      }
      stored := if changed && env.persists then Value() else read;
    }
  }
}
