/** The resize planner: a decision tree from one snapshot to one plan, and the reclaim entry a plan calls for. */
module ElasticPlan {

  datatype ResizeState = NoState | Idle | Pending | InProgress | Blocked | Completed | FailedResize

  datatype PlanKind =
    | NoResize | ShrinkInPlace | ShrinkViaRelaunch | GrowViaRelaunch
    | ResizeBlocked | ResizeInProgress | ReclaimPublished

  /** A target of 0 means that no target is set. */
  datatype PlanInput = PlanInput(
    enabled: bool,
    target: int,
    current: int,
    minimum: int,
    maximum: int,
    policyNever: bool,
    inPlaceSupported: bool,
    admitted: bool,
    preempting: bool,
    published: bool,
    state: ResizeState,
    constrained: bool)

  datatype Plan = Plan(kind: PlanKind, reclaim: int, workers: int)

  function EvaluateShrink(x: PlanInput, count: int): Plan {
    if x.policyNever then Plan(ShrinkViaRelaunch, 0, x.target)
    else if x.inPlaceSupported then Plan(ShrinkInPlace, count, x.target)
    else Plan(ShrinkViaRelaunch, 0, x.target)
  }

  function EvaluatePlan(x: PlanInput): (p: Plan)
    ensures p.kind == ShrinkInPlace <==> p.reclaim != 0
    ensures p.kind.ShrinkInPlace? || p.kind.ShrinkViaRelaunch? ==> x.minimum <= x.target < x.current
    ensures p.kind.GrowViaRelaunch? ==> x.current < x.target && (x.maximum > 0 ==> x.target <= x.maximum)
    ensures p.kind.ShrinkInPlace? || Relaunches(p.kind) ==> x.admitted && !x.published && x.state != InProgress
    ensures p.kind.ShrinkInPlace? ==> p.workers + p.reclaim == x.current && p.workers >= x.minimum
  {
    if !x.enabled then Plan(NoResize, 0, x.current)
    else if !x.admitted then
      Plan(if x.target != 0 && x.target != x.current then ResizeBlocked else NoResize, 0, x.current)
    else if x.preempting then Plan(ResizeBlocked, 0, x.current)
    else if x.target == 0 || x.target == x.current then Plan(NoResize, 0, x.current)
    else if x.target < x.minimum then Plan(ResizeBlocked, 0, x.current)
    else if x.maximum > 0 && x.target > x.maximum then Plan(ResizeBlocked, 0, x.current)
    else if x.published then Plan(ReclaimPublished, 0, x.target)
    else if x.state == InProgress then Plan(ResizeInProgress, 0, x.target)
    else if x.constrained then Plan(ResizeBlocked, 0, x.current)
    else if x.target < x.current then EvaluateShrink(x, x.current - x.target)
    else Plan(GrowViaRelaunch, 0, x.target)
  }

  predicate Relaunches(k: PlanKind) {
    k.ShrinkViaRelaunch? || k.GrowViaRelaunch?
  }

  /** The planner can reason about a resize: there is a target other than the current count, and quota to go by. */
  predicate WantsResize(x: PlanInput) {
    x.enabled && x.target != 0 && x.target != x.current
  }

  predicate InBounds(x: PlanInput) {
    x.minimum <= x.target && (x.maximum > 0 ==> x.target <= x.maximum)
  }

  /** A new resize may start. */
  predicate MayStart(x: PlanInput) {
    x.admitted && !x.preempting && InBounds(x) && !x.published && x.state != InProgress && !x.constrained
  }

  /** Exactly when each kind of plan is made, independent of the order in which the planner tests. */
  lemma PlanExactly(x: PlanInput)
    ensures var k := EvaluatePlan(x).kind;
            && (k == NoResize <==> !x.enabled || ((x.target == 0 || x.target == x.current) && !(x.admitted && x.preempting)))
            && (k == ResizeBlocked <==>
                  || (!x.admitted && WantsResize(x))
                  || (x.admitted && x.enabled && x.preempting)
                  || (x.admitted && WantsResize(x) && !InBounds(x))
                  || (x.admitted && WantsResize(x) && x.constrained && !x.published && x.state != InProgress))
            && (k == ReclaimPublished <==> WantsResize(x) && x.admitted && !x.preempting && InBounds(x) && x.published)
            && (k == ResizeInProgress <==>
                  WantsResize(x) && x.admitted && !x.preempting && InBounds(x) && !x.published && x.state == InProgress)
            && (k == ShrinkInPlace <==>
                  WantsResize(x) && MayStart(x) && x.target < x.current && !x.policyNever && x.inPlaceSupported)
            && (k == ShrinkViaRelaunch <==>
                  WantsResize(x) && MayStart(x) && x.target < x.current && (x.policyNever || !x.inPlaceSupported))
            && (k == GrowViaRelaunch <==> WantsResize(x) && MayStart(x) && x.target > x.current)
            && EvaluatePlan(x).reclaim == (if k == ShrinkInPlace then x.current - x.target else 0)
            && EvaluatePlan(x).workers == (if k == NoResize || k == ResizeBlocked then x.current else x.target)
  {
  }

  // ---- Reclaim entries ----

  /** Workload.status.reclaimablePods: at most one entry per PodSet. */
  type ReclaimablePods = map<string, int>

  /** The count published for a PodSet; a missing entry counts as zero. */
  function Published(existing: ReclaimablePods, podSet: string): int {
    if podSet in existing then existing[podSet] else 0
  }

  predicate NeedsReclaimUpdate(existing: ReclaimablePods, podSet: string, count: int) {
    count != Published(existing, podSet)
  }

  /** What the server holds after the field manager applies its one entry, or none. */
  function Applied(existing: ReclaimablePods, podSet: string, count: int): ReclaimablePods {
    if count <= 0 then existing - {podSet} else existing[podSet := count]
  }

  /** Applying is skipped when it would change nothing, so that doing it again never sends a patch. */
  function Patched(existing: ReclaimablePods, podSet: string, count: int): (r: ReclaimablePods)
    ensures count >= 0 ==> Published(r, podSet) == count && !NeedsReclaimUpdate(r, podSet, count)
    ensures forall p :: p != podSet ==> (p in r <==> p in existing) && (p in existing ==> r[p] == existing[p])
  {
    if NeedsReclaimUpdate(existing, podSet, count) then Applied(existing, podSet, count) else existing
  }
}
