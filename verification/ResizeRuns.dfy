/** What holds over whole sequences of elastic reconciles, with target changes, blocks, patch failures and status
    writes that do not land. */
module ResizeRuns {
  import opened Foundation
  import opened ElasticPlan
  import opened Resize

  function Run(b: Bounds, st: State, envs: seq<Env>): State
    decreases |envs|
  {
    if envs == [] then st else Run(b, Next(b, st, envs[0]), envs[1..])
  }

  /** The state in which reconcile i of the run starts. */
  function Before(b: Bounds, st: State, envs: seq<Env>, i: nat): State
    requires i <= |envs|
  {
    Run(b, st, envs[..i])
  }

  lemma {:induction false} RunSnoc(b: Bounds, st: State, envs: seq<Env>, env: Env)
    ensures Run(b, st, envs + [env]) == Next(b, Run(b, st, envs), env)
    decreases |envs|
  {
    if envs == [] {
      assert (envs + [env])[1..] == [];
    } else {
      assert (envs + [env])[1..] == envs[1..] + [env];
      RunSnoc(b, Next(b, st, envs[0]), envs[1..], env);
    }
  }

  lemma BeforeNext(b: Bounds, st: State, envs: seq<Env>, i: nat)
    requires i < |envs|
    ensures Before(b, st, envs, i + 1) == Next(b, Before(b, st, envs, i), envs[i])
  {
    assert envs[..i + 1] == envs[..i] + [envs[i]];
    RunSnoc(b, st, envs[..i], envs[i]);
  }

  // ---- Reclaim safety ----

  /** What is published leaves at least the minimum of the current workers. */
  predicate Safe(b: Bounds, st: State) {
    b.podSet in st.pods ==> 0 < st.pods[b.podSet] <= Current(b, st.es) - b.minimum
  }

  /** Nothing but planning writes the admitted count, and planning writes back what it read. */
  lemma CurrentIsConstant(b: Bounds, st: State, env: Env)
    ensures Current(b, Next(b, st, env).es) == Current(b, st.es)
  {
  }

  lemma {:induction false} CurrentOverRuns(b: Bounds, st: State, envs: seq<Env>)
    ensures Current(b, Run(b, st, envs).es) == Current(b, st.es)
    decreases |envs|
  {
    if envs != [] {
      CurrentIsConstant(b, st, envs[0]);
      CurrentOverRuns(b, Next(b, st, envs[0]), envs[1..]);
    }
  }

  lemma StepKeepsSafe(b: Bounds, st: State, env: Env)
    requires Safe(b, st)
    ensures Safe(b, Next(b, st, env))
    ensures forall p :: p != b.podSet ==>
      (p in Next(b, st, env).pods <==> p in st.pods) && (p in st.pods ==> Next(b, st, env).pods[p] == st.pods[p])
  {
    CurrentIsConstant(b, st, env);
  }

  /** In every run, and so after every reconcile of it, the published count lies between zero and current minus
      minimum, where current is the count the run started with; no other PodSet's entry is touched. */
  lemma {:induction false} ReclaimSafety(b: Bounds, st: State, envs: seq<Env>)
    requires Safe(b, st)
    ensures var end := Run(b, st, envs);
            && Current(b, end.es) == Current(b, st.es)
            && 0 <= Published(end.pods, b.podSet)
            && (b.podSet in end.pods ==> Current(b, st.es) - Published(end.pods, b.podSet) >= b.minimum)
            && (forall p :: p != b.podSet ==> (p in end.pods <==> p in st.pods) && (p in st.pods ==> end.pods[p] == st.pods[p]))
    decreases |envs|
  {
    if envs != [] {
      StepKeepsSafe(b, st, envs[0]);
      CurrentIsConstant(b, st, envs[0]);
      ReclaimSafety(b, Next(b, st, envs[0]), envs[1..]);
    }
  }

  const NEW_STATE := State(NEW_ELASTICITY, map[])

  /** A job that never had an elasticity status counts from its preferred count, so that at least the minimum remains,
      whatever the runtime reports on the way. */
  lemma FreshJobKeepsMinimum(b: Bounds, envs: seq<Env>)
    requires b.minimum <= b.preferred
    ensures var c := Published(Run(b, NEW_STATE, envs).pods, b.podSet);
            0 <= c <= b.preferred - b.minimum
  {
    ReclaimSafety(b, NEW_STATE, envs);
  }

  /** The bound is reached: once the runtime reports that it can shrink in place, a new job whose target is within bounds
      publishes the whole difference, in one reconcile. */
  lemma FreshJobPublishes(b: Bounds, env: Env)
    requires 0 < b.minimum <= env.target < b.preferred
    requires env.reports == Some(true) && env.enabled && env.admitted && !env.preempting
    requires !env.policyNever && !env.patchFails
    ensures Published(Next(b, NEW_STATE, env).pods, b.podSet) == b.preferred - env.target
  {
  }

  /** What the runtime last reported before the end of the run, if anything. */
  function LastReport(envs: seq<Env>): Option<bool>
    decreases |envs|
  {
    if envs == [] then None
    else if envs[|envs| - 1].reports.Some? then envs[|envs| - 1].reports
    else LastReport(envs[..|envs| - 1])
  }

  /** The recorded capability is the last report, or what it was at first; the controller never sets it. */
  lemma {:induction false} CapabilityIsReported(b: Bounds, st: State, envs: seq<Env>)
    ensures Run(b, st, envs).es.inPlaceSupported ==
            if LastReport(envs).Some? then LastReport(envs).value else st.es.inPlaceSupported
    decreases |envs|
  {
    if envs != [] {
      var front, env := envs[..|envs| - 1], envs[|envs| - 1];
      assert envs == front + [env];
      RunSnoc(b, st, front, env);
      CapabilityIsReported(b, st, front);
    }
  }

  /** So, as written, a new job publishes only in a reconcile up to which the last report was that it can... */
  lemma FreshJobPublishesOnlyAfterReport(b: Bounds, envs: seq<Env>, i: nat)
    requires i < |envs| && Publishes(b, Before(b, NEW_STATE, envs, i), envs[i])
    ensures LastReport(envs[..i + 1]) == Some(true)
  {
    assert envs[..i + 1][..i] == envs[..i];
    CapabilityIsReported(b, NEW_STATE, envs[..i]);
  }

  /** ...and without such a report it never puts an entry on its Workload. */
  lemma {:induction false} SilentRuntimePublishesNothing(b: Bounds, envs: seq<Env>)
    requires forall i :: 0 <= i < |envs| ==> envs[i].reports != Some(true)
    ensures Run(b, NEW_STATE, envs).pods == map[] && !Run(b, NEW_STATE, envs).es.inPlaceSupported
    decreases |envs|
  {
    if envs != [] {
      var front, env := envs[..|envs| - 1], envs[|envs| - 1];
      assert envs == front + [env];
      RunSnoc(b, NEW_STATE, front, env);
      SilentRuntimePublishesNothing(b, front);
    }
  }

  // ---- A status write that does not land ----

  /** The later reconcile meets what the earlier one met, and no other report. */
  predicate SamePlanning(x: Env, y: Env) {
    && x.(reports := None, patchFails := false, persists := false) == y.(reports := None, patchFails := false, persists := false)
    && (y.reports.None? || y.reports == x.reports)
  }

  /** Carrying a plan out on a Workload that it was already carried out on changes nothing there. */
  lemma ExecutedTwice(b: Bounds, es: Elasticity, pods: ReclaimablePods, p: Plan, fails: bool)
    ensures var once := Executed(b, State(es, pods), p, false);
            && Executed(b, State(es, once.pods), p, fails).pods == once.pods
            && Executed(b, State(es, once.pods), p, false) == once
  {
  }

  lemma RepeatReadsTheSame(b: Bounds, st: State, crashed: Env, again: Env)
    requires !crashed.persists && SamePlanning(crashed, again)
    ensures Entering(Next(b, st, crashed).es, again) == Entering(st.es, crashed)
    ensures Reported(Next(b, st, crashed).es, again) == Reported(st.es, crashed)
    ensures BuildInput(b, Entering(st.es, crashed), again) == BuildInput(b, Entering(st.es, crashed), crashed)
  {
  }

  /** When the Workload patch landed and the status write did not, repeating the reconcile finds the same plan and
      sends no second patch; once its own write lands, the outcome is that of an undisturbed reconcile. */
  lemma RepeatSendsNoPatch(b: Bounds, st: State, crashed: Env, again: Env)
    requires !crashed.persists && !crashed.patchFails && SamePlanning(crashed, again)
    ensures var mid := Next(b, st, crashed);
            && PlanFor(b, mid.es, again) == PlanFor(b, st.es, crashed)
            && Next(b, mid, again).pods == mid.pods
            && (again.persists && !again.patchFails ==> Next(b, mid, again) == Next(b, st, crashed.(persists := true)))
  {
    RepeatReadsTheSame(b, st, crashed, again);
    var es := Entering(st.es, crashed);
    var x := BuildInput(b, es, crashed);
    var p := EvaluatePlan(x);
    ExecutedTwice(b, Synced(es, p, x), st.pods, p, again.patchFails);
  }

  // ---- At most once ----

  /** Reconcile i triggers a relaunch. */
  predicate Triggers(b: Bounds, st: State, env: Env) {
    env.enabled && Relaunches(PlanFor(b, st.es, env).kind)
  }

  /** Reconcile i publishes reclaimable pods. */
  predicate Publishes(b: Bounds, st: State, env: Env) {
    env.enabled && PlanFor(b, st.es, env).kind.ShrinkInPlace? && !env.patchFails
  }

  predicate Plans(b: Bounds, st: State, env: Env, k: PlanKind) {
    env.enabled && PlanFor(b, st.es, env).kind == k
  }

  /** A recorded reconcile that planned nothing or found the resize blocked. */
  predicate Resets(b: Bounds, st: State, env: Env) {
    env.persists && (Plans(b, st, env, NoResize) || Plans(b, st, env, ResizeBlocked))
  }

  /** A relaunch under way: only a completion, a NoResize or a Blocked ends it. */
  predicate UnderWay(es: Elasticity) {
    es.state == InProgress && !es.published
  }

  lemma TriggerStarts(b: Bounds, st: State, env: Env)
    requires Triggers(b, st, env) && env.persists
    ensures UnderWay(Next(b, st, env).es)
  {
  }

  lemma UnderWayHolds(b: Bounds, st: State, env: Env)
    requires UnderWay(st.es) && !Completes(st.es, env) && !Resets(b, st, env)
    ensures UnderWay(Next(b, st, env).es) && !Triggers(b, st, env)
  {
  }

  lemma {:induction false} UnderWayUntil(b: Bounds, st: State, envs: seq<Env>, i: nat, j: nat)
    requires i <= j < |envs| && UnderWay(Before(b, st, envs, i).es)
    requires forall k :: i <= k <= j ==> !Completes(Before(b, st, envs, k).es, envs[k])
    requires forall k :: i <= k < j ==> !Resets(b, Before(b, st, envs, k), envs[k])
    ensures UnderWay(Before(b, st, envs, j).es) && !Triggers(b, Before(b, st, envs, j), envs[j])
    decreases j - i
  {
    if i < j {
      UnderWayHolds(b, Before(b, st, envs, i), envs[i]);
      BeforeNext(b, st, envs, i);
      UnderWayUntil(b, st, envs, i + 1, j);
    }
  }

  /** Between a recorded relaunch trigger and the next trigger lies a completion (possibly within the later
      reconcile, which completes before it plans), or a recorded NoResize or Blocked. */
  lemma RelaunchAtMostOnce(b: Bounds, st: State, envs: seq<Env>, i: nat, j: nat)
    requires i < j < |envs|
    requires Triggers(b, Before(b, st, envs, i), envs[i]) && envs[i].persists
    requires Triggers(b, Before(b, st, envs, j), envs[j])
    ensures (exists k :: i < k <= j && Completes(Before(b, st, envs, k).es, envs[k])) ||
            (exists k :: i < k < j && Resets(b, Before(b, st, envs, k), envs[k]))
  {
    TriggerStarts(b, Before(b, st, envs, i), envs[i]);
    BeforeNext(b, st, envs, i);
    if forall k :: i < k <= j ==> !Completes(Before(b, st, envs, k).es, envs[k]) {
      if forall k :: i < k < j ==> !Resets(b, Before(b, st, envs, k), envs[k]) {
        UnderWayUntil(b, st, envs, i + 1, j);
      }
    }
  }

  lemma PublishedHolds(b: Bounds, st: State, env: Env)
    requires st.es.published && !(env.persists && Plans(b, st, env, NoResize))
    ensures Next(b, st, env).es.published && !Publishes(b, st, env) && !Triggers(b, st, env)
  {
  }

  lemma {:induction false} PublishedUntil(b: Bounds, st: State, envs: seq<Env>, i: nat, j: nat)
    requires i <= j < |envs| && Before(b, st, envs, i).es.published
    requires forall k :: i <= k < j ==> !(envs[k].persists && Plans(b, Before(b, st, envs, k), envs[k], NoResize))
    ensures Before(b, st, envs, j).es.published
    decreases j - i
  {
    if i < j {
      PublishedHolds(b, Before(b, st, envs, i), envs[i]);
      BeforeNext(b, st, envs, i);
      PublishedUntil(b, st, envs, i + 1, j);
    }
  }

  /** Between a recorded in-place publication and the next resize action of either kind lies a recorded NoResize. */
  lemma PublishAtMostOnce(b: Bounds, st: State, envs: seq<Env>, i: nat, j: nat)
    requires i < j < |envs|
    requires Publishes(b, Before(b, st, envs, i), envs[i]) && envs[i].persists
    requires Publishes(b, Before(b, st, envs, j), envs[j]) || Triggers(b, Before(b, st, envs, j), envs[j])
    ensures exists k :: i < k < j && envs[k].persists && Plans(b, Before(b, st, envs, k), envs[k], NoResize)
  {
    BeforeNext(b, st, envs, i);
    if forall k :: i < k < j ==> !(envs[k].persists && Plans(b, Before(b, st, envs, k), envs[k], NoResize)) {
      PublishedUntil(b, st, envs, i + 1, j);
    }
  }

  // ---- What the loop does not do ----

  /** A recorded reconcile that erases the path which a completion looks for: one that plans, or that completes. */
  predicate Erases(st: State, env: Env) {
    env.persists && (env.enabled || Completes(st.es, env))
  }

  /** Reconcile i is a recorded trigger, and nothing recorded since then and before j erases its path. */
  predicate StandsUntil(b: Bounds, st: State, envs: seq<Env>, i: int, j: nat)
    requires j <= |envs|
  {
    && 0 <= i < j && envs[i].persists && Triggers(b, Before(b, st, envs, i), envs[i])
    && forall k :: i < k < j ==> !Erases(Before(b, st, envs, k), envs[k])
  }

  lemma {:induction false} TriggerStands(b: Bounds, st: State, envs: seq<Env>, i: nat, j: nat)
    requires j <= |envs| && StandsUntil(b, st, envs, i, j)
    ensures ResizeTriggeredStop(Before(b, st, envs, j).es)
    decreases j
  {
    BeforeNext(b, st, envs, j - 1);
    if i < j - 1 {
      TriggerStands(b, st, envs, i, j - 1);
      assert !Erases(Before(b, st, envs, j - 1), envs[j - 1]);
    }
  }

  lemma {:induction false} StandingTrigger(b: Bounds, st: State, envs: seq<Env>, j: nat) returns (i: nat)
    requires 0 < j <= |envs| && !ResizeTriggeredStop(st.es)
    requires ResizeTriggeredStop(Before(b, st, envs, j).es)
    ensures StandsUntil(b, st, envs, i, j)
    decreases j
  {
    assert envs[..0] == [];
    BeforeNext(b, st, envs, j - 1);
    if envs[j - 1].persists && envs[j - 1].enabled {
      i := j - 1;
    } else {
      i := StandingTrigger(b, st, envs, j - 1);
    }
  }

  /** A reconcile completes a relaunch exactly when the run has just been restored and a recorded trigger still stands:
      any recorded planning or completion in between erases the path that is looked for. */
  lemma CompletesExactlyAfterTrigger(b: Bounds, st: State, envs: seq<Env>, j: nat)
    requires j < |envs| && !ResizeTriggeredStop(st.es)
    ensures Completes(Before(b, st, envs, j).es, envs[j]) <==>
            envs[j].wasRestoring && exists i :: StandsUntil(b, st, envs, i, j)
  {
    assert envs[..0] == [];
    if Completes(Before(b, st, envs, j).es, envs[j]) {
      var i := StandingTrigger(b, st, envs, j);
    }
    if i :| StandsUntil(b, st, envs, i, j) {
      TriggerStands(b, st, envs, i, j);
    }
  }

  /** The admitted count never follows a relaunch, so a reconcile that completes one acts on the same target again, exactly
      when there is quota, no preemption, nothing published, and the target is another one than the admitted count and
      within bounds; it relaunches again exactly when shrinking in place is ruled out besides. */
  lemma CompletionActsAgainExactly(b: Bounds, st: State, env: Env)
    requires Completes(st.es, env) && env.enabled
    ensures var acts := env.admitted && !env.preempting && !st.es.published &&
                        env.target != 0 && env.target != Current(b, st.es) &&
                        b.minimum <= env.target && (b.preferred > 0 ==> env.target <= b.preferred);
            var inPlace := env.target < Current(b, st.es) && !env.policyNever && Reported(st.es, env).inPlaceSupported;
            && (Triggers(b, st, env) <==> acts && !inPlace)
            && (Plans(b, st, env, ShrinkInPlace) <==> acts && inPlace)
  {
    PlanExactly(BuildInput(b, Entering(st.es, env), env));
  }

  /** For the same reason a job is grown in some run exactly when it starts below a preferred count that meets the minimum. */
  lemma GrowsExactlyBelowPreferred(b: Bounds, st: State)
    requires b.preferred > 0
    ensures (exists envs, env :: Plans(b, Run(b, st, envs), env, GrowViaRelaunch)) <==>
            Current(b, st.es) < b.preferred && b.minimum <= b.preferred
  {
    if envs, env :| Plans(b, Run(b, st, envs), env, GrowViaRelaunch) {
      CurrentOverRuns(b, st, envs);
    }
    if Current(b, st.es) < b.preferred && b.minimum <= b.preferred {
      var idle := Env(None, true, 0, false, true, false, false, false, true);
      var grow := idle.(target := b.preferred);
      var mid := Next(b, st, idle);
      assert [idle][1..] == [] && Run(b, mid, []) == mid;
      assert Run(b, st, [idle]) == mid;
      CurrentIsConstant(b, st, idle);
      assert Plans(b, Run(b, st, [idle]), grow, GrowViaRelaunch);
    }
  }

  /** So a job that starts at its preferred count is never grown. */
  lemma FreshJobNeverGrows(b: Bounds, envs: seq<Env>, env: Env)
    requires b.preferred > 0
    ensures !Plans(b, Run(b, NEW_STATE, envs), env, GrowViaRelaunch)
  {
    GrowsExactlyBelowPreferred(b, NEW_STATE);
  }

  // ---- One reconcile ----

  /** When each plan is made, in the fields of status, spec and Workload. */
  lemma PlansExactly(b: Bounds, st: State, env: Env)
    requires env.enabled
    ensures var current := if st.es.admitted > 0 then st.es.admitted else b.preferred;
            var able := if env.reports.Some? then env.reports.value else st.es.inPlaceSupported;
            var busy := st.es.state == InProgress && !(env.wasRestoring && st.es.path == CheckpointAndRelaunch);
            var wants := env.target != 0 && env.target != current;
            var fits := b.minimum <= env.target && (b.preferred > 0 ==> env.target <= b.preferred);
            var goes := wants && fits && env.admitted && !env.preempting;
            var inPlace := env.target < current && !env.policyNever && able;
            && (Plans(b, st, env, NoResize) <==> !wants && !(env.admitted && env.preempting))
            && (Plans(b, st, env, ResizeBlocked) <==>
                  (!env.admitted && wants) || (env.admitted && env.preempting) || (env.admitted && wants && !fits))
            && (Plans(b, st, env, ReclaimPublished) <==> goes && st.es.published)
            && (Plans(b, st, env, ResizeInProgress) <==> goes && !st.es.published && busy)
            && (Plans(b, st, env, ShrinkInPlace) <==> goes && !st.es.published && !busy && inPlace)
            && (Triggers(b, st, env) <==> goes && !st.es.published && !busy && !inPlace)
  {
    PlanExactly(BuildInput(b, Entering(st.es, env), env));
  }

  /** What a recorded reconcile leaves in status.elasticity and on the Workload, for each kind of plan. */
  lemma ReconcileExactly(b: Bounds, st: State, env: Env)
    requires env.persists && env.enabled
    ensures var es, pods, was := Next(b, st, env).es, Next(b, st, env).pods, Entering(st.es, env);
            var current := if st.es.admitted > 0 then st.es.admitted else b.preferred;
            && es.desired == b.preferred && es.admitted == current && es.target == env.target
            && es.inPlaceSupported == Reported(st.es, env).inPlaceSupported
            && (Plans(b, st, env, NoResize) ==>
                  es.state == Idle && es.path == NoPath && !es.published && es.reclaimable == 0 && pods == st.pods)
            && (Plans(b, st, env, ResizeBlocked) ==>
                  es.state == Blocked && es.path == NoPath && es.published == st.es.published && es.reclaimable == 0 && pods == st.pods)
            && (Plans(b, st, env, ResizeInProgress) ==>
                  es.state == InProgress && es.path == NoPath && !es.published && es.reclaimable == 0 && pods == st.pods)
            && (Plans(b, st, env, ReclaimPublished) ==>
                  es.state == InProgress && es.path == InPlace && es.published && es.reclaimable == 0 && pods == st.pods)
            && (Triggers(b, st, env) ==>
                  && es.state == InProgress && es.path == CheckpointAndRelaunch && !es.published && es.reclaimable == 0
                  && (if env.patchFails then pods == st.pods else Published(pods, b.podSet) == 0))
            && (Plans(b, st, env, ShrinkInPlace) ==>
                  && es.path == InPlace && es.reclaimable == current - env.target
                  && (if env.patchFails then es.state == Pending && !es.published && pods == st.pods
                      else es.state == InProgress && es.published && Published(pods, b.podSet) == current - env.target))
  {
    PlanExactly(BuildInput(b, Entering(st.es, env), env));
  }

  /** Without an elasticity section only a finished relaunch is recorded. */
  lemma DisabledExactly(b: Bounds, st: State, env: Env)
    requires env.persists && !env.enabled
    ensures Next(b, st, env).pods == st.pods
    ensures var read := Reported(st.es, env);
            Next(b, st, env).es == if env.wasRestoring && st.es.state == InProgress && st.es.path == CheckpointAndRelaunch
                                   then read.(state := Completed, path := NoPath) else read
  {
  }
}
