/** At most one child JobSet runs at any time, in every run of the protocol. */
module SingleRun {
  import opened Foundation
  import opened Status
  import opened Reconcile
  import opened Lifecycle

  /** The records and the JobSets agree: only the recorded attempt and its successor can be running, and
      once a successor exists the recorded attempt is down and no restore of it will be repeated. */
  ghost predicate Shape(api: Api) {
    var s := api.status;
    && s.activeJobSet == (if s.attempt == 0 then None else Some(s.attempt))
    && (forall a :: a in api.jobSets ==>
          && 1 <= a <= s.attempt + 1
          && (api.jobSets[a] == Live ==> a == s.attempt || a == s.attempt + 1))
    && (s.attempt + 1 in api.jobSets ==> !IsLive(api, s.attempt) && s.phase != Restoring)
    && (s.phase == Restoring ==> s.selected.Some? && s.attempt >= 1)
  }

  /** A call that may be made now or, as far as other steps are concerned, at any later time. */
  predicate Allowed(api: Api, op: Op) {
    var s := api.status;
    match op
    case Persist(t) =>
      && (t.phase == Restoring ==> t.selected.Some?)
      && (if t.attempt == s.attempt then
            t.activeJobSet == s.activeJobSet && (t.phase == Restoring ==> s.phase == Restoring)
          else
            t.attempt == s.attempt + 1 && t.activeJobSet == Some(t.attempt) && !IsLive(api, s.attempt))
    case CreateJobSet(a, _) =>
      if a == s.attempt then a >= 1 && s.phase == Restoring
      else a == s.attempt + 1 && !IsLive(api, s.attempt) && s.phase != Restoring
    case _ => true
  }

  predicate PlainUpdate(api: Api, op: Op) {
    op.Persist? && op.record.attempt == api.status.attempt && op.record.phase != Restoring
  }

  /** A status update is followed by at most one other plain update; a creation is followed by at most
      the update that records it. */
  predicate AllowedAt(api: Api, ops: seq<Op>, i: nat)
    requires i < |ops|
  {
    && Allowed(api, ops[i])
    && (i + 1 < |ops| && ops[i].Persist? ==>
          i + 2 == |ops| && PlainUpdate(api, ops[i]) && PlainUpdate(api, ops[i + 1]))
    && (i + 1 < |ops| && ops[i].CreateJobSet? ==>
          i + 2 == |ops| && ops[i + 1].Persist? && ops[i + 1].record.attempt <= ops[i].attempt)
  }

  predicate AllAllowed(api: Api, ops: seq<Op>) {
    forall i | 0 <= i < |ops| :: AllowedAt(api, ops, i)
  }

  ghost predicate SingleRunInv(w: World) {
    Shape(w.api) && (w.flight.Some? ==> AllAllowed(w.api, w.flight.value.todo))
  }

  lemma ObserveAllowed(api: Api, sp: Spec, id: string, at: Time, in_: Inputs)
    requires Shape(api)
    ensures AllAllowed(api, ObserveOps(api, sp, id, at, in_))
  {
  }

  lemma StopAllowed(api: Api, s: Record, source: Source, in_: Inputs)
    requires Shape(api)
    requires s.attempt == api.status.attempt && s.activeJobSet == api.status.activeJobSet
    requires s.phase == Restoring ==> api.status.phase == Restoring && s.selected.Some?
    ensures AllAllowed(api, StopOps(api, s, source, in_))
  {
  }

  lemma CreateAllowed(api: Api, a: nat, resumeFrom: string, done: Record, in_: Inputs)
    requires Shape(api)
    requires Allowed(api, CreateJobSet(a, resumeFrom)) && Allowed(api, Persist(done)) && done.attempt == a
    ensures AllAllowed(api, CreateOps(api.status, api.spec, a, resumeFrom, done, in_))
  {
  }

  lemma ResumeAllowed(api: Api, in_: Inputs)
    requires Shape(api) && !ActiveExists(api)
    ensures AllAllowed(api, ResumeOps(api.status, api.spec, in_))
  {
    var s := api.status;
    var recorded := s.phase == Restoring && s.selected.Some?;
    if recorded || (!in_.selectFails && in_.choice.Some?) {
      var ref := if recorded then s.selected.value else in_.choice.value;
      var a := ResumeAttempt(s);
      CreateAllowed(api, a, ref.manifestURI, Restored(s, a, ref, api.spec.generation, in_.now), in_);
    }
  }

  lemma PlainAllowed(api: Api, t: Record)
    requires Shape(api)
    requires t.attempt == api.status.attempt && t.activeJobSet == api.status.activeJobSet
    requires t.phase == Restoring ==> api.status.phase == Restoring && t.selected.Some?
    ensures AllAllowed(api, PersistIf(api.status, t))
  {
  }

  lemma LaunchAllowed(api: Api, in_: Inputs)
    requires Shape(api) && !ActiveExists(api) && !ShouldResume(api.status)
    ensures AllAllowed(api, LaunchOps(api.status, api.spec, in_))
  {
    var s := api.status;
    CreateAllowed(api, s.attempt + 1, if s.selected.Some? then s.selected.value.manifestURI else "",
                  Started(s, s.attempt + 1, api.spec.generation, in_.now), in_);
  }

  lemma ReconcileAllowed(api: Api, in_: Inputs)
    requires Shape(api)
    ensures AllAllowed(api, ReconcileOps(api, in_))
  {
    var s, sp := api.status, api.spec;
    PlainAllowed(api, Moved(s, Failed, sp.generation, in_.now));
    if s.phase == NoPhase || s.observedGeneration != sp.generation {
      PlainAllowed(api, Initialized(s, sp.generation, in_.now));
    } else if s.activeJobSet.Some? && in_.lookupFails {
    } else if RequestedStop(api).Some? {
      StopAllowed(api, s, RequestedStop(api).value, in_);
    } else if !sp.desiredRunning {
      PlainAllowed(api, Moved(s, Paused, sp.generation, in_.now));
      PlainAllowed(api, Moved(s, Pending, sp.generation, in_.now));
    } else if ActiveExists(api) {
      RunningAllowed(api, in_);
    } else if sp.suspended {
      PlainAllowed(api, Moved(s, Queued, sp.generation, in_.now));
    } else if in_.gated || in_.conflictingUpdates {
    } else if ShouldResume(s) {
      ResumeAllowed(api, in_);
    } else {
      LaunchAllowed(api, in_);
    }
  }

  lemma RunningAllowed(api: Api, in_: Inputs)
    requires Shape(api)
    ensures AllAllowed(api, RunningOps(api, in_))
  {
    var s := api.status;
    var running := Moved(s, Running, api.spec.generation, in_.now);
    StopAllowed(api, if s == running then s else Persisted(running), Resize, in_);
  }

  /** Steps other than calls only take JobSets down. */
  ghost predicate OnlyDown(api: Api, api': Api) {
    && api'.status == api.status
    && forall a :: a in api'.jobSets ==> a in api.jobSets && (api'.jobSets[a] == Live ==> api.jobSets[a] == Live)
  }

  lemma DownKeepsSingleRun(api: Api, api': Api, ops: seq<Op>)
    requires Shape(api) && AllAllowed(api, ops) && OnlyDown(api, api')
    ensures Shape(api') && AllAllowed(api', ops)
  {
    forall i | 0 <= i < |ops| ensures AllowedAt(api', ops, i) {
      assert AllowedAt(api, ops, i);
    }
  }

  lemma ApplyKeepsShape(api: Api, op: Op)
    requires Shape(api) && Allowed(api, op)
    ensures Shape(Apply(api, op))
  {
  }

  lemma ApplyKeepsAllowed(api: Api, ops: seq<Op>)
    requires Shape(api) && AllAllowed(api, ops) && ops != []
    ensures AllAllowed(Apply(api, ops[0]), ops[1..])
  {
    var rest := ops[1..];
    assert AllowedAt(api, ops, 0);
    forall i | 0 <= i < |rest| ensures AllowedAt(Apply(api, ops[0]), rest, i) {
      assert AllowedAt(api, ops, i + 1);
    }
  }

  /** One call keeps the shape, and leaves the remaining calls allowed. */
  lemma CallKeepsSingleRun(w: World)
    requires SingleRunInv(w)
    requires w.flight.Some? && w.flight.value.todo != []
    ensures SingleRunInv(AfterCall(w))
  {
    var f := w.flight.value;
    assert AllowedAt(w.api, f.todo, 0);
    ApplyKeepsShape(w.api, f.todo[0]);
    if f.todo[0].Observe? {
      ObserveAllowed(w.api, f.spec, f.todo[0].requestID, f.todo[0].requestedAt, f.inputs);
    } else {
      ApplyKeepsAllowed(w.api, f.todo);
    }
  }

  lemma StepKeepsSingleRun(w: World, step: Step)
    requires SingleRunInv(w) && Enabled(w, step)
    ensures SingleRunInv(Next(w, step))
  {
    match step
    case Begin(in_) => ReconcileAllowed(w.api, in_);
    case Call => CallKeepsSingleRun(w);
    case _ => DownKeepsSingleRun(w.api, Next(w, step).api, if w.flight.Some? then w.flight.value.todo else []);
  }

  lemma {:induction false} RunKeepsSingleRun(w: World, steps: seq<Step>)
    requires SingleRunInv(w) && CanRun(w, steps)
    ensures SingleRunInv(Reached(w, steps))
    decreases |steps|
  {
    if steps != [] {
      StepKeepsSingleRun(w, steps[0]);
      RunKeepsSingleRun(Next(w, steps[0]), steps[1..]);
    }
  }

  /** In every run from an initial state at most one JobSet is not being deleted, and it belongs to the
      recorded attempt or to the one after it. */
  lemma SingleLiveRun(w: World, steps: seq<Step>)
    requires Init(w) && CanRun(w, steps)
    ensures var api := Reached(w, steps).api;
            && (forall a, b :: IsLive(api, a) && IsLive(api, b) ==> a == b)
            && (forall a :: IsLive(api, a) ==> a == api.status.attempt || a == api.status.attempt + 1)
  {
    RunKeepsSingleRun(w, steps);
  }

  /** A step never lowers the recorded attempt and raises it by at most one. */
  lemma AttemptIsMonotone(w: World, step: Step)
    requires SingleRunInv(w) && Enabled(w, step)
    ensures w.api.status.attempt <= Next(w, step).api.status.attempt <= w.api.status.attempt + 1
  {
    if step.Call? {
      assert AllowedAt(w.api, w.flight.value.todo, 0);
    }
  }
}
