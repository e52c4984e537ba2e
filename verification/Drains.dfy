/** Who can finish a drain: a resize starts one, but only a stop requested by the user or by Kueue carries it on to the delete. */
module Drains {
  import opened Status
  import opened Reconcile
  import opened Lifecycle

  /** The call looks for evidence or takes a JobSet down. */
  predicate CarriesOn(op: Op) {
    op.Observe? || op.DeleteJobSet?
  }

  ghost predicate Drains(ops: seq<Op>) {
    exists i :: 0 <= i < |ops| && CarriesOn(ops[i])
  }

  lemma StopDrains(api: Api, s: Record, source: Source, in_: Inputs)
    requires s.activeJobSet.Some?
    ensures Drains(StopOps(api, s, source, in_)) <==>
            StopRecorded(s) && !in_.controlFails && s.control.value in api.controls
  {
    var ops := StopOps(api, s, source, in_);
    if StopRecorded(s) && !in_.controlFails && s.control.value in api.controls {
      assert CarriesOn(ops[1]);
    }
  }

  /** A resize verdict enters the stop flow with the run just marked Running, so it only ever records a request. */
  lemma ResizeOnlyRequests(api: Api, in_: Inputs)
    requires ActiveExists(api)
    ensures !Drains(RunningOps(api, in_))
  {
    var s := api.status;
    var running := Moved(s, Running, api.spec.generation, in_.now);
    StopDrains(api, if s == running then s else Persisted(running), Resize, in_);
  }

  lemma CreationDrainsNothing(s: Record, sp: Spec, in_: Inputs)
    ensures !Drains(ResumeOps(s, sp, in_)) && !Drains(LaunchOps(s, sp, in_))
  {
  }

  /** A reconcile carries a drain on exactly when the user or Kueue requests a stop, the stop is recorded (by whichever source
      asked for it first), the spec was seen, and neither the lookup nor the control write fails. */
  lemma DrainsExactlyWhenRequested(api: Api, in_: Inputs)
    ensures Drains(ReconcileOps(api, in_)) <==>
      && RequestedStop(api).Some? && StopRecorded(api.status)
      && api.status.observedGeneration == api.spec.generation
      && !in_.lookupFails && !in_.controlFails && api.status.control.value in api.controls
  {
    var s, sp, ops := api.status, api.spec, ReconcileOps(api, in_);
    if s.phase == NoPhase || s.observedGeneration != sp.generation || (s.activeJobSet.Some? && in_.lookupFails) {
    } else if RequestedStop(api).Some? {
      StopDrains(api, s, RequestedStop(api).value, in_);
      assert ops == StopOps(api, s, RequestedStop(api).value, in_);
    } else if !sp.desiredRunning {
      assert ops == HoldOps(s, sp, in_.now);
    } else if ActiveExists(api) {
      ResizeOnlyRequests(api, in_);
      assert ops == RunningOps(api, in_);
    } else if !sp.suspended && !in_.gated && !in_.conflictingUpdates {
      CreationDrainsNothing(s, sp, in_);
    }
  }

  // ---- Whole runs ----

  /** No reconcile of the run finds a stop requested by the user or by Kueue, and nobody else deletes JobSets. */
  ghost predicate LeftAlone(w: World, steps: seq<Step>)
    requires CanRun(w, steps)
    decreases |steps|
  {
    steps == [] ||
    (&& (steps[0].Begin? ==> RequestedStop(w.api).None?)
     && !steps[0].DeleteExternally?
     && LeftAlone(Next(w, steps[0]), steps[1..]))
  }

  ghost predicate NoDrain(w: World) {
    w.flight.Some? ==> !Drains(w.flight.value.todo)
  }

  lemma StepLeavesAlone(w: World, step: Step, a: nat)
    requires NoDrain(w) && Enabled(w, step) && !step.DeleteExternally?
    requires step.Begin? ==> RequestedStop(w.api).None?
    ensures NoDrain(Next(w, step))
    ensures IsLive(w.api, a) ==> IsLive(Next(w, step).api, a)
  {
    if step.Begin? {
      DrainsExactlyWhenRequested(w.api, step.inputs);
    } else if step.Call? {
      var todo := w.flight.value.todo;
      assert !CarriesOn(todo[0]);
      assert forall i :: 0 <= i < |todo[1..]| ==> todo[1..][i] == todo[i + 1];
    }
  }

  /** However many resize verdicts fall, as long as neither the user nor Kueue requests a stop no live JobSet is taken down: a
      drain that only a resize started never reaches the delete. */
  lemma {:induction false} ResizeAloneNeverDrains(w: World, steps: seq<Step>, a: nat)
    requires NoDrain(w) && CanRun(w, steps) && LeftAlone(w, steps)
    ensures NoDrain(Reached(w, steps))
    ensures IsLive(w.api, a) ==> IsLive(Reached(w, steps).api, a)
    decreases |steps|
  {
    if steps != [] {
      StepLeavesAlone(w, steps[0], a);
      ResizeAloneNeverDrains(Next(w, steps[0]), steps[1..], a);
    }
  }
}
