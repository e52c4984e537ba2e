/** The control ConfigMap through which a run is stopped exists for every run that can be stopped. */
module Controls {
  import opened Foundation
  import opened Status
  import opened Reconcile
  import opened Lifecycle

  /** A record that names a JobSet names a ConfigMap. */
  predicate Paired(r: Record) {
    r.activeJobSet.Some? ==> r.control.Some?
  }

  predicate Exists(api: Api, r: Record) {
    r.control.Some? ==> r.control.value in api.controls
  }

  /** A status update names a ConfigMap that exists, or that an earlier call of the same reconcile creates. */
  predicate ControlledAt(api: Api, ops: seq<Op>, i: nat)
    requires i < |ops|
  {
    ops[i].Persist? ==>
      && Paired(ops[i].record)
      && (Exists(api, ops[i].record) || exists k :: 0 <= k < i && ops[k] == CreateControl(ops[i].record.control.value))
  }

  predicate AllControlled(api: Api, ops: seq<Op>) {
    forall i | 0 <= i < |ops| :: ControlledAt(api, ops, i)
  }

  ghost predicate ControlInv(w: World) {
    && Paired(w.api.status) && Exists(w.api, w.api.status)
    && (w.flight.Some? ==> AllControlled(w.api, w.flight.value.todo))
  }

  lemma StopControlled(api: Api, s: Record, source: Source, in_: Inputs)
    requires s.control.Some? && s.control.value in api.controls
    ensures AllControlled(api, StopOps(api, s, source, in_))
  {
  }

  lemma CreateControlled(api: Api, a: nat, from_: string, done: Record, in_: Inputs)
    requires Paired(api.status) && Exists(api, api.status)
    requires done.control == Some(a)
    ensures AllControlled(api, CreateOps(api.status, api.spec, a, from_, done, in_))
  {
    var ops := CreateOps(api.status, api.spec, a, from_, done, in_);
    forall i | 0 <= i < |ops| ensures ControlledAt(api, ops, i) {
      if in_.createFault == NoFault && i == 2 { assert ops[0] == CreateControl(a) && ops[2] == Persist(done); }
    }
  }

  lemma RunningControlled(api: Api, in_: Inputs)
    requires Paired(api.status) && Exists(api, api.status) && ActiveExists(api)
    ensures AllControlled(api, RunningOps(api, in_))
  {
    var s := api.status;
    var running := Moved(s, Running, api.spec.generation, in_.now);
    StopControlled(api, if s == running then s else Persisted(running), Resize, in_);
  }

  /** Updates that keep the names. */
  lemma PlainControlled(api: Api, ops: seq<Op>)
    requires Paired(api.status) && Exists(api, api.status)
    requires forall i :: 0 <= i < |ops| && ops[i].Persist? ==>
      ops[i].record.control == api.status.control && ops[i].record.activeJobSet == api.status.activeJobSet
    ensures AllControlled(api, ops)
  {
    forall i | 0 <= i < |ops| ensures ControlledAt(api, ops, i) { }
  }

  lemma IdleControlled(api: Api, in_: Inputs)
    requires Paired(api.status) && Exists(api, api.status)
    ensures AllControlled(api, ResumeOps(api.status, api.spec, in_))
    ensures AllControlled(api, LaunchOps(api.status, api.spec, in_))
  {
    var s := api.status;
    var recorded := s.phase == Restoring && s.selected.Some?;
    if recorded || (!in_.selectFails && in_.choice.Some?) {
      var ref := if recorded then s.selected.value else in_.choice.value;
      var a := ResumeAttempt(s);
      CreateControlled(api, a, ref.manifestURI, Restored(s, a, ref, api.spec.generation, in_.now), in_);
    } else {
      PlainControlled(api, ResumeOps(s, api.spec, in_));
    }
    CreateControlled(api, s.attempt + 1, if s.selected.Some? then s.selected.value.manifestURI else "",
                     Started(s, s.attempt + 1, api.spec.generation, in_.now), in_);
  }

  lemma ReconcileControlled(api: Api, in_: Inputs)
    requires Paired(api.status) && Exists(api, api.status)
    ensures AllControlled(api, ReconcileOps(api, in_))
  {
    var s, sp, ops := api.status, api.spec, ReconcileOps(api, in_);
    if s.phase == NoPhase || s.observedGeneration != sp.generation || (s.activeJobSet.Some? && in_.lookupFails) {
      PlainControlled(api, ops);
    } else if RequestedStop(api).Some? {
      StopControlled(api, s, RequestedStop(api).value, in_);
    } else if !sp.desiredRunning {
      PlainControlled(api, ops);
    } else if ActiveExists(api) {
      RunningControlled(api, in_);
    } else if sp.suspended || in_.gated || in_.conflictingUpdates {
      PlainControlled(api, ops);
    } else {
      IdleControlled(api, in_);
    }
  }

  lemma CallKeepsControl(w: World)
    requires ControlInv(w) && w.flight.Some? && w.flight.value.todo != []
    ensures ControlInv(AfterCall(w))
  {
    var f, w' := w.flight.value, AfterCall(w);
    assert ControlledAt(w.api, f.todo, 0);
    if f.todo[0].Observe? {
      PlainControlled(w'.api, w'.flight.value.todo);
    } else if w'.flight.Some? {
      var rest := f.todo[1..];
      forall i | 0 <= i < |rest| ensures ControlledAt(w'.api, rest, i) {
        assert ControlledAt(w.api, f.todo, i + 1);
        if rest[i].Persist? && !Exists(w.api, rest[i].record) {
          var k :| 0 <= k < i + 1 && f.todo[k] == CreateControl(rest[i].record.control.value);
          if k > 0 { assert rest[k - 1] == f.todo[k]; }
        }
      }
    }
  }

  lemma StepKeepsControl(w: World, step: Step)
    requires ControlInv(w) && Enabled(w, step)
    ensures ControlInv(Next(w, step))
  {
    if step.Call? {
      CallKeepsControl(w);
    } else if step.Begin? {
      ReconcileControlled(w.api, step.inputs);
    } else {
      var w' := Next(w, step);
      assert w'.api.status == w.api.status && w'.api.controls == w.api.controls;
      SameControlled(w.api, w'.api, if w.flight.Some? then w.flight.value.todo else []);
    }
  }

  lemma SameControlled(api: Api, api': Api, ops: seq<Op>)
    requires AllControlled(api, ops) && api'.controls == api.controls
    ensures AllControlled(api', ops)
  {
    forall i | 0 <= i < |ops| ensures ControlledAt(api', ops, i) { assert ControlledAt(api, ops, i); }
  }

  lemma {:induction false} RunKeepsControl(w: World, steps: seq<Step>)
    requires ControlInv(w) && CanRun(w, steps)
    ensures ControlInv(Reached(w, steps))
    decreases |steps|
  {
    if steps != [] {
      StepKeepsControl(w, steps[0]);
      RunKeepsControl(Next(w, steps[0]), steps[1..]);
    }
  }

  /** In every run, a stop that can be requested finds the ConfigMap through which to pass it on. */
  lemma StopFindsItsControl(w: World, steps: seq<Step>)
    requires Init(w) && CanRun(w, steps)
    ensures var api := Reached(w, steps).api;
            RequestedStop(api).Some? ==> api.status.control.Some? && api.status.control.value in api.controls
  {
    RunKeepsControl(w, steps);
  }
}
