/** What one completed reconcile does, case by case, stated on the API states before and after it and on the job's own fields. */
module Outcomes {
  import opened Foundation
  import opened Checkpoints
  import opened Catalog
  import opened Status
  import opened Reconcile

  /** API calls that every reconcile completes within. */
  const ENOUGH: nat := 3

  // ---- The conditions ----

  predicate JobSetIsLive(api: Api) {
    && api.status.activeJobSet.Some? && api.status.activeJobSet.value in api.jobSets
    && api.jobSets[api.status.activeJobSet.value] == Live
  }

  /** The reconcile gets past initialization and past the lookup of the JobSet. */
  predicate Underway(api: Api, in_: Inputs) {
    && api.status.phase != NoPhase && api.status.observedGeneration == api.spec.generation
    && !(api.status.activeJobSet.Some? && in_.lookupFails)
  }

  predicate StopAsked(api: Api) {
    JobSetIsLive(api) && (api.spec.suspended || !api.spec.desiredRunning)
  }

  predicate StopIsRecorded(s: Record) {
    s.pauseRequest != "" && s.control.Some? && (s.phase == YieldRequested || s.phase == Status.Draining)
  }

  predicate RestoreRecorded(s: Record) {
    s.phase == Restoring && s.selected.Some?
  }

  predicate Resumes(s: Record) {
    RestoreRecorded(s) || (s.lastCompleted.Some? && (s.phase == Paused || s.phase == Queued))
  }

  /** The job is wanted running, Kueue has admitted it, and nothing runs. */
  predicate Idle(api: Api, in_: Inputs) {
    Underway(api, in_) && api.spec.desiredRunning && !api.spec.suspended && !JobSetIsLive(api)
  }

  predicate ClearToLaunch(api: Api, in_: Inputs) {
    Idle(api, in_) && !in_.gated && !in_.conflictingUpdates
  }

  /** A job that resumes needs a checkpoint: the recorded one, or the one the catalog chose. */
  predicate MayLaunch(api: Api, in_: Inputs) {
    ClearToLaunch(api, in_) &&
    (Resumes(api.status) ==> RestoreRecorded(api.status) || (!in_.selectFails && in_.choice.Some?))
  }

  function LaunchAttempt(s: Record): nat {
    if RestoreRecorded(s) && s.activeJobSet.Some? then (if s.attempt < 1 then 1 else s.attempt) else s.attempt + 1
  }

  /** The manifest to restore from: the recorded selection of a restore, the catalog's choice, or for a plain launch whatever
      is selected. */
  function LaunchManifest(s: Record, in_: Inputs): string
    requires Resumes(s) && !RestoreRecorded(s) ==> in_.choice.Some?
  {
    if Resumes(s) && !RestoreRecorded(s) then in_.choice.value.manifestURI
    else if s.selected.Some? then s.selected.value.manifestURI
    else ""
  }

  /** Nothing changes but the phase, and the generation is observed. */
  predicate OnlyPhase(api: Api, after: Api, p: Phase) {
    after == api.(status := api.status.(phase := p, observedGeneration := api.spec.generation))
  }

  // ---- One update ----

  lemma OneUpdate(api: Api, t: Record, in_: Inputs, calls: nat)
    requires calls >= 1 && Persisted(api.status) == api.status
    ensures RunOps(api, PersistIf(api.status, t), in_, calls) == api.(status := Persisted(t))
    ensures RunOps(api, [Persist(t)], in_, calls) == api.(status := Persisted(t))
  {
    RunFirst(api, Persist(t), [], in_, calls);
  }

  lemma Failing(api: Api, in_: Inputs, calls: nat)
    requires calls >= 1 && Persisted(api.status) == api.status
    ensures OnlyPhase(api, RunOps(api, Fail(api.status, api.spec, in_.now), in_, calls), Failed)
  {
    OneUpdate(api, Moved(api.status, Failed, api.spec.generation, in_.now), in_, calls);
  }

  // ---- Without a run to stop ----

  /** A new job becomes pending, an edited one has its generation observed, and that is all. */
  lemma InitializationOutcome(api: Api, in_: Inputs, calls: nat)
    requires calls >= ENOUGH && Persisted(api.status) == api.status
    requires api.status.phase == NoPhase || api.status.observedGeneration != api.spec.generation
    ensures OnlyPhase(api, Reconciled(api, in_, calls), if api.status.phase == NoPhase then Pending else api.status.phase)
  {
    OneUpdate(api, Initialized(api.status, api.spec.generation, in_.now), in_, calls);
  }

  /** The phase that is left when no run is stopped and none is launched. */
  lemma RestingOutcome(api: Api, in_: Inputs, calls: nat)
    requires calls >= ENOUGH && Persisted(api.status) == api.status
    ensures var s, after := api.status, Reconciled(api, in_, calls);
            var seen := s.phase != NoPhase && s.observedGeneration == api.spec.generation;
            && (seen && s.activeJobSet.Some? && in_.lookupFails ==> OnlyPhase(api, after, Failed))
            && (Underway(api, in_) && !JobSetIsLive(api) && !api.spec.desiredRunning ==>
                  OnlyPhase(api, after, if s.lastCompleted.Some? && s.pauseRequest != "" then Paused
                                        else if s.phase == Failed then Failed else Pending))
            && (Underway(api, in_) && JobSetIsLive(api) && !StopAsked(api) && !in_.resizeTriggered ==>
                  OnlyPhase(api, after, Running))
            && (Underway(api, in_) && !JobSetIsLive(api) && api.spec.desiredRunning && api.spec.suspended ==>
                  OnlyPhase(api, after, Queued))
            && (Idle(api, in_) && in_.gated ==> after == api)
            && (Idle(api, in_) && !in_.gated && in_.conflictingUpdates ==> OnlyPhase(api, after, Failed))
            && (ClearToLaunch(api, in_) && !MayLaunch(api, in_) ==> OnlyPhase(api, after, Failed))
  {
    var s, sp := api.status, api.spec;
    Failing(api, in_, calls);
    OneUpdate(api, Moved(s, Paused, sp.generation, in_.now), in_, calls);
    OneUpdate(api, Moved(s, Pending, sp.generation, in_.now), in_, calls);
    OneUpdate(api, Moved(s, Queued, sp.generation, in_.now), in_, calls);
    OneUpdate(api, Moved(s, Running, sp.generation, in_.now), in_, calls);
  }

  /** A resize verdict records a request made now, under the old id if there is one, and does nothing else. */
  lemma ResizeOutcome(api: Api, in_: Inputs, calls: nat)
    requires calls >= ENOUGH && Persisted(api.status) == api.status
    requires Underway(api, in_) && JobSetIsLive(api) && !StopAsked(api) && in_.resizeTriggered
    ensures var s := api.status;
            Reconciled(api, in_, calls) == api.(status := s.(
              phase := YieldRequested, observedGeneration := api.spec.generation, yieldRequestedAt := Some(Stored(in_.now)),
              pauseRequest := if s.pauseRequest == "" then RequestID(Resize, s.attempt, api.spec.generation) else s.pauseRequest,
              control := if s.control.None? then Some(s.attempt) else s.control))
  {
    var s, sp := api.status, api.spec;
    var running := Moved(s, Running, sp.generation, in_.now);
    var u := EnsureStop(running, sp, Resize, in_.now);
    if s == running {
      assert [] + [Persist(u)] == [Persist(u)];
      OneUpdate(api, u, in_, calls);
    } else {
      RunFirst(api, Persist(running), [Persist(u)], in_, calls);
      OneUpdate(Apply(api, Persist(running)), u, in_, calls - 1);
    }
  }

  // ---- Launches ----

  lemma CreateCalls(api: Api, a: nat, from_: string, done: Record, in_: Inputs, calls: nat)
    requires calls >= ENOUGH && Persisted(api.status) == api.status
    ensures var after := RunOps(api, CreateOps(api.status, api.spec, a, from_, done, in_), in_, calls);
            var controlled := Apply(api, CreateControl(a));
            match in_.createFault
            case NoFault => after == Apply(controlled, CreateJobSet(a, from_)).(status := Persisted(done))
            case ControlFault => OnlyPhase(api, after, Failed)
            case JobSetFault => OnlyPhase(controlled, after, Failed)
  {
    var s, sp := api.status, api.spec;
    Failing(api, in_, calls);
    var controlled := Apply(api, CreateControl(a));
    if in_.createFault == NoFault {
      var rest := PersistIf(s, done);
      assert [CreateControl(a), CreateJobSet(a, from_)] + rest == [CreateControl(a)] + ([CreateJobSet(a, from_)] + rest);
      RunFirst(api, CreateControl(a), [CreateJobSet(a, from_)] + rest, in_, calls);
      RunFirst(controlled, CreateJobSet(a, from_), rest, in_, calls - 1);
      OneUpdate(Apply(controlled, CreateJobSet(a, from_)), done, in_, calls - 2);
    } else if in_.createFault == JobSetFault {
      RunFirst(api, CreateControl(a), Fail(s, sp, in_.now), in_, calls);
      Failing(controlled, in_, calls - 1);
    }
  }

  /** The record that a launch ends with. */
  function LaunchRecord(s: Record, sp: Spec, in_: Inputs): Record
    requires Resumes(s) && !RestoreRecorded(s) ==> in_.choice.Some?
  {
    var a := LaunchAttempt(s);
    if !Resumes(s) then Started(s, a, sp.generation, in_.now)
    else Restored(s, a, if RestoreRecorded(s) then s.selected.value else in_.choice.value, sp.generation, in_.now)
  }

  lemma LaunchIsCreation(api: Api, in_: Inputs)
    requires MayLaunch(api, in_)
    ensures var s := api.status;
            ReconcileOps(api, in_) ==
            CreateOps(s, api.spec, LaunchAttempt(s), LaunchManifest(s, in_), LaunchRecord(s, api.spec, in_), in_)
  {
  }

  lemma LaunchCalls(api: Api, in_: Inputs, calls: nat)
    requires calls >= ENOUGH && Persisted(api.status) == api.status && MayLaunch(api, in_)
    ensures var a, from_ := LaunchAttempt(api.status), LaunchManifest(api.status, in_);
            var after, controlled := Reconciled(api, in_, calls), Apply(api, CreateControl(a));
            match in_.createFault
            case NoFault => after == Apply(controlled, CreateJobSet(a, from_)).(status := Persisted(LaunchRecord(api.status, api.spec, in_)))
            case ControlFault => OnlyPhase(api, after, Failed)
            case JobSetFault => OnlyPhase(controlled, after, Failed)
  {
    var s := api.status;
    LaunchIsCreation(api, in_);
    CreateCalls(api, LaunchAttempt(s), LaunchManifest(s, in_), LaunchRecord(s, api.spec, in_), in_, calls);
  }

  /** A launch creates the control ConfigMap and the JobSet of its attempt, tells the JobSet its manifest, and records attempt,
      names and phase; a resumed job then selects that manifest and has no stop request, another one keeps both. */
  lemma LaunchOutcome(api: Api, in_: Inputs, calls: nat)
    requires calls >= ENOUGH && Persisted(api.status) == api.status
    requires MayLaunch(api, in_) && in_.createFault == NoFault
    ensures var s, after, a := api.status, Reconciled(api, in_, calls), LaunchAttempt(api.status);
            var from_, resumes := LaunchManifest(s, in_), Resumes(s);
            && after.jobSets == (if a in api.jobSets then api.jobSets else api.jobSets[a := Live])
            && after.restoresFrom == (if a in api.jobSets then api.restoresFrom else api.restoresFrom[a := from_])
            && after.controls == (if a in api.controls then api.controls else api.controls[a := ControlRunning])
            && after.spec == api.spec && after.store == api.store
            && after.status == s.(attempt := a, activeJobSet := Some(a), control := Some(a), observedGeneration := api.spec.generation,
                                  phase := if resumes then Restoring else Starting,
                                  pauseRequest := if resumes then "" else s.pauseRequest,
                                  selected := after.status.selected)
            && (resumes ==> after.status.selected.Some? && after.status.selected.value.manifestURI == from_)
            && (!resumes ==> after.status.selected == s.selected)
  {
    LaunchCalls(api, in_, calls);
  }

  /** A launch that cannot create its objects fails, and leaves a ConfigMap behind only if that was not what failed. */
  lemma FaultyLaunchOutcome(api: Api, in_: Inputs, calls: nat)
    requires calls >= ENOUGH && Persisted(api.status) == api.status
    requires MayLaunch(api, in_) && in_.createFault != NoFault
    ensures var after, a := Reconciled(api, in_, calls), LaunchAttempt(api.status);
            && OnlyPhase(api.(controls := after.controls), after, Failed)
            && after.controls == (if in_.createFault == ControlFault || a in api.controls then api.controls
                                  else api.controls[a := ControlRunning])
  {
    LaunchCalls(api, in_, calls);
  }

  // ---- Stops ----

  /** A stop that is not fully recorded is recorded, and nothing else happens. The time is a new one unless the job was already
      waiting for the trainer under that request. */
  lemma RecordingOutcome(api: Api, in_: Inputs, calls: nat)
    requires calls >= ENOUGH && Persisted(api.status) == api.status
    requires Underway(api, in_) && StopAsked(api) && !StopIsRecorded(api.status)
    ensures var s := api.status;
            var stopping := s.phase == YieldRequested || s.phase == Status.Draining;
            var asked := RequestID(if api.spec.suspended then Kueue else Manual, s.attempt, api.spec.generation);
            var anew := s.pauseRequest == "" || !stopping;
            Reconciled(api, in_, calls) == api.(status := s.(
              phase := if anew then YieldRequested else s.phase,
              yieldRequestedAt := if anew && s.phase != YieldRequested then Some(Stored(in_.now)) else s.yieldRequestedAt,
              observedGeneration := api.spec.generation,
              pauseRequest := if s.pauseRequest == "" then asked else s.pauseRequest,
              control := if s.control.None? then Some(s.attempt) else s.control))
  {
    var source := if api.spec.suspended then Kueue else Manual;
    OneUpdate(api, EnsureStop(api.status, api.spec, source, in_.now), in_, calls);
    assert ReconcileOps(api, in_) == [Persist(EnsureStop(api.status, api.spec, source, in_.now))];
  }

  /** What the reconcile of a recorded stop starts from, once the request is written into the control ConfigMap. */
  function Told(api: Api): Api
    requires StopIsRecorded(api.status) && api.status.yieldRequestedAt.Some?
  {
    api.(controls := api.controls[api.status.control.value := ControlPaused(api.status.pauseRequest, api.status.yieldRequestedAt.value)])
  }

  function Down(api: Api): Api
    requires api.status.activeJobSet.Some?
  {
    api.(jobSets := api.jobSets[api.status.activeJobSet.value := Terminating])
  }

  lemma ToldFirst(api: Api, in_: Inputs, calls: nat)
    requires calls >= ENOUGH
    requires Underway(api, in_) && StopAsked(api) && StopIsRecorded(api.status) && api.status.yieldRequestedAt.Some?
    requires !in_.controlFails && api.status.control.value in api.controls
    ensures var s, sp := api.status, api.spec;
            var at := s.yieldRequestedAt.value;
            Reconciled(api, in_, calls) ==
            RunOps(Told(api), if at + sp.maxDrainTime < in_.now then GiveUpOps(s, sp, in_.now) else [Observe(s.pauseRequest, at)],
                   in_, calls - 1)
  {
    var ops := ReconcileOps(api, in_);
    var write := WriteControl(api.status.control.value, api.status.pauseRequest, api.status.yieldRequestedAt.value);
    assert ops == [write] + ops[1..];
    RunFirst(api, write, ops[1..], in_, calls);
  }

  /** A recorded stop: a control error fails the job; otherwise the control ConfigMap holds the recorded request, no other one
      changes, and past the deadline the JobSet is deleted and the job fails, before it the evidence in the bucket decides. */
  lemma StopOutcome(api: Api, in_: Inputs, calls: nat)
    requires calls >= ENOUGH && Persisted(api.status) == api.status
    requires Underway(api, in_) && StopAsked(api) && StopIsRecorded(api.status) && api.status.yieldRequestedAt.Some?
    ensures var s, after, told := api.status, Reconciled(api, in_, calls), Told(api);
            if in_.controlFails || s.control.value !in api.controls then OnlyPhase(api, after, Failed)
            else if s.yieldRequestedAt.value + api.spec.maxDrainTime < in_.now then OnlyPhase(Down(told), after, Failed)
            else if in_.readFails then OnlyPhase(told, after, Failed)
            else match ObservePause(api.store, YieldMarkerURI(api.spec.storageRoot, s.attempt), s.pauseRequest, s.yieldRequestedAt.value)
                 case ReadError => OnlyPhase(told, after, Failed)
                 case NotReady => OnlyPhase(told, after, Status.Draining)
                 case Accepted(ref, _) =>
                   if s.lastCompleted.Some? && s.lastCompleted.value.manifestURI == ref.manifestURI then after == Down(told)
                   else after == told.(status := s.(lastCompleted := Some(ref), selected := Some(ref)))
  {
    var s, sp := api.status, api.spec;
    if in_.controlFails || s.control.value !in api.controls {
      Failing(api, in_, calls);
    } else {
      ToldFirst(api, in_, calls);
      if s.yieldRequestedAt.value + sp.maxDrainTime < in_.now {
        var down := DeleteJobSet(s.activeJobSet.value, true);
        RunFirst(Told(api), down, Fail(s, sp, in_.now), in_, calls - 1);
        Failing(Apply(Told(api), down), in_, calls - 2);
      } else {
        EvidenceOutcome(Told(api), in_, calls - 1);
      }
    }
  }

  /** A completed reconcile of a recorded stop without a control error leaves the recorded request in the recorded ConfigMap, and no
      other one changed. */
  lemma PauseIsWritten(api: Api, in_: Inputs, calls: nat)
    requires calls >= ENOUGH && Persisted(api.status) == api.status
    requires Underway(api, in_) && StopAsked(api) && StopIsRecorded(api.status) && api.status.yieldRequestedAt.Some?
    requires !in_.controlFails && api.status.control.value in api.controls
    ensures var s := api.status;
            Reconciled(api, in_, calls).controls ==
            api.controls[s.control.value := ControlPaused(s.pauseRequest, s.yieldRequestedAt.value)]
  {
    StopOutcome(api, in_, calls);
  }

  lemma Looking(api: Api, in_: Inputs, calls: nat)
    requires calls >= 1 && api.status.yieldRequestedAt.Some?
    ensures var id, at := api.status.pauseRequest, api.status.yieldRequestedAt.value;
            RunOps(api, [Observe(id, at)], in_, calls) == RunOps(api, ObserveOps(api, api.spec, id, at, in_), in_, calls - 1)
  {
  }

  lemma AcceptedOutcome(api: Api, ref: CheckpointRef, in_: Inputs, calls: nat)
    requires calls >= 1 && Persisted(api.status) == api.status && JobSetIsLive(api)
    ensures RunOps(api, [DeleteJobSet(api.status.activeJobSet.value, false)], in_, calls) == Down(api)
    ensures RunOps(api, [Persist(Checkpointed(api.status, ref))], in_, calls) ==
            api.(status := api.status.(lastCompleted := Some(ref), selected := Some(ref)))
  {
    OneUpdate(api, Checkpointed(api.status, ref), in_, calls);
    RunFirst(api, DeleteJobSet(api.status.activeJobSet.value, false), [], in_, calls);
  }

  lemma EvidenceOutcome(api: Api, in_: Inputs, calls: nat)
    requires calls >= 2 && Persisted(api.status) == api.status
    requires JobSetIsLive(api) && StopIsRecorded(api.status) && api.status.yieldRequestedAt.Some? && Underway(api, in_)
    ensures var s := api.status;
            var at := s.yieldRequestedAt.value;
            var after := RunOps(api, [Observe(s.pauseRequest, at)], in_, calls);
            if in_.readFails then OnlyPhase(api, after, Failed)
            else match ObservePause(api.store, YieldMarkerURI(api.spec.storageRoot, s.attempt), s.pauseRequest, at)
                 case ReadError => OnlyPhase(api, after, Failed)
                 case NotReady => OnlyPhase(api, after, Status.Draining)
                 case Accepted(ref, _) =>
                   if s.lastCompleted.Some? && s.lastCompleted.value.manifestURI == ref.manifestURI then after == Down(api)
                   else after == api.(status := s.(lastCompleted := Some(ref), selected := Some(ref)))
  {
    var s, sp := api.status, api.spec;
    var o := ObservePause(api.store, YieldMarkerURI(sp.storageRoot, s.attempt), s.pauseRequest, s.yieldRequestedAt.value);
    Looking(api, in_, calls);
    if in_.readFails || o.ReadError? {
      Failing(api, in_, calls - 1);
    } else if o.NotReady? {
      OneUpdate(api, Moved(s, Status.Draining, sp.generation, in_.now), in_, calls - 1);
    } else {
      AcceptedOutcome(api, o.checkpoint, in_, calls - 1);
    }
  }

  // ---- The exact launch condition ----

  /** A completed reconcile without a create fault brings a JobSet into being exactly when the phase is set, the generation was
      seen, the lookup succeeded, the job is wanted running and not suspended, no JobSet is live, no gate is closed, updates
      do not conflict, and a resuming job has its checkpoint, unless the JobSet of that attempt is still there. */
  lemma LaunchesExactly(api: Api, in_: Inputs, calls: nat)
    requires calls >= ENOUGH && Persisted(api.status) == api.status
    requires StopAsked(api) && StopIsRecorded(api.status) ==> api.status.yieldRequestedAt.Some?
    requires in_.createFault == NoFault
    ensures var after := Reconciled(api, in_, calls);
            && ((exists a :: a !in api.jobSets && a in after.jobSets) <==>
                MayLaunch(api, in_) && LaunchAttempt(api.status) !in api.jobSets)
            && (forall a :: a !in api.jobSets && a in after.jobSets ==> a == LaunchAttempt(api.status) && after.jobSets[a] == Live)
            && (!MayLaunch(api, in_) ==> after.restoresFrom == api.restoresFrom && after.status.attempt == api.status.attempt)
  {
    if MayLaunch(api, in_) {
      LaunchOutcome(api, in_, calls);
    } else if api.status.phase == NoPhase || api.status.observedGeneration != api.spec.generation {
      InitializationOutcome(api, in_, calls);
    } else if Underway(api, in_) && StopAsked(api) {
      if StopIsRecorded(api.status) { StopOutcome(api, in_, calls); } else { RecordingOutcome(api, in_, calls); }
    } else if Underway(api, in_) && JobSetIsLive(api) && in_.resizeTriggered {
      ResizeOutcome(api, in_, calls);
    } else {
      RestingOutcome(api, in_, calls);
    }
  }
}
