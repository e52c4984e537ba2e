/** What every run shows of its launches and its stops: a JobSet appears only under the launch condition and is told the right
    manifest, and evidence is looked for only after the trainer could read the request. */
module RunOutcomes {
  import opened Foundation
  import opened Checkpoints
  import opened ObjectStorage
  import opened Catalog
  import opened Status
  import opened Selection
  import opened Reconcile
  import opened Lifecycle
  import opened Evidence
  import opened Outcomes

  // ---- The request is written before evidence is looked for ----

  predicate Holds(api: Api, id: string, at: Time) {
    && api.status.control.Some? && api.status.control.value in api.controls
    && api.controls[api.status.control.value] == ControlPaused(id, at)
  }

  /** An observation is the last call, and comes right after the write of its request or has it done already. */
  predicate ToldAt(api: Api, ops: seq<Op>, i: nat)
    requires i < |ops|
  {
    ops[i].Observe? ==>
      && i + 1 == |ops| && i <= 1
      && (i == 0 ==> Holds(api, ops[0].requestID, ops[0].requestedAt))
      && (i == 1 ==> ops[0].WriteControl? && api.status.control == Some(ops[0].attempt)
                     && ops[0].requestID == ops[1].requestID && ops[0].requestedAt == ops[1].requestedAt)
  }

  ghost predicate ToldInv(w: World) {
    w.flight.Some? ==> forall i :: 0 <= i < |w.flight.value.todo| ==> ToldAt(w.api, w.flight.value.todo, i)
  }

  ghost predicate LooksAtNothing(ops: seq<Op>) {
    forall i :: 0 <= i < |ops| ==> !ops[i].Observe?
  }

  lemma RunningLooksAtNothing(api: Api, in_: Inputs)
    ensures LooksAtNothing(RunningOps(api, in_))
  {
  }

  lemma BeginTold(api: Api, in_: Inputs)
    ensures forall i :: 0 <= i < |ReconcileOps(api, in_)| ==> ToldAt(api, ReconcileOps(api, in_), i)
  {
    var s, sp, ops := api.status, api.spec, ReconcileOps(api, in_);
    if s.phase == NoPhase || s.observedGeneration != sp.generation || (s.activeJobSet.Some? && in_.lookupFails) {
    } else if RequestedStop(api).Some? {
      assert ops == StopOps(api, s, RequestedStop(api).value, in_);
    } else if !sp.desiredRunning {
      assert ops == HoldOps(s, sp, in_.now);
    } else if ActiveExists(api) {
      RunningLooksAtNothing(api, in_);
      assert ops == RunningOps(api, in_);
    }
  }

  lemma ObservingLooksOnce(api: Api, sp: Spec, id: string, at: Time, in_: Inputs)
    ensures LooksAtNothing(ObserveOps(api, sp, id, at, in_))
  {
  }

  lemma CallKeepsTold(w: World)
    requires ToldInv(w) && w.flight.Some? && w.flight.value.todo != []
    ensures ToldInv(AfterCall(w))
  {
    var f, w' := w.flight.value, AfterCall(w);
    if f.todo[0].Observe? {
      ObservingLooksOnce(w.api, f.spec, f.todo[0].requestID, f.todo[0].requestedAt, f.inputs);
    } else if w'.flight.Some? {
      var rest := f.todo[1..];
      forall i | 0 <= i < |rest| ensures ToldAt(w'.api, rest, i) {
        assert ToldAt(w.api, f.todo, i + 1) && rest[i] == f.todo[i + 1];
      }
    }
  }

  lemma StepKeepsTold(w: World, step: Step)
    requires ToldInv(w) && Enabled(w, step)
    ensures ToldInv(Next(w, step))
  {
    if step.Begin? {
      BeginTold(w.api, step.inputs);
    } else if step.Call? {
      CallKeepsTold(w);
    } else {
      assert Next(w, step).api.status == w.api.status && Next(w, step).api.controls == w.api.controls;
      SameTold(w.api, Next(w, step).api, if w.flight.Some? then w.flight.value.todo else []);
    }
  }

  lemma SameTold(api: Api, api': Api, ops: seq<Op>)
    requires api'.status == api.status && api'.controls == api.controls
    requires forall i :: 0 <= i < |ops| ==> ToldAt(api, ops, i)
    ensures forall i :: 0 <= i < |ops| ==> ToldAt(api', ops, i)
  {
    forall i | 0 <= i < |ops| ensures ToldAt(api', ops, i) { assert ToldAt(api, ops, i); }
  }

  lemma {:induction false} RunKeepsTold(w: World, steps: seq<Step>)
    requires ToldInv(w) && CanRun(w, steps)
    ensures ToldInv(Reached(w, steps))
    decreases |steps|
  {
    if steps != [] {
      StepKeepsTold(w, steps[0]);
      RunKeepsTold(Next(w, steps[0]), steps[1..]);
    }
  }

  /** In every run, when evidence is about to be looked for, the recorded control ConfigMap holds the request that is looked
      for, which is the recorded one, with the recorded time. */
  lemma PausedBeforeLooking(w: World, steps: seq<Step>, id: string, at: Time)
    requires Init(w) && CanRun(w, steps)
    requires var now := Reached(w, steps);
             now.flight.Some? && now.flight.value.todo != [] && now.flight.value.todo[0] == Observe(id, at)
    ensures var api := Reached(w, steps).api;
            && api.status.control.Some? && api.status.control.value in api.controls
            && api.controls[api.status.control.value] == ControlPaused(id, at)
            && id == api.status.pauseRequest && id != "" && api.status.yieldRequestedAt == Some(at)
  {
    RunKeepsTold(w, steps);
    RunKeepsEvidence(w, steps);
    var now := Reached(w, steps);
    assert ToldAt(now.api, now.flight.value.todo, 0);
    assert Timely(now.api.status, now.flight.value.inputs.now, now.flight.value.todo[0]);
  }

  // ---- JobSets appear only as allowed ----

  /** The manifest is the recorded selection of a recorded restore; or a listed one that is compatible with the request and
      than which no acceptable one is newer; or, for a plain launch, whatever is selected. */
  ghost predicate RightManifest(api: Api, in_: Inputs, from_: string) {
    if RestoreRecorded(api.status) then from_ == api.status.selected.value.manifestURI
    else if Resumes(api.status) then
      exists u :: Acceptable(api.store, in_.listing, in_.request, u) && from_ == ReadManifest(api.store, u).manifest.manifestURI &&
        forall v :: Acceptable(api.store, in_.listing, in_.request, v) ==>
          !Newer(ReadManifest(api.store, v).manifest, ReadManifest(api.store, u).manifest)
    else from_ == if api.status.selected.Some? then api.status.selected.value.manifestURI else ""
  }

  /** A creation in a reconcile that began at `began`: allowed there, of the right attempt, told the right manifest; the update
      that follows records the attempt and, for a resumed job, selects that manifest. */
  ghost predicate CreatesRightly(began: Api, in_: Inputs, ops: seq<Op>, i: nat)
    requires i < |ops|
  {
    ops[i].CreateJobSet? ==>
      && MayLaunch(began, in_)
      && ops[i].attempt == LaunchAttempt(began.status)
      && RightManifest(began, in_, ops[i].resumeFrom)
      && i + 2 >= |ops|
      && (i + 2 == |ops| ==>
            && ops[i + 1].Persist? && ops[i + 1].record.attempt == ops[i].attempt
            && (Resumes(began.status) ==>
                  && ops[i + 1].record.selected.Some?
                  && ops[i + 1].record.selected.value.manifestURI == ops[i].resumeFrom))
  }

  ghost predicate LaunchInv(w: World) {
    w.flight.Some? ==> forall i :: 0 <= i < |w.flight.value.todo| ==>
      CreatesRightly(w.flight.value.began, w.flight.value.inputs, w.flight.value.todo, i)
  }

  predicate CreatesNothing(ops: seq<Op>) {
    forall i :: 0 <= i < |ops| ==> !ops[i].CreateJobSet?
  }

  lemma StopCreatesNothing(api: Api, s: Record, source: Source, in_: Inputs)
    ensures CreatesNothing(StopOps(api, s, source, in_))
  {
  }

  lemma RunningCreatesNothing(api: Api, in_: Inputs)
    ensures CreatesNothing(RunningOps(api, in_))
  {
    var s := api.status;
    var running := Moved(s, Running, api.spec.generation, in_.now);
    StopCreatesNothing(api, if s == running then s else Persisted(running), Resize, in_);
  }

  lemma ObservingCreatesNothing(api: Api, sp: Spec, id: string, at: Time, in_: Inputs)
    ensures CreatesNothing(ObserveOps(api, sp, id, at, in_))
  {
  }

  lemma ResumeRightly(api: Api, in_: Inputs)
    requires ClearToLaunch(api, in_) && Resumes(api.status) && Chosen(api.store, in_.listing, in_.request, in_.choice)
    ensures var ops := ResumeOps(api.status, api.spec, in_);
            forall i :: 0 <= i < |ops| ==> CreatesRightly(api, in_, ops, i)
  {
    var s := api.status;
    var ops := ResumeOps(s, api.spec, in_);
    if MayLaunch(api, in_) {
      var ref := if RestoreRecorded(s) then s.selected.value else in_.choice.value;
      assert RightManifest(api, in_, ref.manifestURI);
      assert forall i :: 0 <= i < |ops| && ops[i].CreateJobSet? ==>
        i == 1 && ops[i] == CreateJobSet(LaunchAttempt(s), ref.manifestURI);
    } else {
      assert CreatesNothing(ops);
    }
  }

  lemma LaunchRightly(api: Api, in_: Inputs)
    requires ClearToLaunch(api, in_) && !Resumes(api.status)
    ensures var ops := LaunchOps(api.status, api.spec, in_);
            forall i :: 0 <= i < |ops| ==> CreatesRightly(api, in_, ops, i)
  {
  }

  lemma BeginRightly(api: Api, in_: Inputs)
    requires Chosen(api.store, in_.listing, in_.request, in_.choice)
    ensures var ops := ReconcileOps(api, in_); forall i :: 0 <= i < |ops| ==> CreatesRightly(api, in_, ops, i)
  {
    var s, sp, ops := api.status, api.spec, ReconcileOps(api, in_);
    if s.phase == NoPhase || s.observedGeneration != sp.generation || (s.activeJobSet.Some? && in_.lookupFails) {
    } else if RequestedStop(api).Some? {
      StopCreatesNothing(api, s, RequestedStop(api).value, in_);
      assert ops == StopOps(api, s, RequestedStop(api).value, in_);
    } else if !sp.desiredRunning {
      assert ops == HoldOps(s, sp, in_.now);
    } else if ActiveExists(api) {
      RunningCreatesNothing(api, in_);
      assert ops == RunningOps(api, in_);
    } else if sp.suspended || in_.gated || in_.conflictingUpdates {
    } else if Resumes(s) {
      ResumeRightly(api, in_);
      assert ops == ResumeOps(s, sp, in_);
    } else {
      LaunchRightly(api, in_);
      assert ops == LaunchOps(s, sp, in_);
    }
  }

  lemma StepKeepsLaunch(w: World, step: Step)
    requires LaunchInv(w) && Enabled(w, step)
    ensures LaunchInv(Next(w, step))
  {
    if step.Begin? {
      BeginRightly(w.api, step.inputs);
    } else if step.Call? {
      var f := w.flight.value;
      if f.todo[0].Observe? {
        ObservingCreatesNothing(w.api, f.spec, f.todo[0].requestID, f.todo[0].requestedAt, f.inputs);
      } else {
        var rest := f.todo[1..];
        forall i | 0 <= i < |rest| ensures CreatesRightly(f.began, f.inputs, rest, i) {
          assert CreatesRightly(f.began, f.inputs, f.todo, i + 1);
        }
      }
    }
  }

  lemma {:induction false} RunKeepsLaunch(w: World, steps: seq<Step>)
    requires LaunchInv(w) && CanRun(w, steps)
    ensures LaunchInv(Reached(w, steps))
    decreases |steps|
  {
    if steps != [] {
      StepKeepsLaunch(w, steps[0]);
      RunKeepsLaunch(Next(w, steps[0]), steps[1..]);
    }
  }

  lemma OthersAddNothing(w: World, step: Step)
    requires Enabled(w, step) && !step.Call?
    ensures Next(w, step).api.jobSets.Keys <= w.api.jobSets.Keys
  {
  }

  lemma CallAdds(w: World, a: nat)
    requires Enabled(w, Call) && a !in w.api.jobSets && a in AfterCall(w).api.jobSets
    ensures var op := w.flight.value.todo[0];
            && op.CreateJobSet? && op.attempt == a
            && AfterCall(w).api.jobSets[a] == Live && a in AfterCall(w).api.restoresFrom
            && AfterCall(w).api.restoresFrom[a] == op.resumeFrom
  {
  }

  lemma AppearsByCall(w: World, step: Step, a: nat)
    requires Enabled(w, step) && a !in w.api.jobSets && a in Next(w, step).api.jobSets
    ensures step.Call?
    ensures var op := w.flight.value.todo[0];
            && op.CreateJobSet? && op.attempt == a
            && Next(w, step).api.jobSets[a] == Live && a in Next(w, step).api.restoresFrom
            && Next(w, step).api.restoresFrom[a] == op.resumeFrom
  {
    if step.Call? { CallAdds(w, a); } else { OthersAddNothing(w, step); }
  }

  /** In every run, a JobSet appears only by a call of a reconcile that began under the launch condition; it is of that attempt,
      and is told the manifest of the recorded selection when a restore was recorded, else for a resuming job a manifest that
      was listed, is compatible with the request, and than which no acceptable one was newer. */
  lemma LaunchedAsAllowed(w: World, steps: seq<Step>, step: Step, a: nat)
    requires Init(w) && CanRun(w, steps) && Enabled(Reached(w, steps), step)
    requires var now := Reached(w, steps); a !in now.api.jobSets && a in Next(now, step).api.jobSets
    ensures var now := Reached(w, steps);
            var next := Next(now, step);
            && now.flight.Some? && next.api.jobSets[a] == Live && a in next.api.restoresFrom
            && var f := now.flight.value;
               && MayLaunch(f.began, f.inputs) && a == LaunchAttempt(f.began.status)
               && RightManifest(f.began, f.inputs, next.api.restoresFrom[a])
  {
    RunKeepsLaunch(w, steps);
    var now := Reached(w, steps);
    AppearsByCall(now, step, a);
    assert CreatesRightly(now.flight.value.began, now.flight.value.inputs, now.flight.value.todo, 0);
  }
}
