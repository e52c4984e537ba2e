/** Nothing is torn down after a successful drain, and nothing is resumed, unless the checkpoint that
    the job's status names is complete in the bucket. */
module Durability {
  import opened Foundation
  import opened Checkpoints
  import opened ObjectStorage
  import opened Catalog
  import opened Status
  import opened Reconcile
  import opened Lifecycle
  import Trainer

  ghost predicate WorkerOk(w: World, a: nat)
    requires a in w.workers
  {
    match w.workers[a]
    case Saving(id, _, uploaded) => NamesAttempt(id, a) && Trainer.AllStored(w.api.store, uploaded)
    case Saved(m) => CompleteAt(w.api.store, m.manifestURI) && w.api.store[m.manifestURI].manifest.runAttempt == a
  }

  ghost predicate BucketInv(w: World) {
    && Ordered(w.api.spec.storageRoot, w.api.store)
    && (forall a :: a in w.workers ==> WorkerOk(w, a))
    && (w.flight.Some? ==> w.flight.value.spec.storageRoot == w.api.spec.storageRoot)
  }

  predicate RefComplete(s: Store, r: Option<CheckpointRef>) {
    r.Some? ==> CompleteAt(s, r.value.manifestURI)
  }

  /** Every checkpoint the record names is complete in the bucket. */
  predicate RefsComplete(s: Store, r: Record) {
    RefComplete(s, r.lastCompleted) && RefComplete(s, r.selected)
  }

  predicate DurableOp(s: Store, r: Record, op: Op) {
    match op
    case Persist(t) => RefsComplete(s, t)
    case CreateJobSet(_, from_) => from_ == "" || CompleteAt(s, from_)
    case DeleteJobSet(_, timedOut) => !timedOut ==> r.lastCompleted.Some?
    case _ => true
  }

  predicate DurableOps(s: Store, r: Record, ops: seq<Op>) {
    && (forall i :: 0 <= i < |ops| ==> DurableOp(s, r, ops[i]))
    && (forall i :: 0 <= i < |ops| && ops[i].DeleteJobSet? && !ops[i].timedOut ==> |ops| == 1)
  }

  ghost predicate DurableInv(w: World) {
    && BucketInv(w)
    && RefsComplete(w.api.store, w.api.status)
    && (w.flight.Some? ==>
          && DurableOps(w.api.store, w.api.status, w.flight.value.todo)
          && RefComplete(w.api.store, w.flight.value.inputs.choice))
  }

  lemma StopDurable(api: Api, s: Record, source: Source, in_: Inputs)
    requires RefsComplete(api.store, s) && s.lastCompleted == api.status.lastCompleted
    ensures DurableOps(api.store, api.status, StopOps(api, s, source, in_))
  {
  }

  lemma CreateDurable(api: Api, a: nat, from_: string, done: Record, in_: Inputs)
    requires RefsComplete(api.store, api.status) && DurableOp(api.store, api.status, Persist(done))
    requires from_ == "" || CompleteAt(api.store, from_)
    ensures DurableOps(api.store, api.status, CreateOps(api.status, api.spec, a, from_, done, in_))
  {
  }

  lemma RunningDurable(api: Api, in_: Inputs)
    requires RefsComplete(api.store, api.status)
    ensures DurableOps(api.store, api.status, RunningOps(api, in_))
  {
    var s := api.status;
    var running := Moved(s, Running, api.spec.generation, in_.now);
    StopDurable(api, if s == running then s else Persisted(running), Resize, in_);
  }

  lemma ResumeDurable(api: Api, in_: Inputs)
    requires RefsComplete(api.store, api.status) && RefComplete(api.store, in_.choice)
    ensures DurableOps(api.store, api.status, ResumeOps(api.status, api.spec, in_))
  {
    var s := api.status;
    var recorded := s.phase == Restoring && s.selected.Some?;
    if recorded || (!in_.selectFails && in_.choice.Some?) {
      var ref := if recorded then s.selected.value else in_.choice.value;
      var a := ResumeAttempt(s);
      CreateDurable(api, a, ref.manifestURI, Restored(s, a, ref, api.spec.generation, in_.now), in_);
    }
  }

  /** At most one update that leaves the checkpoints of the record alone. */
  lemma PlainDurable(api: Api, ops: seq<Op>)
    requires RefsComplete(api.store, api.status)
    requires |ops| <= 1
    requires ops != [] ==>
      ops[0].Persist? && ops[0].record.lastCompleted == api.status.lastCompleted && ops[0].record.selected == api.status.selected
    ensures DurableOps(api.store, api.status, ops)
  {
  }

  lemma ReconcileDurable(api: Api, in_: Inputs)
    requires RefsComplete(api.store, api.status) && RefComplete(api.store, in_.choice)
    ensures DurableOps(api.store, api.status, ReconcileOps(api, in_))
  {
    var s, sp := api.status, api.spec;
    if s.phase == NoPhase || s.observedGeneration != sp.generation || (s.activeJobSet.Some? && in_.lookupFails) {
      PlainDurable(api, ReconcileOps(api, in_));
    } else if RequestedStop(api).Some? {
      StopDurable(api, s, RequestedStop(api).value, in_);
      assert ReconcileOps(api, in_) == StopOps(api, s, RequestedStop(api).value, in_);
    } else if !sp.desiredRunning {
      PlainDurable(api, ReconcileOps(api, in_));
    } else if ActiveExists(api) {
      RunningDurable(api, in_);
      assert ReconcileOps(api, in_) == RunningOps(api, in_);
    } else if sp.suspended || in_.gated || in_.conflictingUpdates {
      PlainDurable(api, ReconcileOps(api, in_));
    } else if ShouldResume(s) {
      ResumeDurable(api, in_);
      assert ReconcileOps(api, in_) == ResumeOps(s, sp, in_);
    } else {
      CreateDurable(api, s.attempt + 1, if s.selected.Some? then s.selected.value.manifestURI else "",
                    Started(s, s.attempt + 1, sp.generation, in_.now), in_);
    }
  }

  lemma ObserveDurable(api: Api, sp: Spec, id: string, at: Time, in_: Inputs)
    requires Ordered(sp.storageRoot, api.store) && RefsComplete(api.store, api.status)
    ensures DurableOps(api.store, api.status, ObserveOps(api, sp, id, at, in_))
  {
    assert MarkerOfAttempt(sp.storageRoot, api.store, api.status.attempt);
  }

  lemma CallKeepsDurable(w: World)
    requires DurableInv(w)
    requires w.flight.Some? && w.flight.value.todo != []
    ensures AfterCall(w).api.store == w.api.store
    ensures DurableInv(AfterCall(w))
  {
    var f := w.flight.value;
    var op := f.todo[0];
    assert DurableOp(w.api.store, w.api.status, op);
    if op.Observe? {
      ObserveDurable(w.api, f.spec, op.requestID, op.requestedAt, f.inputs);
    } else {
      var rest, r' := f.todo[1..], Apply(w.api, op).status;
      forall i | 0 <= i < |rest| ensures DurableOp(w.api.store, r', rest[i]) {
        assert rest[i] == f.todo[i + 1];
      }
    }
    forall a | a in w.workers ensures WorkerOk(AfterCall(w), a) {
      assert WorkerOk(w, a);
    }
  }

  /** A bucket that only gains objects keeps everything durable. */
  lemma GrowthKeepsDurable(w: World, w': World)
    requires DurableInv(w)
    requires w'.api.status == w.api.status && w'.flight == w.flight && w'.api.spec == w.api.spec
    requires Ordered(w.api.spec.storageRoot, w'.api.store) && Retains(w.api.store, w'.api.store)
    requires forall a :: a in w'.workers ==> WorkerOk(w', a)
    ensures DurableInv(w')
  {
    if w.flight.Some? {
      var ops := w.flight.value.todo;
      forall i | 0 <= i < |ops| ensures DurableOp(w'.api.store, w'.api.status, ops[i]) {
        assert DurableOp(w.api.store, w.api.status, ops[i]);
      }
    }
  }

  lemma UploadArtifactKeepsDurable(w: World, a: nat)
    requires DurableInv(w) && Enabled(w, UploadArtifact(a))
    ensures Retains(w.api.store, Next(w, UploadArtifact(a)).api.store)
    ensures DurableInv(Next(w, UploadArtifact(a)))
  {
    var k, w' := w.workers[a], Next(w, UploadArtifact(a));
    assert WorkerOk(w, a);
    PutArtifact(w.api.spec.storageRoot, w.api.store, k.id, k.todo[0].relativePath);
    forall b | b in w'.workers ensures WorkerOk(w', b) {
      assert b in w.workers && WorkerOk(w, b);
    }
    GrowthKeepsDurable(w, w');
  }

  lemma UploadManifestKeepsDurable(w: World, a: nat, identity: Manifest, t: Time)
    requires DurableInv(w) && Enabled(w, UploadManifest(a, identity, t))
    ensures Retains(w.api.store, Next(w, UploadManifest(a, identity, t)).api.store)
    ensures DurableInv(Next(w, UploadManifest(a, identity, t)))
  {
    var w' := Next(w, UploadManifest(a, identity, t));
    assert WorkerOk(w, a);
    PutManifest(w.api.spec.storageRoot, w.api.store, ManifestToUpload(w, a, identity, t));
    forall b | b in w'.workers ensures WorkerOk(w', b) {
      assert b in w.workers && WorkerOk(w, b);
    }
    GrowthKeepsDurable(w, w');
  }

  lemma UploadMarkerKeepsDurable(w: World, a: nat, requestID: string)
    requires DurableInv(w) && Enabled(w, UploadMarker(a, requestID))
    ensures Retains(w.api.store, Next(w, UploadMarker(a, requestID)).api.store)
    ensures DurableInv(Next(w, UploadMarker(a, requestID)))
  {
    var m, w' := w.workers[a].manifest, Next(w, UploadMarker(a, requestID));
    assert WorkerOk(w, a);
    PutMarker(w.api.spec.storageRoot, w.api.store, a, YieldMarker(m.checkpointID, m.manifestURI, requestID, Written(m.completedAt)));
    forall b | b in w'.workers ensures WorkerOk(w', b) {
      assert WorkerOk(w, b);
    }
    GrowthKeepsDurable(w, w');
  }

  /** What the catalog chose for a reconcile is complete, because the bucket is ordered. */
  lemma ChoiceIsComplete(w: World, in_: Inputs)
    requires BucketInv(w) && Enabled(w, Begin(in_))
    ensures RefComplete(w.api.store, in_.choice)
  {
    ChosenIsComplete(w.api.spec.storageRoot, w.api.store, in_.listing, in_.request, in_.choice);
  }

  /** The remaining steps leave bucket and status alone. */
  lemma OtherStepKeepsDurable(w: World, step: Step)
    requires DurableInv(w) && Enabled(w, step)
    requires !step.Call? && !step.UploadArtifact? && !step.UploadManifest? && !step.UploadMarker?
    ensures Next(w, step).api.store == w.api.store
    ensures DurableInv(Next(w, step))
  {
    var w' := Next(w, step);
    assert w'.api.store == w.api.store && w'.api.status == w.api.status;
    forall b | b in w'.workers ensures WorkerOk(w', b) {
      assert b in w.workers ==> WorkerOk(w, b);
    }
    if step.Begin? {
      ChoiceIsComplete(w, step.inputs);
      ReconcileDurable(w.api, step.inputs);
    }
  }

  lemma RetainsItself(s: Store)
    ensures Retains(s, s)
  {
  }

  lemma StepKeepsDurable(w: World, step: Step)
    requires DurableInv(w) && Enabled(w, step)
    ensures DurableInv(Next(w, step))
    ensures Retains(w.api.store, Next(w, step).api.store)
  {
    match step {
      case UploadArtifact(a) => UploadArtifactKeepsDurable(w, a);
      case UploadManifest(a, identity, t) => UploadManifestKeepsDurable(w, a, identity, t);
      case UploadMarker(a, requestID) => UploadMarkerKeepsDurable(w, a, requestID);
      case Call =>
        CallKeepsDurable(w);
        RetainsItself(w.api.store);
      case _ =>
        OtherStepKeepsDurable(w, step);
        RetainsItself(w.api.store);
    }
  }

  lemma {:induction false} RunKeepsDurable(w: World, steps: seq<Step>)
    requires DurableInv(w) && CanRun(w, steps)
    ensures DurableInv(Reached(w, steps))
    ensures Retains(w.api.store, Reached(w, steps).api.store)
    decreases |steps|
  {
    if steps != [] {
      StepKeepsDurable(w, steps[0]);
      RunKeepsDurable(Next(w, steps[0]), steps[1..]);
    }
  }

  lemma InitIsDurable(w: World)
    requires Init(w)
    ensures DurableInv(w)
  {
  }

  /** End to end: in every run, when the controller deletes a JobSet for any reason but a timeout, the
      persisted status already names a manifest that is complete in the bucket with every artifact, and it
      is still there however the run goes on. */
  lemma DurableBeforeDelete(w: World, steps: seq<Step>, later: seq<Step>, a: nat)
    requires Init(w) && CanRun(w, steps)
    requires var now := Reached(w, steps);
             && now.flight.Some? && now.flight.value.todo != []
             && now.flight.value.todo[0] == DeleteJobSet(a, false)
             && CanRun(now, later)
    ensures var now := Reached(w, steps);
            && now.api.status.lastCompleted.Some?
            && var uri := now.api.status.lastCompleted.value.manifestURI;
               CompleteAt(now.api.store, uri) && CompleteAt(Reached(now, later).api.store, uri)
  {
    var now := Reached(w, steps);
    InitIsDurable(w);
    RunKeepsDurable(w, steps);
    assert DurableOp(now.api.store, now.api.status, now.flight.value.todo[0]);
    RunKeepsDurable(now, later);
  }

  /** In every run, a JobSet that is told to restore is given a manifest that is complete in the bucket. */
  lemma RestoresFromComplete(w: World, steps: seq<Step>, a: nat, from_: string)
    requires Init(w) && CanRun(w, steps)
    requires var now := Reached(w, steps);
             && now.flight.Some? && now.flight.value.todo != []
             && now.flight.value.todo[0] == CreateJobSet(a, from_)
    ensures from_ == "" || CompleteAt(Reached(w, steps).api.store, from_)
  {
    var now := Reached(w, steps);
    InitIsDurable(w);
    RunKeepsDurable(w, steps);
    assert DurableOp(now.api.store, now.api.status, now.flight.value.todo[0]);
  }

  /** In every reachable state a visible marker has its manifest and a visible manifest its artifacts. */
  lemma VisibleEvidenceIsComplete(w: World, steps: seq<Step>, uri: string)
    requires Init(w) && CanRun(w, steps)
    requires uri in Reached(w, steps).api.store
    ensures var s := Reached(w, steps).api.store;
            match s[uri]
            case MarkerDoc(k) => CompleteAt(s, k.manifestURI)
            case ManifestDoc(_) => CompleteAt(s, uri)
            case Blob => true
  {
    InitIsDurable(w);
    RunKeepsDurable(w, steps);
    assert WellPlaced(Reached(w, steps).api.spec.storageRoot, Reached(w, steps).api.store, uri);
  }
}
