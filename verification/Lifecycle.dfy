/** The protocol around one job as a machine of atomic steps. A reconcile in flight makes its API
    calls one at a time, any other step may happen between two of them, and a crash drops the rest. */
module Lifecycle {
  import opened Foundation
  import opened Checkpoints
  import opened ObjectStorage
  import opened Catalog
  import opened Status
  import opened Reconcile
  import Trainer

  /** A reconcile under way: the state in which it began, the spec it read, what it met, and the calls it has yet to make.
      `upToDate` is false once the job object was edited behind its back, so that its next status
      update meets a version conflict. */
  datatype Flight = Flight(began: Api, spec: Spec, inputs: Inputs, todo: seq<Op>, upToDate: bool)

  /** What rank zero of a run attempt is doing. */
  datatype Worker =
    | Saving(id: string, todo: seq<Trainer.StagedFile>, uploaded: seq<Artifact>)
    | Saved(manifest: Manifest)

  /** `startedAt`, `requestedAt` and `builtAt` are history: the instants at which the current attempt
      was recorded, the last stop was requested, and each stored manifest was built. */
  datatype World = World(
    api: Api,
    clock: Time,
    flight: Option<Flight>,
    workers: map<nat, Worker>,
    startedAt: Time,
    requestedAt: Time,
    builtAt: map<string, Time>)

  datatype Step =
    | Begin(inputs: Inputs)
    | Call
    | Crash
    | EditSpec(desiredRunning: bool, suspended: bool, maxDrainTime: int)
    | DeleteExternally(attempt: nat)
    | DeletionCompletes(attempt: nat)
    | Tick(to: Time)
    | BeginSave(attempt: nat, stamp: string, step: nat, files: seq<Trainer.StagedFile>)
    | UploadArtifact(attempt: nat)
    | UploadManifest(attempt: nat, identity: Manifest, builtAt: Time)
    | UploadMarker(attempt: nat, requestID: string)
    | WorkerDies(attempt: nat)

  ghost predicate Init(w: World) {
    && w.api.status == NEW_RECORD
    && w.api.jobSets == map[] && w.api.restoresFrom == map[] && w.api.controls == map[] && w.api.store == map[]
    && w.flight == None && w.workers == map[] && w.builtAt == map[]
    && w.startedAt <= w.clock && w.requestedAt <= w.clock
  }

  function ManifestToUpload(w: World, attempt: nat, identity: Manifest, builtAt: Time): Manifest
    requires attempt in w.workers && w.workers[attempt].Saving?
  {
    Trainer.BuildManifest(identity, w.api.spec.storageRoot, w.workers[attempt].id, attempt,
                          w.workers[attempt].uploaded, builtAt)
  }

  ghost predicate Enabled(w: World, step: Step) {
    match step
    case Begin(in_) =>
      && w.flight.None? && in_.now == w.clock
      && Chosen(w.api.store, in_.listing, in_.request, in_.choice)
    case Call => w.flight.Some? && w.flight.value.todo != []
    case Crash => true
    case EditSpec(_, _, _) => true
    case DeleteExternally(a) => true
    case DeletionCompletes(a) => a in w.api.jobSets && w.api.jobSets[a] == Terminating
    case Tick(t) => w.clock <= t
    case BeginSave(a, stamp, step, _) => IsStamp(stamp)
    case UploadArtifact(a) => a in w.workers && w.workers[a].Saving? && w.workers[a].todo != []
    case UploadManifest(a, identity, t) =>
      && a in w.workers && w.workers[a].Saving? && w.workers[a].todo == []
      && t <= w.clock && Complete(ManifestToUpload(w, a, identity, t))
      && var uri := ManifestURI(w.api.spec.storageRoot, w.workers[a].id); (uri in w.builtAt ==> w.builtAt[uri] <= t)
    case UploadMarker(a, requestID) => a in w.workers && w.workers[a].Saved?
    case WorkerDies(a) => true
  }

  /** One call of the reconcile in flight. */
  function AfterCall(w: World): World
    requires w.flight.Some? && w.flight.value.todo != []
  {
    var f := w.flight.value;
    var op := f.todo[0];
    if op.Persist? && !f.upToDate then w.(flight := None)
    else
      var w1 := w.(api := Apply(w.api, op),
                   flight := Some(f.(todo := Rest(w.api, f.spec, f.todo, f.inputs))));
      if !op.Persist? then w1
      else w1.(startedAt := if op.record.attempt == w.api.status.attempt then w.startedAt else w.clock,
               requestedAt := if op.record.yieldRequestedAt == w.api.status.yieldRequestedAt || op.record.yieldRequestedAt.None?
                              then w.requestedAt else op.record.yieldRequestedAt.value)
  }

  ghost function Next(w: World, step: Step): World
    requires Enabled(w, step)
  {
    match step
    case Begin(in_) => w.(flight := Some(Flight(w.api, w.api.spec, in_, ReconcileOps(w.api, in_), true)))
    case Call => AfterCall(w)
    case Crash => w.(flight := None)
    case EditSpec(d, s, m) =>
      w.(api := w.api.(spec := w.api.spec.(desiredRunning := d, suspended := s, maxDrainTime := m,
                                           generation := w.api.spec.generation + 1)),
         flight := if w.flight.None? then None else Some(w.flight.value.(upToDate := false)))
    case DeleteExternally(a) => w.(api := Apply(w.api, DeleteJobSet(a, false)))
    case DeletionCompletes(a) => w.(api := w.api.(jobSets := w.api.jobSets - {a}))
    case Tick(t) => w.(clock := t)
    case BeginSave(a, stamp, step, files) =>
      w.(workers := w.workers[a := Saving(CheckpointID(stamp, a, step), files, [])])
    case UploadArtifact(a) =>
      var k := w.workers[a];
      var file := k.todo[0];
      w.(api := w.api.(store := w.api.store[ArtifactURI(w.api.spec.storageRoot, k.id, file.relativePath) := Blob]),
         workers := w.workers[a := Saving(k.id, k.todo[1..],
                                          k.uploaded + [Trainer.ArtifactOf(w.api.spec.storageRoot, k.id, file)])])
    case UploadManifest(a, identity, t) =>
      var m := ManifestToUpload(w, a, identity, t);
      w.(api := w.api.(store := w.api.store[m.manifestURI := ManifestDoc(m)]),
         workers := w.workers[a := Saved(m)],
         builtAt := w.builtAt[m.manifestURI := t])
    case UploadMarker(a, requestID) =>
      var m := w.workers[a].manifest;
      w.(api := w.api.(store := w.api.store[YieldMarkerURI(w.api.spec.storageRoot, a) :=
           MarkerDoc(YieldMarker(m.checkpointID, m.manifestURI, requestID, Written(m.completedAt)))]))
    case WorkerDies(a) => w.(workers := w.workers - {a})
  }

  /** The steps can be taken one after another from w. */
  ghost predicate CanRun(w: World, steps: seq<Step>)
    decreases |steps|
  {
    steps == [] || (Enabled(w, steps[0]) && CanRun(Next(w, steps[0]), steps[1..]))
  }

  ghost function Reached(w: World, steps: seq<Step>): World
    requires CanRun(w, steps)
    decreases |steps|
  {
    if steps == [] then w else Reached(Next(w, steps[0]), steps[1..])
  }

  /** The calls of a reconcile, made without interruption until the process dies, are steps of this machine. */
  lemma {:induction false} FlightRuns(w: World, calls: nat) returns (steps: seq<Step>)
    requires w.flight.Some? && w.flight.value.upToDate && w.flight.value.spec == w.api.spec
    ensures CanRun(w, steps)
    ensures Reached(w, steps).api == RunOps(w.api, w.flight.value.todo, w.flight.value.inputs, calls)
    decreases calls
  {
    if w.flight.value.todo == [] || calls == 0 {
      steps := [Crash];
      assert CanRun(Next(w, Crash), steps[1..]);
    } else {
      var rest := FlightRuns(AfterCall(w), calls - 1);
      steps := [Call] + rest;
      assert steps[1..] == rest;
    }
  }

  /** Every outcome of the controller's Reconcile, dying at any point, is the outcome of a run. */
  lemma ReconcileIsARun(w: World, in_: Inputs, calls: nat) returns (steps: seq<Step>)
    requires w.flight.None? && Enabled(w, Begin(in_))
    ensures CanRun(w, steps)
    ensures Reached(w, steps).api == RunOps(w.api, ReconcileOps(w.api, in_), in_, calls)
  {
    var rest := FlightRuns(Next(w, Begin(in_)), calls);
    steps := [Begin(in_)] + rest;
    assert steps[1..] == rest;
  }

  // ---- The trainer's runs ----

  /** Uploading n of the remaining files, one step each. */
  lemma {:induction false} UploadsRun(w: World, a: nat, n: nat) returns (steps: seq<Step>, end: World)
    requires a in w.workers && w.workers[a].Saving? && n <= |w.workers[a].todo|
    ensures CanRun(w, steps) && end == Reached(w, steps)
    ensures var root, k := w.api.spec.storageRoot, w.workers[a];
            && a in end.workers
            && end.workers[a] == Saving(k.id, k.todo[n..], k.uploaded + Trainer.ArtifactsOf(root, k.id, k.todo[..n]))
            && end == w.(api := w.api.(store := Trainer.Uploaded(root, k.id, w.api.store, k.todo[..n])),
                         workers := w.workers[a := end.workers[a]])
    decreases n
  {
    var root, k := w.api.spec.storageRoot, w.workers[a];
    if n == 0 {
      steps, end := [], w;
      assert k.uploaded + Trainer.ArtifactsOf(root, k.id, k.todo[..0]) == k.uploaded;
      assert w.workers == w.workers[a := k];
    } else {
      var next := Next(w, UploadArtifact(a));
      var rest;
      rest, end := UploadsRun(next, a, n - 1);
      steps := [UploadArtifact(a)] + rest;
      assert steps[1..] == rest;
      assert k.todo[1..][n - 1..] == k.todo[n..] && k.todo[1..][..n - 1] == k.todo[..n][1..];
      Trainer.FirstArtifact(root, k.id, k.todo[..n]);
      assert next.workers[a := end.workers[a]] == w.workers[a := end.workers[a]];
    }
  }

  /** Uploading the manifest and then the marker, as far as the uploads go. */
  lemma FinishRuns(w: World, a: nat, identity: Manifest, requestID: string, t: Time, uploads: nat) returns (steps: seq<Step>)
    requires a in w.workers && w.workers[a].Saving? && w.workers[a].todo == []
    requires t <= w.clock
    requires var uri := ManifestURI(w.api.spec.storageRoot, w.workers[a].id); uri in w.builtAt ==> w.builtAt[uri] <= t
    ensures CanRun(w, steps)
    ensures Reached(w, steps).api ==
            w.api.(store := Trainer.Finished(w.api.spec.storageRoot, w.api.store, a, w.workers[a].id, w.workers[a].uploaded,
                                             identity, requestID, t, uploads))
  {
    var manifest, marker := UploadManifest(a, identity, t), UploadMarker(a, requestID);
    if uploads == 0 || !Complete(ManifestToUpload(w, a, identity, t)) {
      steps := [];
    } else if uploads == 1 {
      RunFirstStep(w, manifest, []);
      steps := [manifest] + [];
    } else {
      RunFirstStep(Next(w, manifest), marker, []);
      RunFirstStep(w, manifest, [marker] + []);
      steps := [manifest] + ([marker] + []);
    }
  }

  lemma RunFirstStep(w: World, step: Step, rest: seq<Step>)
    requires Enabled(w, step) && CanRun(Next(w, step), rest)
    ensures CanRun(w, [step] + rest) && Reached(w, [step] + rest) == Reached(Next(w, step), rest)
  {
    assert ([step] + rest)[1..] == rest;
  }

  lemma {:induction false} RunsCompose(w: World, first: seq<Step>, second: seq<Step>)
    requires CanRun(w, first) && CanRun(Reached(w, first), second)
    ensures CanRun(w, first + second) && Reached(w, first + second) == Reached(Reached(w, first), second)
    decreases |first|
  {
    if first == [] {
      assert first + second == second;
    } else {
      RunsCompose(Next(w, first[0]), first[1..], second);
      assert (first + second)[1..] == first[1..] + second;
    }
  }

  /** Every outcome of the trainer's yield branch, dying after any upload, is the outcome of a run. */
  lemma YieldIsARun(w: World, a: nat, stamp: string, step: nat, files: seq<Trainer.StagedFile>, identity: Manifest,
                    requestID: string, builtAt: Time, uploads: nat) returns (steps: seq<Step>)
    requires IsStamp(stamp) && builtAt <= w.clock
    requires var uri := ManifestURI(w.api.spec.storageRoot, CheckpointID(stamp, a, step));
             uri in w.builtAt ==> w.builtAt[uri] <= builtAt
    ensures CanRun(w, steps)
    ensures Reached(w, steps).api ==
            w.api.(store := Trainer.Yielded(w.api.spec.storageRoot, w.api.store, a, CheckpointID(stamp, a, step), files,
                                            identity, requestID, builtAt, uploads))
  {
    var n := if uploads < |files| then uploads else |files|;
    var begin := BeginSave(a, stamp, step, files);
    var rest, end := UploadsRun(Next(w, begin), a, n);
    steps := [begin] + rest;
    assert steps[1..] == rest;
    if uploads >= |files| {
      var artifacts := Trainer.ArtifactsOf(w.api.spec.storageRoot, CheckpointID(stamp, a, step), files);
      assert files[..n] == files && files[n..] == [] && [] + artifacts == artifacts;
      var more := FinishRuns(end, a, identity, requestID, builtAt, uploads - |files|);
      RunsCompose(w, steps, more);
      steps := steps + more;
    }
  }
}
