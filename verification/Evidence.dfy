/** Evidence that ends a drain is never stale: it was built by the current attempt, after the stop
    request, which itself was made after the attempt was recorded. */
module Evidence {
  import opened Foundation
  import opened Checkpoints
  import opened ObjectStorage
  import opened Catalog
  import opened Status
  import opened Reconcile
  import opened Lifecycle
  import opened SingleRun
  import opened Durability

  /** Stored completion times are the stored form of the instants at which manifests were built. */
  ghost predicate BuiltInv(w: World) {
    forall uri :: uri in w.api.store && w.api.store[uri].ManifestDoc? ==>
      && uri in w.builtAt && w.builtAt[uri] <= w.clock
      && w.api.store[uri].manifest.completedAt == Some(Stored(w.builtAt[uri]))
  }

  /** A status update that leaves the run stopping either keeps the recorded request or makes one now. */
  predicate Timely(r: Record, now: Time, op: Op) {
    match op
    case Persist(t) =>
      && (t.yieldRequestedAt == r.yieldRequestedAt || t.yieldRequestedAt == Some(now))
      && (Stopping(t.phase) ==>
            && t.attempt == r.attempt
            && (t.yieldRequestedAt == Some(now) || (Stopping(r.phase) && t.yieldRequestedAt == r.yieldRequestedAt)))
    case Observe(id, at) => Stopping(r.phase) && id == r.pauseRequest && id != "" && r.yieldRequestedAt == Some(at)
    case _ => true
  }

  /** Observations come without status updates, and a second update in one reconcile makes a request now. */
  predicate AllTimely(r: Record, now: Time, ops: seq<Op>) {
    && (forall i :: 0 <= i < |ops| ==> Timely(r, now, ops[i]))
    && (forall i, j :: 0 <= i < |ops| && 0 <= j < |ops| && ops[i].Observe? ==> !ops[j].Persist?)
    && (forall i, j :: 0 <= i < j < |ops| && ops[i].Persist? && ops[j].Persist? ==>
          ops[j].record.yieldRequestedAt == Some(now))
  }

  ghost predicate TimeInv(w: World) {
    var r := w.api.status;
    && w.startedAt <= w.clock && w.requestedAt <= w.clock
    && (r.yieldRequestedAt.Some? ==> r.yieldRequestedAt == Some(Stored(w.requestedAt)))
    && (Stopping(r.phase) ==> r.yieldRequestedAt.Some? && w.startedAt <= w.requestedAt)
    && (w.flight.Some? && w.flight.value.todo != [] ==>
          && w.startedAt <= w.flight.value.inputs.now <= w.clock
          && AllTimely(r, w.flight.value.inputs.now, w.flight.value.todo))
  }

  ghost predicate EvidenceInv(w: World) {
    SingleRunInv(w) && DurableInv(w) && BuiltInv(w) && TimeInv(w)
  }

  lemma StopTimely(api: Api, s: Record, source: Source, in_: Inputs)
    requires StopRecorded(s) ==> s == api.status
    requires s.attempt == api.status.attempt
    requires s.yieldRequestedAt == api.status.yieldRequestedAt || !Stopping(s.phase)
    requires Stopping(api.status.phase) ==> api.status.yieldRequestedAt.Some?
    requires s.pauseRequest == "" ==> !Stopping(s.phase) || s == api.status
    requires Stopping(s.phase) ==> s == api.status
    ensures AllTimely(api.status, in_.now, StopOps(api, s, source, in_))
  {
  }

  lemma CreateTimely(api: Api, a: nat, from_: string, done: Record, in_: Inputs)
    requires done.yieldRequestedAt == api.status.yieldRequestedAt && !Stopping(done.phase)
    ensures AllTimely(api.status, in_.now, CreateOps(api.status, api.spec, a, from_, done, in_))
  {
  }

  lemma RunningTimely(api: Api, in_: Inputs)
    requires Persisted(api.status) == api.status
    ensures AllTimely(api.status, in_.now, RunningOps(api, in_))
  {
  }

  lemma ResumeTimely(api: Api, in_: Inputs)
    ensures AllTimely(api.status, in_.now, ResumeOps(api.status, api.spec, in_))
  {
    var s := api.status;
    var recorded := s.phase == Restoring && s.selected.Some?;
    if recorded || (!in_.selectFails && in_.choice.Some?) {
      var ref := if recorded then s.selected.value else in_.choice.value;
      var a := ResumeAttempt(s);
      CreateTimely(api, a, ref.manifestURI, Restored(s, a, ref, api.spec.generation, in_.now), in_);
    }
  }

  lemma PlainTimely(api: Api, p: Phase, in_: Inputs)
    requires p != YieldRequested && (Stopping(p) ==> Stopping(api.status.phase))
    ensures AllTimely(api.status, in_.now, PersistIf(api.status, Moved(api.status, p, api.spec.generation, in_.now)))
  {
  }

  lemma InitializedTimely(api: Api, in_: Inputs)
    ensures AllTimely(api.status, in_.now, PersistIf(api.status, Initialized(api.status, api.spec.generation, in_.now)))
  {
  }

  lemma LaunchTimely(api: Api, in_: Inputs)
    ensures AllTimely(api.status, in_.now, LaunchOps(api.status, api.spec, in_))
  {
    var s := api.status;
    CreateTimely(api, s.attempt + 1, if s.selected.Some? then s.selected.value.manifestURI else "",
                 Started(s, s.attempt + 1, api.spec.generation, in_.now), in_);
  }

  /** The part of a reconcile that finds no run, nor a reason to hold. */
  lemma IdleTimely(api: Api, in_: Inputs)
    requires api.status.phase != NoPhase && api.status.observedGeneration == api.spec.generation
    requires !(api.status.activeJobSet.Some? && in_.lookupFails) && !ActiveExists(api) && api.spec.desiredRunning
    ensures AllTimely(api.status, in_.now, ReconcileOps(api, in_))
  {
    var s, sp := api.status, api.spec;
    if sp.suspended {
      PlainTimely(api, Queued, in_);
    } else if in_.gated || in_.conflictingUpdates {
      PlainTimely(api, Failed, in_);
    } else if ShouldResume(s) {
      ResumeTimely(api, in_);
      assert ReconcileOps(api, in_) == ResumeOps(s, sp, in_);
    } else {
      LaunchTimely(api, in_);
      assert ReconcileOps(api, in_) == LaunchOps(s, sp, in_);
    }
  }

  lemma ReconcileTimely(api: Api, in_: Inputs)
    requires Persisted(api.status) == api.status
    requires Stopping(api.status.phase) ==> api.status.yieldRequestedAt.Some?
    ensures AllTimely(api.status, in_.now, ReconcileOps(api, in_))
  {
    var s, sp := api.status, api.spec;
    if s.phase == NoPhase || s.observedGeneration != sp.generation {
      InitializedTimely(api, in_);
    } else if s.activeJobSet.Some? && in_.lookupFails {
      PlainTimely(api, Failed, in_);
    } else if RequestedStop(api).Some? {
      StopTimely(api, s, RequestedStop(api).value, in_);
      assert ReconcileOps(api, in_) == StopOps(api, s, RequestedStop(api).value, in_);
    } else if !sp.desiredRunning {
      PlainTimely(api, Paused, in_);
      PlainTimely(api, Pending, in_);
    } else if ActiveExists(api) {
      RunningTimely(api, in_);
      assert ReconcileOps(api, in_) == RunningOps(api, in_);
    } else {
      IdleTimely(api, in_);
    }
  }

  lemma ObserveTimely(api: Api, sp: Spec, id: string, at: Time, in_: Inputs)
    requires Timely(api.status, in_.now, Observe(id, at))
    ensures AllTimely(api.status, in_.now, ObserveOps(api, sp, id, at, in_))
  {
  }

  /** What a status update does to the recorded times. */
  lemma PersistKeepsTime(w: World)
    requires SingleRunInv(w) && TimeInv(w)
    requires w.flight.Some? && w.flight.value.todo != [] && w.flight.value.todo[0].Persist?
    ensures TimeInv(AfterCall(w))
  {
    var f, w' := w.flight.value, AfterCall(w);
    var now, t, rest := f.inputs.now, f.todo[0].record, f.todo[1..];
    assert AllowedAt(w.api, f.todo, 0);
    assert Timely(w.api.status, now, f.todo[0]);
    StoredOrder(w.requestedAt, w.requestedAt);
    forall i | 0 <= i < |rest| ensures Timely(w'.api.status, now, rest[i]) {
      assert AllowedAt(w.api, f.todo, 1) && rest[i] == f.todo[1] && Timely(w.api.status, now, f.todo[1]);
    }
  }

  lemma CallKeepsTime(w: World)
    requires SingleRunInv(w) && TimeInv(w)
    requires w.flight.Some? && w.flight.value.todo != []
    ensures TimeInv(AfterCall(w))
  {
    var f := w.flight.value;
    var op := f.todo[0];
    assert Timely(w.api.status, f.inputs.now, op);
    if op.Persist? {
      PersistKeepsTime(w);
    } else if op.Observe? {
      ObserveTimely(w.api, f.spec, op.requestID, op.requestedAt, f.inputs);
    } else {
      var rest := f.todo[1..];
      assert forall i :: 0 <= i < |rest| ==> rest[i] == f.todo[i + 1];
    }
  }

  lemma StepKeepsTime(w: World, step: Step)
    requires SingleRunInv(w) && TimeInv(w) && Enabled(w, step)
    ensures TimeInv(Next(w, step))
  {
    if step.Call? {
      CallKeepsTime(w);
    } else if step.Begin? {
      StoredOrder(w.requestedAt, w.requestedAt);
      ReconcileTimely(w.api, step.inputs);
    }
  }

  lemma StepKeepsBuilt(w: World, step: Step)
    requires BuiltInv(w) && Enabled(w, step)
    ensures BuiltInv(Next(w, step))
  {
    var w' := Next(w, step);
    if step.UploadManifest? {
      ManifestKeepsBuilt(w, step.attempt, step.identity, step.builtAt);
    } else {
      assert w'.builtAt == w.builtAt && w'.clock >= w.clock;
      forall uri | uri in w'.api.store && w'.api.store[uri].ManifestDoc?
        ensures uri in w.api.store && w.api.store[uri] == w'.api.store[uri]
      {
        if !step.UploadArtifact? && !step.UploadMarker? { assert w'.api.store == w.api.store; }
      }
    }
  }

  lemma ManifestKeepsBuilt(w: World, a: nat, identity: Manifest, t: Time)
    requires BuiltInv(w) && Enabled(w, UploadManifest(a, identity, t))
    ensures BuiltInv(Next(w, UploadManifest(a, identity, t)))
  {
  }

  lemma StepKeepsEvidence(w: World, step: Step)
    requires EvidenceInv(w) && Enabled(w, step)
    ensures EvidenceInv(Next(w, step))
  {
    StepKeepsSingleRun(w, step);
    StepKeepsDurable(w, step);
    StepKeepsTime(w, step);
    StepKeepsBuilt(w, step);
  }

  lemma {:induction false} RunKeepsEvidence(w: World, steps: seq<Step>)
    requires EvidenceInv(w) && CanRun(w, steps)
    ensures EvidenceInv(Reached(w, steps))
    decreases |steps|
  {
    if steps != [] {
      StepKeepsEvidence(w, steps[0]);
      RunKeepsEvidence(Next(w, steps[0]), steps[1..]);
    }
  }

  /** What an observation of the bucket shows when it ends a drain. */
  lemma ObservationIsFresh(w: World)
    requires EvidenceInv(w)
    requires w.flight.Some? && w.flight.value.todo != [] && w.flight.value.todo[0].Observe?
    ensures var op, n := w.flight.value.todo[0], w.api.status.attempt;
            var marker := YieldMarkerURI(w.api.spec.storageRoot, n);
            var seen := ObservePause(w.api.store, marker, op.requestID, op.requestedAt);
            && op.requestID == w.api.status.pauseRequest
            && op.requestedAt == Stored(w.requestedAt)
            && w.startedAt <= w.requestedAt
            && (seen.Accepted? ==>
                  && seen.checkpoint.sourceRunAttempt == n
                  && CompleteAt(w.api.store, seen.checkpoint.manifestURI)
                  && w.api.store[seen.checkpoint.manifestURI].manifest.runAttempt == n
                  && seen.checkpoint.manifestURI in w.builtAt
                  && w.requestedAt < w.builtAt[seen.checkpoint.manifestURI]
                  && After(Instant(w.api.store[marker].marker.completedAt), op.requestedAt))
  {
    var op, n := w.flight.value.todo[0], w.api.status.attempt;
    assert Timely(w.api.status, w.flight.value.inputs.now, op);
    AcceptedExactly(w.api.spec.storageRoot, w.api.store, n, op.requestID, op.requestedAt);
    assert MarkerOfAttempt(w.api.spec.storageRoot, w.api.store, n);
    var seen := ObservePause(w.api.store, YieldMarkerURI(w.api.spec.storageRoot, n), op.requestID, op.requestedAt);
    if seen.Accepted? {
      StoredOrder(w.requestedAt, w.builtAt[seen.checkpoint.manifestURI]);
    }
  }

  /** In every run, an observation that ends a drain shows a manifest which attempt n, the recorded one,
      finished strictly after the stop was requested, and the stop was requested no earlier than attempt n was
      recorded. The request id plays no part: it may be left over from an earlier attempt. */
  lemma NoStaleEvidence(w: World, steps: seq<Step>)
    requires Init(w) && CanRun(w, steps)
    ensures var now := Reached(w, steps);
            now.flight.Some? && now.flight.value.todo != [] && now.flight.value.todo[0].Observe? ==>
              (var op, n := now.flight.value.todo[0], now.api.status.attempt;
               var marker := YieldMarkerURI(now.api.spec.storageRoot, n);
               var seen := ObservePause(now.api.store, marker, op.requestID, op.requestedAt);
               && op.requestID == now.api.status.pauseRequest
               && op.requestedAt == Stored(now.requestedAt)
               && now.startedAt <= now.requestedAt
               && (seen.Accepted? ==>
                     && seen.checkpoint.sourceRunAttempt == n
                     && seen.checkpoint.manifestURI in now.builtAt
                     && now.requestedAt < now.builtAt[seen.checkpoint.manifestURI]
                     && After(Instant(now.api.store[marker].marker.completedAt), op.requestedAt)))
  {
    RunKeepsEvidence(w, steps);
    var now := Reached(w, steps);
    if now.flight.Some? && now.flight.value.todo != [] && now.flight.value.todo[0].Observe? {
      ObservationIsFresh(now);
    }
  }

  // ---- Up to the delete ----

  /** The recorded attempt is a, and the recorded checkpoint is its own answer to the stop request. */
  ghost predicate Answered(w: World, a: nat) {
    && a == w.api.status.attempt
    && w.startedAt <= w.requestedAt
    && w.api.status.lastCompleted.Some?
    && var uri := w.api.status.lastCompleted.value.manifestURI;
       && CompleteAt(w.api.store, uri) && w.api.store[uri].manifest.runAttempt == a
       && uri in w.builtAt && w.requestedAt < w.builtAt[uri]
  }

  ghost predicate TeardownInv(w: World) {
    w.flight.Some? ==> forall i, a ::
      0 <= i < |w.flight.value.todo| && w.flight.value.todo[i] == DeleteJobSet(a, false) ==> Answered(w, a)
  }

  /** Every delete in the list is a timeout. */
  predicate OnlyTimeouts(ops: seq<Op>) {
    forall i :: 0 <= i < |ops| && ops[i].DeleteJobSet? ==> ops[i].timedOut
  }

  lemma StopLooksFirst(api: Api, s: Record, source: Source, in_: Inputs)
    ensures OnlyTimeouts(StopOps(api, s, source, in_))
  {
  }

  lemma RunningLooksFirst(api: Api, in_: Inputs)
    ensures OnlyTimeouts(RunningOps(api, in_))
  {
    var s := api.status;
    var running := Moved(s, Running, api.spec.generation, in_.now);
    StopLooksFirst(api, if s == running then s else Persisted(running), Resize, in_);
  }

  lemma CreationDeletesNothing(s: Record, sp: Spec, in_: Inputs)
    ensures OnlyTimeouts(ResumeOps(s, sp, in_)) && OnlyTimeouts(LaunchOps(s, sp, in_))
  {
  }

  /** A reconcile never sets out to delete: it first looks at the bucket. */
  lemma LooksBeforeDeleting(api: Api, in_: Inputs)
    ensures OnlyTimeouts(ReconcileOps(api, in_))
  {
    var s, sp := api.status, api.spec;
    if s.phase == NoPhase || s.observedGeneration != sp.generation || (s.activeJobSet.Some? && in_.lookupFails) {
    } else if RequestedStop(api).Some? {
      StopLooksFirst(api, s, RequestedStop(api).value, in_);
      assert ReconcileOps(api, in_) == StopOps(api, s, RequestedStop(api).value, in_);
    } else if !sp.desiredRunning {
      assert ReconcileOps(api, in_) == HoldOps(s, sp, in_.now);
    } else if ActiveExists(api) {
      RunningLooksFirst(api, in_);
      assert ReconcileOps(api, in_) == RunningOps(api, in_);
    } else if !sp.suspended && !in_.gated && !in_.conflictingUpdates {
      CreationDeletesNothing(s, sp, in_);
    }
  }

  lemma ObservationAnswers(w: World, i: nat, a: nat)
    requires EvidenceInv(w)
    requires w.flight.Some? && w.flight.value.todo != [] && w.flight.value.todo[0].Observe?
    requires i < |AfterCall(w).flight.value.todo| && AfterCall(w).flight.value.todo[i] == DeleteJobSet(a, false)
    ensures Answered(AfterCall(w), a)
  {
    ObservationIsFresh(w);
  }

  lemma CallKeepsTeardown(w: World)
    requires EvidenceInv(w) && TeardownInv(w)
    requires w.flight.Some? && w.flight.value.todo != []
    ensures TeardownInv(AfterCall(w))
  {
    var f, w' := w.flight.value, AfterCall(w);
    if w'.flight.Some? {
      var rest := w'.flight.value.todo;
      if f.todo[0].Observe? {
        forall i, a | 0 <= i < |rest| && rest[i] == DeleteJobSet(a, false) ensures Answered(w', a) {
          ObservationAnswers(w, i, a);
        }
      } else {
        assert forall i :: 0 <= i < |rest| ==> rest[i] == f.todo[i + 1];
      }
    }
  }

  lemma StepKeepsTeardown(w: World, step: Step)
    requires EvidenceInv(w) && TeardownInv(w) && Enabled(w, step)
    ensures TeardownInv(Next(w, step))
  {
    var w' := Next(w, step);
    if step.Call? {
      CallKeepsTeardown(w);
    } else if step.Begin? {
      LooksBeforeDeleting(w.api, step.inputs);
    } else {
      StepKeepsDurable(w, step);
      GrowthKeepsAnswered(w, step);
    }
  }

  lemma GrowthKeepsAnswered(w: World, step: Step)
    requires Enabled(w, step) && !step.Call? && !step.Begin?
    requires Retains(w.api.store, Next(w, step).api.store)
    ensures forall a :: Answered(w, a) ==> Answered(Next(w, step), a)
  {
    var w' := Next(w, step);
    assert w'.api.status == w.api.status && w'.requestedAt == w.requestedAt && w'.startedAt == w.startedAt;
    assert forall uri :: uri in w.builtAt ==> uri in w'.builtAt && w.builtAt[uri] <= w'.builtAt[uri];
  }

  lemma {:induction false} RunKeepsTeardown(w: World, steps: seq<Step>)
    requires EvidenceInv(w) && TeardownInv(w) && CanRun(w, steps)
    ensures TeardownInv(Reached(w, steps))
    decreases |steps|
  {
    if steps != [] {
      StepKeepsTeardown(w, steps[0]);
      StepKeepsEvidence(w, steps[0]);
      RunKeepsTeardown(Next(w, steps[0]), steps[1..]);
    }
  }

  /** In every run, when the controller deletes a JobSet for any reason but a timeout, it is the JobSet of the recorded
      attempt, and the recorded checkpoint is complete, was taken by that attempt, and was built strictly after a stop
      request made no earlier than the attempt was recorded. */
  lemma FreshBeforeDelete(w: World, steps: seq<Step>, a: nat)
    requires Init(w) && CanRun(w, steps)
    requires var now := Reached(w, steps);
             && now.flight.Some? && now.flight.value.todo != []
             && now.flight.value.todo[0] == DeleteJobSet(a, false)
    ensures Answered(Reached(w, steps), a)
  {
    RunKeepsTeardown(w, steps);
  }

  /** Timestamps lose their fraction of a second, so not every checkpoint finished after the request is
      taken for an answer: in every run, a marker that answers the recorded request is accepted exactly when its
      manifest was built at or after the first whole second following the request. */
  lemma AcceptedFromTheNextSecond(w: World, steps: seq<Step>)
    requires Init(w) && CanRun(w, steps)
    requires var now := Reached(w, steps);
             var marker := YieldMarkerURI(now.api.spec.storageRoot, now.api.status.attempt);
             && marker in now.api.store && now.api.store[marker].MarkerDoc?
             && now.api.store[marker].marker.requestID == now.api.status.pauseRequest
             && CompleteMarker(now.api.store[marker].marker)
             && CompleteAt(now.api.store, now.api.store[marker].marker.manifestURI)
             && Instant(now.api.store[marker].marker.completedAt) ==
                now.api.store[now.api.store[marker].marker.manifestURI].manifest.completedAt
    ensures var now := Reached(w, steps);
            var marker := YieldMarkerURI(now.api.spec.storageRoot, now.api.status.attempt);
            var uri := now.api.store[marker].marker.manifestURI;
            && uri in now.builtAt
            && (ObservePause(now.api.store, marker, now.api.status.pauseRequest, Stored(now.requestedAt)).Accepted? <==>
                Stored(now.requestedAt) + SECOND <= now.builtAt[uri])
  {
    RunKeepsEvidence(w, steps);
    var now := Reached(w, steps);
    var marker := YieldMarkerURI(now.api.spec.storageRoot, now.api.status.attempt);
    AcceptedExactly(now.api.spec.storageRoot, now.api.store, now.api.status.attempt,
                    now.api.status.pauseRequest, Stored(now.requestedAt));
    StoredOrder(now.requestedAt, now.builtAt[now.api.store[marker].marker.manifestURI]);
  }

  /** A bucket that holds one complete checkpoint and its marker, built at 0.9 s. */
  function SmallBucket(): Store {
    var t := Stored(900_000_000);
    var m := Manifest("c", "k", "j", 1, "i", "v", "ddp", 1, "g", "o", "s", SUPPORTED_FORMAT, None, "", "r", "m",
                      [Artifact("f", "f", "a", 0, "sha256", "d")], Some(t));
    map["a" := Blob, "m" := ManifestDoc(m), "y" := MarkerDoc(YieldMarker("c", "m", "pause", At(t)))]
  }

  /** A stop requested at 0.1 s and answered by that complete checkpoint at 0.9 s is not accepted. */
  lemma SameSecondIsRejected()
    ensures CompleteAt(SmallBucket(), "m") && CompleteMarker(SmallBucket()["y"].marker)
    ensures ObservePause(SmallBucket(), "y", "pause", Stored(100_000_000)) == NotReady
  {
    var m := SmallBucket()["m"].manifest;
    assert m.checkpointID[0] == 'c' && m.storageRootURI[0] == 'r';
    assert m.artifacts[0].name[0] == 'f' && m.artifacts[0].relativePath[0] == 'f' && m.artifacts[0].objectURI[0] == 'a';
    assert m.artifacts[0].digestAlgorithm[0] == 's' && m.artifacts[0].digestValue[0] == 'd';
  }
}
