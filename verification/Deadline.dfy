/** The drain deadline is fixed when the stop is recorded: while a stop stays requested and no reconcile meets
    an error, neither the request id nor the request time changes, and the first reconcile past the deadline
    takes the run down. */
module Deadline {
  import opened Foundation
  import opened Checkpoints
  import opened Catalog
  import opened Status
  import opened Reconcile
  import opened Lifecycle
  import opened Evidence
  import opened Controls

  /** The step is not a reconcile, or a reconcile that finds the stop still requested and meets no error.
      Crashes, conflicts, spec edits, uploads and deletions by others are all admitted. */
  ghost predicate Holds(w: World, step: Step)
    requires Enabled(w, step)
  {
    match step
    case Begin(in_) =>
      && RequestedStop(w.api).Some?
      && !in_.lookupFails && !in_.controlFails && !in_.readFails
    case Call =>
      var f := w.flight.value;
      f.todo[0].Observe? ==>
        !ObservePause(w.api.store, YieldMarkerURI(f.spec.storageRoot, w.api.status.attempt),
                      f.todo[0].requestID, f.todo[0].requestedAt).ReadError?
    case _ => true
  }

  ghost predicate HoldsThroughout(w: World, steps: seq<Step>)
    requires CanRun(w, steps)
    decreases |steps|
  {
    steps == [] || (Holds(w, steps[0]) && HoldsThroughout(Next(w, steps[0]), steps[1..]))
  }

  /** The call at i leaves request id and time alone; it can only leave the stopping phases once the
      recorded JobSet is gone. */
  predicate FrozenAt(api: Api, id: string, at: Time, ops: seq<Op>, i: nat)
    requires i < |ops|
  {
    match ops[i]
    case Persist(t) =>
      && t.pauseRequest == id && t.yieldRequestedAt == Some(at)
      && t.activeJobSet == api.status.activeJobSet && t.control == api.status.control
      && (Stopping(t.phase) || if i == 0 then !ActiveExists(api) else ops[i - 1].DeleteJobSet? && api.status.activeJobSet == Some(ops[i - 1].attempt))
      && i + 1 == |ops|
    case CreateJobSet(_, _) => false
    case _ => true
  }

  predicate AllFrozen(api: Api, id: string, at: Time, ops: seq<Op>) {
    forall i | 0 <= i < |ops| :: FrozenAt(api, id, at, ops, i)
  }

  ghost predicate Frozen(w: World, id: string, at: Time) {
    && w.api.status.pauseRequest == id && w.api.status.yieldRequestedAt == Some(at) && Stored(at) == at
    && (StopRecorded(w.api.status) || !ActiveExists(w.api))
    && (w.flight.Some? ==>
          && w.flight.value.spec.storageRoot == w.api.spec.storageRoot
          && !w.flight.value.inputs.readFails
          && AllFrozen(w.api, id, at, w.flight.value.todo)
          && (forall i :: 0 <= i < |w.flight.value.todo| && w.flight.value.todo[i].Observe? ==>
                StopRecorded(w.api.status) && |w.flight.value.todo| == i + 1))
  }

  lemma BeginKeepsFrozen(w: World, in_: Inputs, id: string, at: Time)
    requires Frozen(w, id, at) && ControlInv(w) && Enabled(w, Begin(in_)) && Holds(w, Begin(in_))
    ensures Frozen(Next(w, Begin(in_)), id, at)
  {
  }

  lemma CallKeepsFrozen(w: World, id: string, at: Time)
    requires Frozen(w, id, at) && Enabled(w, Call) && Holds(w, Call)
    ensures Frozen(Next(w, Call), id, at)
  {
    var f := w.flight.value;
    var op := f.todo[0];
    assert FrozenAt(w.api, id, at, f.todo, 0);
    if !op.Observe? {
      var rest := f.todo[1..];
      forall i | 0 <= i < |rest| ensures FrozenAt(Apply(w.api, op), id, at, rest, i) {
        assert FrozenAt(w.api, id, at, f.todo, i + 1);
        assert rest[i] == f.todo[i + 1];
      }
    }
  }

  lemma OtherStepKeepsFrozen(w: World, step: Step, id: string, at: Time)
    requires Frozen(w, id, at) && Enabled(w, step) && !step.Begin? && !step.Call?
    ensures Frozen(Next(w, step), id, at)
  {
    var w' := Next(w, step);
    assert w'.api.status == w.api.status && (ActiveExists(w'.api) ==> ActiveExists(w.api));
    if w'.flight.Some? {
      var ops := w.flight.value.todo;
      forall i | 0 <= i < |ops| ensures FrozenAt(w'.api, id, at, ops, i) {
        assert FrozenAt(w.api, id, at, ops, i);
      }
    }
  }

  lemma {:induction false} RunKeepsFrozen(w: World, steps: seq<Step>, id: string, at: Time)
    requires Frozen(w, id, at) && ControlInv(w) && CanRun(w, steps) && HoldsThroughout(w, steps)
    ensures Frozen(Reached(w, steps), id, at) && ControlInv(Reached(w, steps))
    decreases |steps|
  {
    if steps != [] {
      match steps[0] {
        case Begin(in_) => BeginKeepsFrozen(w, in_, id, at);
        case Call => CallKeepsFrozen(w, id, at);
        case _ => OtherStepKeepsFrozen(w, steps[0], id, at);
      }
      StepKeepsControl(w, steps[0]);
      RunKeepsFrozen(Next(w, steps[0]), steps[1..], id, at);
    }
  }

  /** In every run: once a stop is recorded, and for as long as every later reconcile still finds a stop
      requested (by whichever source) and meets no error, request id and request time never change. */
  lemma FrozenRequest(w0: World, before: seq<Step>, held: seq<Step>)
    requires Init(w0) && CanRun(w0, before)
    requires Reached(w0, before).flight.None? && StopRecorded(Reached(w0, before).api.status)
    requires CanRun(Reached(w0, before), held) && HoldsThroughout(Reached(w0, before), held)
    ensures var first, last := Reached(w0, before).api.status, Reached(Reached(w0, before), held).api.status;
            && last.pauseRequest == first.pauseRequest
            && last.yieldRequestedAt == first.yieldRequestedAt && first.yieldRequestedAt.Some?
  {
    var w := Reached(w0, before);
    RunKeepsEvidence(w0, before);
    RunKeepsControl(w0, before);
    StoredOrder(w.requestedAt, w.requestedAt);
    RunKeepsFrozen(w, held, w.api.status.pauseRequest, w.api.status.yieldRequestedAt.value);
  }

  /** A reconcile gives up on a recorded stop exactly when request time plus maxDrainTime has passed. */
  lemma GivesUpExactlyAfterDeadline(api: Api, in_: Inputs)
    requires RequestedStop(api).Some? && StopRecorded(api.status) && api.status.yieldRequestedAt.Some?
    requires api.status.observedGeneration == api.spec.generation
    requires !in_.lookupFails && !in_.controlFails && api.status.control.value in api.controls
    ensures var late := api.status.yieldRequestedAt.value + api.spec.maxDrainTime < in_.now;
            && (late <==> exists i :: 0 <= i < |ReconcileOps(api, in_)| && ReconcileOps(api, in_)[i] == DeleteJobSet(api.status.activeJobSet.value, true))
            && (!late <==> exists i :: 0 <= i < |ReconcileOps(api, in_)| && ReconcileOps(api, in_)[i].Observe?)
  {
    var ops := ReconcileOps(api, in_);
    assert |ops| >= 2 && (ops[1].Observe? || ops[1] == DeleteJobSet(api.status.activeJobSet.value, true));
  }

  /** The reconcile past the deadline takes the run down, and records the failure if it lives to the end. */
  lemma DeadlineTearsDown(api: Api, in_: Inputs, calls: nat)
    requires RequestedStop(api).Some? && StopRecorded(api.status) && api.status.yieldRequestedAt.Some?
    requires api.status.observedGeneration == api.spec.generation
    requires !in_.lookupFails && !in_.controlFails && api.status.control.value in api.controls
    requires api.status.yieldRequestedAt.value + api.spec.maxDrainTime < in_.now
    ensures var after := RunOps(api, ReconcileOps(api, in_), in_, calls);
            && (calls >= 2 ==> !ActiveExists(after) && api.status.activeJobSet.value in after.jobSets)
            && (calls >= 3 ==> after.status.phase == Failed)
            && after.status.pauseRequest == api.status.pauseRequest
  {
    var s := api.status;
    var failed := Moved(s, Failed, api.spec.generation, in_.now);
    var write := WriteControl(s.control.value, s.pauseRequest, s.yieldRequestedAt.value);
    var down := DeleteJobSet(s.activeJobSet.value, true);
    assert ReconcileOps(api, in_) == [write] + ([down] + [Persist(failed)]);
    RunFirst(api, write, [down] + [Persist(failed)], in_, calls);
    if calls >= 1 {
      RunFirst(Apply(api, write), down, [Persist(failed)], in_, calls - 1);
      if calls >= 2 {
        RunFirst(Apply(Apply(api, write), down), Persist(failed), [], in_, calls - 2);
      }
    }
  }

  /** The two together, over whole runs: the deadline that counts is the one fixed when the stop was first
      recorded, plus whatever maxDrainTime the spec holds when the reconcile runs. */
  lemma FrozenDeadline(w0: World, before: seq<Step>, held: seq<Step>, in_: Inputs, calls: nat)
    requires Init(w0) && CanRun(w0, before)
    requires Reached(w0, before).flight.None? && StopRecorded(Reached(w0, before).api.status)
    requires CanRun(Reached(w0, before), held) && HoldsThroughout(Reached(w0, before), held)
    requires var w := Reached(Reached(w0, before), held);
             && Enabled(w, Begin(in_)) && Holds(w, Begin(in_))
             && w.api.status.observedGeneration == w.api.spec.generation
    ensures var first, api := Reached(w0, before).api.status, Reached(Reached(w0, before), held).api;
            && first.yieldRequestedAt.Some?
            && (first.yieldRequestedAt.value + api.spec.maxDrainTime < in_.now ==>
                  (calls >= 2 ==> !ActiveExists(RunOps(api, ReconcileOps(api, in_), in_, calls))))
            && (first.yieldRequestedAt.value + api.spec.maxDrainTime >= in_.now ==>
                  forall i, a :: 0 <= i < |ReconcileOps(api, in_)| ==> ReconcileOps(api, in_)[i] != DeleteJobSet(a, true))
  {
    var w := Reached(w0, before);
    RunKeepsEvidence(w0, before);
    RunKeepsControl(w0, before);
    StoredOrder(w.requestedAt, w.requestedAt);
    RunKeepsFrozen(w, held, w.api.status.pauseRequest, w.api.status.yieldRequestedAt.value);
    var api := Reached(w, held).api;
    if w.api.status.yieldRequestedAt.value + api.spec.maxDrainTime < in_.now {
      DeadlineTearsDown(api, in_, calls);
    } else {
      GivesUpExactlyAfterDeadline(api, in_);
    }
  }

  // ---- What an error or an edit does to the deadline ----

  predicate Late(api: Api, in_: Inputs) {
    RequestTime(api.status, in_.now) + api.spec.maxDrainTime < in_.now
  }

  /** A reconcile of a recorded stop meets no error: JobSet lookup, control write and bucket reads all succeed. */
  predicate NoError(api: Api, in_: Inputs) {
    && !in_.lookupFails
    && !in_.controlFails && api.status.control.Some? && api.status.control.value in api.controls
    && !in_.readFails
    && !ObservePause(api.store, YieldMarkerURI(api.spec.storageRoot, api.status.attempt), api.status.pauseRequest,
                     RequestTime(api.status, in_.now)).ReadError?
  }

  /** A stop is recorded in the form the server keeps, still requested, and the spec was seen. */
  predicate DrainUnderWay(api: Api) {
    && RequestedStop(api).Some? && StopRecorded(api.status)
    && api.status.yieldRequestedAt.Some? && Persisted(api.status) == api.status
  }

  predicate Seen(api: Api) {
    api.status.observedGeneration == api.spec.generation
  }

  lemma FailedOnce(api: Api, in_: Inputs, calls: nat)
    requires calls >= 1 && DrainUnderWay(api)
    ensures RunOps(api, Fail(api.status, api.spec, in_.now), in_, calls).status ==
            Moved(api.status, Failed, api.spec.generation, in_.now)
  {
    RunFirst(api, Persist(Moved(api.status, Failed, api.spec.generation, in_.now)), [], in_, calls);
  }

  /** The observation and what follows it. */
  lemma ObservedOnce(api: Api, id: string, at: Time, in_: Inputs, calls: nat)
    requires calls >= 2 && DrainUnderWay(api)
    ensures var after := RunOps(api, [Observe(id, at)], in_, calls).status;
            var o := ObservePause(api.store, YieldMarkerURI(api.spec.storageRoot, api.status.attempt), id, at);
            && after.pauseRequest == api.status.pauseRequest && after.yieldRequestedAt == api.status.yieldRequestedAt
            && after.attempt == api.status.attempt
            && (StopRecorded(after) <==> !in_.readFails && !o.ReadError?)
            && (!StopRecorded(after) ==> after.phase == Failed)
  {
    var rest := ObserveOps(api, api.spec, id, at, in_);
    assert RunOps(api, [Observe(id, at)], in_, calls) == RunOps(api, rest, in_, calls - 1);
    if rest != [] {
      assert |rest| == 1;
      RunFirst(api, rest[0], [], in_, calls - 1);
      assert rest == [rest[0]] + [];
    }
  }

  /** A completed reconcile of a recorded stop always leaves request id and time in the record. The record still counts
      as a stop, so that the next reconcile keeps them too, exactly when no lookup, control or read error occurred and
      the deadline had not passed. */
  lemma StopSurvivesExactly(api: Api, in_: Inputs, calls: nat)
    requires DrainUnderWay(api) && Seen(api) && calls >= 3
    ensures var after := Reconciled(api, in_, calls).status;
            && after.pauseRequest == api.status.pauseRequest && after.yieldRequestedAt == api.status.yieldRequestedAt
            && (StopRecorded(after) <==> NoError(api, in_) && !Late(api, in_))
            && (!StopRecorded(after) ==> after.phase == Failed)
  {
    var s, ops := api.status, ReconcileOps(api, in_);
    if in_.lookupFails || in_.controlFails || s.control.value !in api.controls {
      FailedOnce(api, in_, calls);
    } else {
      var at := RequestTime(s, in_.now);
      var write := WriteControl(s.control.value, s.pauseRequest, at);
      var mid := Apply(api, write);
      assert ops == [write] + ops[1..];
      RunFirst(api, write, ops[1..], in_, calls);
      if Late(api, in_) {
        DeadlineTearsDown(api, in_, calls);
        LateKeepsRequest(api, in_, calls);
      } else {
        assert ops[1..] == [Observe(s.pauseRequest, at)];
        ObservedOnce(mid, s.pauseRequest, at, in_, calls - 1);
      }
    }
  }

  lemma LateKeepsRequest(api: Api, in_: Inputs, calls: nat)
    requires DrainUnderWay(api) && Seen(api) && Late(api, in_) && calls >= 3
    requires !in_.lookupFails && !in_.controlFails && api.status.control.value in api.controls
    ensures var after := Reconciled(api, in_, calls).status;
            after.yieldRequestedAt == api.status.yieldRequestedAt && after.phase == Failed
  {
    var s := api.status;
    var failed := Moved(s, Failed, api.spec.generation, in_.now);
    var write := WriteControl(s.control.value, s.pauseRequest, s.yieldRequestedAt.value);
    var down := DeleteJobSet(s.activeJobSet.value, true);
    assert ReconcileOps(api, in_) == [write] + ([down] + [Persist(failed)]);
    RunFirst(api, write, [down] + [Persist(failed)], in_, calls);
    RunFirst(Apply(api, write), down, [Persist(failed)], in_, calls - 1);
    RunFirst(Apply(Apply(api, write), down), Persist(failed), [], in_, calls - 2);
  }

  /** So the deadline starts over exactly after such a reconcile: when a later one finds a stop requested, the same request
      id stands, and its time is a new one if and only if the first did not leave the stop recorded. Anything else may
      have happened to the objects in between. */
  lemma ErrorRestartsDeadline(api: Api, first: Inputs, between: Api, next: Inputs, calls: nat)
    requires DrainUnderWay(api) && Seen(api) && calls >= 3
    requires between.status == Reconciled(api, first, calls).status
    requires RequestedStop(between).Some? && Seen(between) && !next.lookupFails
    ensures var again := Reconciled(between, next, calls).status;
            && again.pauseRequest == api.status.pauseRequest
            && again.yieldRequestedAt ==
               (if NoError(api, first) && !Late(api, first) then api.status.yieldRequestedAt else Some(Stored(next.now)))
            && (!(NoError(api, first) && !Late(api, first)) ==> StopRecorded(again))
  {
    StopSurvivesExactly(api, first, calls);
    StoredOrder(api.status.yieldRequestedAt.value, api.status.yieldRequestedAt.value);
    if StopRecorded(between.status) {
      StopSurvivesExactly(between, next, calls);
    } else {
      var u := EnsureStop(between.status, between.spec, RequestedStop(between).value, next.now);
      assert ReconcileOps(between, next) == [Persist(u)] + [];
      RunFirst(between, Persist(u), [], next, calls);
    }
  }

  /** Past the deadline, and without errors, a reconcile takes the run down exactly when the spec's generation was observed. */
  lemma TearsDownExactlyWhenSeen(api: Api, in_: Inputs, calls: nat)
    requires DrainUnderWay(api) && Late(api, in_) && calls >= 2
    requires !in_.lookupFails && !in_.controlFails && api.status.control.value in api.controls
    ensures !ActiveExists(Reconciled(api, in_, calls)) <==> Seen(api)
  {
    if Seen(api) {
      DeadlineTearsDown(api, in_, calls);
    } else {
      EditDefersDeadline(api, in_, calls);
    }
  }

  /** A reconcile that finds an edited spec only records its generation, however late it is; the next one tears down. */
  lemma EditDefersDeadline(api: Api, in_: Inputs, calls: nat)
    requires DrainUnderWay(api) && !Seen(api) && calls >= 2
    ensures Reconciled(api, in_, calls) == api.(status := api.status.(observedGeneration := api.spec.generation))
    ensures Late(api, in_) && !in_.lookupFails && !in_.controlFails && api.status.control.value in api.controls ==>
      !ActiveExists(Reconciled(Reconciled(api, in_, calls), in_, calls))
  {
    var t := Initialized(api.status, api.spec.generation, in_.now);
    assert ReconcileOps(api, in_) == [Persist(t)] + [];
    RunFirst(api, Persist(t), [], in_, calls);
    if Late(api, in_) && !in_.lookupFails && !in_.controlFails && api.status.control.value in api.controls {
      DeadlineTearsDown(Reconciled(api, in_, calls), in_, calls);
    }
  }
}
