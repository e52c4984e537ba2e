/** One reconcile of a ResumableTrainingJob in worker mode: first as the list of API calls it makes,
    then as the step-by-step controller code, proved to make exactly those calls. */
module Reconcile {
  import opened Foundation
  import opened Text
  import opened Checkpoints
  import opened ObjectStorage
  import opened Catalog
  import opened Status
  import opened Selection

  datatype JobSetState = Live | Terminating

  datatype Control = ControlRunning | ControlPaused(requestID: string, requestedAt: Time)

  /** Everything the API server and the bucket hold for one job; `restoresFrom` is the manifest that the JobSet of an
      attempt was last created to restore from, empty for none. */
  datatype Api = Api(
    spec: Spec,
    status: Record,
    jobSets: map<nat, JobSetState>,
    restoresFrom: map<nat, string>,
    controls: map<nat, Control>,
    store: Store)

  datatype CreateFault = NoFault | ControlFault | JobSetFault

  /** What one reconcile meets outside the modelled objects: the clock, failing calls, gates that
      are not ready, the resize planner's verdict, the resume request that the job stands for, the manifests listed in
      the bucket and the catalog's choice among them. */
  datatype Inputs = Inputs(
    now: Time,
    lookupFails: bool,
    gated: bool,
    conflictingUpdates: bool,
    createFault: CreateFault,
    resizeTriggered: bool,
    controlFails: bool,
    readFails: bool,
    selectFails: bool,
    request: ResumeRequest,
    listing: seq<string>,
    choice: Option<CheckpointRef>)

  datatype Source = Manual | Kueue | Resize

  datatype Op =
    | Persist(record: Record)
    | CreateControl(attempt: nat)
    | CreateJobSet(attempt: nat, resumeFrom: string)
    | WriteControl(attempt: nat, requestID: string, requestedAt: Time)
    | Observe(requestID: string, requestedAt: Time)
    | DeleteJobSet(attempt: nat, timedOut: bool)

  predicate IsLive(api: Api, attempt: nat) {
    attempt in api.jobSets && api.jobSets[attempt] == Live
  }

  /** getActiveJobSet finds a JobSet that is not being deleted. */
  predicate ActiveExists(api: Api) {
    api.status.activeJobSet.Some? && IsLive(api, api.status.activeJobSet.value)
  }

  /** The effect of one API call; createIfMissing leaves an existing object alone. */
  function Apply(api: Api, op: Op): Api {
    match op
    case Persist(s) => api.(status := Persisted(s))
    case CreateControl(a) => if a in api.controls then api else api.(controls := api.controls[a := ControlRunning])
    case CreateJobSet(a, from_) =>
      if a in api.jobSets then api
      else api.(jobSets := api.jobSets[a := Live], restoresFrom := api.restoresFrom[a := from_])
    case WriteControl(a, id, t) => api.(controls := api.controls[a := ControlPaused(id, t)])
    case Observe(_, _) => api
    case DeleteJobSet(a, _) => if a in api.jobSets then api.(jobSets := api.jobSets[a := Terminating]) else api
  }

  /** A status update is sent only when something changed. */
  function PersistIf(s: Record, t: Record): seq<Op> {
    if s == t then [] else [Persist(t)]
  }

  function Fail(s: Record, sp: Spec, now: Time): seq<Op> {
    PersistIf(s, Moved(s, Failed, sp.generation, now))
  }

  /** stopRequestPrefix. */
  function Prefix(source: Source): (p: string)
    ensures p != ""
  {
    match source case Kueue => "kueue-suspend" case Resize => "resize" case Manual => "pause"
  }

  function RequestID(source: Source, attempt: nat, generation: nat): (id: string)
    ensures id != ""
  {
    Prefix(source) + ("-run-" + (Decimal(attempt) + ("-gen-" + Decimal(generation))))
  }

  lemma RequestIDPrefix(x: Source, a: nat, g: nat, y: Source, b: nat, h: nat)
    ensures RequestID(x, a, g) == RequestID(y, b, h) ==> x == y
  {
    assert RequestID(x, a, g)[0] == Prefix(x)[0] && RequestID(y, b, h)[0] == Prefix(y)[0];
  }

  lemma SameTail(p: string, x: string, y: string)
    ensures p + x == p + y ==> x == y
  {
    assert (p + x)[|p|..] == x && (p + y)[|p|..] == y;
  }

  /** A request id tells who asked, for which attempt, under which generation. */
  lemma RequestIDsDiffer(x: Source, a: nat, g: nat, y: Source, b: nat, h: nat)
    ensures RequestID(x, a, g) == RequestID(y, b, h) ==> x == y && a == b && g == h
  {
    RequestIDPrefix(x, a, g, y, b, h);
    var u, v := "-gen-" + Decimal(g), "-gen-" + Decimal(h);
    SameTail(Prefix(x), "-run-" + (Decimal(a) + u), "-run-" + (Decimal(b) + v));
    SameTail("-run-", Decimal(a) + u, Decimal(b) + v);
    DecimalPrefixInjective(a, u, b, v);
    SameTail(Decimal(a), u, v);
    SameTail("-gen-", Decimal(g), Decimal(h));
    DecimalInjective(g, h);
  }

  // ---- The stop flow ----

  function StopID(s: Record, sp: Spec, source: Source): (id: string)
    ensures id != ""
  {
    if s.pauseRequest == "" then RequestID(source, s.attempt, sp.generation) else s.pauseRequest
  }

  /** ensureStopRequested on values. */
  function EnsureStop(s: Record, sp: Spec, source: Source, now: Time): Record {
    var id := StopID(s, sp, source);
    var s1 := if s.pauseRequest == "" then StopRequested(s, id, sp.generation, now) else s;
    var s2 := if s1.control.None? then s1.(control := Some(s1.attempt)) else s1;
    if Stopping(s2.phase) then s2 else StopRequested(s2, id, sp.generation, now)
  }

  predicate StopRecorded(s: Record) {
    s.pauseRequest != "" && s.control.Some? && Stopping(s.phase)
  }

  function RequestTime(s: Record, now: Time): Time {
    if s.yieldRequestedAt.Some? then s.yieldRequestedAt.value else now
  }

  function GiveUpOps(s: Record, sp: Spec, now: Time): seq<Op> {
    (if s.activeJobSet.Some? then [DeleteJobSet(s.activeJobSet.value, true)] else []) + Fail(s, sp, now)
  }

  function StopOps(api: Api, s: Record, source: Source, in_: Inputs): seq<Op> {
    var sp := api.spec;
    if !StopRecorded(s) then [Persist(EnsureStop(s, sp, source, in_.now))]
    else if in_.controlFails || s.control.value !in api.controls then Fail(s, sp, in_.now)
    else
      var at := RequestTime(s, in_.now);
      [WriteControl(s.control.value, s.pauseRequest, at)] +
      if at + sp.maxDrainTime < in_.now then
        GiveUpOps(s, sp, in_.now)
      else
        [Observe(s.pauseRequest, at)]
  }

  /** What follows an observation of the bucket. */
  function ObserveOps(api: Api, sp: Spec, requestID: string, requestedAt: Time, in_: Inputs): seq<Op> {
    var s := api.status;
    match if in_.readFails then ReadError
          else ObservePause(api.store, YieldMarkerURI(sp.storageRoot, s.attempt), requestID, requestedAt)
    case ReadError => Fail(s, sp, in_.now)
    case NotReady => PersistIf(s, Moved(s, Draining, sp.generation, in_.now))
    case Accepted(ref, _) =>
      if s.lastCompleted.None? || s.lastCompleted.value.manifestURI != ref.manifestURI then
        [Persist(Checkpointed(s, ref))]
      else if s.activeJobSet.Some? then
        [DeleteJobSet(s.activeJobSet.value, false)]
      else []
  }

  // ---- Hold, launch and resume ----

  function HoldOps(s: Record, sp: Spec, now: Time): seq<Op> {
    if s.lastCompleted.Some? && s.pauseRequest != "" then PersistIf(s, Moved(s, Paused, sp.generation, now))
    else if s.phase == Failed then []
    else PersistIf(s, Moved(s, Pending, sp.generation, now))
  }

  predicate ShouldResume(s: Record) {
    || (s.phase == Restoring && s.selected.Some?)
    || (s.lastCompleted.Some? && (s.phase == Paused || s.phase == Queued))
  }

  /** createRunAttemptResources followed by the status update that records the attempt. */
  function CreateOps(s: Record, sp: Spec, a: nat, resumeFrom: string, done: Record, in_: Inputs): seq<Op> {
    match in_.createFault
    case ControlFault => Fail(s, sp, in_.now)
    case JobSetFault => [CreateControl(a)] + Fail(s, sp, in_.now)
    case NoFault => [CreateControl(a), CreateJobSet(a, resumeFrom)] + PersistIf(s, done)
  }

  function LaunchOps(s: Record, sp: Spec, in_: Inputs): seq<Op> {
    var from_ := if s.selected.Some? then s.selected.value.manifestURI else "";
    CreateOps(s, sp, s.attempt + 1, from_, Started(s, s.attempt + 1, sp.generation, in_.now), in_)
  }

  /** A restore that was already recorded is repeated under the same attempt. */
  function ResumeAttempt(s: Record): (a: nat)
    ensures a >= 1
  {
    if s.phase == Restoring && s.activeJobSet.Some? && s.attempt >= 1 then s.attempt
    else if s.phase == Restoring && s.activeJobSet.Some? then 1
    else s.attempt + 1
  }

  function ResumeOps(s: Record, sp: Spec, in_: Inputs): seq<Op> {
    var recorded := s.phase == Restoring && s.selected.Some?;
    if !recorded && (in_.selectFails || in_.choice.None?) then Fail(s, sp, in_.now)
    else
      var ref := if recorded then s.selected.value else in_.choice.value;
      var a := ResumeAttempt(s);
      CreateOps(s, sp, a, ref.manifestURI, Restored(s, a, ref, sp.generation, in_.now), in_)
  }

  // ---- The whole reconcile ----

  function RequestedStop(api: Api): Option<Source> {
    if !ActiveExists(api) then None
    else if api.spec.suspended then Some(Kueue)
    else if !api.spec.desiredRunning then Some(Manual)
    else None
  }

  /** A resize verdict enters the stop flow right after the run was marked Running. */
  function RunningOps(api: Api, in_: Inputs): seq<Op> {
    var s, sp := api.status, api.spec;
    var running := Moved(s, Running, sp.generation, in_.now);
    if in_.resizeTriggered then
      PersistIf(s, running) + StopOps(api, if s == running then s else Persisted(running), Resize, in_)
    else
      PersistIf(s, running)
  }

  function ReconcileOps(api: Api, in_: Inputs): seq<Op> {
    var s, sp := api.status, api.spec;
    if s.phase == NoPhase || s.observedGeneration != sp.generation then
      PersistIf(s, Initialized(s, sp.generation, in_.now))
    else if s.activeJobSet.Some? && in_.lookupFails then Fail(s, sp, in_.now)
    else if RequestedStop(api).Some? then StopOps(api, s, RequestedStop(api).value, in_)
    else if !sp.desiredRunning then HoldOps(s, sp, in_.now)
    else if ActiveExists(api) then RunningOps(api, in_)
    else if sp.suspended then PersistIf(s, Moved(s, Queued, sp.generation, in_.now))
    else if in_.gated then []
    else if in_.conflictingUpdates then Fail(s, sp, in_.now)
    else if ShouldResume(s) then ResumeOps(s, sp, in_)
    else LaunchOps(s, sp, in_)
  }

  /** The calls left after the first one. */
  function Rest(api: Api, sp: Spec, ops: seq<Op>, in_: Inputs): seq<Op>
    requires ops != []
  {
    if ops[0].Observe? then ObserveOps(api, sp, ops[0].requestID, ops[0].requestedAt, in_) else ops[1..]
  }

  /** Make the calls one after another; the process dies after `calls` of them. */
  function RunOps(api: Api, ops: seq<Op>, in_: Inputs, calls: nat): Api
    decreases calls
  {
    if ops == [] || calls == 0 then api
    else RunOps(Apply(api, ops[0]), Rest(api, api.spec, ops, in_), in_, calls - 1)
  }

  /** The state that a reconcile leaves when the process lives for `calls` calls; three complete every reconcile. */
  function Reconciled(api: Api, in_: Inputs, calls: nat): Api {
    RunOps(api, ReconcileOps(api, in_), in_, calls)
  }

  lemma RunFirst(api: Api, op: Op, rest: seq<Op>, in_: Inputs, calls: nat)
    requires !op.Observe?
    ensures RunOps(api, [op] + rest, in_, calls) ==
            if calls == 0 then api else RunOps(Apply(api, op), rest, in_, calls - 1)
  {
    assert ([op] + rest)[1..] == rest;
  }

  // ---- The controller code ----

  class ApiServer {
    var spec: Spec
    var status: Record
    var jobSets: map<nat, JobSetState>
    var restoresFrom: map<nat, string>
    var controls: map<nat, Control>
    var store: Store
    var calls: nat  // API calls the controller process still lives for

    function Value(): Api
      reads this
    {
      Api(spec, status, jobSets, restoresFrom, controls, store)
    }

    /** Send one API call; a dead process sends nothing. */
    method Send(op: Op) returns (alive: bool)
      modifies this
      ensures alive <==> old(calls) > 0
      ensures calls == if alive then old(calls) - 1 else 0
      ensures Value() == if alive then Apply(old(Value()), op) else old(Value())
    {
      if calls == 0 { return false; }
      calls := calls - 1;
      match op {
        case Persist(s) =>
          status := Persisted(s);
        case CreateControl(a) =>
          if a !in controls { controls := controls[a := ControlRunning]; }
        case CreateJobSet(a, from_) =>
          if a !in jobSets {
            jobSets := jobSets[a := Live];
            restoresFrom := restoresFrom[a := from_];
          }
        case WriteControl(a, id, t) =>
          controls := controls[a := ControlPaused(id, t)];
        case Observe(_, _) =>
        case DeleteJobSet(a, _) =>
          if a in jobSets { jobSets := jobSets[a := Terminating]; }
      }
      return true;
    }
  }

  class Controller {
    const api: ApiServer

    constructor (api: ApiServer)
      ensures this.api == api
    {
      this.api := api;
    }

    /** A status update that is sent only when `changed`; `before` is what the server holds. */
    method UpdateStatus(job: TrainingJob, changed: bool, ghost before: Record, ghost in_: Inputs) returns (alive: bool)
      requires changed <==> job.Value() != before
      modifies api
      ensures job.Value() == old(job.Value())
      ensures api.Value() == RunOps(old(api.Value()), PersistIf(before, job.Value()), in_, old(api.calls))
      ensures changed ==> (alive <==> old(api.calls) > 0) && api.calls == if alive then old(api.calls) - 1 else 0
      ensures !changed ==> alive && api.calls == old(api.calls)
    {
      alive := true;
      if changed {
        alive := api.Send(Persist(job.Value()));
        RunFirst(old(api.Value()), Persist(job.Value()), [], in_, old(api.calls));
      }
    }

    method FailLaunch(job: TrainingJob, in_: Inputs)
      modifies api, job
      ensures api.Value() ==
        RunOps(old(api.Value()), Fail(old(job.Value()), job.spec, in_.now), in_, old(api.calls))
    {
      ghost var before := job.Value();
      var changed := job.Mark(Failed, in_.now);
      var _ := UpdateStatus(job, changed, before, in_);
    }

    method EnsureStopRequested(job: TrainingJob, source: Source, now: Time)
      returns (requestID: string, requestTime: Time, changed: bool)
      modifies job
      ensures job.Value() == EnsureStop(old(job.Value()), job.spec, source, now)
      ensures requestID == StopID(old(job.Value()), job.spec, source)
      ensures changed <==> !StopRecorded(old(job.Value()))
      ensures !changed ==> job.Value() == old(job.Value()) && requestTime == RequestTime(old(job.Value()), now)
    {
      requestID, requestTime, changed := job.pauseRequest, now, false;
      if requestID == "" {
        requestID := RequestID(source, job.attempt, job.spec.generation);
        changed := job.MarkStopRequested(requestID, now);
      }
      if job.yieldRequestedAt.Some? {
        requestTime := job.yieldRequestedAt.value;
      }
      if job.control.None? {
        job.control := Some(job.attempt);
        changed := true;
      }
      if !Stopping(job.phase) {
        var marked := job.MarkStopRequested(requestID, now);
        changed := marked || changed;
      }
    }

    /** The drain took too long: delete the run and record the failure. */
    method GiveUp(job: TrainingJob, in_: Inputs)
      modifies api, job
      ensures api.Value() ==
        RunOps(old(api.Value()), GiveUpOps(old(job.Value()), job.spec, in_.now), in_, old(api.calls))
    {
      if job.activeJobSet.Some? {
        var down := DeleteJobSet(job.activeJobSet.value, true);
        RunFirst(api.Value(), down, Fail(job.Value(), job.spec, in_.now), in_, api.calls);
        var alive := api.Send(down);
        if !alive { return; }
      } else {
        assert [] + Fail(job.Value(), job.spec, in_.now) == Fail(job.Value(), job.spec, in_.now);
      }
      FailLaunch(job, in_);
    }

    method StopFlow(job: TrainingJob, source: Source, in_: Inputs)
      requires job.spec == api.spec
      requires StopRecorded(job.Value()) ==> job.Value() == api.status
      modifies api, job
      ensures api.Value() ==
        RunOps(old(api.Value()), StopOps(old(api.Value()), old(job.Value()), source, in_), in_, old(api.calls))
    {
      ghost var before := job.Value();
      var start := api.Value();
      ghost var calls := api.calls;
      var requestID, requestTime, changed := EnsureStopRequested(job, source, in_.now);
      if changed {
        RunFirst(start, Persist(job.Value()), [], in_, calls);
        var _ := api.Send(Persist(job.Value()));
        return;
      }
      if in_.controlFails || job.control.value !in api.controls {
        FailLaunch(job, in_);
        return;
      }
      ghost var write := WriteControl(job.control.value, requestID, requestTime);
      ghost var rest := StopOps(start, before, source, in_)[1..];
      assert StopOps(start, before, source, in_) == [write] + rest;
      RunFirst(start, write, rest, in_, calls);
      var alive := api.Send(WriteControl(job.control.value, requestID, requestTime));
      if !alive { return; }
      if requestTime + job.spec.maxDrainTime < in_.now {
        GiveUp(job, in_);
        return;
      }
      ghost var mid := api.Value();
      alive := api.Send(Observe(requestID, requestTime));
      if !alive { return; }
      AfterObservation(job, requestID, requestTime, in_);
      assert rest == [Observe(requestID, requestTime)];
    }

    method AfterObservation(job: TrainingJob, requestID: string, requestTime: Time, in_: Inputs)
      requires job.spec == api.spec && job.Value() == api.status
      modifies api, job
      ensures api.Value() ==
        RunOps(old(api.Value()), ObserveOps(old(api.Value()), job.spec, requestID, requestTime, in_), in_, old(api.calls))
    {
      ghost var before := job.Value();
      var observation := if in_.readFails then ReadError else
        ObservePause(api.store, YieldMarkerURI(job.spec.storageRoot, job.attempt), requestID, requestTime);
      match observation {
        case ReadError =>
          FailLaunch(job, in_);
        case NotReady =>
          var changed := job.Mark(Draining, in_.now);
          var _ := UpdateStatus(job, changed, before, in_);
        case Accepted(ref, _) =>
          if job.lastCompleted.None? || job.lastCompleted.value.manifestURI != ref.manifestURI {
            job.lastCompleted, job.selected := Some(ref), Some(ref);
            RunFirst(api.Value(), Persist(job.Value()), [], in_, api.calls);
            var _ := api.Send(Persist(job.Value()));
          } else if job.activeJobSet.Some? {
            RunFirst(api.Value(), DeleteJobSet(job.activeJobSet.value, false), [], in_, api.calls);
            var _ := api.Send(DeleteJobSet(job.activeJobSet.value, false));
          }
      }
    }

    method ManualHold(job: TrainingJob, in_: Inputs)
      modifies api, job
      ensures api.Value() ==
        RunOps(old(api.Value()), HoldOps(old(job.Value()), job.spec, in_.now), in_, old(api.calls))
    {
      ghost var before := job.Value();
      var changed := false;
      if job.lastCompleted.Some? && job.pauseRequest != "" {
        changed := job.Mark(Paused, in_.now);
      } else if job.phase != Failed {
        changed := job.Mark(Pending, in_.now);
      }
      var _ := UpdateStatus(job, changed, before, in_);
    }

    /** createRunAttemptResources: the control ConfigMap first, then the JobSet. */
    method CreateRunAttempt(job: TrainingJob, a: nat, resumeFrom: string, in_: Inputs, ghost done: Record)
      returns (created: bool)
      modifies api, job
      ensures created ==>
        && in_.createFault == NoFault
        && job.Value() == old(job.Value())
        && RunOps(old(api.Value()), CreateOps(old(job.Value()), job.spec, a, resumeFrom, done, in_), in_, old(api.calls)) ==
           RunOps(api.Value(), PersistIf(old(job.Value()), done), in_, api.calls)
      ensures !created ==>
        (api.Value() ==
         RunOps(old(api.Value()), CreateOps(old(job.Value()), job.spec, a, resumeFrom, done, in_), in_, old(api.calls)))
    {
      ghost var before := job.Value();
      if in_.createFault == ControlFault {
        FailLaunch(job, in_);
        return false;
      }
      ghost var start := api.Value();
      ghost var ops := CreateOps(before, job.spec, a, resumeFrom, done, in_);
      assert ops == [CreateControl(a)] + ops[1..];
      RunFirst(start, CreateControl(a), ops[1..], in_, api.calls);
      var alive := api.Send(CreateControl(a));
      if !alive { return false; }
      if in_.createFault == JobSetFault {
        assert ops[1..] == Fail(before, job.spec, in_.now);
        FailLaunch(job, in_);
        return false;
      }
      assert ops[1..] == [CreateJobSet(a, resumeFrom)] + PersistIf(before, done);
      RunFirst(api.Value(), CreateJobSet(a, resumeFrom), PersistIf(before, done), in_, api.calls);
      created := api.Send(CreateJobSet(a, resumeFrom));
    }

    method Launch(job: TrainingJob, in_: Inputs)
      modifies api, job
      ensures api.Value() ==
        RunOps(old(api.Value()), LaunchOps(old(job.Value()), job.spec, in_), in_, old(api.calls))
    {
      ghost var before := job.Value();
      var from_ := if job.selected.Some? then job.selected.value.manifestURI else "";
      var a := job.attempt + 1;
      var created := CreateRunAttempt(job, a, from_, in_, Started(before, a, job.spec.generation, in_.now));
      if !created { return; }
      var changed := job.MarkStarting(a, in_.now);
      var _ := UpdateStatus(job, changed, before, in_);
    }

    method Resume(job: TrainingJob, in_: Inputs)
      modifies api, job
      ensures api.Value() ==
        RunOps(old(api.Value()), ResumeOps(old(job.Value()), job.spec, in_), in_, old(api.calls))
    {
      ghost var before := job.Value();
      var ref: CheckpointRef;
      if job.phase == Restoring && job.selected.Some? {
        ref := job.selected.value;
      } else if in_.selectFails || in_.choice.None? {
        FailLaunch(job, in_);
        return;
      } else {
        ref := in_.choice.value;
      }
      var a := job.attempt + 1;
      if job.phase == Restoring && job.activeJobSet.Some? {
        a := job.attempt;
      }
      if a < 1 {
        a := 1;
      }
      var created := CreateRunAttempt(job, a, ref.manifestURI, in_, Restored(before, a, ref, job.spec.generation, in_.now));
      if !created { return; }
      var changed := job.MarkRestoring(a, ref, in_.now);
      var _ := UpdateStatus(job, changed, before, in_);
    }

    method ObserveRunning(job: TrainingJob, in_: Inputs)
      requires job.spec == api.spec && job.Value() == api.status
      modifies api, job
      ensures api.Value() == RunOps(old(api.Value()), RunningOps(old(api.Value()), in_), in_, old(api.calls))
    {
      ghost var start, before := api.Value(), job.Value();
      ghost var calls := api.calls;
      var changed := job.Mark(Running, in_.now);
      ghost var running := job.Value();
      var alive := UpdateStatus(job, changed, before, in_);
      if !alive || !in_.resizeTriggered {
        assert RunningOps(start, in_) == PersistIf(before, running) +
          if in_.resizeTriggered then StopOps(start, if before == running then before else Persisted(running), Resize, in_) else [];
        if changed && !alive {
          assert calls == 0;
        }
        return;
      }
      if changed {
        // The client decodes the server's answer into the job.
        job.yieldRequestedAt := api.status.yieldRequestedAt;
        RunFirst(start, Persist(running), StopOps(start, Persisted(running), Resize, in_), in_, calls);
      } else {
        assert PersistIf(before, running) + StopOps(start, before, Resize, in_) == StopOps(start, before, Resize, in_);
      }
      StopFlow(job, Resize, in_);
    }

    /** Reconcile in worker mode, from reading the job to the first return. */
    method Reconcile(in_: Inputs)
      modifies api
      ensures api.Value() ==
        RunOps(old(api.Value()), ReconcileOps(old(api.Value()), in_), in_, old(api.calls))
    {
      var start := api.Value();
      var job := new TrainingJob(api.spec, api.status);
      var changed := job.Initialize(in_.now);
      if changed {
        var _ := UpdateStatus(job, changed, start.status, in_);
        return;
      }
      if job.activeJobSet.Some? && in_.lookupFails {
        FailLaunch(job, in_);
        return;
      }
      var stop := RequestedStop(start);
      if stop.Some? {
        StopFlow(job, stop.value, in_);
      } else if !job.spec.desiredRunning {
        ManualHold(job, in_);
      } else if ActiveExists(start) {
        ObserveRunning(job, in_);
      } else if job.spec.suspended {
        changed := job.Mark(Queued, in_.now);
        var _ := UpdateStatus(job, changed, start.status, in_);
      } else if in_.gated {
        return;
      } else if in_.conflictingUpdates {
        FailLaunch(job, in_);
      } else if ShouldResume(job.Value()) {
        Resume(job, in_);
      } else {
        Launch(job, in_);
      }
    }
  }
}
