/** The job's persisted record and the phase transitions the controller makes on it. */
module Status {
  import opened Foundation
  import opened Checkpoints

  datatype Phase =
    | NoPhase | Pending | Queued | Starting | Running | YieldRequested
    | Draining | Paused | Restoring | Failed

  /** `desiredRunning` is spec.control.desiredState == Running; `suspended` is Kueue's spec.suspend. */
  datatype Spec = Spec(
    desiredRunning: bool,
    suspended: bool,
    generation: nat,
    maxDrainTime: int,
    storageRoot: string)

  /** Child JobSets and control ConfigMaps are named by their run attempt, so a recorded name is
      the attempt it belongs to. An empty pauseRequest means no stop was requested. */
  datatype Record = Record(
    phase: Phase,
    attempt: nat,
    activeJobSet: Option<nat>,
    control: Option<nat>,
    pauseRequest: string,
    lastCompleted: Option<CheckpointRef>,
    selected: Option<CheckpointRef>,
    yieldRequestedAt: Option<Time>,
    observedGeneration: nat)

  const NEW_RECORD := Record(NoPhase, 0, None, None, "", None, None, None, 0)

  predicate Stopping(p: Phase) {
    p == YieldRequested || p == Draining
  }

  /** What the API server keeps: timestamps lose their fraction of a second. */
  function Persisted(s: Record): Record {
    if s.yieldRequestedAt.None? then s else s.(yieldRequestedAt := Some(Stored(s.yieldRequestedAt.value)))
  }

  // ---- Transitions on values ----

  function WithPhase(s: Record, p: Phase, now: Time): Record {
    if s.phase == p then s
    else s.(phase := p, yieldRequestedAt := if p == YieldRequested then Some(now) else s.yieldRequestedAt)
  }

  /** markRunning, markPaused, markQueuedForAdmission, markPendingPaused, markDraining, markFailed. */
  function Moved(s: Record, p: Phase, generation: nat, now: Time): Record {
    WithPhase(s, p, now).(observedGeneration := generation)
  }

  function StopRequested(s: Record, requestID: string, generation: nat, now: Time): Record {
    Moved(s.(pauseRequest := requestID), YieldRequested, generation, now)
  }

  function Started(s: Record, attempt: nat, generation: nat, now: Time): Record {
    Moved(s.(attempt := attempt, control := Some(attempt), activeJobSet := Some(attempt)), Starting, generation, now)
  }

  function Restored(s: Record, attempt: nat, checkpoint: CheckpointRef, generation: nat, now: Time): Record {
    var keep := s.selected.Some? && s.selected.value.manifestURI == checkpoint.manifestURI;
    Moved(s.(attempt := attempt, control := Some(attempt), activeJobSet := Some(attempt), pauseRequest := "",
             selected := if keep then s.selected else Some(checkpoint)),
          Restoring, generation, now)
  }

  function Checkpointed(s: Record, checkpoint: CheckpointRef): Record {
    s.(lastCompleted := Some(checkpoint), selected := Some(checkpoint))
  }

  /** InitializePhase1Status. */
  function Initialized(s: Record, generation: nat, now: Time): Record {
    Moved(s, if s.phase == NoPhase then Pending else s.phase, generation, now)
  }

  // ---- The in-memory job the controller edits before it writes ----

  class TrainingJob {
    const spec: Spec
    var phase: Phase
    var attempt: nat
    var activeJobSet: Option<nat>
    var control: Option<nat>
    var pauseRequest: string
    var lastCompleted: Option<CheckpointRef>
    var selected: Option<CheckpointRef>
    var yieldRequestedAt: Option<Time>
    var observedGeneration: nat

    function Value(): Record
      reads this
    {
      Record(phase, attempt, activeJobSet, control, pauseRequest, lastCompleted, selected,
             yieldRequestedAt, observedGeneration)
    }

    constructor (spec: Spec, s: Record)
      ensures this.spec == spec && Value() == s
    {
      this.spec := spec;
      phase, attempt, activeJobSet, control := s.phase, s.attempt, s.activeJobSet, s.control;
      pauseRequest, lastCompleted, selected := s.pauseRequest, s.lastCompleted, s.selected;
      yieldRequestedAt, observedGeneration := s.yieldRequestedAt, s.observedGeneration;
    }

    /** SetPhase with markPhase: a timestamp is set only when the phase really changes. */
    method SetPhase(p: Phase, now: Time) returns (changed: bool)
      modifies this`phase, this`yieldRequestedAt
      ensures Value() == WithPhase(old(Value()), p, now)
      ensures changed <==> Value() != old(Value())
    {
      changed := false;
      if phase != p {
        phase := p;
        changed := true;
        if p == YieldRequested {
          yieldRequestedAt := Some(now);
        }
      }
    }

    method SyncGeneration() returns (changed: bool)
      modifies this`observedGeneration
      ensures Value() == old(Value()).(observedGeneration := spec.generation)
      ensures changed <==> Value() != old(Value())
    {
      changed := observedGeneration != spec.generation;
      observedGeneration := spec.generation;
    }

    method Mark(p: Phase, now: Time) returns (changed: bool)
      modifies this`phase, this`yieldRequestedAt, this`observedGeneration
      ensures Value() == Moved(old(Value()), p, spec.generation, now)
      ensures changed <==> Value() != old(Value())
    {
      changed := SetPhase(p, now);
      var synced := SyncGeneration();
      changed := synced || changed;
    }

    method Initialize(now: Time) returns (changed: bool)
      modifies this`phase, this`yieldRequestedAt, this`observedGeneration
      ensures Value() == Initialized(old(Value()), spec.generation, now)
      ensures changed <==> Value() != old(Value())
    {
      changed := false;
      if phase == NoPhase {
        changed := SetPhase(Pending, now);
      }
      var synced := SyncGeneration();
      changed := synced || changed;
    }

    method MarkStopRequested(requestID: string, now: Time) returns (changed: bool)
      modifies this`phase, this`yieldRequestedAt, this`observedGeneration, this`pauseRequest
      ensures Value() == StopRequested(old(Value()), requestID, spec.generation, now)
      ensures changed <==> Value() != old(Value())
    {
      changed := pauseRequest != requestID;
      pauseRequest := requestID;
      var marked := Mark(YieldRequested, now);
      changed := marked || changed;
    }

    method MarkStarting(runAttempt: nat, now: Time) returns (changed: bool)
      modifies this
      ensures Value() == Started(old(Value()), runAttempt, spec.generation, now)
      ensures changed <==> Value() != old(Value())
    {
      changed := attempt != runAttempt || control != Some(runAttempt) || activeJobSet != Some(runAttempt);
      attempt, control, activeJobSet := runAttempt, Some(runAttempt), Some(runAttempt);
      var marked := Mark(Starting, now);
      changed := marked || changed;
    }

    /** Unlike MarkStarting, this forgets the previous stop request. */
    method MarkRestoring(runAttempt: nat, checkpoint: CheckpointRef, now: Time) returns (changed: bool)
      modifies this
      ensures Value() == Restored(old(Value()), runAttempt, checkpoint, spec.generation, now)
      ensures changed <==> Value() != old(Value())
    {
      changed := attempt != runAttempt || control != Some(runAttempt) || activeJobSet != Some(runAttempt);
      attempt, control, activeJobSet := runAttempt, Some(runAttempt), Some(runAttempt);
      if pauseRequest != "" {
        pauseRequest := "";
        changed := true;
      }
      if selected.None? || selected.value.manifestURI != checkpoint.manifestURI {
        selected := Some(checkpoint);
        changed := true;
      }
      var marked := Mark(Restoring, now);
      changed := marked || changed;
    }
  }
}
