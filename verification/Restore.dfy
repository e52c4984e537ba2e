/** The trainer repeats the controller's compatibility test with its own rules before it restores. */
module Restore {
  import opened Foundation
  import opened Text
  import opened Checkpoints
  import opened Selection
  import Shape

  /** The trainer's environment, as far as the restore check reads it. */
  datatype Runtime = Runtime(
    clusterIdentity: string,
    rtjIdentity: string,
    runtimeMode: string,
    worldSize: int,
    gpuShape: string,
    imageIdentity: string,
    codeVersionIdentity: string,
    optimizerMode: string,
    shardingMode: string,
    allowWorldSizeChange: bool)

  datatype RestoreMode = SameSize | Reshard

  /** The only manifest format that the SDK writes and reads. */
  const FORMAT_VERSION := SUPPORTED_FORMAT

  predicate TrainerAccepts(m: Manifest, rt: Runtime) {
    && m.clusterIdentity == rt.clusterIdentity && m.rtjIdentity == rt.rtjIdentity
    && m.runtimeMode == rt.runtimeMode && m.gpuShape == rt.gpuShape
    && m.imageIdentity == rt.imageIdentity && m.codeVersionIdentity == rt.codeVersionIdentity
    && m.optimizerMode == rt.optimizerMode && m.shardingMode == rt.shardingMode
    && m.formatVersion == FORMAT_VERSION
    && (m.worldSize == rt.worldSize || (rt.allowWorldSizeChange && m.crossSizeRestoreSupported == Some(true)))
  }

  /** _validate_restore_manifest collects the names of what differs and raises when there are any. */
  method ValidateRestoreManifest(m: Manifest, rt: Runtime) returns (mismatches: seq<string>, mode: RestoreMode)
    ensures mismatches == [] <==> TrainerAccepts(m, rt)
    ensures mode == SameSize <==> m.worldSize == rt.worldSize
  {
    mismatches := [];
    if m.clusterIdentity != rt.clusterIdentity { mismatches := mismatches + ["clusterIdentity"]; }
    if m.rtjIdentity != rt.rtjIdentity { mismatches := mismatches + ["rtjIdentity"]; }
    if m.runtimeMode != rt.runtimeMode { mismatches := mismatches + ["runtimeMode"]; }
    if m.gpuShape != rt.gpuShape { mismatches := mismatches + ["gpuShape"]; }
    if m.imageIdentity != rt.imageIdentity { mismatches := mismatches + ["imageIdentity"]; }
    if m.codeVersionIdentity != rt.codeVersionIdentity { mismatches := mismatches + ["codeVersionIdentity"]; }
    if m.optimizerMode != rt.optimizerMode { mismatches := mismatches + ["optimizerMode"]; }
    if m.shardingMode != rt.shardingMode { mismatches := mismatches + ["shardingMode"]; }
    if m.formatVersion != FORMAT_VERSION { mismatches := mismatches + ["formatVersion"]; }
    mode := SameSize;
    if m.worldSize != rt.worldSize {
      mode := Reshard;
      if !rt.allowWorldSizeChange {
        mismatches := mismatches + ["worldSize"];
      } else if m.crossSizeRestoreSupported != Some(true) {
        mismatches := mismatches + ["worldSize (cross-size restore not supported by checkpoint)"];
      }
    }
  }

  /** Runtime and resume request agree on every dimension that both know. */
  predicate Agrees(rt: Runtime, r: ResumeRequest) {
    && rt.clusterIdentity == r.clusterIdentity && rt.rtjIdentity == r.rtjIdentity
    && rt.runtimeMode == r.runtimeMode && rt.worldSize == r.worldSize && rt.gpuShape == r.gpuShape
    && rt.imageIdentity == r.imageIdentity && rt.codeVersionIdentity == r.codeVersionIdentity
    && rt.optimizerMode == r.optimizerMode && rt.shardingMode == r.shardingMode
    && rt.allowWorldSizeChange == r.allowWorldSizeChange
  }

  /** syncRestoreStatus. */
  function RecordedMode(checkpointWorldSize: int, restoreWorldSize: int): RestoreMode {
    if checkpointWorldSize != restoreWorldSize then Reshard else SameSize
  }

  /** buildEffectiveLaunchShape; a checkpoint of unknown size has no mode. */
  function ShapeMode(checkpointWorldSize: int, planWorldSize: int): Option<RestoreMode> {
    if checkpointWorldSize > 0 && checkpointWorldSize != planWorldSize then Some(Reshard)
    else if checkpointWorldSize > 0 then Some(SameSize)
    else None
  }

  /** The dimensions on which the controller asks more than the trainer. */
  predicate OnlyControllerChecks(m: Manifest, r: ResumeRequest) {
    && Complete(m)
    && !IsBlank(m.clusterIdentity) && !IsBlank(m.rtjIdentity) && !IsBlank(m.runtimeMode) && !IsBlank(m.gpuShape)
    && !IsBlank(m.imageIdentity) && !IsBlank(m.codeVersionIdentity) && !IsBlank(m.optimizerMode) && !IsBlank(m.shardingMode)
    && SupportedFormat(m.formatVersion, r.supportedFormatVersions)
    && (r.deviceProfileFingerprint != "" ==> m.deviceProfileFingerprint == r.deviceProfileFingerprint)
  }

  /** For a runtime that agrees with the request: the controller accepts exactly when the trainer does and the controller's
      own extra checks pass, apart from the format, on which the trainer is the stricter one. */
  lemma AcceptanceExactly(m: Manifest, r: ResumeRequest, rt: Runtime)
    requires Agrees(rt, r)
    ensures Compatible(m, r) && m.formatVersion == FORMAT_VERSION <==> TrainerAccepts(m, rt) && OnlyControllerChecks(m, r)
  {
  }

  /** So a manifest that the controller chose makes the trainer raise exactly when its format is not the SDK's, which cannot
      happen while the request supports no other; and when it is restored, the mode the trainer reports is the one that
      was recorded in status. */
  lemma ControllerAcceptanceSuffices(m: Manifest, r: ResumeRequest, rt: Runtime)
    requires Agrees(rt, r) && Compatible(m, r)
    ensures TrainerAccepts(m, rt) <==> m.formatVersion == FORMAT_VERSION
    ensures (forall v :: v in r.supportedFormatVersions ==> v == FORMAT_VERSION) ==> TrainerAccepts(m, rt)
    ensures (RecordedMode(m.worldSize, r.worldSize) == SameSize) <==> m.worldSize == rt.worldSize
    ensures m.worldSize > 0 ==> ShapeMode(m.worldSize, r.worldSize) == Some(RecordedMode(m.worldSize, rt.worldSize))
  {
    AcceptanceExactly(m, r, rt);
    if forall v :: v in r.supportedFormatVersions ==> v == FORMAT_VERSION {
      assert m.formatVersion in (if r.supportedFormatVersions == [] then [SUPPORTED_FORMAT] else r.supportedFormatVersions);
    }
  }

  // ---- The runtime that is rendered ----

  /** What the job's own template gives the trainer where the controller sets nothing, with the SDK's defaults for what the
      template leaves out as well. The controller sets none of the six identity values. */
  datatype Ambient = Ambient(
    runtimeMode: string,
    gpuShape: string,
    imageIdentity: string,
    codeVersionIdentity: string,
    optimizerMode: string,
    shardingMode: string,
    worldSize: int,
    allowWorldSizeChange: bool)

  /** Without any of its variables, the SDK starts from these. */
  const SDK_DEFAULTS := Ambient("DDP", "cpu", "local/fixture:dev", "workspace", "adamw", "replicated-optimizer-state", 1, false)

  /** Cluster and job identity are always passed on, world size and permission only along with admitted counts. */
  ghost function Render(r: ResumeRequest, counts: Option<Shape.Counts>, identity: int, ambient: Ambient): Runtime {
    Runtime(r.clusterIdentity, r.rtjIdentity, ambient.runtimeMode,
            if Passed(counts, identity) then RenderedSize(counts, identity) else ambient.worldSize,
            ambient.gpuShape, ambient.imageIdentity, ambient.codeVersionIdentity, ambient.optimizerMode, ambient.shardingMode,
            if Passed(counts, identity) then r.allowWorldSizeChange else ambient.allowWorldSizeChange)
  }

  predicate Passed(counts: Option<Shape.Counts>, identity: int) {
    counts.Some? && identity > 0
  }

  ghost function RenderedSize(counts: Option<Shape.Counts>, identity: int): int {
    Shape.WorldSize(if counts.Some? then Shape.Sum32(counts.value) else 0, identity)
  }

  /** The template gives the trainer the identity that the checkpoint was taken under. */
  predicate SameIdentity(m: Manifest, ambient: Ambient) {
    && m.runtimeMode == ambient.runtimeMode && m.gpuShape == ambient.gpuShape
    && m.imageIdentity == ambient.imageIdentity && m.codeVersionIdentity == ambient.codeVersionIdentity
    && m.optimizerMode == ambient.optimizerMode && m.shardingMode == ambient.shardingMode
  }

  /** A manifest that the controller chose is accepted by the rendered trainer exactly when it is in the SDK's format, the template
      gives its identity, and its size is the trainer's or a change is permitted: by the spec when admitted counts are passed
      on, by the template itself otherwise. When counts are passed on and the request was made for the size they give,
      the size is no obstacle; and the runtime agrees with the request exactly when the template gives the identity. */
  lemma RenderedAcceptsExactly(m: Manifest, r: ResumeRequest, counts: Option<Shape.Counts>, identity: int, ambient: Ambient)
    requires Compatible(m, r)
    ensures var rt := Render(r, counts, identity, ambient);
            TrainerAccepts(m, rt) <==>
            (&& m.formatVersion == FORMAT_VERSION
             && SameIdentity(m, ambient)
             && (if Passed(counts, identity) then
                   m.worldSize == RenderedSize(counts, identity) || (r.allowWorldSizeChange && m.crossSizeRestoreSupported == Some(true))
                 else
                   m.worldSize == ambient.worldSize || (ambient.allowWorldSizeChange && m.crossSizeRestoreSupported == Some(true))))
    ensures Passed(counts, identity) && r.worldSize == RenderedSize(counts, identity) ==>
            (TrainerAccepts(m, Render(r, counts, identity, ambient)) <==> m.formatVersion == FORMAT_VERSION && SameIdentity(m, ambient))
    ensures Passed(counts, identity) && r.worldSize == RenderedSize(counts, identity) ==>
            (Agrees(Render(r, counts, identity, ambient), r) <==> SameIdentity(m, ambient))
  {
  }

  /** A job whose spec and checkpoint say h100, and whose template does not name the GPU shape, is refused by its trainer. */
  lemma UnnamedShapeIsRefused(m: Manifest, r: ResumeRequest, counts: Shape.Counts, identity: int)
    requires Compatible(m, r) && m.gpuShape == "h100"
    ensures !TrainerAccepts(m, Render(r, Some(counts), identity, SDK_DEFAULTS))
  {
    RenderedAcceptsExactly(m, r, Some(counts), identity, SDK_DEFAULTS);
    assert "h100"[0] != "cpu"[0];
  }
}
