/** Checkpoint manifests, yield markers, and the names under which they are stored. */
module Checkpoints {
  import opened Foundation
  import opened Text

  const SUPPORTED_FORMAT := "yield-sdk.manifest/v1alpha1"

  datatype Artifact = Artifact(
    name: string,
    relativePath: string,
    objectURI: string,
    sizeBytes: int,
    digestAlgorithm: string,
    digestValue: string)

  /** A timestamp field holds the result of parsing it: None when it is missing or malformed. */
  datatype Manifest = Manifest(
    checkpointID: string,
    clusterIdentity: string,
    rtjIdentity: string,
    runAttempt: int,
    imageIdentity: string,
    codeVersionIdentity: string,
    runtimeMode: string,
    worldSize: int,
    gpuShape: string,
    optimizerMode: string,
    shardingMode: string,
    formatVersion: string,
    crossSizeRestoreSupported: Option<bool>,
    deviceProfileFingerprint: string,
    storageRootURI: string,
    manifestURI: string,
    artifacts: seq<Artifact>,
    completedAt: Option<Time>)

  /** A timestamp field whose being empty and whose being malformed are told apart. */
  datatype Timestamp = Empty | Unparseable | At(time: Time)

  function Instant(t: Timestamp): Option<Time> {
    if t.At? then Some(t.time) else None
  }

  function Written(t: Option<Time>): Timestamp {
    if t.Some? then At(t.value) else Empty
  }

  datatype YieldMarker = YieldMarker(
    checkpointID: string,
    manifestURI: string,
    requestID: string,
    completedAt: Timestamp)

  datatype CheckpointRef = CheckpointRef(
    id: string,
    storageURI: string,
    manifestURI: string,
    completedAt: Time,
    sourceRunAttempt: int,
    worldSize: int)

  predicate CompleteArtifact(a: Artifact) {
    && !IsBlank(a.name) && !IsBlank(a.relativePath) && !IsBlank(a.objectURI)
    && !IsBlank(a.digestAlgorithm) && !IsBlank(a.digestValue)
    && a.sizeBytes >= 0
  }

  /** ValidateComplete returns no error. */
  predicate Complete(m: Manifest) {
    && !IsBlank(m.checkpointID)
    && !IsBlank(m.storageRootURI)
    && m.completedAt.Some?
    && m.artifacts != []
    && forall i :: 0 <= i < |m.artifacts| ==> CompleteArtifact(m.artifacts[i])
  }

  /** The errors of ValidateComplete: a manifest is incomplete exactly when one of its own fields, or of its artifacts', is
      missing. */
  lemma IncompleteExactly(m: Manifest)
    ensures !Complete(m) <==>
      || IsBlank(m.checkpointID) || IsBlank(m.storageRootURI) || m.completedAt.None? || m.artifacts == []
      || exists i :: 0 <= i < |m.artifacts| &&
           var a := m.artifacts[i];
           IsBlank(a.name) || IsBlank(a.relativePath) || IsBlank(a.objectURI) || IsBlank(a.digestAlgorithm) ||
           IsBlank(a.digestValue) || a.sizeBytes < 0
  {
    if !Complete(m) && m.artifacts != [] && !IsBlank(m.checkpointID) && !IsBlank(m.storageRootURI) && m.completedAt.Some? {
      var i :| 0 <= i < |m.artifacts| && !CompleteArtifact(m.artifacts[i]);
    }
  }

  function Reference(m: Manifest): (r: CheckpointRef)
    requires m.completedAt.Some?
  {
    CheckpointRef(m.checkpointID, m.storageRootURI, m.manifestURI, m.completedAt.value, m.runAttempt, m.worldSize)
  }

  // ---- Object names ----

  function YieldMarkerURI(root: string, attempt: nat): string {
    TrimSlashes(root) + "/yield-markers/run-" + Decimal(attempt) + ".json"
  }

  function ManifestURI(root: string, id: string): string {
    TrimSlashes(root) + "/manifests/" + id + ".manifest.json"
  }

  function ArtifactURI(root: string, id: string, path: string): string {
    TrimSlashes(root) + "/checkpoints/" + id + "/" + path
  }

  /** create_checkpoint_id: the stamp is a UTC instant in sixteen characters. */
  function CheckpointID(stamp: string, attempt: nat, step: nat): string {
    "ckpt-" + stamp + "-a" + Decimal(attempt) + "-s" + Decimal(step)
  }

  ghost predicate IsStamp(stamp: string) {
    |stamp| == 16
  }

  /** The checkpoint id was generated by run attempt `attempt`. */
  ghost predicate NamesAttempt(id: string, attempt: nat) {
    exists stamp, step :: IsStamp(stamp) && id == CheckpointID(stamp, attempt, step)
  }

  /** The first letter after the storage root and its slash tells the three kinds of object apart. */
  predicate Under(root: string, kind: char, uri: string) {
    var r := TrimSlashes(root);
    |uri| > |r| + 1 && uri[|r| + 1] == kind
  }

  lemma NamesAreSorted(root: string, attempt: nat, id: string, path: string)
    ensures Under(root, 'y', YieldMarkerURI(root, attempt))
    ensures Under(root, 'm', ManifestURI(root, id))
    ensures Under(root, 'c', ArtifactURI(root, id, path))
  {
    var r := TrimSlashes(root);
    assert YieldMarkerURI(root, attempt)[|r| + 1] == "/yield-markers/run-"[1];
    assert ManifestURI(root, id)[|r| + 1] == "/manifests/"[1];
    assert ArtifactURI(root, id, path)[|r| + 1] == "/checkpoints/"[1];
  }

  /** Different run attempts never share a marker object. */
  lemma MarkerNamesDiffer(root: string, a: nat, b: nat)
    ensures YieldMarkerURI(root, a) == YieldMarkerURI(root, b) ==> a == b
  {
    var prefix := TrimSlashes(root) + "/yield-markers/run-";
    assert YieldMarkerURI(root, a) == prefix + (Decimal(a) + ".json");
    assert YieldMarkerURI(root, b) == prefix + (Decimal(b) + ".json");
    assert YieldMarkerURI(root, a)[|prefix|..] == Decimal(a) + ".json";
    assert YieldMarkerURI(root, b)[|prefix|..] == Decimal(b) + ".json";
    DecimalPrefixInjective(a, ".json", b, ".json");
  }

  lemma ManifestNamesDiffer(root: string, x: string, y: string)
    ensures ManifestURI(root, x) == ManifestURI(root, y) ==> x == y
  {
    var prefix := TrimSlashes(root) + "/manifests/";
    var u, v := ManifestURI(root, x), ManifestURI(root, y);
    assert u[|prefix|..|u| - |".manifest.json"|] == x;
    assert v[|prefix|..|v| - |".manifest.json"|] == y;
  }

  /** Where the attempt starts in a generated id. */
  const ATTEMPT_AT: nat := 23

  lemma IdTail(stamp: string, attempt: nat, step: nat)
    requires IsStamp(stamp)
    ensures |CheckpointID(stamp, attempt, step)| >= ATTEMPT_AT
    ensures CheckpointID(stamp, attempt, step)[ATTEMPT_AT..] == Decimal(attempt) + ("-s" + Decimal(step))
  {
    var head, tail := "ckpt-" + stamp + "-a", Decimal(attempt) + ("-s" + Decimal(step));
    assert |head| == ATTEMPT_AT;
    assert CheckpointID(stamp, attempt, step) == head + tail;
  }

  /** A generated checkpoint id determines the attempt that generated it. */
  lemma IdsNameOneAttempt(id: string, a: nat, b: nat)
    requires NamesAttempt(id, a) && NamesAttempt(id, b)
    ensures a == b
  {
    var s1, n1 :| IsStamp(s1) && id == CheckpointID(s1, a, n1);
    var s2, n2 :| IsStamp(s2) && id == CheckpointID(s2, b, n2);
    IdTail(s1, a, n1);
    IdTail(s2, b, n2);
    DecimalPrefixInjective(a, "-s" + Decimal(n1), b, "-s" + Decimal(n2));
  }
}
