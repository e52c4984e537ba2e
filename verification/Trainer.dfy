/** The trainer's side of a yield: rank zero uploads every staged file, then the manifest,
    then (after the barrier) the yield marker. The process may die after any upload. */
module Trainer {
  import opened Foundation
  import opened Text
  import opened Checkpoints
  import opened ObjectStorage

  class Bucket {
    var objects: Store
  }

  datatype StagedFile = StagedFile(relativePath: string, sizeBytes: nat, digest: string)

  function ReplaceSlashes(s: string): string {
    seq(|s|, i requires 0 <= i < |s| => if s[i] == '/' then '-' else s[i])
  }

  function ArtifactOf(root: string, id: string, f: StagedFile): Artifact {
    Artifact(ReplaceSlashes(f.relativePath), f.relativePath, ArtifactURI(root, id, f.relativePath),
             f.sizeBytes, "sha256", f.digest)
  }

  function ArtifactsOf(root: string, id: string, files: seq<StagedFile>): seq<Artifact> {
    seq(|files|, i requires 0 <= i < |files| => ArtifactOf(root, id, files[i]))
  }

  lemma FirstArtifact(root: string, id: string, files: seq<StagedFile>)
    requires files != []
    ensures ArtifactsOf(root, id, files) == [ArtifactOf(root, id, files[0])] + ArtifactsOf(root, id, files[1..])
  {
  }

  ghost predicate AllStored(s: Store, artifacts: seq<Artifact>) {
    forall i :: 0 <= i < |artifacts| ==> artifacts[i].objectURI in s
  }

  /** The manifest a save produces: `identity` carries the runtime identity fields. */
  function BuildManifest(identity: Manifest, root: string, id: string, attempt: nat,
                         artifacts: seq<Artifact>, builtAt: Time): Manifest {
    identity.(checkpointID := id, runAttempt := attempt, storageRootURI := TrimSlashes(root) + "/checkpoints/" + id,
              manifestURI := ManifestURI(root, id), artifacts := artifacts, completedAt := Some(Stored(builtAt)))
  }

  /** The manifest is the runtime's own, names the checkpoint, its attempt, places and time, and lists every file with its path,
      size and digest. */
  predicate Describes(m: Manifest, identity: Manifest, root: string, id: string, attempt: nat, files: seq<StagedFile>, builtAt: Time) {
    && m == identity.(checkpointID := id, runAttempt := attempt, completedAt := Some(Stored(builtAt)),
                      storageRootURI := TrimSlashes(root) + "/checkpoints/" + id,
                      manifestURI := TrimSlashes(root) + "/manifests/" + id + ".manifest.json", artifacts := m.artifacts)
    && |m.artifacts| == |files|
    && forall i :: 0 <= i < |files| ==>
         && m.artifacts[i].relativePath == files[i].relativePath
         && m.artifacts[i].objectURI == TrimSlashes(root) + "/checkpoints/" + id + "/" + files[i].relativePath
         && m.artifacts[i].sizeBytes == files[i].sizeBytes && m.artifacts[i].digestValue == files[i].digest
         && m.artifacts[i].digestAlgorithm == "sha256"
  }

  lemma BuiltDescribes(identity: Manifest, root: string, id: string, attempt: nat, files: seq<StagedFile>, builtAt: Time)
    ensures Describes(BuildManifest(identity, root, id, attempt, ArtifactsOf(root, id, files), builtAt),
                      identity, root, id, attempt, files, builtAt)
  {
  }

  // ---- The bucket after so many uploads ----

  /** The bucket after the files were uploaded in order. */
  function Uploaded(root: string, id: string, s: Store, files: seq<StagedFile>): Store
    decreases |files|
  {
    if files == [] then s
    else Uploaded(root, id, s[ArtifactURI(root, id, files[0].relativePath) := Blob], files[1..])
  }

  /** What is added once every artifact is stored, in `uploads` uploads at most: the manifest if complete, then the marker. */
  function Finished(root: string, s: Store, attempt: nat, id: string, artifacts: seq<Artifact>, identity: Manifest,
                    requestID: string, builtAt: Time, uploads: nat): Store {
    var m := BuildManifest(identity, root, id, attempt, artifacts, builtAt);
    if uploads == 0 || !Complete(m) then s
    else
      var t := s[m.manifestURI := ManifestDoc(m)];
      if uploads == 1 then t
      else t[YieldMarkerURI(root, attempt) := MarkerDoc(YieldMarker(id, m.manifestURI, requestID, Written(m.completedAt)))]
  }

  /** The bucket when the process dies after `uploads` uploads, or earlier because the manifest is not complete. */
  function Yielded(root: string, s: Store, attempt: nat, id: string, files: seq<StagedFile>, identity: Manifest,
                   requestID: string, builtAt: Time, uploads: nat): Store {
    if uploads < |files| then Uploaded(root, id, s, files[..uploads])
    else Finished(root, Uploaded(root, id, s, files), attempt, id, ArtifactsOf(root, id, files), identity, requestID,
                  builtAt, uploads - |files|)
  }

  /** Upload the staged files one by one; `uploads` is how many uploads the process lives for. */
  method UploadStagedFiles(bucket: Bucket, root: string, id: string, files: seq<StagedFile>, uploads: nat)
    returns (artifacts: seq<Artifact>, left: nat)
    requires Ordered(root, bucket.objects)
    modifies bucket
    ensures Ordered(root, bucket.objects) && Retains(old(bucket.objects), bucket.objects)
    ensures AllStored(bucket.objects, artifacts)
    ensures |artifacts| == if uploads < |files| then uploads else |files|
    ensures artifacts == ArtifactsOf(root, id, files)[..|artifacts|]
    ensures left == uploads - |artifacts|
    ensures bucket.objects == Uploaded(root, id, old(bucket.objects), files[..|artifacts|])
    ensures forall uri :: uri in bucket.objects && !Under(root, 'c', uri) ==>
      uri in old(bucket.objects) && bucket.objects[uri] == old(bucket.objects)[uri]
  {
    artifacts, left := [], uploads;
    var i := 0;
    ghost var end := if uploads < |files| then uploads else |files|;
    assert files[0..end] == files[..end];
    while i < |files| && left > 0
      invariant 0 <= i <= end && left == uploads - i
      invariant artifacts == ArtifactsOf(root, id, files)[..i]
      invariant Ordered(root, bucket.objects) && Retains(old(bucket.objects), bucket.objects)
      invariant AllStored(bucket.objects, artifacts)
      invariant Uploaded(root, id, bucket.objects, files[i..end]) == Uploaded(root, id, old(bucket.objects), files[..end])
      invariant forall uri :: uri in bucket.objects && !Under(root, 'c', uri) ==>
        uri in old(bucket.objects) && bucket.objects[uri] == old(bucket.objects)[uri]
    {
      PutArtifact(root, bucket.objects, id, files[i].relativePath);
      NamesAreSorted(root, 0, id, files[i].relativePath);
      assert files[i..end][1..] == files[i + 1..end];
      bucket.objects := bucket.objects[ArtifactURI(root, id, files[i].relativePath) := Blob];
      artifacts := artifacts + [ArtifactOf(root, id, files[i])];
      left, i := left - 1, i + 1;
    }
  }

  /** What a finished yield shows: the marker answers the request and names a manifest that is complete and describes the files. */
  ghost predicate Shows(s: Store, root: string, attempt: nat, id: string, files: seq<StagedFile>, identity: Manifest,
                        requestID: string, builtAt: Time) {
    var marker, uri := YieldMarkerURI(root, attempt), ManifestURI(root, id);
    && marker in s && s[marker] == MarkerDoc(YieldMarker(id, uri, requestID, At(Stored(builtAt))))
    && CompleteAt(s, uri) && Describes(s[uri].manifest, identity, root, id, attempt, files, builtAt)
  }

  ghost predicate SameMarker(s: Store, t: Store, root: string, attempt: nat) {
    var marker := YieldMarkerURI(root, attempt);
    (marker in t <==> marker in s) && (marker in s && marker in t ==> t[marker] == s[marker])
  }

  /** Once the artifacts are stored: the manifest, and after the barrier the marker. */
  method UploadManifestAndMarker(bucket: Bucket, root: string, attempt: nat, id: string, files: seq<StagedFile>,
                                 identity: Manifest, requestID: string, builtAt: Time, uploads: nat)
    returns (yielded: bool)
    requires Ordered(root, bucket.objects) && NamesAttempt(id, attempt)
    requires AllStored(bucket.objects, ArtifactsOf(root, id, files))
    modifies bucket
    ensures bucket.objects == Finished(root, old(bucket.objects), attempt, id, ArtifactsOf(root, id, files), identity,
                                       requestID, builtAt, uploads)
    ensures Ordered(root, bucket.objects) && Retains(old(bucket.objects), bucket.objects)
    ensures if yielded then Shows(bucket.objects, root, attempt, id, files, identity, requestID, builtAt)
            else SameMarker(old(bucket.objects), bucket.objects, root, attempt)
  {
    var m := BuildManifest(identity, root, id, attempt, ArtifactsOf(root, id, files), builtAt);
    if uploads == 0 || !Complete(m) {
      return false;
    }
    NamesAreSorted(root, attempt, id, "");
    PutManifest(root, bucket.objects, m);
    bucket.objects := bucket.objects[m.manifestURI := ManifestDoc(m)];
    if uploads == 1 {
      return false;
    }
    var k := YieldMarker(id, m.manifestURI, requestID, Written(m.completedAt));
    PutMarker(root, bucket.objects, attempt, k);
    bucket.objects := bucket.objects[YieldMarkerURI(root, attempt) := MarkerDoc(k)];
    BuiltDescribes(identity, root, id, attempt, files, builtAt);
    yielded := true;
  }

  /** The yield branch. Whatever the number of uploads before the process dies, the bucket stays
      ordered; the marker slot changes only when everything it stands for is stored. */
  method YieldBranch(bucket: Bucket, root: string, attempt: nat, stamp: string, step: nat, files: seq<StagedFile>,
                     identity: Manifest, requestID: string, builtAt: Time, uploads: nat)
    returns (yielded: bool)
    requires Ordered(root, bucket.objects) && IsStamp(stamp)
    modifies bucket
    ensures bucket.objects == Yielded(root, old(bucket.objects), attempt, CheckpointID(stamp, attempt, step), files,
                                      identity, requestID, builtAt, uploads)
    ensures Ordered(root, bucket.objects) && Retains(old(bucket.objects), bucket.objects)
    ensures if yielded then Shows(bucket.objects, root, attempt, CheckpointID(stamp, attempt, step), files, identity, requestID, builtAt)
            else SameMarker(old(bucket.objects), bucket.objects, root, attempt)
  {
    var id := CheckpointID(stamp, attempt, step);
    var artifacts, left := UploadStagedFiles(bucket, root, id, files, uploads);
    NamesAreSorted(root, attempt, id, "");
    assert SameMarker(old(bucket.objects), bucket.objects, root, attempt);
    if |artifacts| < |files| {
      return false;
    }
    assert files[..|files|] == files && artifacts == ArtifactsOf(root, id, files);
    yielded := UploadManifestAndMarker(bucket, root, attempt, id, files, identity, requestID, builtAt, left);
  }
}
