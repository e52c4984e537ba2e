/** What the controller reads from the checkpoint bucket: evidence that a stop request was
    honoured, and the checkpoint a new run should resume from. */
module Catalog {
  import opened Foundation
  import opened Checkpoints
  import opened ObjectStorage
  import Selection

  datatype Observation =
    | NotReady
    | ReadError
    | Accepted(checkpoint: CheckpointRef, completedAt: Time)

  datatype ManifestRead = Missing | Undecodable | Decoded(manifest: Manifest)

  /** readManifest: a manifest that does not state its own URI takes the one it was read from. */
  function ReadManifest(s: Store, uri: string): ManifestRead {
    if uri !in s then Missing
    else if !s[uri].ManifestDoc? then Undecodable
    else
      var m := s[uri].manifest;
      Decoded(if m.manifestURI == "" then m.(manifestURI := uri) else m)
  }

  predicate CompleteMarker(k: YieldMarker) {
    k.checkpointID != "" && k.manifestURI != "" && k.requestID != "" && k.completedAt != Empty
  }

  predicate After(t: Option<Time>, bound: Time) {
    t.Some? && t.value > bound
  }

  /** ObservePause for the run attempt whose marker slot is `markerURI`. */
  function ObservePause(s: Store, markerURI: string, requestID: string, requestedAt: Time): (o: Observation)
    ensures o.Accepted? ==>
      && markerURI in s && s[markerURI].MarkerDoc?
      && s[markerURI].marker.requestID == requestID
      && After(Instant(s[markerURI].marker.completedAt), requestedAt)
      && o.completedAt > requestedAt
      && o.checkpoint.completedAt == o.completedAt
  {
    if markerURI !in s then NotReady
    else if !s[markerURI].MarkerDoc? || !CompleteMarker(s[markerURI].marker) then ReadError
    else
      var k := s[markerURI].marker;
      if k.requestID != requestID || !After(Instant(k.completedAt), requestedAt) then NotReady
      else
        match ReadManifest(s, k.manifestURI)
        case Missing => NotReady
        case Undecodable => ReadError
        case Decoded(m) =>
          if !Complete(m) then ReadError
          else if !ArtifactsPresent(s, m) then NotReady
          else if !After(m.completedAt, requestedAt) then NotReady
          else Accepted(Reference(m), m.completedAt.value)
  }

  /** In an ordered bucket, evidence is accepted exactly when attempt n's marker answers this request
      and both it and its manifest are newer than the request; what is accepted is complete in the
      bucket under the name it is given, and was taken by attempt n. */
  lemma AcceptedExactly(root: string, s: Store, n: nat, requestID: string, requestedAt: Time)
    requires Ordered(root, s)
    requires requestID != ""
    ensures var uri := YieldMarkerURI(root, n);
            var o := ObservePause(s, uri, requestID, requestedAt);
            && (o.Accepted? <==>
                && uri in s && s[uri].MarkerDoc? && CompleteMarker(s[uri].marker)
                && s[uri].marker.requestID == requestID
                && After(Instant(s[uri].marker.completedAt), requestedAt)
                && CompleteAt(s, s[uri].marker.manifestURI)
                && After(s[s[uri].marker.manifestURI].manifest.completedAt, requestedAt))
            && (o.Accepted? ==>
                && o.checkpoint.manifestURI == s[uri].marker.manifestURI
                && CompleteAt(s, o.checkpoint.manifestURI)
                && s[o.checkpoint.manifestURI].manifest.completedAt == Some(o.completedAt)
                && o.checkpoint.sourceRunAttempt == n)
  {
    assert MarkerOfAttempt(root, s, n);
    var uri := YieldMarkerURI(root, n);
    if uri in s {
      assert s[uri].marker.manifestURI == "" ==> !CompleteMarker(s[uri].marker);
    }
  }

  /** Every outcome of an observation, in any bucket: the marker is read and must be whole, it must answer this request later
      than it was made, and the manifest it names must exist, be whole, have its artifacts, and be later too. What is
      missing or does not answer yet is not ready; what is there but broken is an error. */
  lemma ObservationExactly(s: Store, uri: string, id: string, at: Time)
    ensures var o := ObservePause(s, uri, id, at);
            var whole := uri in s && s[uri].MarkerDoc? && s[uri].marker.checkpointID != "" && s[uri].marker.manifestURI != "" &&
                         s[uri].marker.requestID != "" && s[uri].marker.completedAt != Empty;
            var answers := whole && s[uri].marker.requestID == id && s[uri].marker.completedAt.At? && at < s[uri].marker.completedAt.time;
            && (o.ReadError? <==>
                || (uri in s && !whole)
                || (answers && s[uri].marker.manifestURI in s &&
                    (!s[s[uri].marker.manifestURI].ManifestDoc? || !Complete(s[s[uri].marker.manifestURI].manifest))))
            && (o.Accepted? <==>
                && answers && s[uri].marker.manifestURI in s && s[s[uri].marker.manifestURI].ManifestDoc?
                && var m := s[s[uri].marker.manifestURI].manifest;
                   && Complete(m) && at < m.completedAt.value
                   && forall i :: 0 <= i < |m.artifacts| ==> m.artifacts[i].objectURI in s)
            && (o.Accepted? ==>
                var m := s[s[uri].marker.manifestURI].manifest;
                o == Accepted(CheckpointRef(m.checkpointID, m.storageRootURI,
                                            if m.manifestURI == "" then s[uri].marker.manifestURI else m.manifestURI,
                                            m.completedAt.value, m.runAttempt, m.worldSize), m.completedAt.value))
  {
    if uri in s && s[uri].MarkerDoc? && s[uri].marker.manifestURI in s && s[s[uri].marker.manifestURI].ManifestDoc? {
      var m := s[s[uri].marker.manifestURI].manifest;
      assert Complete(m.(manifestURI := s[uri].marker.manifestURI)) <==> Complete(m);
    }
  }

  predicate Candidate(s: Store, uri: string) {
    && ReadManifest(s, uri).Decoded?
    && Complete(ReadManifest(s, uri).manifest)
    && ArtifactsPresent(s, ReadManifest(s, uri).manifest)
  }

  /** In any bucket: what is loaded for selection is a manifest that is whole and has every artifact stored, and it is taken as
      stored, under the name it was found by if it states none. */
  lemma CandidateExactly(s: Store, uri: string)
    ensures Candidate(s, uri) <==>
      && uri in s && s[uri].ManifestDoc? && Complete(s[uri].manifest)
      && forall i :: 0 <= i < |s[uri].manifest.artifacts| ==> s[uri].manifest.artifacts[i].objectURI in s
    ensures Candidate(s, uri) ==>
      var m := s[uri].manifest;
      ReadManifest(s, uri).manifest == m.(manifestURI := if m.manifestURI == "" then uri else m.manifestURI)
  {
    if uri in s && s[uri].ManifestDoc? {
      assert Complete(s[uri].manifest.(manifestURI := uri)) <==> Complete(s[uri].manifest);
    }
  }

  /** u is a listed candidate that the request accepts. */
  predicate Acceptable(s: Store, listing: seq<string>, request: Selection.ResumeRequest, u: string) {
    u in listing && Candidate(s, u) && Selection.Compatible(ReadManifest(s, u).manifest, request)
  }

  /** What a selection from the listing answers: nothing when nothing is acceptable, otherwise a newest acceptable one. */
  ghost predicate Chosen(s: Store, listing: seq<string>, request: Selection.ResumeRequest, r: Option<CheckpointRef>) {
    match r
    case None => forall u :: !Acceptable(s, listing, request, u)
    case Some(ref) =>
      exists u :: Acceptable(s, listing, request, u) && ref == Reference(ReadManifest(s, u).manifest) &&
        forall v :: Acceptable(s, listing, request, v) ==>
          !Selection.Newer(ReadManifest(s, v).manifest, ReadManifest(s, u).manifest)
  }

  /** Load every listed manifest that is complete and has its artifacts, then select. */
  method SelectResumeCheckpoint(s: Store, listing: seq<string>, request: Selection.ResumeRequest)
    returns (r: Option<CheckpointRef>)
    ensures Chosen(s, listing, request, r)
  {
    var candidates: seq<Manifest> := [];
    for i := 0 to |listing|
      invariant forall m :: m in candidates ==>
        exists u :: u in listing[..i] && Candidate(s, u) && ReadManifest(s, u).manifest == m
      invariant forall u :: u in listing[..i] && Candidate(s, u) ==> ReadManifest(s, u).manifest in candidates
    {
      assert listing[..i + 1] == listing[..i] + [listing[i]];
      if Candidate(s, listing[i]) {
        candidates := candidates + [ReadManifest(s, listing[i]).manifest];
        assert listing[i] in listing[..i + 1];
      }
    }
    assert listing[..|listing|] == listing;
    assert forall u :: u in listing && Candidate(s, u) ==> ReadManifest(s, u).manifest in candidates;
    var chosen := Selection.SelectLatestCompatible(candidates, request);
    if chosen.None? { return None; }
    var u :| u in listing && Candidate(s, u) && ReadManifest(s, u).manifest == chosen.value;
    assert Acceptable(s, listing, request, u);
    return Some(Reference(chosen.value));
  }

  /** In an ordered bucket, whatever is selected is complete in the bucket under the name it is given. */
  lemma SelectedIsComplete(root: string, s: Store, uri: string)
    requires Ordered(root, s) && Candidate(s, uri)
    ensures CompleteAt(s, Reference(ReadManifest(s, uri).manifest).manifestURI)
  {
    assert WellPlaced(root, s, uri);
  }

  /** So whatever the catalog answers from an ordered bucket is complete there. */
  lemma ChosenIsComplete(root: string, s: Store, listing: seq<string>, request: Selection.ResumeRequest, r: Option<CheckpointRef>)
    requires Ordered(root, s) && Chosen(s, listing, request, r)
    ensures r.Some? ==> CompleteAt(s, r.value.manifestURI)
    ensures r.Some? ==>
      var m := s[r.value.manifestURI].manifest;
      && r.value.manifestURI in listing && Selection.Compatible(m, request)
      && r.value == CheckpointRef(m.checkpointID, m.storageRootURI, m.manifestURI, m.completedAt.value, m.runAttempt, m.worldSize)
  {
    if r.Some? {
      var u :| Acceptable(s, listing, request, u) && r.value == Reference(ReadManifest(s, u).manifest);
      SelectedIsComplete(root, s, u);
      assert WellPlaced(root, s, u);
    }
  }
}
