/** The checkpoint bucket and the order invariant that a trainer's uploads keep:
    a visible manifest has its artifacts, and a visible marker has its manifest. */
module ObjectStorage {
  import opened Checkpoints

  datatype Object = Blob | ManifestDoc(manifest: Manifest) | MarkerDoc(marker: YieldMarker)

  type Store = map<string, Object>

  predicate ArtifactsPresent(s: Store, m: Manifest) {
    forall i :: 0 <= i < |m.artifacts| ==> m.artifacts[i].objectURI in s
  }

  /** `uri` holds a manifest that names itself, passes validation and has every artifact stored. */
  predicate CompleteAt(s: Store, uri: string) {
    && uri in s && s[uri].ManifestDoc?
    && s[uri].manifest.manifestURI == uri
    && Complete(s[uri].manifest)
    && ArtifactsPresent(s, s[uri].manifest)
  }

  ghost predicate WellPlaced(root: string, s: Store, uri: string)
    requires uri in s
  {
    match s[uri]
    case Blob => Under(root, 'c', uri)
    case ManifestDoc(m) =>
      && uri == ManifestURI(root, m.checkpointID)
      && CompleteAt(s, uri)
      && m.runAttempt >= 0 && NamesAttempt(m.checkpointID, m.runAttempt)
    case MarkerDoc(k) => Under(root, 'y', uri) && CompleteAt(s, k.manifestURI)
  }

  /** The marker slot of attempt n, when filled, points at a manifest taken by attempt n. */
  ghost predicate MarkerOfAttempt(root: string, s: Store, n: nat) {
    var uri := YieldMarkerURI(root, n);
    uri in s ==>
      && s[uri].MarkerDoc?
      && CompleteAt(s, s[uri].marker.manifestURI)
      && s[s[uri].marker.manifestURI].manifest.runAttempt == n
  }

  ghost predicate Ordered(root: string, s: Store) {
    && (forall uri :: uri in s ==> WellPlaced(root, s, uri))
    && (forall n: nat :: MarkerOfAttempt(root, s, n))
  }

  /** Every manifest of s is still complete in t, under the same attempt. */
  ghost predicate Retains(s: Store, t: Store) {
    && s.Keys <= t.Keys
    && forall uri :: CompleteAt(s, uri) ==> CompleteAt(t, uri) && t[uri].manifest.runAttempt == s[uri].manifest.runAttempt
  }

  lemma PutArtifact(root: string, s: Store, id: string, path: string)
    requires Ordered(root, s)
    ensures var t := s[ArtifactURI(root, id, path) := Blob]; Ordered(root, t) && Retains(s, t)
  {
    var key := ArtifactURI(root, id, path);
    var t := s[key := Blob];
    NamesAreSorted(root, 0, id, path);
    forall uri | CompleteAt(s, uri)
      ensures CompleteAt(t, uri) && t[uri] == s[uri]
    {
      assert WellPlaced(root, s, uri);
      NamesAreSorted(root, 0, s[uri].manifest.checkpointID, "");
    }
    forall uri | uri in t ensures WellPlaced(root, t, uri) {
      if uri != key { assert WellPlaced(root, s, uri); }
    }
    forall n: nat ensures MarkerOfAttempt(root, t, n) {
      NamesAreSorted(root, n, id, path);
      assert MarkerOfAttempt(root, s, n);
    }
  }

  lemma PutManifest(root: string, s: Store, m: Manifest)
    requires Ordered(root, s)
    requires Complete(m) && ArtifactsPresent(s, m)
    requires m.manifestURI == ManifestURI(root, m.checkpointID)
    requires m.runAttempt >= 0 && NamesAttempt(m.checkpointID, m.runAttempt)
    ensures var t := s[m.manifestURI := ManifestDoc(m)]; Ordered(root, t) && Retains(s, t) && CompleteAt(t, m.manifestURI)
  {
    var t := s[m.manifestURI := ManifestDoc(m)];
    NamesAreSorted(root, 0, m.checkpointID, "");
    forall uri | CompleteAt(s, uri)
      ensures CompleteAt(t, uri) && t[uri].manifest.runAttempt == s[uri].manifest.runAttempt
    {
      if uri == m.manifestURI {
        assert WellPlaced(root, s, uri);
        var old_ := s[uri].manifest;
        ManifestNamesDiffer(root, old_.checkpointID, m.checkpointID);
        IdsNameOneAttempt(m.checkpointID, old_.runAttempt, m.runAttempt);
      }
    }
    forall uri | uri in t ensures WellPlaced(root, t, uri) {
      if uri != m.manifestURI { assert WellPlaced(root, s, uri); }
    }
    forall n: nat ensures MarkerOfAttempt(root, t, n) {
      NamesAreSorted(root, n, m.checkpointID, "");
      assert MarkerOfAttempt(root, s, n);
    }
  }

  lemma PutMarker(root: string, s: Store, attempt: nat, k: YieldMarker)
    requires Ordered(root, s)
    requires CompleteAt(s, k.manifestURI) && s[k.manifestURI].manifest.runAttempt == attempt
    ensures var t := s[YieldMarkerURI(root, attempt) := MarkerDoc(k)]; Ordered(root, t) && Retains(s, t)
  {
    var key := YieldMarkerURI(root, attempt);
    var t := s[key := MarkerDoc(k)];
    NamesAreSorted(root, attempt, "", "");
    forall uri | CompleteAt(s, uri)
      ensures CompleteAt(t, uri) && t[uri] == s[uri]
    {
      assert WellPlaced(root, s, uri);
      NamesAreSorted(root, attempt, s[uri].manifest.checkpointID, "");
    }
    forall uri | uri in t ensures WellPlaced(root, t, uri) {
      if uri != key { assert WellPlaced(root, s, uri); }
    }
    forall n: nat ensures MarkerOfAttempt(root, t, n) {
      MarkerNamesDiffer(root, n, attempt);
      assert MarkerOfAttempt(root, s, n);
    }
  }
}
