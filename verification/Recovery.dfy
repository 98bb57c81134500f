// Artifact publication from beginning to end: its sequential specification, the exact condition of
// its success, and convergence of retries after crashes, failures and races.

module Recovery {
  import opened Basics
  import opened Canonical
  import opened References
  import opened Resources
  import opened Tables
  import opened Clients
  import opened Invariants
  import opened Driving

  const NO_POINTING := Pointing(None, None, "")

  // The reference of the object that the request puts, or expects to find.
  function RefOf(q: ArtifactRequest): ObjectRef {
    ObjectRef(OBJECT_RESOURCE, ObjectId(ResourceId(q.identity)), Some(q.digest))
  }

  function CandidateOf(codec: Codec, q: ArtifactRequest): Option<StoredResource> {
    ArtifactCandidate(codec, q, RefOf(q))
  }

  function ObjectOf(q: ArtifactRequest): StoredObject {
    StoredObject(ObjectMetadata(RefOf(q), q.digest, q.byteLength, q.mediaType, Some(ResourceId(q.identity))), q.content)
  }

  predicate GenuineBytes(sha: Bytes -> string, q: ArtifactRequest) {
    sha(q.content) == q.digest && |q.content| == q.byteLength
  }

  function WithObject(t: Tables, q: ArtifactRequest): Tables {
    t.(objects := t.objects[ObjectId(ResourceId(q.identity)) := ObjectOf(q)])
  }

  function WithRow(t: Tables, r: StoredResource): Tables {
    t.(metadata := t.metadata[r.Id() := r],
       provenance := if r.provenance.Some? then t.provenance[r.Id() := ProvenanceRow(r.Id(), r.provenance.value, r.createdAt)] else t.provenance)
  }

  // The sequential specification of publish, without promotion: the outcome and the tables it leaves.
  function PublishOnce(codec: Codec, t: Tables, q: ArtifactRequest): (Outcome, Tables) {
    var id := ResourceId(q.identity);
    var candidate := CandidateOf(codec, q);
    if id in t.metadata then
      var existing := t.metadata[id];
      if existing.profile != Artifact || existing.digest != q.digest || existing.byteLength != q.byteLength
         || existing.mediaType != q.mediaType
      then (Raised(IdentityConflict), t)
      else if candidate.None? then (Raised(InvalidInput), t)
      else if SameArtifact(candidate.value, existing) then (Publication(existing, true, true, None), t)
      else (Raised(IdentityConflict), t)
    else
      var absent := ObjectId(id) !in t.objects;
      if absent && !GenuineBytes(codec.sha, q) then (Raised(StoreFailure(Rejected)), t)
      else if !absent && !ObjectMatches(t.objects[ObjectId(id)].metadata, q) then (Raised(IdentityConflict), t)
      else
        var u := if absent then WithObject(t, q) else t;
        if candidate.None? then (Raised(InvalidInput), u)
        else
          var stored := candidate.value.(recordVersion := Some(Num(1)));
          (Publication(stored, !absent, true, None), WithRow(u, stored))
  }

  lemma CandidateFacts(codec: Codec, q: ArtifactRequest)
    requires CandidateOf(codec, q).Some?
    ensures var c := CandidateOf(codec, q).value;
            && Publishable(codec, c) && c.identity == q.identity && c.profile == Artifact
            && c.mediaType == q.mediaType && c.digest == q.digest && c.byteLength == q.byteLength
            && c.objectRef == Some(RefOf(q)) && c.createdBy == q.description.actor
            && c.labels == q.description.labels && c.annotations == Freeze(q.description.annotations)
            && c.provenance == q.description.provenance && c.supersedes == q.description.supersedes
            && c.versionOrder == q.description.versionOrder && c.payload == None && c.payloadSchema == None
            && c.immutable && codec.utc(q.description.createdAt) == Some(c.createdAt)
  {
    hide Make, Valid, ResourceId, ObjectId, Freeze;
    MadeCandidate(codec, Candidate(q.identity, Artifact, q.mediaType, q.digest, q.byteLength, Some(RefOf(q)), None, None, q.description),
                  CandidateOf(codec, q).value);
  }

  // An artifact row with the request's digest refers to the object that the request would put.
  lemma ExistingRef(codec: Codec, t: Tables, q: ArtifactRequest)
    requires MetadataOk(codec, t) && ObjectsOk(codec.sha, t) && ResourceId(q.identity) in t.metadata
    requires var r := t.metadata[ResourceId(q.identity)]; r.profile == Artifact && r.digest == q.digest
    ensures t.metadata[ResourceId(q.identity)].objectRef == Some(RefOf(q))
  {
    hide Valid, ResourceId, ObjectId;
    var r := t.metadata[ResourceId(q.identity)];
    assert RowOk(codec, r, ResourceId(q.identity)) && HasObject(t.objects, r);
  }

  // ---------------------------------------------------------------- alone, publish does just that

  lemma LookupAlone(codec: Codec, t: Tables, q: ArtifactRequest)
    requires MetadataOk(codec, t) && ObjectsOk(codec.sha, t)
    ensures var (u, d) := ClientStep(codec, t, PubLookup(q, NO_POINTING), NoFault);
            && u == t
            && (ResourceId(q.identity) in t.metadata ==> d == Done(PublishOnce(codec, t, q).0) && PublishOnce(codec, t, q).1 == t)
            && (ResourceId(q.identity) !in t.metadata ==> d == PubPut(q, NO_POINTING))
  {
    hide Valid, ResourceId, ObjectId, SameArtifact, ArtifactCandidate, MetadataOk, ObjectsOk, HasObject;
    var id := ResourceId(q.identity);
    if id in t.metadata {
      var r := t.metadata[id];
      if r.profile == Artifact && r.digest == q.digest {
        ExistingRef(codec, t, q);
      }
    }
  }

  lemma PutAlone(codec: Codec, t: Tables, q: ArtifactRequest)
    requires ObjectsOk(codec.sha, t)
    ensures var (u, d) := ClientStep(codec, t, PubPut(q, NO_POINTING), NoFault);
            if ObjectId(ResourceId(q.identity)) in t.objects then u == t && d == PubStat(q, NO_POINTING)
            else if !GenuineBytes(codec.sha, q) then u == t && d == Raise(StoreFailure(Rejected))
            else u == WithObject(t, q) && d == AfterObject(codec, q, false)
  {
    hide ResourceId, ObjectId, ArtifactCandidate;
  }

  // Once the matching object is in place, publish commits, or fails for its descriptive fields.
  function AfterObject(codec: Codec, q: ArtifactRequest, idempotent: bool): Client {
    match CandidateOf(codec, q)
    case None => Raise(InvalidInput)
    case Some(candidate) => PubCommit(q, NO_POINTING, candidate, idempotent)
  }

  lemma StatAlone(codec: Codec, t: Tables, q: ArtifactRequest)
    requires ObjectsOk(codec.sha, t) && ObjectId(ResourceId(q.identity)) in t.objects
    ensures var (u, d) := ClientStep(codec, t, PubStat(q, NO_POINTING), NoFault);
            && u == t
            && d == if ObjectMatches(t.objects[ObjectId(ResourceId(q.identity))].metadata, q) then AfterObject(codec, q, true)
                    else Raise(IdentityConflict)
  {
    hide ResourceId, ObjectId, ArtifactCandidate;
  }

  lemma CommitAlone(codec: Codec, t: Tables, q: ArtifactRequest, idempotent: bool)
    requires ProvenanceOk(t) && CandidateOf(codec, q).Some? && ResourceId(q.identity) !in t.metadata
    ensures var c := CandidateOf(codec, q).value;
            var stored := c.(recordVersion := Some(Num(1)));
            ClientStep(codec, t, PubCommit(q, NO_POINTING, c, idempotent), NoFault)
              == (WithRow(t, stored), Done(Publication(stored, idempotent, true, None)))
  {
    hide ResourceId, ObjectId, CandidateOf, Valid;
    CandidateFacts(codec, q);
  }

  lemma DriveStep(codec: Codec, now: nat, t: Tables, c: Client)
    requires !c.Done?
    ensures var (u, d) := ClientStep(codec, t, c, NoFault); Drive(codec, Alone(), now, t, c) == Drive(codec, Alone(), now + 1, u, d)
  {
    hide ClientStep;
  }

  // Alone and without faults, the machine ends as the sequential specification says.
  lemma PublishAlone(codec: Codec, now: nat, t: Tables, q: ArtifactRequest)
    requires TablesOk(codec, t)
    ensures var e := Drive(codec, Alone(), now, t, PubLookup(q, NO_POINTING));
            (e.outcome, e.tables) == PublishOnce(codec, t, q)
  {
    hide ClientStep, MetadataOk, ObjectsOk, ProvenanceOk, OrphansOk, ChannelsOk, CandidateOf, ResourceId, ObjectId, ObjectMatches,
         SameArtifact, WithObject, WithRow, GenuineBytes;
    var id := ResourceId(q.identity);
    LookupAlone(codec, t, q);
    DriveStep(codec, now, t, PubLookup(q, NO_POINTING));
    if id !in t.metadata {
      PutAlone(codec, t, q);
      DriveStep(codec, now + 1, t, PubPut(q, NO_POINTING));
      if ObjectId(id) in t.objects {
        StatAlone(codec, t, q);
        DriveStep(codec, now + 2, t, PubStat(q, NO_POINTING));
        if ObjectMatches(t.objects[ObjectId(id)].metadata, q) && CandidateOf(codec, q).Some? {
          CommitAlone(codec, t, q, true);
          DriveStep(codec, now + 3, t, PubCommit(q, NO_POINTING, CandidateOf(codec, q).value, true));
        }
      } else if GenuineBytes(codec.sha, q) && CandidateOf(codec, q).Some? {
        var u := WithObject(t, q);
        WithObjectKeeps(t, q);
        CommitAlone(codec, u, q, false);
        DriveStep(codec, now + 2, u, PubCommit(q, NO_POINTING, CandidateOf(codec, q).value, false));
      }
    }
  }

  lemma WithObjectKeeps(t: Tables, q: ArtifactRequest)
    ensures var u := WithObject(t, q); u.metadata == t.metadata && (ProvenanceOk(t) ==> ProvenanceOk(u))
  {
  }

  // ---------------------------------------------------------------- when publish succeeds

  // Nobody has published other content under the identity.
  predicate Compatible(codec: Codec, t: Tables, q: ArtifactRequest) {
    var id := ResourceId(q.identity);
    && (ObjectId(id) in t.objects ==> ObjectMatches(t.objects[ObjectId(id)].metadata, q))
    && (id in t.metadata ==> CandidateOf(codec, q).Some? && SameArtifact(CandidateOf(codec, q).value, t.metadata[id]))
  }

  // A fault-free publish succeeds if and only if nothing incompatible is there, the descriptive
  // fields are valid, and the bytes are genuine or their object is in place already.
  lemma PublishSucceedsIff(codec: Codec, t: Tables, q: ArtifactRequest)
    requires TablesOk(codec, t)
    ensures Drive(codec, Alone(), 0, t, PubLookup(q, NO_POINTING)).outcome.Publication? <==>
              && Compatible(codec, t, q)
              && CandidateOf(codec, q).Some?
              && (ObjectId(ResourceId(q.identity)) in t.objects || GenuineBytes(codec.sha, q))
  {
    hide Drive, CandidateOf, ResourceId, ObjectId, Valid, ProvenanceOk, ChannelsOk, OrphansOk, WithObject, WithRow;
    PublishAlone(codec, 0, t, q);
    var id := ResourceId(q.identity);
    if id in t.metadata {
      var r := t.metadata[id];
      assert RowOk(codec, r, id);
      if CandidateOf(codec, q).Some? {
        CandidateFacts(codec, q);
      }
      if r.profile == Artifact {
        assert HasObject(t.objects, r);
      }
    }
  }

  // What the sequential publication adds, and what it leaves alone.
  lemma PublishOnceAdds(codec: Codec, t: Tables, q: ArtifactRequest)
    ensures var (o, u) := PublishOnce(codec, t, q);
            var id := ResourceId(q.identity);
            && u.orphans == t.orphans && u.channels == t.channels
            && (id in u.metadata <==> id in t.metadata || o.Publication?)
            && (id !in t.metadata ==> (ObjectId(id) in u.objects <==> ObjectId(id) in t.objects || GenuineBytes(codec.sha, q)))
            && (id in t.metadata ==> u == t)
            && (id !in t.metadata && ObjectId(id) !in t.objects && GenuineBytes(codec.sha, q) ==> (o.Publication? <==> CandidateOf(codec, q).Some?))
            && o != Raised(IncompletePublication)
  {
    hide CandidateOf, ResourceId, ObjectId, ObjectMatches, SameArtifact, GenuineBytes, Valid;
    if CandidateOf(codec, q).Some? {
      CandidateFacts(codec, q);
    }
  }

  // ---------------------------------------------------------------- racing and retrying

  // A publication of q that can only end in success.
  predicate OnTrack(codec: Codec, t: Tables, c: Client, q: ArtifactRequest) {
    var id := ResourceId(q.identity);
    && CandidateOf(codec, q).Some? && GenuineBytes(codec.sha, q)
    && Compatible(codec, t, q)
    && match c
       case PubLookup(p, pointing) => p == q && pointing == NO_POINTING
       case PubPut(p, pointing) => p == q && pointing == NO_POINTING
       case PubStat(p, pointing) => p == q && pointing == NO_POINTING && ObjectId(id) in t.objects
       case PubCommit(p, pointing, candidate, _) => p == q && pointing == NO_POINTING && Some(candidate) == CandidateOf(codec, q)
       case PubWinner(p, pointing, candidate) =>
         p == q && pointing == NO_POINTING && Some(candidate) == CandidateOf(codec, q) && id in t.metadata
       case Done(Publication(r, _, committed, pointer)) =>
         r.Id() == id && SameArtifact(CandidateOf(codec, q).value, r) && committed && pointer == None && id in t.metadata
       case _ => false
  }

  lemma OnTrackLookup(codec: Codec, t: Tables, c: Client, q: ArtifactRequest)
    requires c.PubLookup? || c.PubWinner?
    requires MetadataOk(codec, t) && ObjectsOk(codec.sha, t) && OnTrack(codec, t, c, q)
    ensures var (u, d) := ClientStep(codec, t, c, NoFault); OnTrack(codec, u, d, q)
  {
    hide Valid, ResourceId, ObjectId, ObjectMatches, GenuineBytes, HasObject, MetadataOk, ObjectsOk, ArtifactCandidate;
    CandidateFacts(codec, q);
    var id := ResourceId(q.identity);
    if id in t.metadata {
      ExistingRef(codec, t, q);
    }
  }

  lemma OnTrackObject(codec: Codec, t: Tables, c: Client, q: ArtifactRequest)
    requires c.PubPut? || c.PubStat?
    requires ObjectsOk(codec.sha, t) && OnTrack(codec, t, c, q)
    ensures var (u, d) := ClientStep(codec, t, c, NoFault); OnTrack(codec, u, d, q)
  {
    hide ResourceId, ObjectId, SameArtifact, ArtifactCandidate;
  }

  lemma OnTrackCommit(codec: Codec, t: Tables, c: Client, q: ArtifactRequest)
    requires c.PubCommit? && ProvenanceOk(t) && OnTrack(codec, t, c, q)
    ensures var (u, d) := ClientStep(codec, t, c, NoFault); OnTrack(codec, u, d, q)
  {
    hide Valid, ResourceId, ObjectId, ObjectMatches, GenuineBytes, CandidateOf, ArtifactCandidate, FailedPublication;
    CandidateFacts(codec, q);
    if ResourceId(q.identity) !in t.metadata {
      CommitAlone(codec, t, q, c.objectIdempotent);
    }
  }

  lemma OnTrackStep(codec: Codec, t: Tables, c: Client, q: ArtifactRequest)
    requires !c.Done? && TablesOk(codec, t) && OnTrack(codec, t, c, q)
    ensures var (u, d) := ClientStep(codec, t, c, NoFault); OnTrack(codec, u, d, q)
  {
    hide ClientStep, MetadataOk, ObjectsOk, ProvenanceOk, ChannelsOk, OrphansOk, Compatible, CandidateOf, GenuineBytes, ResourceId, ObjectId;
    if c.PubLookup? || c.PubWinner? {
      OnTrackLookup(codec, t, c, q);
    } else if c.PubPut? || c.PubStat? {
      OnTrackObject(codec, t, c, q);
    } else {
      OnTrackCommit(codec, t, c, q);
    }
  }

  // Others may publish the same content under the identity, but no other content.
  ghost predicate Harmless(codec: Codec, w: World, q: ArtifactRequest) {
    forall n, t :: TablesOk(codec, t) && Compatible(codec, t, q) ==> Compatible(codec, w.interfere(n, t), q)
  }

  lemma OnTrackStable(codec: Codec, t: Tables, u: Tables, c: Client, q: ArtifactRequest)
    requires OnTrack(codec, t, c, q) && Grows(t, u) && Compatible(codec, u, q)
    ensures OnTrack(codec, u, c, q)
  {
    hide CandidateOf, GenuineBytes, ResourceId, ObjectId, Compatible, SameArtifact;
  }

  lemma {:induction false} OnTrackEnds(codec: Codec, w: World, now: nat, t: Tables, c: Client, q: ArtifactRequest)
    requires Rely(codec, w) && FaultFree(w) && Harmless(codec, w, q)
    requires TablesOk(codec, t) && ClientOk(codec, t, c) && OnTrack(codec, t, c, q)
    ensures var e := Drive(codec, w, now, t, c); TablesOk(codec, e.tables) && OnTrack(codec, e.tables, Done(e.outcome), q)
    decreases Listing(c), Rank(c)
  {
    hide OnTrack, ClientStep, TablesOk, Grows, Descends, Compatible, ClientOk;
    if !c.Done? {
      var s := w.interfere(now, t);
      OnTrackCompatible(codec, t, c, q);
      OnTrackStable(codec, t, s, c, q);
      ClientOkStable(codec, t, s, c);
      OnTrackStep(codec, s, c, q);
      StepOk(codec, s, c, NoFault);
      StepDescends(codec, s, c, NoFault);
      var (u, d) := ClientStep(codec, s, c, NoFault);
      DescendsMeans(c, d);
      OnTrackEnds(codec, w, now + 1, u, d, q);
    }
  }

  lemma OnTrackCompatible(codec: Codec, t: Tables, c: Client, q: ArtifactRequest)
    requires OnTrack(codec, t, c, q)
    ensures Compatible(codec, t, q)
  {
    hide Compatible;
  }

  // From any consistent state without competing content, whatever crashes and failures led there,
  // and against any number of publishers of the same content, a publish that meets no fault ends
  // with a receipt for the requested publication, its metadata and its object in place.
  lemma PublicationConverges(codec: Codec, w: World, t: Tables, q: ArtifactRequest)
    requires Rely(codec, w) && FaultFree(w) && Harmless(codec, w, q)
    requires TablesOk(codec, t) && Compatible(codec, t, q) && CandidateOf(codec, q).Some? && GenuineBytes(codec.sha, q)
    ensures var e := Drive(codec, w, 0, t, PubLookup(q, NO_POINTING));
            var id := ResourceId(q.identity);
            && e.outcome.Publication? && SameArtifact(CandidateOf(codec, q).value, e.outcome.resource)
            && id in e.tables.metadata && SameArtifact(CandidateOf(codec, q).value, e.tables.metadata[id])
            && ObjectId(id) in e.tables.objects && ObjectMatches(e.tables.objects[ObjectId(id)].metadata, q)
  {
    hide Drive, CandidateOf, GenuineBytes, ResourceId, ObjectId, SameArtifact, ObjectMatches, Harmless, Rely, FaultFree, TablesOk;
    OnTrackEnds(codec, w, 0, t, PubLookup(q, NO_POINTING), q);
    var e := Drive(codec, w, 0, t, PubLookup(q, NO_POINTING));
    ArtifactHasObject(codec, e.tables, q);
  }

  lemma ArtifactHasObject(codec: Codec, t: Tables, q: ArtifactRequest)
    requires TablesOk(codec, t) && CandidateOf(codec, q).Some?
    requires ResourceId(q.identity) in t.metadata && SameArtifact(CandidateOf(codec, q).value, t.metadata[ResourceId(q.identity)])
    ensures ObjectId(ResourceId(q.identity)) in t.objects
  {
    hide Valid, ResourceId, ObjectId, CandidateOf, ObjectsOk, ProvenanceOk, ChannelsOk, OrphansOk;
    CandidateFacts(codec, q);
    var r := t.metadata[ResourceId(q.identity)];
    assert RowOk(codec, r, ResourceId(q.identity)) && HasObject(t.objects, r);
  }

  // ---------------------------------------------------------------- what publish leaves

  // A successful publication leaves consistent tables and an artifact row.
  lemma PublishOnceOk(codec: Codec, t: Tables, q: ArtifactRequest)
    requires TablesOk(codec, t) && PublishOnce(codec, t, q).0.Publication?
    ensures var u := PublishOnce(codec, t, q).1;
            TablesOk(codec, u) && ResourceId(q.identity) in u.metadata && u.metadata[ResourceId(q.identity)].profile == Artifact
  {
    hide Drive, CandidateOf, ResourceId, ObjectId, TablesOk, GenuineBytes, ObjectMatches, SameArtifact, Valid, WithObject;
    PublishAlone(codec, 0, t, q);
    DriveKeeps(codec, 0, t, PubLookup(q, NO_POINTING));
    if ResourceId(q.identity) !in t.metadata {
      CandidateFacts(codec, q);
    }
  }

  lemma {:induction false} DriveKeeps(codec: Codec, now: nat, t: Tables, c: Client)
    requires TablesOk(codec, t) && ClientOk(codec, t, c)
    ensures TablesOk(codec, Drive(codec, Alone(), now, t, c).tables)
    decreases Listing(c), Rank(c)
  {
    hide TablesOk, ClientOk, ClientStep, Grows, Descends;
    if !c.Done? {
      StepOk(codec, t, c, NoFault);
      StepDescends(codec, t, c, NoFault);
      var (u, d) := ClientStep(codec, t, c, NoFault);
      DescendsMeans(c, d);
      DriveKeeps(codec, now + 1, u, d);
    }
  }
}
