// What every step of every client keeps: the consistency of the tables, their growth, and what
// each client may rely on between two of its calls.

module Invariants {
  import opened Basics
  import opened Canonical
  import opened References
  import opened Resources
  import opened Records
  import opened Tables
  import opened Clients

  // The immutable part of a stored resource.
  function Core(r: StoredResource): StoredResource {
    r.(state := Published, recordVersion := None)
  }

  // ---------------------------------------------------------------- the tables

  predicate RowOk(codec: Codec, r: StoredResource, id: string) {
    && r.Id() == id
    && Valid(codec, r)
    && (r.state == Published || r.state == Deprecated)
    && r.recordVersion == Some(Num(if r.state == Published then 1 else 2))
  }

  // The object of an artifact: in place, and the one the row describes.
  predicate HasObject(objects: map<string, StoredObject>, r: StoredResource) {
    && ObjectId(r.Id()) in objects
    && var m := objects[ObjectId(r.Id())].metadata;
      && r.objectRef == Some(m.ref)
      && m.digest == r.digest && m.byteLength == r.byteLength && m.mediaType == r.mediaType
  }

  predicate MetadataOk(codec: Codec, t: Tables) {
    forall id | id in t.metadata ::
      && RowOk(codec, t.metadata[id], id)
      && (t.metadata[id].profile == Artifact ==> HasObject(t.objects, t.metadata[id]))
  }

  // An object lies under its own id, with the digest and length of its bytes.
  predicate ObjectsOk(sha: Bytes -> string, t: Tables) {
    forall id | id in t.objects ::
      var m := t.objects[id].metadata;
      && m.ref == ObjectRef(OBJECT_RESOURCE, id, Some(m.digest))
      && sha(t.objects[id].content) == m.digest
      && |t.objects[id].content| == m.byteLength
      && m.declaredId.Some? && id == ObjectId(m.declaredId.value)
  }

  // Provenance rows are exactly those of the metadata rows that carry provenance.
  predicate ProvenanceOk(t: Tables) {
    && t.provenance.Keys <= t.metadata.Keys
    && forall id | id in t.metadata ::
      if id in t.provenance then ProvenanceRowOf(t.metadata[id]) == Some(t.provenance[id])
      else ProvenanceRowOf(t.metadata[id]) == None
  }

  predicate HasPredecessor(channels: map<string, ChannelRow>, row: ChannelRow) {
    && row.pointerVersion >= 1
    && (row.pointerVersion > 1 ==> ChannelVersionId(row.channel, row.pointerVersion - 1) in channels)
  }

  predicate ChannelsOk(t: Tables) {
    forall id | id in t.channels ::
      && HasPredecessor(t.channels, t.channels[id])
      && id == ChannelVersionId(t.channels[id].channel, t.channels[id].pointerVersion)
  }

  predicate OrphanHasObject(objects: map<string, StoredObject>, o: Orphan) {
    && o.objectRef.objectId in objects
    && var m := objects[o.objectRef.objectId].metadata;
      && m.ref == o.objectRef && m.digest == o.digest && m.byteLength == o.byteLength
  }

  predicate OrphansOk(t: Tables) {
    forall id | id in t.orphans :: t.orphans[id].Id() == id && OrphanHasObject(t.objects, t.orphans[id])
  }

  predicate TablesOk(codec: Codec, t: Tables) {
    MetadataOk(codec, t) && ObjectsOk(codec.sha, t) && ProvenanceOk(t) && ChannelsOk(t) && OrphansOk(t)
  }

  // ---------------------------------------------------------------- growth

  predicate Within<K, V(==)>(a: map<K, V>, b: map<K, V>) {
    forall k | k in a :: k in b && b[k] == a[k]
  }

  // Rows are never removed; a resource changes only from published to deprecated, nothing else at all.
  predicate RowsGrow(a: map<string, StoredResource>, b: map<string, StoredResource>) {
    forall id | id in a ::
      && id in b
      && Core(b[id]) == Core(a[id])
      && (a[id].state == Deprecated ==> b[id] == a[id])
  }

  predicate Grows(t: Tables, u: Tables) {
    && RowsGrow(t.metadata, u.metadata)
    && Within(t.provenance, u.provenance)
    && Within(t.channels, u.channels)
    && Within(t.orphans, u.orphans)
    && Within(t.objects, u.objects)
  }

  lemma GrowsTransitive(t: Tables, u: Tables, v: Tables)
    requires Grows(t, u) && Grows(u, v)
    ensures Grows(t, v)
  {
  }

  // ---------------------------------------------------------------- what a call may do

  predicate CallOk(codec: Codec, t: Tables, c: Call) {
    match c
    case Commit(row) => Valid(codec, row) && row.state == Published && (row.profile == Artifact ==> HasObject(t.objects, row))
    case Deprecate(_, expected) => expected == Some(Num(1))
    case PutChannel(row) => HasPredecessor(t.channels, row)
    case PutOrphan(orphan) => OrphanHasObject(t.objects, orphan)
    case _ => true
  }

  lemma ValidWith(codec: Codec, r: StoredResource, s: ResourceState, v: Option<Version>)
    requires Valid(codec, r) && r.state != Draft && s != Draft
    ensures Valid(codec, r.(state := s, recordVersion := v))
  {
  }

  lemma CommitGrows(codec: Codec, t: Tables, row: StoredResource)
    ensures Grows(t, ExecCommit(t, row).0)
  {
    hide ResourceId;
  }

  lemma CommitKeepsMetadata(codec: Codec, t: Tables, row: StoredResource)
    requires MetadataOk(codec, t) && CallOk(codec, t, Commit(row))
    ensures MetadataOk(codec, ExecCommit(t, row).0)
  {
    hide Valid, ResourceId, ObjectId;
    ValidWith(codec, row, Published, Some(Num(1)));
  }

  lemma CommitKeepsProvenance(t: Tables, row: StoredResource)
    requires ProvenanceOk(t)
    ensures ProvenanceOk(ExecCommit(t, row).0)
  {
    hide ResourceId;
  }

  lemma CommitKeeps(codec: Codec, t: Tables, row: StoredResource)
    requires TablesOk(codec, t) && CallOk(codec, t, Commit(row))
    ensures var u := ExecCommit(t, row).0; TablesOk(codec, u) && Grows(t, u)
  {
    hide CallOk, Grows, ResourceId, MetadataOk, ProvenanceOk, HasPredecessor, OrphanHasObject, ChannelVersionId, OrphanCandidateId;
    CommitGrows(codec, t, row);
    CommitKeepsMetadata(codec, t, row);
    CommitKeepsProvenance(t, row);
  }

  lemma DeprecateGrows(codec: Codec, t: Tables, id: string)
    requires MetadataOk(codec, t)
    ensures Grows(t, ExecDeprecate(t, id, Some(Num(1))).0)
  {
    hide Valid, ResourceId, HasObject, Core, MetadataOk;
    if id in t.metadata {
      var row := t.metadata[id];
      ReadIsKnown(codec, t, id);
      PatchKeepsCore(row, Some(Num(2)));
    }
  }

  lemma PatchKeepsCore(r: StoredResource, v: Option<Version>)
    ensures Core(r.(state := Deprecated, recordVersion := v)) == Core(r)
  {
  }

  lemma DeprecateKeepsMetadata(codec: Codec, t: Tables, id: string)
    requires MetadataOk(codec, t)
    ensures MetadataOk(codec, ExecDeprecate(t, id, Some(Num(1))).0)
  {
    hide Valid, ResourceId, ObjectId;
    if id in t.metadata {
      ValidWith(codec, t.metadata[id], Deprecated, Some(Num(2)));
    }
  }

  lemma DeprecateKeepsProvenance(t: Tables, id: string, v: Option<Version>)
    requires ProvenanceOk(t)
    ensures ProvenanceOk(ExecDeprecate(t, id, v).0)
  {
    hide ResourceId;
  }

  lemma DeprecateKeeps(codec: Codec, t: Tables, id: string)
    requires TablesOk(codec, t)
    ensures var u := ExecDeprecate(t, id, Some(Num(1))).0; TablesOk(codec, u) && Grows(t, u)
  {
    hide Grows, ResourceId, MetadataOk, ProvenanceOk, HasPredecessor, OrphanHasObject, ChannelVersionId, OrphanCandidateId;
    DeprecateGrows(codec, t, id);
    DeprecateKeepsMetadata(codec, t, id);
    DeprecateKeepsProvenance(t, id, Some(Num(1)));
  }

  lemma PutChannelKeeps(codec: Codec, t: Tables, row: ChannelRow)
    requires TablesOk(codec, t) && HasPredecessor(t.channels, row)
    ensures var u := ExecPutChannel(t, row).0; TablesOk(codec, u) && Grows(t, u)
  {
    hide Valid, ResourceId, ObjectId, ChannelVersionId, OrphanCandidateId, HasObject, OrphanHasObject;
  }

  lemma PutOrphanKeeps(codec: Codec, t: Tables, orphan: Orphan)
    requires TablesOk(codec, t) && OrphanHasObject(t.objects, orphan)
    ensures var u := ExecPutOrphan(t, orphan).0; TablesOk(codec, u) && Grows(t, u)
  {
    hide Valid, ResourceId, ObjectId, ChannelVersionId, OrphanCandidateId, HasObject, HasPredecessor;
  }

  // What describes an object keeps describing it while objects are only added.
  lemma ObjectsAddedKeeps(codec: Codec, t: Tables, objects: map<string, StoredObject>)
    requires TablesOk(codec, t) && Within(t.objects, objects)
    ensures var u := t.(objects := objects); MetadataOk(codec, u) && ProvenanceOk(u) && ChannelsOk(u) && OrphansOk(u)
  {
    hide Valid, ResourceId, ObjectId, ChannelVersionId, OrphanCandidateId, HasPredecessor;
  }

  lemma PutObjectKeeps(codec: Codec, t: Tables, c: Call)
    requires TablesOk(codec, t) && c.PutObject?
    ensures var u := ExecPutObject(codec.sha, t, c).0; TablesOk(codec, u) && Grows(t, u)
  {
    hide ObjectId, MetadataOk, ProvenanceOk, ChannelsOk, OrphansOk;
    ObjectsAddedKeeps(codec, t, ExecPutObject(codec.sha, t, c).0.objects);
  }

  // Every call of a well-behaved client keeps the tables consistent and only lets them grow.
  lemma PerformKeeps(codec: Codec, t: Tables, c: Call, fault: Fault)
    requires TablesOk(codec, t) && CallOk(codec, t, c)
    ensures var u := Perform(codec.sha, t, c, fault).0; TablesOk(codec, u) && Grows(t, u)
  {
    hide TablesOk, ExecCommit, ExecDeprecate, ExecPutChannel, ExecPutOrphan, ExecPutObject, ExecListObjects, LatestRow;
    match c
    case Commit(row) => CommitKeeps(codec, t, row);
    case Deprecate(id, expected) => DeprecateKeeps(codec, t, id);
    case PutChannel(row) => PutChannelKeeps(codec, t, row);
    case PutOrphan(orphan) => PutOrphanKeeps(codec, t, orphan);
    case PutObject(_, _, _, _, _) => PutObjectKeeps(codec, t, c);
    case _ =>
  }

  // ---------------------------------------------------------------- the store itself

  // Puts are if_absent: on a key that is taken they conflict and change nothing, provenance included.
  lemma PutsAreIfAbsent(sha: Bytes -> string, t: Tables, c: Call)
    requires match c
             case Commit(row) => row.Id() in t.metadata || (row.provenance.Some? && row.Id() in t.provenance)
             case PutChannel(row) => row.pointerVersion >= 0 && ChannelVersionId(row.channel, row.pointerVersion) in t.channels
             case PutOrphan(o) => o.Id() in t.orphans
             case PutObject(id, _, _, _, _) => ObjectId(id) in t.objects
             case _ => false
    ensures Exec(sha, t, c) == (t, Failed(Conflict))
  {
    hide ResourceId, ObjectId, ChannelVersionId, OrphanCandidateId;
  }

  // Patches compare the version: with any other than the row's they conflict and change nothing.
  lemma PatchesCompareVersions(sha: Bytes -> string, t: Tables, id: string, expected: Option<Version>)
    ensures id in t.metadata && t.metadata[id].recordVersion != expected ==> Exec(sha, t, Deprecate(id, expected)) == (t, Failed(Conflict))
    ensures id !in t.metadata ==> Exec(sha, t, Deprecate(id, expected)) == (t, Failed(NotFound))
    ensures id in t.metadata && t.metadata[id].recordVersion == expected ==> Exec(sha, t, Deprecate(id, expected)).1.ResourceIs?
  {
  }

  // ---------------------------------------------------------------- what a client may rely on

  // r was read from the metadata table, or committed to it: only its state may have changed since.
  predicate Known(t: Tables, r: StoredResource) {
    r.Id() in t.metadata && Core(t.metadata[r.Id()]) == Core(r)
  }

  predicate FinishOk(t: Tables, f: Finish) {
    f.Receipt? ==> Known(t, f.resource)
  }

  predicate Publishable(codec: Codec, r: StoredResource) {
    Valid(codec, r) && r.state == Published && r.recordVersion == None
  }

  predicate ArtifactReady(codec: Codec, t: Tables, q: ArtifactRequest, r: StoredResource) {
    Publishable(codec, r) && r.profile == Artifact && r.identity == q.identity && HasObject(t.objects, r)
  }

  predicate Inserted(t: Tables, row: ChannelRow) {
    && row.pointerVersion >= 1
    && ChannelVersionId(row.channel, row.pointerVersion) in t.channels
    && t.channels[ChannelVersionId(row.channel, row.pointerVersion)] == row
  }

  predicate OutcomeOk(t: Tables, o: Outcome) {
    match o
    case Publication(r, _, _, pointer) => Known(t, r) && (pointer.Some? ==> Inserted(t, pointer.value))
    case Promoted(pointer) => Inserted(t, pointer)
    case DeprecatedTo(r) => Known(t, r) && r.state == Deprecated
    case _ => true
  }

  predicate Listed(t: Tables, m: ObjectMetadata) {
    m.ref.objectId in t.objects && t.objects[m.ref.objectId].metadata == m
  }

  predicate ScanOk(t: Tables, s: Scan) {
    forall i :: 0 <= i < |s.rest| ==> Listed(t, s.rest[i])
  }

  predicate ClientOk(codec: Codec, t: Tables, c: Client) {
    match c
    case PubCommit(q, _, candidate, _) => ArtifactReady(codec, t, q, candidate)
    case PubWinner(q, _, candidate) => ArtifactReady(codec, t, q, candidate)
    case PubOrphan(orphan) => OrphanHasObject(t.objects, orphan)
    case PubOrphanCheck(orphan) => OrphanHasObject(t.objects, orphan)
    case CfgLookup(_, candidate) => Publishable(codec, candidate) && candidate.profile == Configuration
    case CfgCommit(_, candidate) => Publishable(codec, candidate) && candidate.profile == Configuration
    case CfgWinner(_, candidate) => Publishable(codec, candidate) && candidate.profile == Configuration
    case PromRead(_, _, finish) => FinishOk(t, finish)
    case PromInsert(row, p, finish) =>
      && FinishOk(t, finish)
      && HasPredecessor(t.channels, row)
      && row.pointerVersion == p.expected + 1
    case DepPatch(r) => Known(t, r) && r.state == Published && r.recordVersion == Some(Num(1))
    case DepWinner(id) => id in t.metadata
    case DiscLookup(item, scan) => Listed(t, item) && ScanOk(t, scan)
    case DiscRecord(orphan, scan) => OrphanHasObject(t.objects, orphan) && ScanOk(t, scan)
    case DiscCheck(orphan, scan) => OrphanHasObject(t.objects, orphan) && ScanOk(t, scan)
    case Done(outcome) => OutcomeOk(t, outcome)
    case _ => true
  }

  // What other clients do never takes away what a client relies on.
  lemma ClientOkStable(codec: Codec, t: Tables, u: Tables, c: Client)
    requires ClientOk(codec, t, c) && Grows(t, u)
    ensures ClientOk(codec, u, c)
  {
    hide ResourceId, ObjectId, OrphanCandidateId, ChannelVersionId, Valid;
  }

  lemma ClientCallOk(codec: Codec, t: Tables, c: Client)
    requires !c.Done? && ClientOk(codec, t, c)
    ensures CallOk(codec, t, NextCall(c))
  {
    hide ResourceId, ObjectId, OrphanCandidateId, ChannelVersionId, Valid, HasObject, HasPredecessor, OrphanHasObject;
  }

  // ---------------------------------------------------------------- candidates

  lemma MadeCandidate(codec: Codec, r: StoredResource, made: StoredResource)
    requires Make(codec, r) == Some(made) && r.recordVersion == None && r.state == Published
    ensures Publishable(codec, made) && made == r.(createdAt := made.createdAt) && codec.utc(r.createdAt) == Some(made.createdAt)
  {
    hide Valid;
  }

  lemma MadeChannelRow(codec: Codec, row: ChannelRow, made: ChannelRow)
    requires MakeChannel(codec, row) == Some(made)
    ensures made == row.(updatedAt := made.updatedAt) && ValidChannelRow(codec, made)
  {
    hide ValidChannelRow;
  }

  lemma MadeOrphan(codec: Codec, o: Orphan, made: Orphan)
    requires MakeOrphan(codec, o) == Some(made)
    ensures made == o.(discoveredAt := made.discoveredAt) && ValidOrphan(codec, made)
  {
    hide ValidOrphan;
  }

  // ---------------------------------------------------------------- the latest channel row

  lemma LatestRowIsLatest(t: Tables, c: Channel)
    requires ChannelsOk(t)
    ensures LatestRow(t.channels, c).None? ==> forall id | id in t.channels :: t.channels[id].channel != c
    ensures LatestRow(t.channels, c).Some? ==>
              var row := LatestRow(t.channels, c).value;
              && Inserted(t, row) && row.channel == c
              && forall id | id in t.channels && t.channels[id].channel == c :: t.channels[id].pointerVersion <= row.pointerVersion
  {
    hide ChannelVersionId;
    if KeysOf(t.channels, c) == {} {
      forall id | id in t.channels
        ensures t.channels[id].channel != c
      {
        assert id !in KeysOf(t.channels, c);
      }
    } else {
      var v := LatestVersion(t.channels, c);
      assert IsLatest(t.channels, c, v);
      var k :| k in KeysOf(t.channels, c) && t.channels[k].pointerVersion == v;
      assert k == ChannelVersionId(c, v);
      assert LatestRow(t.channels, c) == Some(t.channels[k]);
      forall id | id in t.channels && t.channels[id].channel == c
        ensures t.channels[id].pointerVersion <= v
      {
        assert id in KeysOf(t.channels, c);
      }
    }
  }

  // ---------------------------------------------------------------- each step keeps the promises

  lemma ConcludeOk(codec: Codec, t: Tables, profile: Profile, r: StoredResource, idempotent: bool, pointing: Pointing, actor: string)
    requires Known(t, r)
    ensures ClientOk(codec, t, Conclude(profile, r, idempotent, pointing, actor))
  {
    hide ChannelName, Known;
  }

  lemma OnObjectOk(codec: Codec, t: Tables, q: ArtifactRequest, pointing: Pointing, m: ObjectMetadata, idempotent: bool)
    requires Listed(t, m)
    ensures ClientOk(codec, t, OnObject(codec, q, pointing, m, idempotent))
  {
    hide ResourceId, ObjectId, OrphanCandidateId, ChannelVersionId, Make, Valid;
    if ObjectMatches(m, q) && ArtifactCandidate(codec, q, m.ref).Some? {
      var draft := Candidate(q.identity, Artifact, q.mediaType, q.digest, q.byteLength, Some(m.ref), None, None, q.description);
      MadeCandidate(codec, draft, ArtifactCandidate(codec, q, m.ref).value);
    }
  }

  lemma OnCommitFailureOk(codec: Codec, t: Tables, q: ArtifactRequest, r: StoredResource)
    requires HasObject(t.objects, r) && ObjectsOk(codec.sha, t)
    ensures ClientOk(codec, t, OnCommitFailure(codec, q, r))
  {
    hide ResourceId, ObjectId, OrphanCandidateId, ChannelVersionId, MakeOrphan;
    if FailedPublication(codec, r, q.recordedAt).Some? {
      var draft := Orphan(r.Id(), r.objectRef.value, r.digest, r.byteLength, PUBLICATION_FAILED, q.recordedAt, Recorded, None);
      MadeOrphan(codec, draft, FailedPublication(codec, r, q.recordedAt).value);
    }
  }

  lemma PublishStepOk(codec: Codec, t: Tables, c: Client, fault: Fault)
    requires c.PubLookup? || c.PubPut? || c.PubStat? || c.PubCommit? || c.PubWinner? || c.PubOrphan? || c.PubOrphanCheck?
    requires TablesOk(codec, t) && ClientOk(codec, t, c)
    ensures var (u, d) := ClientStep(codec, t, c, fault); TablesOk(codec, u) && ClientOk(codec, u, d)
  {
    hide ResourceId, ObjectId, OrphanCandidateId, ChannelVersionId, Valid, Make, ArtifactCandidate, FailedPublication, SameArtifact, Conclude, OnObject, OnCommitFailure, Core, LatestRow, ExecListObjects,
         HasObject, OrphanHasObject, MetadataOk, ProvenanceOk, ChannelsOk, OrphansOk;
    ClientCallOk(codec, t, c);
    var u := Perform(codec.sha, t, NextCall(c), fault).0;
    PerformKeeps(codec, t, NextCall(c), fault);
    ClientOkStable(codec, t, u, c);
    match c
    case PubLookup(q, pointing) =>
      PublishLookupOk(codec, t, c, fault);
    case PubPut(q, pointing) =>
      PublishObjectOk(codec, t, c, fault);
    case PubStat(q, pointing) =>
      PublishObjectOk(codec, t, c, fault);
    case PubCommit(q, pointing, candidate, _) =>
      PublishCommitOk(codec, t, c, fault);
    case PubWinner(q, pointing, candidate) =>
      PublishLookupOk(codec, t, c, fault);
    case PubOrphan(_) =>
    case PubOrphanCheck(_) =>
  }

  // A row read from the table is known.
  lemma ReadIsKnown(codec: Codec, t: Tables, id: string)
    requires MetadataOk(codec, t) && id in t.metadata
    ensures Known(t, t.metadata[id]) && RowOk(codec, t.metadata[id], id)
  {
    hide Valid;
  }

  lemma PublishLookupOk(codec: Codec, t: Tables, c: Client, fault: Fault)
    requires c.PubLookup? || c.PubWinner?
    requires TablesOk(codec, t) && ClientOk(codec, t, c)
    ensures var (u, d) := ClientStep(codec, t, c, fault); ClientOk(codec, u, d)
  {
    hide ResourceId, ObjectId, OrphanCandidateId, ChannelVersionId, Valid, Make, ArtifactCandidate, FailedPublication, SameArtifact, Conclude, OnCommitFailure, Core, HasObject,
         Known, ProvenanceOk, ChannelsOk, OrphansOk, MetadataOk, ObjectsOk;
    var q, pointing := c.request, c.pointing;
    var id := ResourceId(q.identity);
    if id in t.metadata {
      var row := t.metadata[id];
      ReadIsKnown(codec, t, id);
      ConcludeOk(codec, t, Artifact, row, true, pointing, q.description.actor);
    }
    if c.PubWinner? {
      OnCommitFailureOk(codec, t, q, c.candidate);
    }
  }

  lemma PublishObjectOk(codec: Codec, t: Tables, c: Client, fault: Fault)
    requires c.PubPut? || c.PubStat?
    requires TablesOk(codec, t)
    ensures var (u, d) := ClientStep(codec, t, c, fault); ClientOk(codec, u, d)
  {
    hide ResourceId, ObjectId, OrphanCandidateId, ChannelVersionId, Valid, OnObject, HasObject, ProvenanceOk, ChannelsOk, OrphansOk, MetadataOk;
    var (u, r) := Perform(codec.sha, t, NextCall(c), fault);
    if r.ObjectIs? {
      assert Listed(u, r.metadata);
      OnObjectOk(codec, u, c.request, c.pointing, r.metadata, false);
      OnObjectOk(codec, u, c.request, c.pointing, r.metadata, true);
    }
  }

  lemma PublishCommitOk(codec: Codec, t: Tables, c: Client, fault: Fault)
    requires c.PubCommit?
    requires TablesOk(codec, t) && ClientOk(codec, t, c)
    ensures var (u, d) := ClientStep(codec, t, c, fault); ClientOk(codec, u, d)
  {
    hide ResourceId, ObjectId, OrphanCandidateId, ChannelVersionId, Valid, SameArtifact, Conclude, OnCommitFailure, HasObject, ProvenanceOk, ChannelsOk, OrphansOk, MetadataOk, ObjectsOk;
    ClientCallOk(codec, t, c);
    PerformKeeps(codec, t, NextCall(c), fault);
    var (u, r) := Perform(codec.sha, t, NextCall(c), fault);
    ClientOkStable(codec, t, u, c);
    OnCommitFailureOk(codec, u, c.request, c.candidate);
    if r.ResourceIs? {
      assert Known(u, r.row);
      ConcludeOk(codec, u, Artifact, r.row, c.objectIdempotent, c.pointing, c.request.description.actor);
    }
  }

  lemma ConfigurationStepOk(codec: Codec, t: Tables, c: Client, fault: Fault)
    requires c.CfgLookup? || c.CfgCommit? || c.CfgWinner?
    requires TablesOk(codec, t) && ClientOk(codec, t, c)
    ensures var (u, d) := ClientStep(codec, t, c, fault); ClientOk(codec, u, d)
  {
    hide ResourceId, ObjectId, OrphanCandidateId, ChannelVersionId, Valid, SameConfiguration, Conclude, ProvenanceOk, ChannelsOk, OrphansOk, MetadataOk, ObjectsOk;
    var (u, r) := Perform(codec.sha, t, NextCall(c), fault);
    if r.ResourceIs? {
      if !c.CfgCommit? {
        ReadIsKnown(codec, t, c.candidate.Id());
      }
      assert Known(u, r.row);
      ConcludeOk(codec, u, Configuration, r.row, true, c.pointing, c.candidate.createdBy);
      ConcludeOk(codec, u, Configuration, r.row, false, c.pointing, c.candidate.createdBy);
    }
  }

  lemma RequestOk(codec: Codec, t: Tables, r: StoredResource, p: Promotion, finish: Finish)
    requires ChannelsOk(t) && FinishOk(t, finish)
    ensures ClientOk(codec, t, Request(codec, r, p, LatestRow(t.channels, ChannelOf(r, p)), finish))
  {
    hide ValidChannelRow, ResourceId, ObjectId, OrphanCandidateId, ChannelVersionId, MakeChannel, FinishOk, LatestRow, ChannelsOk;
    var current := LatestRow(t.channels, ChannelOf(r, p));
    LatestRowIsLatest(t, ChannelOf(r, p));
    var version := if current.None? then 1 else current.value.pointerVersion + 1;
    var draft := ChannelRow(ChannelOf(r, p), r.Id(), version, p.actor, p.at, None);
    if MakeChannel(codec, draft).Some? {
      MadeChannelRow(codec, draft, MakeChannel(codec, draft).value);
    }
  }

  lemma PromotionTargetOk(codec: Codec, t: Tables, c: Client, fault: Fault)
    requires c.PromTarget?
    ensures var (u, d) := ClientStep(codec, t, c, fault); ClientOk(codec, u, d)
  {
    hide ResourceId, ChannelName;
  }

  lemma PromotionReadOk(codec: Codec, t: Tables, c: Client, fault: Fault)
    requires c.PromRead? && ChannelsOk(t) && ClientOk(codec, t, c)
    ensures var (u, d) := ClientStep(codec, t, c, fault); ClientOk(codec, u, d)
  {
    hide ChannelsOk, LatestRow, Request, ResourceId;
    RequestOk(codec, t, c.resource, c.promotion, c.finish);
  }

  lemma PromotionInsertOk(codec: Codec, t: Tables, c: Client, fault: Fault)
    requires c.PromInsert? && ClientOk(codec, t, c)
    ensures var (u, d) := ClientStep(codec, t, c, fault); ClientOk(codec, u, d)
  {
    hide ChannelVersionId, ResourceId;
  }

  lemma PromotionStepOk(codec: Codec, t: Tables, c: Client, fault: Fault)
    requires c.PromTarget? || c.PromRead? || c.PromInsert?
    requires TablesOk(codec, t) && ClientOk(codec, t, c)
    ensures var (u, d) := ClientStep(codec, t, c, fault); ClientOk(codec, u, d)
  {
    hide ClientStep, ClientOk, MetadataOk, ObjectsOk, ProvenanceOk, ChannelsOk, OrphansOk;
    if c.PromTarget? {
      PromotionTargetOk(codec, t, c, fault);
    } else if c.PromRead? {
      PromotionReadOk(codec, t, c, fault);
    } else {
      PromotionInsertOk(codec, t, c, fault);
    }
  }

  lemma DeprecationReadOk(codec: Codec, t: Tables, c: Client, fault: Fault)
    requires c.DepRead? || c.DepWinner?
    requires MetadataOk(codec, t) && ClientOk(codec, t, c)
    ensures var (u, d) := ClientStep(codec, t, c, fault); ClientOk(codec, u, d)
  {
    hide ResourceId, Valid, HasObject, MetadataOk, Core;
    var id := if c.DepRead? then ResourceId(c.identity) else c.id;
    if id in t.metadata {
      ReadIsKnown(codec, t, id);
    }
  }

  lemma DeprecationPatchOk(codec: Codec, t: Tables, c: Client, fault: Fault)
    requires c.DepPatch? && ClientOk(codec, t, c)
    ensures var (u, d) := ClientStep(codec, t, c, fault); ClientOk(codec, u, d)
  {
    hide ResourceId;
  }

  lemma DeprecationStepOk(codec: Codec, t: Tables, c: Client, fault: Fault)
    requires c.DepRead? || c.DepPatch? || c.DepWinner?
    requires TablesOk(codec, t) && ClientOk(codec, t, c)
    ensures var (u, d) := ClientStep(codec, t, c, fault); ClientOk(codec, u, d)
  {
    hide ClientOk, ClientStep, MetadataOk, ProvenanceOk, ChannelsOk, OrphansOk, ObjectsOk;
    if c.DepPatch? {
      DeprecationPatchOk(codec, t, c, fault);
    } else {
      DeprecationReadOk(codec, t, c, fault);
    }
  }

  lemma {:induction false} AdvanceOk(codec: Codec, t: Tables, scan: Scan)
    requires ScanOk(t, scan)
    ensures ClientOk(codec, t, Advance(scan))
    decreases |scan.rest|
  {
    hide Reconcilable;
    if scan.rest != [] {
      var next := scan.(rest := scan.rest[1..]);
      assert ScanOk(t, next);
      AdvanceOk(codec, t, next);
    }
  }

  lemma ListingOk(t: Tables, limit: nat, after: Option<string>)
    requires forall id | id in t.objects :: t.objects[id].metadata.ref.objectId == id
    ensures var r := ExecListObjects(t, limit, after); r.ObjectsAre? && forall i :: 0 <= i < |r.items| ==> Listed(t, r.items[i])
  {
    var ids := IdsAfter(t.objects, after);
    LeadingIn(ids, limit);
    var page := Leading(ids, limit);
    forall i | 0 <= i < |page|
      ensures Listed(t, MetadataOf(t.objects, page)[i])
    {
      assert page[i] in ids;
    }
  }

  lemma DiscoveryListOk(codec: Codec, t: Tables, c: Client, fault: Fault)
    requires c.DiscList? && ObjectsOk(codec.sha, t)
    ensures var (u, d) := ClientStep(codec, t, c, fault); ClientOk(codec, u, d)
  {
    hide Advance, ExecListObjects, ScanOk;
    var (u, r) := Perform(codec.sha, t, NextCall(c), fault);
    ListingOk(t, c.limit, c.after);
    if r.ObjectsAre? {
      assert ScanOk(u, Scan(r.items, r.cursor, [], c.record, c.at)) by { ListedScan(t, r.items, r.cursor, c.record, c.at); }
      AdvanceOk(codec, u, Scan(r.items, r.cursor, [], c.record, c.at));
    }
  }

  lemma ListedScan(t: Tables, items: seq<ObjectMetadata>, cursor: Option<string>, record: bool, at: string)
    requires forall i :: 0 <= i < |items| ==> Listed(t, items[i])
    ensures ScanOk(t, Scan(items, cursor, [], record, at))
  {
  }

  lemma DiscoveryLookupOk(codec: Codec, t: Tables, c: Client, fault: Fault)
    requires c.DiscLookup? && ObjectsOk(codec.sha, t) && ClientOk(codec, t, c)
    ensures var (u, d) := ClientStep(codec, t, c, fault); ClientOk(codec, u, d)
  {
    hide ValidOrphan, OrphanCandidateId, ObjectId, MakeOrphan, Advance, ScanOk;
    var m, scan := c.item, c.scan;
    AdvanceOk(codec, t, scan);
    if m.declaredId.Some? && DiscoveredOrphan(codec, m, scan.at).Some? {
      var orphan := DiscoveredOrphan(codec, m, scan.at).value;
      MadeOrphan(codec, Orphan(m.declaredId.value, ObjectRef(m.ref.resource, m.ref.objectId, Some(m.digest)), m.digest,
                               m.byteLength, NO_METADATA, scan.at, Discovered, None), orphan);
      assert OrphanHasObject(t.objects, orphan);
      FoundOk(codec, t, scan, orphan);
    }
  }

  lemma FoundOk(codec: Codec, t: Tables, scan: Scan, orphan: Orphan)
    requires ScanOk(t, scan)
    ensures ClientOk(codec, t, Found(scan, orphan))
  {
    hide Advance;
    AdvanceOk(codec, t, scan.(found := scan.found + [orphan]));
  }

  lemma DiscoveryRecordOk(codec: Codec, t: Tables, c: Client, fault: Fault)
    requires (c.DiscRecord? || c.DiscCheck?) && ClientOk(codec, t, c)
    ensures var (u, d) := ClientStep(codec, t, c, fault); ClientOk(codec, u, d)
  {
    hide SameOrphan, OrphanCandidateId, Found, OrphanHasObject;
    var (u, r) := Perform(codec.sha, t, NextCall(c), fault);
    assert ScanOk(u, c.scan);
    if r.OrphanIs? {
      FoundOk(codec, u, c.scan, r.orphan);
    }
  }

  lemma DiscoveryStepOk(codec: Codec, t: Tables, c: Client, fault: Fault)
    requires c.DiscList? || c.DiscLookup? || c.DiscRecord? || c.DiscCheck?
    requires TablesOk(codec, t) && ClientOk(codec, t, c)
    ensures var (u, d) := ClientStep(codec, t, c, fault); ClientOk(codec, u, d)
  {
    hide ClientStep, ClientOk, MetadataOk, ObjectsOk, ProvenanceOk, ChannelsOk, OrphansOk;
    if c.DiscList? {
      DiscoveryListOk(codec, t, c, fault);
    } else if c.DiscLookup? {
      DiscoveryLookupOk(codec, t, c, fault);
    } else {
      DiscoveryRecordOk(codec, t, c, fault);
    }
  }

  // One step of one client, under any fault, keeps the tables consistent, lets them only grow,
  // and leaves the client with what it relies on.
  lemma StepOk(codec: Codec, t: Tables, c: Client, fault: Fault)
    requires !c.Done? && TablesOk(codec, t) && ClientOk(codec, t, c)
    ensures var (u, d) := ClientStep(codec, t, c, fault);
            TablesOk(codec, u) && Grows(t, u) && ClientOk(codec, u, d)
  {
    hide TablesOk, Grows, ClientOk, Resume;
    ClientCallOk(codec, t, c);
    PerformKeeps(codec, t, NextCall(c), fault);
    if c.CfgLookup? || c.CfgCommit? || c.CfgWinner? {
      ConfigurationStepOk(codec, t, c, fault);
    } else if c.PromTarget? || c.PromRead? || c.PromInsert? {
      PromotionStepOk(codec, t, c, fault);
    } else if c.DepRead? || c.DepPatch? || c.DepWinner? {
      DeprecationStepOk(codec, t, c, fault);
    } else if c.DiscList? || c.DiscLookup? || c.DiscRecord? || c.DiscCheck? {
      DiscoveryStepOk(codec, t, c, fault);
    } else {
      PublishStepOk(codec, t, c, fault);
    }
  }

  // A call just made relies on nothing that might be missing.
  lemma StartOk(codec: Codec, t: Tables, api: Api)
    ensures ClientOk(codec, t, Start(codec, api))
  {
    hide Make, Valid, ChannelName, MediaType, ValidIdentity;
    if api.PublishConfiguration? && ConfigurationCandidate(codec, api.configuration).Some? {
      var q := api.configuration;
      var payload := Freeze(q.payload);
      var encoded := codec.encode(Thaw(payload));
      MadeCandidate(codec, Candidate(q.identity, Configuration, q.mediaType, codec.sha(encoded), |encoded|, None, Some(payload),
                                     Some(q.schema), q.description), ConfigurationCandidate(codec, q).value);
    }
  }
}
