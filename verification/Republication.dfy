// What makes two publications under one identity the same: which differences between a request and
// what is stored end in IdentityConflict, and which in a receipt.

module Republication {
  import opened Basics
  import opened Canonical
  import opened References
  import opened Resources
  import opened Tables
  import opened Clients
  import opened Invariants
  import opened Driving
  import opened Recovery
  import opened Orphans
  import opened Promotions
  import opened Configurations

  // ---------------------------------------------------------------- artifacts

  // The request asks for what the row says: everything but who published, when, and the row's state.
  predicate AsksForArtifact(p: ArtifactRequest, r: StoredResource) {
    && r.profile == Artifact
    && p.mediaType == r.mediaType && p.digest == r.digest && p.byteLength == r.byteLength
    && p.description.labels == r.labels && Freeze(p.description.annotations) == r.annotations
    && p.description.provenance == r.provenance && p.description.supersedes == r.supersedes
    && p.description.versionOrder == r.versionOrder
  }

  lemma SameArtifactMeans(codec: Codec, t: Tables, p: ArtifactRequest)
    requires MetadataOk(codec, t) && ObjectsOk(codec.sha, t) && ResourceId(p.identity) in t.metadata && CandidateOf(codec, p).Some?
    ensures var r := t.metadata[ResourceId(p.identity)];
            SameArtifact(CandidateOf(codec, p).value, r) <==> AsksForArtifact(p, r)
  {
    hide CandidateOf, MetadataOk, ObjectsOk, Valid, HasObject, ResourceId, ObjectId;
    CandidateFacts(codec, p);
    ReadIsKnown(codec, t, ResourceId(p.identity));
    var r := t.metadata[ResourceId(p.identity)];
    if r.profile == Artifact && r.digest == p.digest {
      ExistingRef(codec, t, p);
    }
  }

  // publish, on an identity that has a row: with valid fields it ends in a receipt for that row if the
  // request asks for what the row says, and in IdentityConflict otherwise; it changes nothing.
  lemma FoundArtifactIff(codec: Codec, t: Tables, p: ArtifactRequest)
    requires TablesOk(codec, t) && Entered(p) && CandidateOf(codec, p).Some? && ResourceId(p.identity) in t.metadata
    ensures var r := t.metadata[ResourceId(p.identity)];
            Left(Drive(codec, Alone(), 0, t, Start(codec, PublishArtifact(p, NO_POINTING))))
            == (if AsksForArtifact(p, r) then Publication(r, true, true, None) else Raised(IdentityConflict), t)
  {
    hide Drive, CandidateOf, MetadataOk, ObjectsOk, ProvenanceOk, ChannelsOk, OrphansOk, SameArtifact, Entered, ResourceId, ObjectId, WithObject, WithRow, GenuineBytes,
         ObjectMatches;
    PublishAlone(codec, 0, t, p);
    EnteredStarts(codec, p, NO_POINTING);
    SameArtifactMeans(codec, t, p);
  }

  // Publishing p after q, under one identity that was unused: a receipt for the first publication if and
  // only if p agrees with q in every field but the actor and the time, and IdentityConflict otherwise.
  lemma RepublishedArtifactIff(codec: Codec, t: Tables, q: ArtifactRequest, p: ArtifactRequest)
    requires TablesOk(codec, t) && Entered(p) && CandidateOf(codec, p).Some? && p.identity == q.identity
    requires ResourceId(q.identity) !in t.metadata
    requires Drive(codec, Alone(), 0, t, Start(codec, PublishArtifact(q, NO_POINTING))).outcome.Publication?
    ensures var first := Drive(codec, Alone(), 0, t, Start(codec, PublishArtifact(q, NO_POINTING)));
            var second := Drive(codec, Alone(), 0, first.tables, Start(codec, PublishArtifact(p, NO_POINTING)));
            var a, b := p.description, q.description;
            && second.tables == first.tables
            && (second.outcome.Publication? <==>
                  && p.mediaType == q.mediaType && p.digest == q.digest && p.byteLength == q.byteLength
                  && a.labels == b.labels && Freeze(a.annotations) == Freeze(b.annotations) && a.provenance == b.provenance
                  && a.supersedes == b.supersedes && a.versionOrder == b.versionOrder)
            && second.outcome == if second.outcome.Publication? then Publication(first.outcome.resource, true, true, None)
                                 else Raised(IdentityConflict)
  {
    hide Drive, PublishOnce, CandidateOf, TablesOk, Entered, ResourceId, Freeze;
    PublishFromStart(codec, t, q, NO_POINTING);
    assert Entered(q) && PublishOnce(codec, t, q).0.Publication? by { StartedWell(codec, t, q); }
    FirstArtifact(codec, t, q);
    var u := PublishOnce(codec, t, q).1;
    PublishOnceOk(codec, t, q);
    PublishAlone(codec, 0, t, q);
    EnteredStarts(codec, q, NO_POINTING);
    FoundArtifactIff(codec, u, p);
  }

  lemma StartedWell(codec: Codec, t: Tables, q: ArtifactRequest)
    requires TablesOk(codec, t)
    requires Drive(codec, Alone(), 0, t, Start(codec, PublishArtifact(q, NO_POINTING))).outcome.Publication?
    ensures Entered(q) && PublishOnce(codec, t, q).0.Publication?
  {
    hide Drive, PublishOnce, TablesOk, Entered, PointOnce;
    PublishFromStart(codec, t, q, NO_POINTING);
  }

  // The row of a first publication says what was asked for.
  lemma FirstArtifact(codec: Codec, t: Tables, q: ArtifactRequest)
    requires ResourceId(q.identity) !in t.metadata && PublishOnce(codec, t, q).0.Publication?
    ensures var (o, u) := PublishOnce(codec, t, q);
            && ResourceId(q.identity) in u.metadata && u.metadata[ResourceId(q.identity)] == o.resource
            && AsksForArtifact(q, o.resource)
  {
    hide CandidateOf, ResourceId, ObjectId, GenuineBytes, ObjectMatches, Valid;
    CandidateFacts(codec, q);
  }

  // ---------------------------------------------------------------- configurations

  predicate AsksForConfiguration(p: ConfigurationRequest, r: StoredResource) {
    && r.profile == Configuration
    && p.mediaType == r.mediaType && Some(Freeze(p.payload)) == r.payload && Some(p.schema) == r.payloadSchema
    && p.description.labels == r.labels && Freeze(p.description.annotations) == r.annotations
    && p.description.provenance == r.provenance && p.description.supersedes == r.supersedes
    && p.description.versionOrder == r.versionOrder
  }

  lemma SameConfigurationMeans(codec: Codec, t: Tables, p: ConfigurationRequest)
    requires MetadataOk(codec, t) && ResourceId(p.identity) in t.metadata && ConfigurationCandidate(codec, p).Some?
    ensures var r := t.metadata[ResourceId(p.identity)];
            SameConfiguration(ConfigurationCandidate(codec, p).value, r) <==> AsksForConfiguration(p, r)
  {
    hide ConfigurationCandidate, MetadataOk, ValidDescription, HasObject, ResourceId, ObjectId, Freeze, Thaw;
    ConfigurationFacts(codec, p);
    ReadIsKnown(codec, t, ResourceId(p.identity));
  }

  lemma FoundConfigurationIff(codec: Codec, t: Tables, p: ConfigurationRequest)
    requires TablesOk(codec, t) && ConfigurationCandidate(codec, p).Some? && ResourceId(p.identity) in t.metadata
    ensures var r := t.metadata[ResourceId(p.identity)];
            Left(Drive(codec, Alone(), 0, t, Start(codec, PublishConfiguration(p, NO_POINTING))))
            == (if AsksForConfiguration(p, r) then Publication(r, true, false, None) else Raised(IdentityConflict), t)
  {
    hide Drive, ConfigurationCandidate, TablesOk, MetadataOk, SameConfiguration, AsksForConfiguration, ResourceId, PromoteOnce, Freeze, Thaw, Valid;
    ConfigurationFromStart(codec, t, p, NO_POINTING);
    ConfigurationFacts(codec, p);
    TablesParts(codec, t);
    SameConfigurationMeans(codec, t, p);
  }

  // The same for configurations, with the schema and the payload up to the order of its fields.
  lemma RepublishedConfigurationIff(codec: Codec, t: Tables, q: ConfigurationRequest, p: ConfigurationRequest)
    requires TablesOk(codec, t) && ConfigurationCandidate(codec, q).Some? && ConfigurationCandidate(codec, p).Some?
    requires p.identity == q.identity && ResourceId(q.identity) !in t.metadata
    ensures var first := Drive(codec, Alone(), 0, t, Start(codec, PublishConfiguration(q, NO_POINTING)));
            var second := Drive(codec, Alone(), 0, first.tables, Start(codec, PublishConfiguration(p, NO_POINTING)));
            var a, b := p.description, q.description;
            && first.outcome.Publication? && !first.outcome.idempotent && second.tables == first.tables
            && (second.outcome.Publication? <==>
                  && p.mediaType == q.mediaType && p.schema == q.schema && Freeze(p.payload) == Freeze(q.payload)
                  && a.labels == b.labels && Freeze(a.annotations) == Freeze(b.annotations) && a.provenance == b.provenance
                  && a.supersedes == b.supersedes && a.versionOrder == b.versionOrder)
            && second.outcome == if second.outcome.Publication? then Publication(first.outcome.resource, true, false, None)
                                 else Raised(IdentityConflict)
  {
    hide Drive, ConfigureOnce, ConfigurationCandidate, TablesOk, ResourceId, Freeze, Thaw, PromoteOnce, Valid;
    ConfigurationFromStart(codec, t, q, NO_POINTING);
    FirstConfiguration(codec, t, q);
    StartKeeps(codec, t, PublishConfiguration(q, NO_POINTING));
    FoundConfigurationIff(codec, ConfigureOnce(t, ConfigurationCandidate(codec, q).value).1, p);
  }

  lemma FirstConfiguration(codec: Codec, t: Tables, q: ConfigurationRequest)
    requires ConfigurationCandidate(codec, q).Some? && ResourceId(q.identity) !in t.metadata
    ensures var (o, u) := ConfigureOnce(t, ConfigurationCandidate(codec, q).value);
            && o.Publication? && !o.idempotent && o == Publication(o.resource, false, false, None)
            && ResourceId(q.identity) in u.metadata && u.metadata[ResourceId(q.identity)] == o.resource
            && AsksForConfiguration(q, o.resource)
  {
    hide ConfigurationCandidate, ResourceId, Freeze, Thaw, Valid;
    ConfigurationFacts(codec, q);
  }

  lemma StartKeeps(codec: Codec, t: Tables, api: Api)
    requires TablesOk(codec, t)
    ensures TablesOk(codec, Drive(codec, Alone(), 0, t, Start(codec, api)).tables)
  {
    hide TablesOk, Start, Drive;
    StartOk(codec, t, api);
    DriveKeeps(codec, 0, t, Start(codec, api));
  }
}
