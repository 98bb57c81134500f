// The library's operations as clients of the store: what each calls next, and what it makes of the answer.

module Clients {
  import opened Basics
  import opened Canonical
  import opened References
  import opened Resources
  import opened Records
  import opened Tables

  // ---------------------------------------------------------------- requests

  // The descriptive part of a publication, shared by both profiles.
  datatype Description = Description(
    actor: string, createdAt: string, labels: map<string, string>, annotations: Json,
    provenance: Option<Provenance>, supersedes: Option<string>, versionOrder: Option<int>)

  datatype ArtifactRequest = ArtifactRequest(
    identity: Identity, content: Bytes, digest: string, byteLength: int, mediaType: string,
    description: Description, recordedAt: string)

  datatype ConfigurationRequest = ConfigurationRequest(
    identity: Identity, payload: Json, schema: SchemaRef, mediaType: string, description: Description)

  // The optional promotion that ends a publication.
  datatype Pointing = Pointing(channel: Option<string>, expected: Option<int>, at: string)

  datatype Promotion = Promotion(channel: string, expected: int, actor: string, at: string, profile: Option<Profile>)

  datatype Target = ByIdentity(identity: Identity) | ByRef(ref: ResourceRef) | ByResource(resource: StoredResource)

  datatype ResourceRef = ResourceRef(identity: Identity, profile: Profile, digest: string)

  datatype Api =
    | PublishArtifact(artifact: ArtifactRequest, pointing: Pointing)
    | PublishConfiguration(configuration: ConfigurationRequest, pointing: Pointing)
    | Promote(target: Target, promotion: Promotion)
    | DeprecateResource(identity: Identity, profile: Profile)
    | DiscoverOrphans(limit: nat, cursor: Option<string>, record: bool, at: string)

  datatype Outcome =
    | Publication(resource: StoredResource, idempotent: bool, objectCommitted: bool, channel: Option<ChannelRow>)
    | Promoted(pointer: ChannelRow)
    | DeprecatedTo(resource: StoredResource)
    | Orphans(found: seq<Orphan>, cursor: Option<string>)
    | Raised(error: Error)
    | Crashed

  // What a promotion returns to: the caller, or the publication it ends.
  datatype Finish = Plain | Receipt(resource: StoredResource, idempotent: bool, objectCommitted: bool)

  // The state of one operation between two calls to the store.
  datatype Client =
    | PubLookup(request: ArtifactRequest, pointing: Pointing)
    | PubPut(request: ArtifactRequest, pointing: Pointing)
    | PubStat(request: ArtifactRequest, pointing: Pointing)
    | PubCommit(request: ArtifactRequest, pointing: Pointing, candidate: StoredResource, objectIdempotent: bool)
    | PubWinner(request: ArtifactRequest, pointing: Pointing, candidate: StoredResource)
    | PubOrphan(orphan: Orphan)
    | PubOrphanCheck(orphan: Orphan)
    | CfgLookup(pointing: Pointing, candidate: StoredResource)
    | CfgCommit(pointing: Pointing, candidate: StoredResource)
    | CfgWinner(pointing: Pointing, candidate: StoredResource)
    | PromTarget(target: Target, promotion: Promotion)
    | PromRead(resource: StoredResource, promotion: Promotion, finish: Finish)
    | PromInsert(pointer: ChannelRow, promotion: Promotion, finish: Finish)
    | DepRead(identity: Identity, profile: Profile)
    | DepPatch(resource: StoredResource)
    | DepWinner(id: string)
    | DiscList(limit: nat, after: Option<string>, record: bool, at: string)
    | DiscLookup(item: ObjectMetadata, scan: Scan)
    | DiscRecord(orphan: Orphan, scan: Scan)
    | DiscCheck(orphan: Orphan, scan: Scan)
    | Done(outcome: Outcome)

  // The rest of a page of objects, and the candidates found so far.
  datatype Scan = Scan(rest: seq<ObjectMetadata>, cursor: Option<string>, found: seq<Orphan>, record: bool, at: string)

  function Raise(e: Error): Client { Done(Raised(e)) }

  // ---------------------------------------------------------------- candidates

  function Candidate(identity: Identity, profile: Profile, mediaType: string, digest: string, byteLength: int,
                 objectRef: Option<ObjectRef>, payload: Option<Frozen>, schema: Option<SchemaRef>, d: Description): StoredResource
  {
    StoredResource(identity, profile, Published, mediaType, digest, byteLength, d.actor, d.createdAt, objectRef, payload,
                   schema, d.labels, Freeze(d.annotations), d.provenance, d.supersedes, true, d.versionOrder, None)
  }

  function ArtifactCandidate(codec: Codec, q: ArtifactRequest, ref: ObjectRef): Option<StoredResource> {
    Make(codec, Candidate(q.identity, Artifact, q.mediaType, q.digest, q.byteLength, Some(ref), None, None, q.description))
  }

  function ConfigurationCandidate(codec: Codec, q: ConfigurationRequest): Option<StoredResource> {
    var payload := Freeze(q.payload);
    var encoded := codec.encode(Thaw(payload));
    Make(codec, Candidate(q.identity, Configuration, q.mediaType, codec.sha(encoded), |encoded|, None, Some(payload),
                      Some(q.schema), q.description))
  }

  const PUBLICATION_FAILED := "metadata-publication-failed"
  const NO_METADATA := "object-without-structured-metadata"

  // The orphan candidate that a failed publication records.
  function FailedPublication(codec: Codec, r: StoredResource, at: string): Option<Orphan> {
    match r.objectRef
    case None => None
    case Some(ref) => MakeOrphan(codec, Orphan(r.Id(), ref, r.digest, r.byteLength, PUBLICATION_FAILED, at, Recorded, None))
  }

  predicate SameArtifact(l: StoredResource, r: StoredResource) {
    && l.Id() == r.Id() && l.profile == r.profile && l.mediaType == r.mediaType && l.digest == r.digest
    && l.byteLength == r.byteLength && l.objectRef == r.objectRef && l.labels == r.labels
    && l.annotations == r.annotations && l.provenance == r.provenance && l.supersedes == r.supersedes
    && l.versionOrder == r.versionOrder
  }

  predicate SameConfiguration(l: StoredResource, r: StoredResource) {
    SameArtifact(l, r) && l.payload == r.payload && l.payloadSchema == r.payloadSchema
  }

  // ---------------------------------------------------------------- promotion

  // The checks of promote between knowing the target and reading the channel.
  function Admit(resource: StoredResource, p: Promotion, finish: Finish): Client {
    if p.profile.Some? && resource.profile != p.profile.value then Raise(IncompatibleProfile)
    else if resource.state != Published then Raise(IncompatibleProfile)
    else if !ChannelName(p.channel) then Raise(InvalidInput)
    else PromRead(resource, p, finish)
  }

  // The end of a publication: a receipt, or first the promotion the caller asked for.
  function Conclude(profile: Profile, resource: StoredResource, idempotent: bool, pointing: Pointing, actor: string): Client {
    var objectCommitted := profile == Artifact;
    match (pointing.channel, pointing.expected)
    case (None, None) => Done(Publication(resource, idempotent, objectCommitted, None))
    case (Some(channel), Some(expected)) =>
      if expected < 0 then Raise(InvalidInput)
      else Admit(resource, Promotion(channel, expected, actor, pointing.at, Some(profile)),
                 Receipt(resource, idempotent, objectCommitted))
    case _ => Raise(InvalidInput)
  }

  function ChannelOf(r: StoredResource, p: Promotion): Channel {
    Channel(r.identity.namespace, r.identity.kind, r.identity.name, p.channel)
  }

  // What promote requests once it has read the channel's latest row.
  function Request(codec: Codec, r: StoredResource, p: Promotion, current: Option<ChannelRow>, finish: Finish): Client {
    var (matches, version) :=
      if current.None? then (p.expected == 0, 1)
      else (current.value.pointerVersion == p.expected, current.value.pointerVersion + 1);
    if !matches then Raise(StaleChannelPointer)
    else
      match MakeChannel(codec, ChannelRow(ChannelOf(r, p), r.Id(), version, p.actor, p.at, None))
      case None => Raise(InvalidInput)
      case Some(row) => PromInsert(row, p, finish)
  }

  function Finished(finish: Finish, winner: ChannelRow): Client {
    match finish
    case Plain => Done(Promoted(winner))
    case Receipt(resource, idempotent, objectCommitted) => Done(Publication(resource, idempotent, objectCommitted, Some(winner)))
  }

  // ---------------------------------------------------------------- publication

  function ExistingReceipt(profile: Profile, same: bool, existing: StoredResource, pointing: Pointing, actor: string): Client {
    if same then Conclude(profile, existing, true, pointing, actor) else Raise(IdentityConflict)
  }

  // publish, on finding a row with the identity
  function OnExisting(codec: Codec, q: ArtifactRequest, pointing: Pointing, existing: StoredResource): Client {
    if existing.profile != Artifact || existing.digest != q.digest || existing.byteLength != q.byteLength
       || existing.mediaType != q.mediaType || existing.objectRef.None?
    then Raise(IdentityConflict)
    else
      match ArtifactCandidate(codec, q, existing.objectRef.value)
      case None => Raise(InvalidInput)
      case Some(candidate) => ExistingReceipt(Artifact, SameArtifact(candidate, existing), existing, pointing, q.description.actor)
  }

  predicate ObjectMatches(m: ObjectMetadata, q: ArtifactRequest) {
    && m.ref.resource == OBJECT_RESOURCE
    && m.ref.objectId == ObjectId(ResourceId(q.identity))
    && m.digest == q.digest && m.byteLength == q.byteLength && m.mediaType == q.mediaType
  }

  // publish, once the object is in place
  function OnObject(codec: Codec, q: ArtifactRequest, pointing: Pointing, m: ObjectMetadata, idempotent: bool): Client {
    if !ObjectMatches(m, q) then Raise(IdentityConflict)
    else
      match ArtifactCandidate(codec, q, m.ref)
      case None => Raise(InvalidInput)
      case Some(candidate) => PubCommit(q, pointing, candidate, idempotent)
  }

  function OnCommitFailure(codec: Codec, q: ArtifactRequest, candidate: StoredResource): Client {
    match FailedPublication(codec, candidate, q.recordedAt)
    case None => Raise(InvalidInput)
    case Some(orphan) => PubOrphan(orphan)
  }

  // ---------------------------------------------------------------- orphan discovery

  predicate Reconcilable(m: ObjectMetadata) {
    && m.declaredId.Some?
    && IsResourceId(m.declaredId.value)
    && m.ref.objectId == ObjectId(m.declaredId.value)
  }

  // Move on to the next object of the page that declares its own resource id.
  function Advance(scan: Scan): Client
    decreases |scan.rest|
  {
    if scan.rest == [] then Done(Orphans(scan.found, scan.cursor))
    else
      var item, next := scan.rest[0], scan.(rest := scan.rest[1..]);
      if Reconcilable(item) then DiscLookup(item, next) else Advance(next)
  }

  function DiscoveredOrphan(codec: Codec, m: ObjectMetadata, at: string): Option<Orphan>
    requires m.declaredId.Some?
  {
    MakeOrphan(codec, Orphan(m.declaredId.value, ObjectRef(m.ref.resource, m.ref.objectId, Some(m.digest)), m.digest,
                             m.byteLength, NO_METADATA, at, Discovered, None))
  }

  predicate SameOrphan(l: Orphan, r: Orphan) {
    && l.Id() == r.Id() && l.resourceId == r.resourceId && l.objectRef == r.objectRef && l.digest == r.digest
    && l.byteLength == r.byteLength
  }

  function Found(scan: Scan, orphan: Orphan): Client {
    Advance(scan.(found := scan.found + [orphan]))
  }

  // ---------------------------------------------------------------- the machine

  function Start(codec: Codec, api: Api): Client {
    match api
    case PublishArtifact(q, pointing) =>
      if ValidIdentity(q.identity) && MediaType(q.mediaType) && IsDigest(q.digest) && q.byteLength >= 0
      then PubLookup(q, pointing) else Raise(InvalidInput)
    case PublishConfiguration(q, pointing) =>
      (match ConfigurationCandidate(codec, q)
       case None => Raise(InvalidInput)
       case Some(candidate) => CfgLookup(pointing, candidate))
    case Promote(target, p) =>
      if p.expected < 0 then Raise(InvalidInput)
      else if target.ByResource? then Admit(target.resource, p, Plain)
      else PromTarget(target, p)
    case DeprecateResource(identity, profile) => DepRead(identity, profile)
    case DiscoverOrphans(limit, cursor, record, at) => DiscList(limit, cursor, record, at)
  }

  function TargetId(t: Target): string {
    match t
    case ByIdentity(i) => ResourceId(i)
    case ByRef(r) => ResourceId(r.identity)
    case ByResource(r) => r.Id()
  }

  // The call a running client makes.
  function NextCall(c: Client): Call
    requires !c.Done?
  {
    match c
    case PubLookup(q, _) => GetResource(ResourceId(q.identity))
    case PubPut(q, _) => PutObject(ResourceId(q.identity), q.content, q.digest, q.byteLength, q.mediaType)
    case PubStat(q, _) => StatObject(ObjectId(ResourceId(q.identity)))
    case PubCommit(_, _, candidate, _) => Commit(candidate)
    case PubWinner(q, _, _) => GetResource(ResourceId(q.identity))
    case PubOrphan(orphan) => PutOrphan(orphan)
    case PubOrphanCheck(orphan) => GetOrphan(orphan.Id())
    case CfgLookup(_, candidate) => GetResource(candidate.Id())
    case CfgCommit(_, candidate) => Commit(candidate)
    case CfgWinner(_, candidate) => GetResource(candidate.Id())
    case PromTarget(target, _) => GetResource(TargetId(target))
    case PromRead(resource, p, _) => LatestChannel(ChannelOf(resource, p))
    case PromInsert(row, _, _) => PutChannel(row)
    case DepRead(identity, _) => GetResource(ResourceId(identity))
    case DepPatch(resource) => Deprecate(resource.Id(), resource.recordVersion)
    case DepWinner(id) => GetResource(id)
    case DiscList(limit, after, _, _) => ListObjects(limit, after)
    case DiscLookup(item, _) => GetResource(if item.declaredId.Some? then item.declaredId.value else "")
    case DiscRecord(orphan, _) => PutOrphan(orphan)
    case DiscCheck(orphan, _) => GetOrphan(orphan.Id())
  }

  // get_resource(..., required=True) reports a missing row as ResourceNotFound
  function Required(kind: Failure): Client {
    if kind == NotFound then Raise(ResourceNotFound) else Raise(StoreFailure(kind))
  }

  // A response of a kind that the call never gives.
  const MALFORMED: Client := Raise(InvalidRepositoryResult)

  function ResumePublish(codec: Codec, c: Client, r: Response): Client
    requires c.PubLookup? || c.PubPut? || c.PubStat? || c.PubCommit? || c.PubWinner? || c.PubOrphan? || c.PubOrphanCheck?
  {
    match c
    case PubLookup(q, pointing) =>
      (match r
       case ResourceIs(existing) => OnExisting(codec, q, pointing, existing)
       case Failed(kind) => if kind == NotFound then PubPut(q, pointing) else Raise(StoreFailure(kind))
       case _ => MALFORMED)
    case PubPut(q, pointing) =>
      (match r
       case ObjectIs(m) => OnObject(codec, q, pointing, m, false)
       case Failed(kind) => if kind == Conflict then PubStat(q, pointing) else Raise(StoreFailure(kind))
       case _ => MALFORMED)
    case PubStat(q, pointing) =>
      (match r
       case ObjectIs(m) => OnObject(codec, q, pointing, m, true)
       case Failed(kind) => Raise(StoreFailure(kind))
       case _ => MALFORMED)
    case PubCommit(q, pointing, candidate, objectIdempotent) =>
      (match r
       case ResourceIs(stored) =>
         if SameArtifact(candidate, stored) then Conclude(Artifact, stored, objectIdempotent, pointing, q.description.actor)
         else Raise(IdentityConflict)
       case Failed(kind) =>
         if kind == Conflict then PubWinner(q, pointing, candidate) else OnCommitFailure(codec, q, candidate)
       case _ => OnCommitFailure(codec, q, candidate))
    case PubWinner(q, pointing, candidate) =>
      (match r
       case ResourceIs(winner) => ExistingReceipt(Artifact, SameArtifact(candidate, winner), winner, pointing, q.description.actor)
       case Failed(kind) => if kind == NotFound then OnCommitFailure(codec, q, candidate) else Raise(StoreFailure(kind))
       case _ => MALFORMED)
    case PubOrphan(orphan) => if r == Failed(Conflict) then PubOrphanCheck(orphan) else Raise(IncompletePublication)
    case PubOrphanCheck(_) => Raise(IncompletePublication)
  }

  function ResumeConfiguration(c: Client, r: Response): Client
    requires c.CfgLookup? || c.CfgCommit? || c.CfgWinner?
  {
    match c
    case CfgLookup(pointing, candidate) =>
      (match r
       case ResourceIs(existing) => ExistingReceipt(Configuration, SameConfiguration(candidate, existing), existing, pointing, candidate.createdBy)
       case Failed(kind) => if kind == NotFound then CfgCommit(pointing, candidate) else Raise(StoreFailure(kind))
       case _ => MALFORMED)
    case CfgCommit(pointing, candidate) =>
      (match r
       case ResourceIs(stored) =>
         if SameConfiguration(candidate, stored) then Conclude(Configuration, stored, false, pointing, candidate.createdBy)
         else Raise(IdentityConflict)
       case Failed(kind) => if kind == Conflict then CfgWinner(pointing, candidate) else Raise(StoreFailure(kind))
       case _ => MALFORMED)
    case CfgWinner(pointing, candidate) =>
      (match r
       case ResourceIs(winner) => ExistingReceipt(Configuration, SameConfiguration(candidate, winner), winner, pointing, candidate.createdBy)
       case Failed(kind) => Raise(StoreFailure(if kind == NotFound then Conflict else kind))
       case _ => MALFORMED)
  }

  function ResumePromotion(codec: Codec, c: Client, r: Response): Client
    requires c.PromTarget? || c.PromRead? || c.PromInsert?
  {
    match c
    case PromTarget(target, p) =>
      (match r
       case ResourceIs(row) =>
         if target.ByRef? && ResourceRef(row.identity, row.profile, row.digest) != target.ref then Raise(IdentityConflict)
         else Admit(row, p, Plain)
       case Failed(kind) => Required(kind)
       case _ => MALFORMED)
    case PromRead(resource, p, finish) =>
      (match r
       case ChannelIs(current) => Request(codec, resource, p, current, finish)
       case Failed(kind) => Raise(StoreFailure(kind))
       case _ => MALFORMED)
    case PromInsert(row, p, finish) =>
      (match r
       case ChannelIs(Some(winner)) => if winner.target != row.target then Raise(StaleChannelPointer) else Finished(finish, winner)
       case Failed(kind) => if kind == Conflict then Raise(StaleChannelPointer) else Raise(StoreFailure(kind))
       case _ => MALFORMED)
  }

  function ResumeDeprecation(c: Client, r: Response): Client
    requires c.DepRead? || c.DepPatch? || c.DepWinner?
  {
    match c
    case DepRead(_, profile) =>
      (match r
       case ResourceIs(row) =>
         if row.profile != profile then Raise(IncompatibleProfile)
         else if row.state == Deprecated then Done(DeprecatedTo(row))
         else if row.recordVersion == None then MALFORMED
         else DepPatch(row)
       case Failed(kind) => Required(kind)
       case _ => MALFORMED)
    case DepPatch(resource) =>
      (match r
       case ResourceIs(row) => Done(DeprecatedTo(row))
       case Failed(kind) => if kind == Conflict then DepWinner(resource.Id()) else Raise(StoreFailure(kind))
       case _ => MALFORMED)
    case DepWinner(_) =>
      (match r
       case ResourceIs(winner) => if winner.state == Deprecated then Done(DeprecatedTo(winner)) else Raise(StoreFailure(Conflict))
       case Failed(kind) => Required(kind)
       case _ => MALFORMED)
  }

  function ResumeDiscovery(codec: Codec, c: Client, r: Response): Client
    requires c.DiscList? || c.DiscLookup? || c.DiscRecord? || c.DiscCheck?
  {
    match c
    case DiscList(_, _, record, at) =>
      (match r
       case ObjectsAre(items, cursor) => Advance(Scan(items, cursor, [], record, at))
       case Failed(kind) => Raise(StoreFailure(kind))
       case _ => MALFORMED)
    case DiscLookup(item, scan) =>
      (match r
       case ResourceIs(_) => Advance(scan)
       case Failed(kind) =>
         if kind != NotFound || item.declaredId.None? then Raise(StoreFailure(kind))
         else
           (match DiscoveredOrphan(codec, item, scan.at)
            case None => Raise(InvalidInput)
            case Some(orphan) => if scan.record then DiscRecord(orphan, scan) else Found(scan, orphan))
       case _ => MALFORMED)
    case DiscRecord(orphan, scan) =>
      (match r
       case OrphanIs(stored) => Found(scan, stored)
       case Failed(kind) => if kind == Conflict then DiscCheck(orphan, scan) else Raise(StoreFailure(kind))
       case _ => MALFORMED)
    case DiscCheck(orphan, scan) =>
      (match r
       case OrphanIs(existing) => if SameOrphan(existing, orphan) then Found(scan, existing) else Raise(IdentityConflict)
       case Failed(kind) => Raise(StoreFailure(if kind == NotFound then Conflict else kind))
       case _ => MALFORMED)
  }

  function Resume(codec: Codec, c: Client, r: Response): Client
    requires !c.Done?
  {
    if c.PubLookup? || c.PubPut? || c.PubStat? || c.PubCommit? || c.PubWinner? || c.PubOrphan? || c.PubOrphanCheck?
    then ResumePublish(codec, c, r)
    else if c.CfgLookup? || c.CfgCommit? || c.CfgWinner? then ResumeConfiguration(c, r)
    else if c.PromTarget? || c.PromRead? || c.PromInsert? then ResumePromotion(codec, c, r)
    else if c.DepRead? || c.DepPatch? || c.DepWinner? then ResumeDeprecation(c, r)
    else ResumeDiscovery(codec, c, r)
  }

  // One step of a running client: one call, struck by one fault or none.
  function ClientStep(codec: Codec, t: Tables, c: Client, fault: Fault): (Tables, Client)
    requires !c.Done?
  {
    var (t', r) := Perform(codec.sha, t, NextCall(c), fault);
    (t', Resume(codec, c, r))
  }

  // ---------------------------------------------------------------- every operation ends

  function Listing(c: Client): nat { if c.DiscList? then 1 else 0 }

  function Rank(c: Client): nat {
    match c
    case PubLookup(_, _) => 9
    case PubPut(_, _) => 8
    case PubStat(_, _) => 7
    case PubCommit(_, _, _, _) => 6
    case PubWinner(_, _, _) => 5
    case CfgLookup(_, _) => 6
    case CfgCommit(_, _) => 5
    case CfgWinner(_, _) => 4
    case PromTarget(_, _) => 4
    case PromRead(_, _, _) => 3
    case PromInsert(_, _, _) => 1
    case PubOrphan(_) => 2
    case PubOrphanCheck(_) => 1
    case DepRead(_, _) => 3
    case DepPatch(_) => 2
    case DepWinner(_) => 1
    case DiscList(_, _, _, _) => 0
    case DiscLookup(_, scan) => 3 * |scan.rest| + 3
    case DiscRecord(_, scan) => 3 * |scan.rest| + 2
    case DiscCheck(_, scan) => 3 * |scan.rest| + 1
    case Done(_) => 0
  }

  lemma {:induction false} AdvanceRank(scan: Scan)
    ensures Listing(Advance(scan)) == 0 && Rank(Advance(scan)) <= 3 * |scan.rest|
    decreases |scan.rest|
  {
    if scan.rest != [] && !Reconcilable(scan.rest[0]) {
      AdvanceRank(scan.(rest := scan.rest[1..]));
    }
  }

  ghost predicate Descends(c: Client, d: Client) {
    Listing(d) < Listing(c) || (Listing(d) == Listing(c) && Rank(d) < Rank(c))
  }

  lemma DiscoveryDescends(codec: Codec, c: Client, r: Response)
    requires c.DiscList? || c.DiscLookup? || c.DiscRecord? || c.DiscCheck?
    ensures Descends(c, ResumeDiscovery(codec, c, r))
  {
    hide MakeOrphan, IsResourceId, Advance, Reconcilable, OrphanCandidateId;
    if c.DiscList? && r.ObjectsAre? {
      AdvanceRank(Scan(r.items, r.cursor, [], c.record, c.at));
    } else if c.DiscLookup? && r.ResourceIs? {
      AdvanceRank(c.scan);
    } else if c.DiscLookup? && c.item.declaredId.Some? && DiscoveredOrphan(codec, c.item, c.scan.at).Some? {
      AdvanceRank(c.scan.(found := c.scan.found + [DiscoveredOrphan(codec, c.item, c.scan.at).value]));
    } else if (c.DiscRecord? || c.DiscCheck?) && r.OrphanIs? {
      AdvanceRank(c.scan.(found := c.scan.found + [r.orphan]));
    }
  }

  lemma PublicationDescends(codec: Codec, c: Client, r: Response)
    requires c.PubLookup? || c.PubPut? || c.PubStat? || c.PubCommit? || c.PubWinner? || c.PubOrphan? || c.PubOrphanCheck?
    ensures Descends(c, ResumePublish(codec, c, r))
  {
    hide ArtifactCandidate, FailedPublication, ChannelName, SameArtifact, ObjectMatches;
  }

  lemma ConfigurationDescends(c: Client, r: Response)
    requires c.CfgLookup? || c.CfgCommit? || c.CfgWinner?
    ensures Descends(c, ResumeConfiguration(c, r))
  {
    hide ChannelName, SameConfiguration;
  }

  lemma PromotionDescends(codec: Codec, c: Client, r: Response)
    requires c.PromTarget? || c.PromRead? || c.PromInsert?
    ensures Descends(c, ResumePromotion(codec, c, r))
  {
    hide MakeChannel, ChannelName;
  }

  lemma DeprecationDescends(c: Client, r: Response)
    requires c.DepRead? || c.DepPatch? || c.DepWinner?
    ensures Descends(c, ResumeDeprecation(c, r))
  {
  }

  // Whatever the store answers, every step brings an operation closer to its end.
  lemma ResumeDescends(codec: Codec, c: Client, r: Response)
    requires !c.Done?
    ensures Descends(c, Resume(codec, c, r))
  {
    hide ResumePublish, ResumeConfiguration, ResumePromotion, ResumeDeprecation, ResumeDiscovery, Descends;
    if c.CfgLookup? || c.CfgCommit? || c.CfgWinner? {
      ConfigurationDescends(c, r);
    } else if c.PromTarget? || c.PromRead? || c.PromInsert? {
      PromotionDescends(codec, c, r);
    } else if c.DepRead? || c.DepPatch? || c.DepWinner? {
      DeprecationDescends(c, r);
    } else if c.DiscList? || c.DiscLookup? || c.DiscRecord? || c.DiscCheck? {
      DiscoveryDescends(codec, c, r);
    } else if c.PubLookup? || c.PubPut? || c.PubStat? || c.PubCommit? || c.PubWinner? || c.PubOrphan? || c.PubOrphanCheck? {
      PublicationDescends(codec, c, r);
    }
  }
}
