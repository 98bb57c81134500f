// Stored resources, channel rows, orphan candidates and provenance, and when they are valid.

module Resources {
  import opened Basics
  import opened Canonical
  import opened References

  // The functions this package takes from elsewhere: SHA-256 as "sha256:<hex>", canonical JSON
  // bytes, and the normalisation of a UTC timestamp.  Every result holds for all of them.
  datatype Codec = Codec(sha: Bytes -> string, encode: Json -> Bytes, utc: string -> Option<string>)

  datatype ResourceState = Draft | Published | Deprecated

  datatype Version = Num(n: int) | Label(s: string)

  datatype ObjectRef = ObjectRef(resource: string, objectId: string, digest: Option<string>)

  datatype Provenance = Provenance(
    producer: string, producerVersion: string, sourceDigests: map<string, string>,
    buildId: Option<string>, validationVersion: Option<string>, attributes: Frozen)

  // The resource id is a function of the identity, so it is not a field.
  datatype StoredResource = StoredResource(
    identity: Identity, profile: Profile, state: ResourceState, mediaType: string,
    digest: string, byteLength: int, createdBy: string, createdAt: string,
    objectRef: Option<ObjectRef>, payload: Option<Frozen>, payloadSchema: Option<SchemaRef>,
    labels: map<string, string>, annotations: Frozen, provenance: Option<Provenance>,
    supersedes: Option<string>, immutable: bool, versionOrder: Option<int>,
    recordVersion: Option<Version>)
  {
    function Id(): string { ResourceId(identity) }
  }

  datatype ChannelRow = ChannelRow(
    channel: Channel, target: string, pointerVersion: int, actor: string, updatedAt: string,
    recordVersion: Option<Version>)

  datatype OrphanState = Discovered | Recorded | Resolved

  datatype Orphan = Orphan(
    resourceId: string, objectRef: ObjectRef, digest: string, byteLength: int, reason: string,
    discoveredAt: string, state: OrphanState, recordVersion: Option<Version>)
  {
    function Id(): string { OrphanCandidateId(resourceId, objectRef.objectId, digest) }
  }

  datatype ProvenanceRow = ProvenanceRow(resourceId: string, document: Provenance, createdAt: string)

  // ---------------------------------------------------------------- validity

  predicate OptionalBounded(s: Option<string>, maximum: nat) {
    s.Some? ==> BoundedString(s.value, maximum)
  }

  // canonical_mapping with at most 64 entries and 262144 canonical bytes.
  predicate BoundedMapping(codec: Codec, f: Frozen) {
    && f.Proxy?
    && Sorted(f)
    && |Names(f.entries)| <= 64
    && |codec.encode(Thaw(f))| <= 262144
  }

  predicate ValidProvenance(codec: Codec, p: Provenance) {
    && BoundedString(p.producer, 256)
    && BoundedString(p.producerVersion, 128)
    && StringMapping(p.sourceDigests)
    && (forall k | k in p.sourceDigests :: IsDigest(p.sourceDigests[k]))
    && OptionalBounded(p.buildId, 256)
    && OptionalBounded(p.validationVersion, 256)
    && BoundedMapping(codec, p.attributes)
  }

  // The payload as the model normalises it once more before it hashes it.
  function Renormalised(payload: Frozen): Frozen {
    Freeze(Thaw(payload))
  }

  predicate ValidContent(codec: Codec, r: StoredResource) {
    match r.profile
    case Configuration =>
      && r.objectRef == None
      && r.payload.Some? && r.payload.value.Proxy? && Sorted(r.payload.value)
      && r.payloadSchema.Some? && ValidSchemaRef(r.payloadSchema.value)
      && var encoded := codec.encode(Thaw(Renormalised(r.payload.value)));
        codec.sha(encoded) == r.digest && |encoded| == r.byteLength
    case Artifact =>
      && r.payload == None
      && r.payloadSchema == None
      && r.objectRef.Some? && r.objectRef.value.digest == Some(r.digest)
  }

  // What StoredResourceV1 asks of every resource beside its content.
  predicate ValidDescription(codec: Codec, r: StoredResource) {
    && ValidIdentity(r.identity)
    && MediaType(r.mediaType)
    && IsDigest(r.digest)
    && r.byteLength >= 0
    && BoundedString(r.createdBy, 512)
    && codec.utc(r.createdAt) == Some(r.createdAt)
    && StringMapping(r.labels)
    && BoundedMapping(codec, r.annotations)
    && (r.provenance.Some? ==> ValidProvenance(codec, r.provenance.value))
    && OptionalBounded(r.supersedes, 256)
    && (r.immutable <==> r.state != Draft)
    && (r.versionOrder.Some? ==> r.versionOrder.value >= 0)
  }

  // What StoredResourceV1 accepts, in its normalised form.
  predicate Valid(codec: Codec, r: StoredResource) {
    ValidDescription(codec, r) && ValidContent(codec, r)
  }

  // The constructor: normalise the timestamp, then check.
  function Make(codec: Codec, r: StoredResource): Option<StoredResource> {
    match codec.utc(r.createdAt)
    case None => None
    case Some(t) => if Valid(codec, r.(createdAt := t)) then Some(r.(createdAt := t)) else None
  }

  // The shape of a resource id: here, the canonical string of some identity.
  predicate IsResourceId(s: string) {
    match DecodeIdentity(s)
    case Some(i) => ValidIdentity(i) && ResourceId(i) == s
    case None => false
  }

  predicate ValidChannelRow(codec: Codec, c: ChannelRow) {
    && LogicalName(c.channel.namespace) && LogicalName(c.channel.kind) && LogicalName(c.channel.name)
    && ChannelName(c.channel.channel)
    && c.pointerVersion >= 1
    && IsResourceId(c.target)
    && BoundedString(c.actor, 512)
    && codec.utc(c.updatedAt) == Some(c.updatedAt)
  }

  predicate ValidOrphan(codec: Codec, o: Orphan) {
    && IsResourceId(o.resourceId)
    && IsDigest(o.digest)
    && o.objectRef.digest == Some(o.digest)
    && o.byteLength >= 0
    && BoundedString(o.reason, 512)
    && codec.utc(o.discoveredAt) == Some(o.discoveredAt)
  }

  function ProvenanceRowOf(r: StoredResource): Option<ProvenanceRow> {
    match r.provenance
    case None => None
    case Some(p) => Some(ProvenanceRow(r.Id(), p, r.createdAt))
  }
}
