// The record forms of stored resources, channel rows, orphan candidates and provenance.

module Records {
  import opened Basics
  import opened Canonical
  import opened References
  import opened Resources

  // The value of one field of a record.  Each JSON value appears in the form its field calls for;
  // a value of any other form is of the wrong type there.
  datatype Doc =
    | Absent
    | Nothing
    | Flag(b: bool)
    | Number(n: int)
    | Words(s: string)
    | Strings(m: map<string, string>)
    | Tree(j: Json)
    | Reference(ref: ObjectRef)
    | Scope(resource: string)
    | SchemaDoc(schema: SchemaRecord)
    | ProvenanceDoc(document: ProvenanceRecord)

  // Records: one slot per declared field, and the names of the undeclared ones.

  datatype SchemaRecord = SchemaRecord(catalog: Doc, namespace: Doc, name: Doc, version: Doc, unknown: set<string>)

  datatype ProvenanceRecord = ProvenanceRecord(
    formatVersion: Doc, producer: Doc, producerVersion: Doc, sourceDigests: Doc, buildId: Doc,
    validationVersion: Doc, attributes: Doc, unknown: set<string>)

  datatype ResourceRecord = ResourceRecord(
    formatVersion: Doc, resourceId: Doc, namespace: Doc, kind: Doc, name: Doc, version: Doc, profile: Doc,
    state: Doc, mediaType: Doc, digest: Doc, byteLength: Doc, objectRef: Doc, payload: Doc, payloadSchema: Doc,
    labels: Doc, annotations: Doc, provenance: Doc, createdBy: Doc, createdAt: Doc, supersedes: Doc,
    immutable: Doc, versionOrder: Doc, recordVersion: Doc, unknown: set<string>)

  datatype ChannelRecord = ChannelRecord(
    formatVersion: Doc, channelVersionId: Doc, namespace: Doc, kind: Doc, name: Doc, channel: Doc,
    targetResourceId: Doc, pointerVersion: Doc, actor: Doc, updatedAt: Doc, recordVersion: Doc, unknown: set<string>)

  datatype OrphanRecord = OrphanRecord(
    formatVersion: Doc, candidateId: Doc, resourceId: Doc, objectRef: Doc, digest: Doc, byteLength: Doc,
    reason: Doc, discoveredAt: Doc, state: Doc, recordVersion: Doc, unknown: set<string>)

  const RESOURCE_FORMAT := "meridian.config-artifact.stored-resource.v1"
  const PROVENANCE_FORMAT := "meridian.config-artifact.provenance.v1"
  const CHANNEL_FORMAT := "meridian.config-artifact.resource-channel.v1"
  const ORPHAN_FORMAT := "meridian.config-artifact.orphan-candidate.v1"

  // ---------------------------------------------------------------- field values

  function ProfileName(p: Profile): string {
    match p case Configuration => "configuration" case Artifact => "artifact"
  }

  function ParseProfile(d: Doc): Option<Profile> {
    if d == Words("configuration") then Some(Configuration) else if d == Words("artifact") then Some(Artifact) else None
  }

  function StateName(s: ResourceState): string {
    match s case Draft => "DRAFT" case Published => "PUBLISHED" case Deprecated => "DEPRECATED"
  }

  function ParseState(d: Doc): Option<ResourceState> {
    if d == Words("DRAFT") then Some(Draft)
    else if d == Words("PUBLISHED") then Some(Published)
    else if d == Words("DEPRECATED") then Some(Deprecated)
    else None
  }

  function OrphanStateName(s: OrphanState): string {
    match s case Discovered => "DISCOVERED" case Recorded => "RECORDED" case Resolved => "RESOLVED"
  }

  function ParseOrphanState(d: Doc): Option<OrphanState> {
    if d == Words("DISCOVERED") then Some(Discovered)
    else if d == Words("RECORDED") then Some(Recorded)
    else if d == Words("RESOLVED") then Some(Resolved)
    else None
  }

  lemma EnumerationsRoundTrip(p: Profile, s: ResourceState, o: OrphanState)
    ensures ParseProfile(Words(ProfileName(p))) == Some(p)
    ensures ParseState(Words(StateName(s))) == Some(s)
    ensures ParseOrphanState(Words(OrphanStateName(o))) == Some(o)
  {
    assert "DRAFT"[0] != "PUBLISHED"[0] && "PUBLISHED"[0] != "DEPRECATED"[0] && "DRAFT"[1] != "DEPRECATED"[1];
    assert "DISCOVERED"[0] != "RECORDED"[0] && "RECORDED"[2] != "RESOLVED"[2];
    assert "configuration"[0] != "artifact"[0];
  }

  function TextDoc(s: Option<string>): Doc {
    if s.Some? then Words(s.value) else Nothing
  }

  function NumberDoc(n: Option<int>): Doc {
    if n.Some? then Number(n.value) else Nothing
  }

  function VersionDoc(v: Option<Version>): Doc {
    match v
    case None => Nothing
    case Some(Num(n)) => Number(n)
    case Some(Label(s)) => Words(s)
  }

  // value.get(field) is None, for a missing field too
  predicate IsNull(d: Doc) { d.Absent? || d.Nothing? }

  predicate OptionalText(d: Doc) { d.Words? || IsNull(d) }

  function TextOf(d: Doc): Option<string> {
    if d.Words? then Some(d.s) else None
  }

  predicate IsVersion(d: Doc) { IsNull(d) || d.Number? || d.Words? }

  function VersionOf(d: Doc): Option<Version>
    requires IsVersion(d)
  {
    match d
    case Number(n) => Some(Num(n))
    case Words(s) => Some(Label(s))
    case _ => None
  }

  // ---------------------------------------------------------------- SchemaRef and provenance documents

  function ToSchemaRecord(s: SchemaRef): SchemaRecord {
    SchemaRecord(Words(s.catalog), Words(s.namespace), Words(s.name), Words(s.version), {})
  }

  function ParseSchemaRecord(r: SchemaRecord): Option<SchemaRef> {
    if r.catalog.Words? && r.namespace.Words? && r.name.Words? && r.version.Words? && r.unknown == {} then
      match MakeSchemaRef(SchemaRef(r.namespace.s, r.name.s, r.version.s, r.catalog.s))
      case Ok(s) => Some(s)
      case Err(_) => None
    else None
  }

  function ToProvenanceRecord(p: Provenance): ProvenanceRecord {
    ProvenanceRecord(
      Words(PROVENANCE_FORMAT), Words(p.producer), Words(p.producerVersion), Strings(p.sourceDigests),
      TextDoc(p.buildId), TextDoc(p.validationVersion), Tree(Thaw(p.attributes)), {})
  }

  // ProvenanceV1.from_mapping: only the producer and its version are required.
  function ParseProvenance(codec: Codec, r: ProvenanceRecord): Option<Provenance> {
    var sources := if r.sourceDigests.Absent? then Strings(map[]) else r.sourceDigests;
    var attributes := if r.attributes.Absent? then Tree(Dict(NoFields)) else r.attributes;
    if && r.unknown == {}
       && r.producer.Words? && r.producerVersion.Words?
       && sources.Strings? && attributes.Tree? && attributes.j.Dict?
       && OptionalText(r.buildId) && OptionalText(r.validationVersion)
       && (r.formatVersion.Absent? || r.formatVersion == Words(PROVENANCE_FORMAT))
    then
      var p := Provenance(r.producer.s, r.producerVersion.s, sources.m, TextOf(r.buildId),
                          TextOf(r.validationVersion), Freeze(attributes.j));
      if ValidProvenance(codec, p) then Some(p) else None
    else None
  }

  lemma ProvenanceRoundTrip(codec: Codec, p: Provenance)
    requires ValidProvenance(codec, p)
    ensures ParseProvenance(codec, ToProvenanceRecord(p)) == Some(p)
  {
    FreezeThaw(p.attributes);
  }

  // ---------------------------------------------------------------- StoredResourceV1

  function ToRecord(r: StoredResource): ResourceRecord {
    ResourceRecord(
      Words(RESOURCE_FORMAT),
      Words(r.Id()),
      Words(r.identity.namespace),
      Words(r.identity.kind),
      Words(r.identity.name),
      Words(r.identity.version),
      Words(ProfileName(r.profile)),
      Words(StateName(r.state)),
      Words(r.mediaType),
      Words(r.digest),
      Number(r.byteLength),
      if r.objectRef.Some? then Reference(r.objectRef.value) else Nothing,
      if r.payload.Some? then Tree(Thaw(r.payload.value)) else Nothing,
      if r.payloadSchema.Some? then SchemaDoc(ToSchemaRecord(r.payloadSchema.value)) else Nothing,
      Strings(r.labels),
      Tree(Thaw(r.annotations)),
      if r.provenance.Some? then ProvenanceDoc(ToProvenanceRecord(r.provenance.value)) else Nothing,
      Words(r.createdBy),
      Words(r.createdAt),
      TextDoc(r.supersedes),
      Flag(r.immutable),
      NumberDoc(r.versionOrder),
      Absent,
      {})
  }

  // Every required field is present with a value of the expected kind, and no other field is.
  predicate Typed(codec: Codec, r: ResourceRecord) {
    && r.formatVersion == Words(RESOURCE_FORMAT)
    && r.resourceId.Words? && r.namespace.Words? && r.kind.Words? && r.name.Words? && r.version.Words?
    && ParseProfile(r.profile).Some? && ParseState(r.state).Some?
    && r.mediaType.Words? && r.digest.Words? && r.byteLength.Number?
    && (r.objectRef.Nothing? || r.objectRef.Reference?)
    && (r.payload.Nothing? || (r.payload.Tree? && r.payload.j.Dict?))
    && (r.payloadSchema.Nothing? || (r.payloadSchema.SchemaDoc? && ParseSchemaRecord(r.payloadSchema.schema).Some?))
    && r.labels.Strings?
    && r.annotations.Tree? && r.annotations.j.Dict?
    && (r.provenance.Nothing? || (r.provenance.ProvenanceDoc? && ParseProvenance(codec, r.provenance.document).Some?))
    && r.createdBy.Words? && r.createdAt.Words?
    && (r.supersedes.Words? || r.supersedes.Nothing?)
    && r.immutable.Flag?
    && (r.versionOrder.Nothing? || r.versionOrder.Number?)
    && IsVersion(r.recordVersion)
    && r.unknown == {}
  }

  function Untyped(codec: Codec, r: ResourceRecord): StoredResource
    requires Typed(codec, r)
  {
    StoredResource(
      Identity(r.namespace.s, r.kind.s, r.name.s, r.version.s),
      ParseProfile(r.profile).value,
      ParseState(r.state).value,
      r.mediaType.s,
      r.digest.s,
      r.byteLength.n,
      r.createdBy.s,
      r.createdAt.s,
      if r.objectRef.Reference? then Some(r.objectRef.ref) else None,
      if r.payload.Tree? then Some(Freeze(r.payload.j)) else None,
      if r.payloadSchema.SchemaDoc? then ParseSchemaRecord(r.payloadSchema.schema) else None,
      r.labels.m,
      Freeze(r.annotations.j),
      if r.provenance.ProvenanceDoc? then ParseProvenance(codec, r.provenance.document) else None,
      TextOf(r.supersedes),
      r.immutable.b,
      if r.versionOrder.Number? then Some(r.versionOrder.n) else None,
      VersionOf(r.recordVersion))
  }

  function FromRecord(codec: Codec, r: ResourceRecord): Option<StoredResource> {
    if Typed(codec, r) && r.resourceId.s == Untyped(codec, r).Id() then Make(codec, Untyped(codec, r)) else None
  }

  // The record of r as a store may hold it: with a record version beside the logical fields,
  // and with the creation time in the store's own spelling.
  function StoredRecord(r: StoredResource, v: Option<Version>, createdAt: string): ResourceRecord {
    ToRecord(r).(recordVersion := VersionDoc(v), createdAt := Words(createdAt))
  }

  lemma UntypedToRecord(codec: Codec, r: StoredResource, v: Option<Version>, createdAt: string)
    requires r.payload.Some? ==> r.payload.value.Proxy? && Freeze(Thaw(r.payload.value)) == r.payload.value
    requires r.annotations.Proxy? && Freeze(Thaw(r.annotations)) == r.annotations
    requires r.payloadSchema.Some? ==> ValidSchemaRef(r.payloadSchema.value)
    requires r.provenance.Some? ==> ParseProvenance(codec, ToProvenanceRecord(r.provenance.value)) == r.provenance
    ensures var rec := StoredRecord(r, v, createdAt);
            && Typed(codec, rec)
            && Untyped(codec, rec) == r.(recordVersion := v, createdAt := createdAt)
            && rec.resourceId == Words(r.Id())
  {
    hide ResourceId, ParseProvenance, Thaw, Freeze, ValidSchemaRef, ToProvenanceRecord;
    EnumerationsRoundTrip(r.profile, r.state, Recorded);
    SchemaRecordRoundTrip(r.payloadSchema);
    ThawedMapping(r.annotations);
    if r.payload.Some? {
      ThawedMapping(r.payload.value);
    }
    hide ProfileName, ParseProfile, StateName, ParseState, ParseSchemaRecord, ToSchemaRecord;
  }

  lemma ThawedMapping(f: Frozen)
    requires f.Proxy?
    ensures Thaw(f).Dict?
  {
  }

  lemma SchemaRecordRoundTrip(s: Option<SchemaRef>)
    requires s.Some? ==> ValidSchemaRef(s.value)
    ensures s.Some? ==> ParseSchemaRecord(ToSchemaRecord(s.value)) == s
  {
  }

  lemma ValidIgnoresVersion(codec: Codec, r: StoredResource, v: Option<Version>)
    ensures Valid(codec, r) <==> Valid(codec, r.(recordVersion := v))
  {
  }

  lemma MakeValid(codec: Codec, r: StoredResource, createdAt: string)
    requires Valid(codec, r) && codec.utc(createdAt) == Some(r.createdAt)
    ensures Make(codec, r.(createdAt := createdAt)) == Some(r)
  {
  }

  // What a store holds for r reads back as r, whatever the version and the spelling of the time.
  lemma StoredRecordRoundTrip(codec: Codec, r: StoredResource, v: Option<Version>, createdAt: string)
    requires Valid(codec, r) && codec.utc(createdAt) == Some(r.createdAt)
    ensures FromRecord(codec, StoredRecord(r, v, createdAt)) == Some(r.(recordVersion := v))
  {
    FreezeThaw(r.annotations);
    if r.payload.Some? {
      FreezeThaw(r.payload.value);
    }
    if r.provenance.Some? {
      ProvenanceRoundTrip(codec, r.provenance.value);
    }
    UntypedToRecord(codec, r, v, createdAt);
    ValidIgnoresVersion(codec, r, v);
    MakeValid(codec, r.(recordVersion := v), createdAt);
  }

  lemma ResourceRoundTrip(codec: Codec, r: StoredResource)
    requires Valid(codec, r)
    ensures FromRecord(codec, ToRecord(r)) == Some(r.(recordVersion := None))
  {
    StoredRecordRoundTrip(codec, r, None, r.createdAt);
    var rec := ToRecord(r);
    var stored := StoredRecord(r, None, r.createdAt);
    assert Typed(codec, stored) && Typed(codec, rec);
    assert Untyped(codec, stored) == Untyped(codec, rec);
  }

  // Whatever parses is valid, and prints as a record that parses to the same resource.
  lemma ParsedIsValid(codec: Codec, rec: ResourceRecord)
    requires FromRecord(codec, rec).Some?
    ensures Valid(codec, FromRecord(codec, rec).value)
    ensures var x := FromRecord(codec, rec).value; FromRecord(codec, ToRecord(x)) == Some(x.(recordVersion := None))
  {
    ResourceRoundTrip(codec, FromRecord(codec, rec).value);
  }

  // The model hashes the payload as it normalises it again; the publisher hashed what it normalised.
  // The two agree: the digest and length that the publisher computes are exactly those accepted.
  lemma ConfigurationCheck(codec: Codec, r: StoredResource, payload: Json, schema: SchemaRef)
    requires WellFormed(payload) && payload.Dict? && ValidSchemaRef(schema)
    requires r.profile == Configuration && r.objectRef == None
    requires r.payload == Some(Freeze(payload)) && r.payloadSchema == Some(schema)
    ensures var encoded := codec.encode(Thaw(Freeze(payload)));
            ValidContent(codec, r) <==> r.digest == codec.sha(encoded) && r.byteLength == |encoded|
  {
    FreezeSorted(payload);
    NormalisationIdempotent(payload);
  }

  // ---------------------------------------------------------------- canonical_mapping

  // What canonical JSON owes its callers: decoding gives back an equal value, and equal values have
  // the same bytes.
  ghost predicate CanonicalJson(encode: Json -> Bytes, decode: Bytes -> Json) {
    && (forall j :: WellFormed(j) ==> WellFormed(decode(encode(j))) && Same(decode(encode(j)), j))
    && (forall a, b :: WellFormed(a) && WellFormed(b) && Same(a, b) ==> encode(a) == encode(b))
  }

  // The value goes through its canonical bytes and back, within the limits, and is frozen.
  function CanonicalMapping(encode: Json -> Bytes, decode: Bytes -> Json, value: Json, entries: Option<nat>, bytes: Option<nat>): Option<Frozen> {
    if !value.Dict? || (entries.Some? && Size(value.fields) > entries.value) then None
    else
      var normalized := decode(encode(value));
      if !normalized.Dict? || (bytes.Some? && |encode(normalized)| > bytes.value) then None
      else Some(Freeze(normalized))
  }

  // Whether a mapping is within the limits depends on the mapping alone.
  predicate Fits(encode: Json -> Bytes, value: Json, entries: Option<nat>, bytes: Option<nat>) {
    && value.Dict?
    && (entries.Some? ==> Size(value.fields) <= entries.value)
    && (bytes.Some? ==> |encode(value)| <= bytes.value)
  }

  // The trip through bytes changes nothing but the order of fields, so what comes out is the frozen
  // form of what went in, exactly if that fits.
  lemma MappingIsFrozen(encode: Json -> Bytes, decode: Bytes -> Json, value: Json, entries: Option<nat>, bytes: Option<nat>)
    requires CanonicalJson(encode, decode) && WellFormed(value)
    ensures CanonicalMapping(encode, decode, value, entries, bytes)
         == if Fits(encode, value, entries, bytes) then Some(Freeze(value)) else None
  {
    hide WellFormed, Freeze, Same, Size;
    var normalized := decode(encode(value));
    assert WellFormed(normalized) && Same(normalized, value);
    SameKind(normalized, value);
    FrozenFormDecidesEquality(normalized, value);
    assert encode(normalized) == encode(value);
  }

  lemma SameKind(a: Json, b: Json)
    requires Same(a, b)
    ensures a.Dict? <==> b.Dict?
    ensures a.Dict? && b.Dict? ==> Size(a.fields) == Size(b.fields)
  {
  }

  // Normalisation is idempotent, limits and all: a mapping that was accepted is accepted again, as it is.
  lemma MappingIsStable(encode: Json -> Bytes, decode: Bytes -> Json, value: Json, entries: Option<nat>, bytes: Option<nat>)
    requires CanonicalJson(encode, decode) && WellFormed(value)
    requires CanonicalMapping(encode, decode, value, entries, bytes).Some?
    ensures var f := CanonicalMapping(encode, decode, value, entries, bytes).value;
            WellFormed(Thaw(f)) && CanonicalMapping(encode, decode, Thaw(f), entries, bytes) == Some(f)
  {
    hide WellFormed, Freeze, Thaw, Same, Size;
    MappingIsFrozen(encode, decode, value, entries, bytes);
    ThawFreeze(value);
    NormalisationIdempotent(value);
    SameKind(Thaw(Freeze(value)), value);
    MappingIsFrozen(encode, decode, Thaw(Freeze(value)), entries, bytes);
    assert encode(Thaw(Freeze(value))) == encode(value);
  }

  // The bounds that resources and provenance put on their mappings are those of canonical_mapping.
  lemma BoundedIsFitting(codec: Codec, decode: Bytes -> Json, value: Json)
    requires CanonicalJson(codec.encode, decode) && WellFormed(value)
    ensures BoundedMapping(codec, Freeze(value))
       <==> CanonicalMapping(codec.encode, decode, value, Some(64), Some(262144)) == Some(Freeze(value))
  {
    hide WellFormed, Thaw, Same, Sorted;
    MappingIsFrozen(codec.encode, decode, value, Some(64), Some(262144));
    FreezeSorted(value);
    ThawFreeze(value);
    assert codec.encode(Thaw(Freeze(value))) == codec.encode(value);
    if value.Dict? {
      DictIsWellFormed(value);
      FreezeFieldsSorted(value.fields);
      SizeIsKeys(value.fields);
    }
  }

  lemma DictIsWellFormed(value: Json)
    requires WellFormed(value) && value.Dict?
    ensures WellFormedFields(value.fields)
  {
  }

  // The invariants of a resource: what belongs to each profile, and what to each state.
  lemma ResourceInvariants(codec: Codec, r: StoredResource)
    requires Valid(codec, r)
    ensures r.profile == Artifact ==>
              r.payload == None && r.payloadSchema == None && r.objectRef.Some? && r.objectRef.value.digest == Some(r.digest)
    ensures r.profile == Configuration ==>
              && r.objectRef == None && r.payloadSchema.Some? && r.payload.Some? && r.payload.value.Proxy?
              && var encoded := codec.encode(Thaw(r.payload.value)); codec.sha(encoded) == r.digest && |encoded| == r.byteLength
    ensures r.immutable <==> r.state != Draft
    ensures ValidIdentity(r.identity) && IsDigest(r.digest) && r.byteLength >= 0 && (r.versionOrder.Some? ==> r.versionOrder.value >= 0)
    ensures codec.utc(r.createdAt) == Some(r.createdAt)
  {
    hide ValidIdentity, IsDigest, BoundedMapping, ValidProvenance, MediaType, StringMapping;
    if r.profile == Configuration {
      FreezeThaw(r.payload.value);
    }
  }

  // ---------------------------------------------------------------- what the fields of a record mean

  // A record that parses holds each value under its own name, has every field and no other.
  lemma ResourceRecordIs(codec: Codec, rec: ResourceRecord)
    requires FromRecord(codec, rec).Some?
    ensures var x := FromRecord(codec, rec).value;
            && rec.formatVersion == Words("meridian.config-artifact.stored-resource.v1") && rec.unknown == {}
            && rec.resourceId == Words(ResourceId(x.identity))
            && rec.namespace == Words(x.identity.namespace) && rec.kind == Words(x.identity.kind)
            && rec.name == Words(x.identity.name) && rec.version == Words(x.identity.version)
            && rec.profile == Words(if x.profile == Artifact then "artifact" else "configuration")
            && rec.state == Words(match x.state case Draft => "DRAFT" case Published => "PUBLISHED" case Deprecated => "DEPRECATED")
            && rec.mediaType == Words(x.mediaType) && rec.digest == Words(x.digest) && rec.byteLength == Number(x.byteLength)
            && rec.objectRef == (if x.objectRef.Some? then Reference(x.objectRef.value) else Nothing)
            && (if x.payload.Some? then rec.payload.Tree? && Freeze(rec.payload.j) == x.payload.value else rec.payload == Nothing)
            && rec.labels == Strings(x.labels) && rec.annotations.Tree? && Freeze(rec.annotations.j) == x.annotations
            && rec.createdBy == Words(x.createdBy)
            && rec.createdAt.Words? && codec.utc(rec.createdAt.s) == Some(x.createdAt)
            && rec.supersedes == (if x.supersedes.Some? then Words(x.supersedes.value) else Nothing)
            && rec.immutable == Flag(x.immutable)
            && rec.versionOrder == (if x.versionOrder.Some? then Number(x.versionOrder.value) else Nothing)
            && (rec.recordVersion == VersionDoc(x.recordVersion) || (rec.recordVersion == Absent && x.recordVersion == None))
  {
    hide Valid, ResourceId, Freeze, ParseProvenance, ParseSchemaRecord;
    DeclaredNames(rec.profile, rec.state);
  }

  lemma DeclaredNames(profile: Doc, state: Doc)
    ensures ParseProfile(profile).Some? ==> profile == Words(if ParseProfile(profile).value == Artifact then "artifact" else "configuration")
    ensures ParseState(state).Some? ==>
              state == Words(match ParseState(state).value case Draft => "DRAFT" case Published => "PUBLISHED" case Deprecated => "DEPRECATED")
  {
  }

  // ... and so do its nested documents.
  lemma NestedRecordsAre(codec: Codec, rec: ResourceRecord)
    requires FromRecord(codec, rec).Some?
    ensures var x := FromRecord(codec, rec).value;
            && (if x.payloadSchema.None? then rec.payloadSchema == Nothing
                else
                  var ref := x.payloadSchema.value;
                  rec.payloadSchema == SchemaDoc(SchemaRecord(Words(ref.catalog), Words(ref.namespace), Words(ref.name), Words(ref.version), {})))
            && (if x.provenance.None? then rec.provenance == Nothing
                else
                  rec.provenance.ProvenanceDoc? &&
                  var p, d := x.provenance.value, rec.provenance.document;
                  && d.unknown == {} && d.producer == Words(p.producer) && d.producerVersion == Words(p.producerVersion)
                  && (d.sourceDigests == Strings(p.sourceDigests) || (d.sourceDigests == Absent && p.sourceDigests == map[]))
                  && (if p.buildId.Some? then d.buildId == Words(p.buildId.value) else d.buildId in {Absent, Nothing})
                  && (if p.validationVersion.Some? then d.validationVersion == Words(p.validationVersion.value)
                      else d.validationVersion in {Absent, Nothing})
                  && (d.attributes == Absent || (d.attributes.Tree? && Freeze(d.attributes.j) == p.attributes)))
  {
    hide Valid, ResourceId, Freeze, ValidProvenance;
  }

  lemma ChannelRecordIs(codec: Codec, rec: ChannelRecord)
    requires ParseChannel(codec, rec).Some?
    ensures var x := ParseChannel(codec, rec).value;
            && rec.formatVersion == Words("meridian.config-artifact.resource-channel.v1") && rec.unknown == {}
            && rec.namespace == Words(x.channel.namespace) && rec.kind == Words(x.channel.kind) && rec.name == Words(x.channel.name)
            && rec.channel == Words(x.channel.channel) && rec.targetResourceId == Words(x.target)
            && rec.pointerVersion == Number(x.pointerVersion) && x.pointerVersion >= 1
            && rec.channelVersionId == Words(ChannelVersionId(x.channel, NatOf(x.pointerVersion)))
            && rec.actor == Words(x.actor) && rec.updatedAt.Words? && codec.utc(rec.updatedAt.s) == Some(x.updatedAt)
            && IsResourceId(x.target) && ChannelName(x.channel.channel)
            && LogicalName(x.channel.namespace) && LogicalName(x.channel.kind) && LogicalName(x.channel.name)
  {
    hide ChannelVersionId, IsResourceId, LogicalName, ChannelName, BoundedString;
  }

  lemma OrphanRecordIs(codec: Codec, rec: OrphanRecord)
    requires ParseOrphan(codec, rec).Some?
    ensures var x := ParseOrphan(codec, rec).value;
            && rec.formatVersion == Words("meridian.config-artifact.orphan-candidate.v1") && rec.unknown == {}
            && rec.candidateId == Words(OrphanCandidateId(x.resourceId, x.objectRef.objectId, x.digest))
            && rec.resourceId == Words(x.resourceId) && rec.objectRef == Reference(x.objectRef) && rec.digest == Words(x.digest)
            && rec.byteLength == Number(x.byteLength) && rec.reason == Words(x.reason)
            && rec.discoveredAt.Words? && codec.utc(rec.discoveredAt.s) == Some(x.discoveredAt)
            && IsResourceId(x.resourceId) && IsDigest(x.digest) && x.objectRef.digest == Some(x.digest) && x.byteLength >= 0
            && rec.state == Words(match x.state case Discovered => "DISCOVERED" case Recorded => "RECORDED" case Resolved => "RESOLVED")
  {
    hide OrphanCandidateId, IsResourceId, IsDigest, BoundedString;
  }

  // ---------------------------------------------------------------- ResourceChannelV1

  function ToChannelRecord(c: ChannelRow): ChannelRecord
    requires c.pointerVersion >= 0
  {
    ChannelRecord(
      Words(CHANNEL_FORMAT), Words(ChannelVersionId(c.channel, c.pointerVersion)), Words(c.channel.namespace),
      Words(c.channel.kind), Words(c.channel.name), Words(c.channel.channel), Words(c.target),
      Number(c.pointerVersion), Words(c.actor), Words(c.updatedAt), Absent, {})
  }

  predicate ChannelTyped(r: ChannelRecord) {
    && r.formatVersion == Words(CHANNEL_FORMAT)
    && r.channelVersionId.Words? && r.namespace.Words? && r.kind.Words? && r.name.Words? && r.channel.Words?
    && r.targetResourceId.Words? && r.pointerVersion.Number? && r.actor.Words? && r.updatedAt.Words?
    && IsVersion(r.recordVersion) && r.unknown == {}
  }

  function UntypedChannel(r: ChannelRecord): ChannelRow
    requires ChannelTyped(r)
  {
    ChannelRow(Channel(r.namespace.s, r.kind.s, r.name.s, r.channel.s), r.targetResourceId.s,
               r.pointerVersion.n, r.actor.s, r.updatedAt.s, VersionOf(r.recordVersion))
  }

  function MakeChannel(codec: Codec, c: ChannelRow): Option<ChannelRow> {
    match codec.utc(c.updatedAt)
    case None => None
    case Some(t) => if ValidChannelRow(codec, c.(updatedAt := t)) then Some(c.(updatedAt := t)) else None
  }

  function ParseChannel(codec: Codec, r: ChannelRecord): Option<ChannelRow> {
    if ChannelTyped(r) && r.pointerVersion.n >= 0
       && r.channelVersionId.s == ChannelVersionId(UntypedChannel(r).channel, r.pointerVersion.n)
    then MakeChannel(codec, UntypedChannel(r))
    else None
  }

  lemma MakeValidChannel(codec: Codec, c: ChannelRow, v: Option<Version>)
    requires ValidChannelRow(codec, c)
    ensures MakeChannel(codec, c.(recordVersion := v)) == Some(c.(recordVersion := v))
  {
  }

  lemma UntypedToChannelRecord(c: ChannelRow, v: Option<Version>)
    requires c.pointerVersion >= 0
    ensures var rec := ToChannelRecord(c).(recordVersion := VersionDoc(v));
            && ChannelTyped(rec)
            && UntypedChannel(rec) == c.(recordVersion := v)
            && rec.channelVersionId == Words(ChannelVersionId(c.channel, c.pointerVersion))
            && rec.pointerVersion == Number(c.pointerVersion)
  {
  }

  lemma ChannelRoundTrip(codec: Codec, c: ChannelRow, v: Option<Version>)
    requires ValidChannelRow(codec, c)
    ensures ParseChannel(codec, ToChannelRecord(c).(recordVersion := VersionDoc(v))) == Some(c.(recordVersion := v))
  {
    MakeValidChannel(codec, c, v);
    UntypedToChannelRecord(c, v);
  }

  // ---------------------------------------------------------------- OrphanCandidateV1

  function ToOrphanRecord(o: Orphan): OrphanRecord {
    OrphanRecord(
      Words(ORPHAN_FORMAT), Words(o.Id()), Words(o.resourceId), Reference(o.objectRef), Words(o.digest),
      Number(o.byteLength), Words(o.reason), Words(o.discoveredAt), Words(OrphanStateName(o.state)), Absent, {})
  }

  predicate OrphanTyped(r: OrphanRecord) {
    && r.formatVersion == Words(ORPHAN_FORMAT)
    && r.candidateId.Words? && r.resourceId.Words? && r.objectRef.Reference? && r.digest.Words?
    && r.byteLength.Number? && r.reason.Words? && r.discoveredAt.Words?
    && ParseOrphanState(r.state).Some?
    && IsVersion(r.recordVersion) && r.unknown == {}
  }

  function UntypedOrphan(r: OrphanRecord): Orphan
    requires OrphanTyped(r)
  {
    Orphan(r.resourceId.s, r.objectRef.ref, r.digest.s, r.byteLength.n, r.reason.s, r.discoveredAt.s,
           ParseOrphanState(r.state).value, VersionOf(r.recordVersion))
  }

  function MakeOrphan(codec: Codec, o: Orphan): Option<Orphan> {
    match codec.utc(o.discoveredAt)
    case None => None
    case Some(t) => if ValidOrphan(codec, o.(discoveredAt := t)) then Some(o.(discoveredAt := t)) else None
  }

  function ParseOrphan(codec: Codec, r: OrphanRecord): Option<Orphan> {
    if OrphanTyped(r) && r.candidateId.s == UntypedOrphan(r).Id() then MakeOrphan(codec, UntypedOrphan(r)) else None
  }

  lemma MakeValidOrphan(codec: Codec, o: Orphan, v: Option<Version>)
    requires ValidOrphan(codec, o)
    ensures MakeOrphan(codec, o.(recordVersion := v)) == Some(o.(recordVersion := v))
  {
  }

  lemma UntypedToOrphanRecord(o: Orphan, v: Option<Version>)
    ensures var rec := ToOrphanRecord(o).(recordVersion := VersionDoc(v));
            && OrphanTyped(rec)
            && UntypedOrphan(rec) == o.(recordVersion := v)
            && rec.candidateId == Words(o.Id())
  {
    EnumerationsRoundTrip(Artifact, Draft, o.state);
  }

  lemma OrphanRoundTrip(codec: Codec, o: Orphan, v: Option<Version>)
    requires ValidOrphan(codec, o)
    ensures ParseOrphan(codec, ToOrphanRecord(o).(recordVersion := VersionDoc(v))) == Some(o.(recordVersion := v))
  {
    MakeValidOrphan(codec, o, v);
    UntypedToOrphanRecord(o, v);
  }
}
