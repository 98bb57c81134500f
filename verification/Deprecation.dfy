// The version-checked patch that deprecates a resource, judged against whatever the adapter returns.

module Deprecation {
  import opened Basics
  import opened Canonical
  import opened References
  import opened Resources
  import opened Records

  // A structured row: its declared fields and the update time that adapters add.
  datatype Row = NoRow | Row(record: ResourceRecord, updatedAt: Doc)

  // One element of the patch result: flat logical values, or the released Record envelope.
  datatype Item =
    | NotAMapping
    | Flat(row: Row)
    | Envelope(formatVersion: Doc, collectionRef: Doc, recordId: Doc, recordVersion: Doc, values: Row,
               createdAt: Doc, updatedAt: Doc, unknown: set<string>)

  datatype Data = NotASequence | Sequence(items: seq<Item>)

  // What the adapter reports for the patch, and the scope it claims to have touched.
  datatype PatchResult = PatchResult(data: Data, resources: seq<string>)

  const ENVELOPE_FORMAT := "meridian.record.v1"

  predicate Timestamp(codec: Codec, d: Doc) {
    d.Words? && codec.utc(d.s).Some?
  }

  predicate EnvelopeOk(codec: Codec, scope: string, e: Item, resourceId: string)
    requires e.Envelope?
  {
    && e.unknown == {}
    && !e.collectionRef.Absent? && !e.recordVersion.Absent?
    && (e.formatVersion.Absent? || e.formatVersion == Words(ENVELOPE_FORMAT))
    && e.recordId == Words(resourceId)
    && e.collectionRef == Scope(scope)
    && Timestamp(codec, e.createdAt) && Timestamp(codec, e.updatedAt)
  }

  // _logical_record: the envelope's record version, unless null, overrides the one in the values.
  function LogicalRow(item: Item): Row {
    match item
    case NotAMapping => NoRow
    case Flat(row) => row
    case Envelope(_, _, _, version, values, _, _, _) =>
      if values.Row? && !IsNull(version) then values.(record := values.record.(recordVersion := version)) else values
  }

  // _parse_resource: the update time must be a timestamp, and is dropped.
  function ParseRow(codec: Codec, row: Row): Option<StoredResource> {
    if row.NoRow? || !(row.updatedAt.Absent? || Timestamp(codec, row.updatedAt)) then None
    else FromRecord(codec, row.record)
  }

  predicate FreshVersion(previous: Option<Version>, v: Option<Version>) {
    && v.Some? && v != previous && v != Some(Label(""))
    && (v.value.Num? ==> v.value.n >= 0)
  }

  function DeprecationResult(codec: Codec, scope: string, result: PatchResult, resource: StoredResource): Result<StoredResource> {
    if result.data.NotASequence? || |result.data.items| != 1 || result.resources != [scope] then Err(InvalidRepositoryResult)
    else
      var item := result.data.items[0];
      if item.Envelope? && !EnvelopeOk(codec, scope, item, resource.Id()) then Err(InvalidRepositoryResult)
      else
        match ParseRow(codec, LogicalRow(item))
        case None => Err(InvalidRepositoryResult)
        case Some(stored) =>
          if ToRecord(stored) != ToRecord(resource).(state := Words(StateName(Deprecated))) then Err(InvalidRepositoryResult)
          else if !FreshVersion(resource.recordVersion, stored.recordVersion) then Err(InvalidRepositoryResult)
          else Ok(stored)
  }

  // ---------------------------------------------------------------- what is accepted

  // Records determine valid resources, but for the record version.
  lemma RecordDetermines(codec: Codec, a: StoredResource, b: StoredResource)
    requires Valid(codec, a) && Valid(codec, b) && ToRecord(a) == ToRecord(b)
    ensures a.(recordVersion := None) == b.(recordVersion := None)
  {
    ResourceRoundTrip(codec, a);
    ResourceRoundTrip(codec, b);
  }

  lemma DeprecatedRecord(codec: Codec, r: StoredResource)
    requires Valid(codec, r) && r.state != Draft
    ensures Valid(codec, r.(state := Deprecated))
    ensures ToRecord(r.(state := Deprecated)) == ToRecord(r).(state := Words(StateName(Deprecated)))
  {
  }

  lemma DraftRecord(codec: Codec, r: StoredResource, stored: StoredResource)
    requires Valid(codec, r) && r.state == Draft && Valid(codec, stored)
    ensures ToRecord(stored) != ToRecord(r).(state := Words(StateName(Deprecated)))
  {
    EnumerationsRoundTrip(Artifact, stored.state, Recorded);
    EnumerationsRoundTrip(Artifact, Deprecated, Recorded);
    if ToRecord(stored).state == Words(StateName(Deprecated)) {
      assert stored.state == Deprecated;
      assert ToRecord(stored).immutable == Flag(true) && ToRecord(r).immutable == Flag(false);
    }
  }

  // A record version that is there, is another than the old one, is not empty and is not negative.
  predicate NewVersion(previous: Option<Version>, v: Option<Version>) {
    match v
    case None => false
    case Some(Num(n)) => n >= 0 && previous != Some(Num(n))
    case Some(Label(s)) => s != "" && previous != Some(Label(s))
  }

  // The envelope of a patch answer is for this resource and this scope, in the known format, with all
  // of its keys and no others, and with timestamps for its times.
  predicate ForThisResource(codec: Codec, scope: string, e: Item, id: string)
    requires e.Envelope?
  {
    && e.recordId == Words(id) && e.collectionRef == Scope(scope) && e.unknown == {}
    && (e.formatVersion == Absent || e.formatVersion == Words("meridian.record.v1"))
    && e.recordVersion != Absent
    && e.createdAt.Words? && codec.utc(e.createdAt.s).Some?
    && e.updatedAt.Words? && codec.utc(e.updatedAt.s).Some?
  }

  // The values of an answer's one item, with the envelope's record version over their own unless null.
  function ValuesOf(item: Item): Row
    requires !item.NotAMapping?
  {
    match item
    case Flat(row) => row
    case Envelope(_, _, _, version, values, _, _, _) =>
      match values
      case NoRow => NoRow
      case Row(record, updatedAt) => Row(if version in {Absent, Nothing} then record else record.(recordVersion := version), updatedAt)
  }

  // Exactly which answers are accepted: one mapping, for the one scope, whose envelope, if it has one, is
  // for this resource, and whose values read as the old resource, deprecated, with a new version.
  lemma AcceptedIff(codec: Codec, scope: string, result: PatchResult, resource: StoredResource)
    requires Valid(codec, resource)
    ensures DeprecationResult(codec, scope, result, resource).Ok? <==>
              && result.resources == [scope] && result.data.Sequence? && |result.data.items| == 1
              && var item := result.data.items[0];
                && !item.NotAMapping?
                && (item.Envelope? ==> ForThisResource(codec, scope, item, resource.Id()))
                && var row := ValuesOf(item);
                  && row.Row? && (row.updatedAt == Absent || (row.updatedAt.Words? && codec.utc(row.updatedAt.s).Some?))
                  && var stored := FromRecord(codec, row.record);
                  && resource.state != Draft && stored.Some?
                  && stored.value == resource.(state := Deprecated, recordVersion := stored.value.recordVersion)
                  && NewVersion(resource.recordVersion, stored.value.recordVersion)
  {
    hide Valid, FromRecord, ToRecord, ResourceId;
    if DeprecationResult(codec, scope, result, resource).Ok? {
      AcceptedIsFaithful(codec, scope, result, resource);
    } else if resource.state != Draft {
      DeprecatedRecord(codec, resource);
      forall v
        ensures ToRecord(resource.(state := Deprecated, recordVersion := v)) == ToRecord(resource).(state := Words(StateName(Deprecated)))
      {
        RecordIgnoresVersion(resource.(state := Deprecated), v);
      }
    }
  }

  lemma RecordIgnoresVersion(r: StoredResource, v: Option<Version>)
    ensures ToRecord(r.(recordVersion := v)) == ToRecord(r)
  {
    hide ResourceId, Thaw, ToProvenanceRecord, ToSchemaRecord;
  }

  // Whatever the adapter answers, an accepted result is the old resource with nothing changed
  // but the state and the record version, which is new.
  lemma AcceptedIsFaithful(codec: Codec, scope: string, result: PatchResult, resource: StoredResource)
    requires Valid(codec, resource)
    requires DeprecationResult(codec, scope, result, resource).Ok?
    ensures var stored := DeprecationResult(codec, scope, result, resource).value;
            && stored == resource.(state := Deprecated, recordVersion := stored.recordVersion)
            && stored.recordVersion.Some? && stored.recordVersion != resource.recordVersion && stored.recordVersion != Some(Label(""))
            && (stored.recordVersion.value.Num? ==> stored.recordVersion.value.n >= 0)
            && resource.state != Draft
            && Valid(codec, stored)
  {
    var stored := DeprecationResult(codec, scope, result, resource).value;
    ParsedIsValid(codec, LogicalRow(result.data.items[0]).record);
    if resource.state == Draft {
      DraftRecord(codec, resource, stored);
    } else {
      DeprecatedRecord(codec, resource);
      RecordDetermines(codec, stored, resource.(state := Deprecated));
    }
  }

  // The answer of an adapter that did what it was asked, in either form the adapters use.
  function FaithfulFlat(r: StoredResource, v: Option<Version>, createdAt: string, updatedAt: Doc): Item {
    Flat(Row(StoredRecord(r.(state := Deprecated), v, createdAt), updatedAt))
  }

  function FaithfulEnvelope(r: StoredResource, v: Option<Version>, scope: string, createdAt: string, recordTimes: (string, string)): Item {
    Envelope(Words(ENVELOPE_FORMAT), Scope(scope), Words(r.Id()), VersionDoc(v),
             Row(StoredRecord(r.(state := Deprecated), None, createdAt).(recordVersion := Absent), Absent),
             Words(recordTimes.0), Words(recordTimes.1), {})
  }

  lemma FaithfulRowParses(codec: Codec, r: StoredResource, v: Option<Version>, createdAt: string)
    requires Valid(codec, r) && r.state != Draft && codec.utc(createdAt) == Some(r.createdAt)
    ensures FromRecord(codec, StoredRecord(r.(state := Deprecated), v, createdAt)) == Some(r.(state := Deprecated, recordVersion := v))
    ensures ToRecord(r.(state := Deprecated, recordVersion := v)) == ToRecord(r).(state := Words(StateName(Deprecated)))
  {
    DeprecatedRecord(codec, r);
    StoredRecordRoundTrip(codec, r.(state := Deprecated), v, createdAt);
  }

  lemma FlatIsAccepted(codec: Codec, scope: string, r: StoredResource, v: Option<Version>, createdAt: string, updatedAt: Doc)
    requires Valid(codec, r) && r.state != Draft && FreshVersion(r.recordVersion, v)
    requires codec.utc(createdAt) == Some(r.createdAt)
    requires updatedAt.Absent? || Timestamp(codec, updatedAt)
    ensures DeprecationResult(codec, scope, PatchResult(Sequence([FaithfulFlat(r, v, createdAt, updatedAt)]), [scope]), r)
         == Ok(r.(state := Deprecated, recordVersion := v))
  {
    hide Valid, FromRecord, ToRecord;
    FaithfulRowParses(codec, r, v, createdAt);
  }

  // A faithful answer is accepted, flat or in an envelope, whatever the spelling of the times.
  lemma FaithfulIsAccepted(codec: Codec, scope: string, r: StoredResource, v: Option<Version>, createdAt: string,
                           updatedAt: Doc, recordTimes: (string, string))
    requires Valid(codec, r) && r.state != Draft && FreshVersion(r.recordVersion, v)
    requires codec.utc(createdAt) == Some(r.createdAt)
    requires updatedAt.Absent? || Timestamp(codec, updatedAt)
    requires codec.utc(recordTimes.0).Some? && codec.utc(recordTimes.1).Some?
    ensures var stored := r.(state := Deprecated, recordVersion := v);
            && DeprecationResult(codec, scope, PatchResult(Sequence([FaithfulFlat(r, v, createdAt, updatedAt)]), [scope]), r) == Ok(stored)
            && DeprecationResult(codec, scope, PatchResult(Sequence([FaithfulEnvelope(r, v, scope, createdAt, recordTimes)]), [scope]), r) == Ok(stored)
  {
    hide Valid, FromRecord, ToRecord;
    FlatIsAccepted(codec, scope, r, v, createdAt, updatedAt);
    FaithfulRowParses(codec, r, v, createdAt);
    var row := LogicalRow(FaithfulEnvelope(r, v, scope, createdAt, recordTimes));
    assert row.record == StoredRecord(r.(state := Deprecated), v, createdAt);
  }

  // ---------------------------------------------------------------- the transaction

  // The adapter's part: it refuses the patch, or leaves the table in some state and reports a result.
  datatype Reply = Refused(kind: Failure) | Patched(table: map<string, StoredResource>, result: PatchResult)

  predicate Misfit(scope: string, result: PatchResult, resource: StoredResource) {
    || result.resources != [scope] || result.data.NotASequence? || |result.data.items| != 1
    || var item := result.data.items[0];
      || item.NotAMapping?
      || (item.Envelope? && (item.recordId != Words(resource.Id()) || item.collectionRef != Scope(scope) || item.unknown != {}))
      || (item.Envelope? && item.recordVersion == VersionDoc(resource.recordVersion) && resource.recordVersion.Some?)
      || (item.Flat? && item.row.Row? && item.row.record.recordVersion == VersionDoc(resource.recordVersion))
  }

  lemma MisfitsAreRefused(codec: Codec, scope: string, result: PatchResult, resource: StoredResource)
    requires Valid(codec, resource) && Misfit(scope, result, resource)
    ensures DeprecationResult(codec, scope, result, resource) == Err(InvalidRepositoryResult)
  {
    hide Valid, DeprecationResult, FromRecord, ResourceId;
    AcceptedIff(codec, scope, result, resource);
    RefusalsAreInvalid(codec, scope, result, resource);
    if result.data.Sequence? && |result.data.items| == 1 && !result.data.items[0].NotAMapping? {
      var row := ValuesOf(result.data.items[0]);
      if row.Row? {
        ParsedVersion(codec, row.record);
      }
    }
  }

  lemma RefusalsAreInvalid(codec: Codec, scope: string, result: PatchResult, resource: StoredResource)
    ensures var r := DeprecationResult(codec, scope, result, resource); r.Err? ==> r.error == InvalidRepositoryResult
  {
    hide ParseRow, ToRecord, ResourceId;
  }

  lemma ParsedVersion(codec: Codec, rec: ResourceRecord)
    ensures FromRecord(codec, rec).Some? ==>
              var v := FromRecord(codec, rec).value.recordVersion;
              VersionDoc(v) == rec.recordVersion || (v == None && IsNull(rec.recordVersion))
  {
    hide Valid, ResourceId, Freeze, ParseProvenance, ParseSchemaRecord;
  }

  class MetadataTable {
    var rows: map<string, StoredResource>

    // The patch and the judgement of its result are one transaction: a result that is not
    // accepted leaves the table as it was.
    method DeprecateResource(codec: Codec, scope: string, resource: StoredResource, reply: Reply) returns (r: Result<StoredResource>)
      requires Valid(codec, resource)
      modifies this
      ensures r.Ok? ==>
                && reply.Patched? && rows == reply.table
                && resource.recordVersion.Some?
                && r.value == resource.(state := Deprecated, recordVersion := r.value.recordVersion)
                && r.value.recordVersion.Some? && r.value.recordVersion != resource.recordVersion
                && r.value.recordVersion != Some(Label("")) && (r.value.recordVersion.value.Num? ==> r.value.recordVersion.value.n >= 0)
      ensures r.Err? ==> rows == old(rows)
      // an answer for another scope, of another number of records, for another resource, with keys of its
      // own, or with the old version is refused, and leaves the table as it was
      ensures reply.Patched? && Misfit(scope, reply.result, resource) ==> r == Err(InvalidRepositoryResult) && rows == old(rows)
      ensures r.Ok? <==> && resource.recordVersion.Some? && reply.Patched?
                         && DeprecationResult(codec, scope, reply.result, resource).Ok?
      ensures resource.recordVersion.Some? && reply.Refused? ==> r == Err(StoreFailure(reply.kind))
    {
      if resource.recordVersion == None {
        return Err(InvalidRepositoryResult);
      }
      var before := rows;
      if reply.Refused? {
        return Err(StoreFailure(reply.kind));
      }
      rows := reply.table;
      r := DeprecationResult(codec, scope, reply.result, resource);
      if Misfit(scope, reply.result, resource) {
        MisfitsAreRefused(codec, scope, reply.result, resource);
      }
      if r.Err? {
        rows := before;
      } else {
        AcceptedIsFaithful(codec, scope, reply.result, resource);
      }
    }
  }
}
