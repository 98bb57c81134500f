// The shared store: four structured tables, one object table, and the calls that clients make.

module Tables {
  import opened Basics
  import opened Canonical
  import opened References
  import opened Resources

  const OBJECT_RESOURCE := "object:resources.objects"

  datatype ObjectMetadata = ObjectMetadata(
    ref: ObjectRef, digest: string, byteLength: int, mediaType: string, declaredId: Option<string>)

  datatype StoredObject = StoredObject(metadata: ObjectMetadata, content: Bytes)

  // Every table is keyed by the canonical string of its rows.
  datatype Tables = Tables(
    metadata: map<string, StoredResource>, provenance: map<string, ProvenanceRow>, channels: map<string, ChannelRow>,
    orphans: map<string, Orphan>, objects: map<string, StoredObject>)

  const EMPTY := Tables(map[], map[], map[], map[], map[])

  datatype Call =
    | GetResource(id: string)
    | Commit(row: StoredResource)
    | Deprecate(id: string, expected: Option<Version>)
    | LatestChannel(channel: Channel)
    | PutChannel(pointer: ChannelRow)
    | PutOrphan(orphan: Orphan)
    | GetOrphan(id: string)
    | PutObject(resourceId: string, content: Bytes, digest: string, byteLength: int, mediaType: string)
    | StatObject(objectId: string)
    | ListObjects(limit: nat, after: Option<string>)

  datatype Response =
    | ResourceIs(row: StoredResource)
    | ChannelIs(pointer: Option<ChannelRow>)
    | OrphanIs(orphan: Orphan)
    | ObjectIs(metadata: ObjectMetadata)
    | ObjectsAre(items: seq<ObjectMetadata>, cursor: Option<string>)
    | Failed(kind: Failure)

  // ---------------------------------------------------------------- channels

  function KeysOf(channels: map<string, ChannelRow>, c: Channel): set<string> {
    set k | k in channels && channels[k].channel == c
  }

  predicate IsLatest(channels: map<string, ChannelRow>, c: Channel, v: int) {
    && (exists k :: k in KeysOf(channels, c) && channels[k].pointerVersion == v)
    && forall k | k in KeysOf(channels, c) :: channels[k].pointerVersion <= v
  }

  lemma {:induction false} KeysHaveLatest(channels: map<string, ChannelRow>, keys: set<string>)
    requires keys != {} && keys <= channels.Keys
    ensures exists k :: k in keys && forall j | j in keys :: channels[j].pointerVersion <= channels[k].pointerVersion
  {
    var k :| k in keys;
    if keys == {k} {
      assert forall j | j in keys :: j == k;
    } else {
      var rest := keys - {k};
      KeysHaveLatest(channels, rest);
      var m :| m in rest && forall j | j in rest :: channels[j].pointerVersion <= channels[m].pointerVersion;
      var top := if channels[k].pointerVersion > channels[m].pointerVersion then k else m;
      assert top in keys;
      forall j | j in keys
        ensures channels[j].pointerVersion <= channels[top].pointerVersion
      {
        if j != k {
          assert j in rest;
        }
      }
    }
  }

  function LatestVersion(channels: map<string, ChannelRow>, c: Channel): (v: int)
    requires KeysOf(channels, c) != {}
    ensures IsLatest(channels, c, v)
  {
    var versions := set k | k in KeysOf(channels, c) :: channels[k].pointerVersion;
    KeysHaveLatest(channels, KeysOf(channels, c));
    assert exists v :: v in versions && IsLatest(channels, c, v) by {
      var k :| k in KeysOf(channels, c) && forall j | j in KeysOf(channels, c) :: channels[j].pointerVersion <= channels[k].pointerVersion;
      assert channels[k].pointerVersion in versions;
    }
    var v :| v in versions && IsLatest(channels, c, v);
    v
  }

  // The row of the channel with the greatest pointer version.
  function LatestRow(channels: map<string, ChannelRow>, c: Channel): Option<ChannelRow> {
    if KeysOf(channels, c) == {} then None
    else
      var v := LatestVersion(channels, c);
      if v >= 0 && ChannelVersionId(c, v) in channels then Some(channels[ChannelVersionId(c, v)]) else None
  }

  // ---------------------------------------------------------------- listing objects

  predicate Least(ids: set<string>, a: string) {
    a in ids && forall b | b in ids && b != a :: Before(a, b)
  }

  lemma {:induction false} SetHasLeast(ids: set<string>)
    requires ids != {}
    ensures exists a :: Least(ids, a)
  {
    var x :| x in ids;
    if ids == {x} {
      assert Least(ids, x);
    } else {
      SetHasLeast(ids - {x});
      var a :| Least(ids - {x}, a);
      BeforeIsTotal(a, x);
      if Before(a, x) {
        assert Least(ids, a);
      } else {
        forall b | b in ids && b != x
          ensures Before(x, b)
        {
          if b != a {
            BeforeIsTransitive(x, a, b);
          }
        }
        assert Least(ids, x);
      }
    }
  }

  lemma LeastIsUnique(ids: set<string>, a: string, b: string)
    requires Least(ids, a) && Least(ids, b)
    ensures a == b
  {
    BeforeIsTotal(a, b);
  }

  function First(ids: set<string>): (a: string)
    requires ids != {}
    ensures Least(ids, a)
  {
    SetHasLeast(ids);
    assert forall a, b :: Least(ids, a) && Least(ids, b) ==> a == b by {
      forall a, b | Least(ids, a) && Least(ids, b)
        ensures a == b
      {
        LeastIsUnique(ids, a, b);
      }
    }
    var a :| a in ids && Least(ids, a);
    a
  }

  // The first n of ids, in order.
  function Leading(ids: set<string>, n: nat): seq<string> {
    if n == 0 || ids == {} then [] else [First(ids)] + Leading(ids - {First(ids)}, n - 1)
  }

  // The objects in the artifact prefix that come after the cursor.
  function IdsAfter(objects: map<string, StoredObject>, after: Option<string>): set<string> {
    set id | id in objects && "artifacts/" <= id && (after.Some? ==> Before(after.value, id))
  }

  function MetadataOf(objects: map<string, StoredObject>, ids: seq<string>): seq<ObjectMetadata>
    requires forall id :: id in ids ==> id in objects
  {
    seq(|ids|, i requires 0 <= i < |ids| => objects[ids[i]].metadata)
  }

  lemma {:induction false} LeadingIn(ids: set<string>, n: nat)
    ensures forall id :: id in Leading(ids, n) ==> id in ids
    ensures |Leading(ids, n)| == if |ids| <= n then |ids| else n
  {
    if n != 0 && ids != {} {
      LeadingIn(ids - {First(ids)}, n - 1);
    }
  }

  // ---------------------------------------------------------------- the calls

  function NextVersion(v: Option<Version>): Option<Version> {
    match v
    case Some(Num(n)) => Some(Num(n + 1))
    case _ => Some(Num(1))
  }

  // Metadata and provenance in one transaction, both only if absent.
  function ExecCommit(t: Tables, row: StoredResource): (Tables, Response) {
    var id, record := row.Id(), ProvenanceRowOf(row);
    if id in t.metadata || (record.Some? && id in t.provenance) then (t, Failed(Conflict))
    else
      var stored := row.(recordVersion := Some(Num(1)));
      (t.(metadata := t.metadata[id := stored],
          provenance := if record.Some? then t.provenance[id := record.value] else t.provenance),
       ResourceIs(stored))
  }

  // The version-checked patch of the state.
  function ExecDeprecate(t: Tables, id: string, expected: Option<Version>): (Tables, Response) {
    if id !in t.metadata then (t, Failed(NotFound))
    else if t.metadata[id].recordVersion != expected then (t, Failed(Conflict))
    else
      var row := t.metadata[id].(state := Deprecated, recordVersion := NextVersion(expected));
      (t.(metadata := t.metadata[id := row]), ResourceIs(row))
  }

  function ExecPutChannel(t: Tables, row: ChannelRow): (Tables, Response) {
    if row.pointerVersion < 0 then (t, Failed(Rejected))
    else
      var id := ChannelVersionId(row.channel, row.pointerVersion);
      if id in t.channels then (t, Failed(Conflict))
      else
        var stored := row.(recordVersion := Some(Num(1)));
        (t.(channels := t.channels[id := stored]), ChannelIs(Some(stored)))
  }

  function ExecPutOrphan(t: Tables, orphan: Orphan): (Tables, Response) {
    if orphan.Id() in t.orphans then (t, Failed(Conflict))
    else
      var stored := orphan.(recordVersion := Some(Num(1)));
      (t.(orphans := t.orphans[orphan.Id() := stored]), OrphanIs(stored))
  }

  // Create-only, and only for a payload with the declared digest and length.
  function ExecPutObject(sha: Bytes -> string, t: Tables, c: Call): (Tables, Response)
    requires c.PutObject?
  {
    var id := ObjectId(c.resourceId);
    if id in t.objects then (t, Failed(Conflict))
    else if sha(c.content) != c.digest || |c.content| != c.byteLength then (t, Failed(Rejected))
    else
      var ref := ObjectRef(OBJECT_RESOURCE, id, Some(c.digest));
      var metadata := ObjectMetadata(ref, c.digest, c.byteLength, c.mediaType, Some(c.resourceId));
      (t.(objects := t.objects[id := StoredObject(metadata, c.content)]), ObjectIs(metadata))
  }

  function ExecListObjects(t: Tables, limit: nat, after: Option<string>): Response {
    var ids := IdsAfter(t.objects, after);
    LeadingIn(ids, limit);
    var page := Leading(ids, limit);
    ObjectsAre(MetadataOf(t.objects, page), if page != [] && |ids| > limit then Some(page[|page| - 1]) else None)
  }

  function Exec(sha: Bytes -> string, t: Tables, c: Call): (Tables, Response) {
    match c
    case GetResource(id) => (t, if id in t.metadata then ResourceIs(t.metadata[id]) else Failed(NotFound))
    case Commit(row) => ExecCommit(t, row)
    case Deprecate(id, expected) => ExecDeprecate(t, id, expected)
    case LatestChannel(channel) => (t, ChannelIs(LatestRow(t.channels, channel)))
    case PutChannel(row) => ExecPutChannel(t, row)
    case PutOrphan(orphan) => ExecPutOrphan(t, orphan)
    case GetOrphan(id) => (t, if id in t.orphans then OrphanIs(t.orphans[id]) else Failed(NotFound))
    case PutObject(_, _, _, _, _) => ExecPutObject(sha, t, c)
    case StatObject(id) => (t, if id in t.objects then ObjectIs(t.objects[id].metadata) else Failed(NotFound))
    case ListObjects(limit, after) => (t, ExecListObjects(t, limit, after))
  }

  // A fault strikes before the call takes effect, or between the effect and the reply.
  datatype Fault = NoFault | LostRequest(kind: Failure) | LostReply(kind: Failure)

  function Perform(sha: Bytes -> string, t: Tables, c: Call, fault: Fault): (Tables, Response) {
    match fault
    case NoFault => Exec(sha, t, c)
    case LostRequest(kind) => (t, Failed(kind))
    case LostReply(kind) => (Exec(sha, t, c).0, Failed(kind))
  }
}
