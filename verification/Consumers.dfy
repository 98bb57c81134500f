// Reading artifacts back: verified streams, ranges, and the scan for orphans.

module Consumers {
  import opened Basics
  import opened References
  import opened Resources
  import opened Tables
  import opened Invariants
  import opened Driving
  import opened Payloads
  import opened Readers
  import opened Repository

  datatype ByteRange = ByteRange(start: int, end: Option<int>)

  // Ranges: the length that one resolves to against the length of an object, if it does, and the
  // bytes of an object that the store serves for it, unless it rejects it.
  datatype Ranges = Ranges(resolve: (ByteRange, int) -> Option<int>, serve: (ByteRange, Bytes) -> Option<Bytes>)

  datatype ObjectRead = ObjectRead(metadata: ObjectMetadata, payload: PayloadReference)

  // What a read of the object store finds.
  datatype Served = Served(metadata: ObjectMetadata, bytes: Bytes)

  // A reference with a digest finds only an object with that digest.
  function Find(ranges: Ranges, t: Tables, fault: Fault, ref: ObjectRef, part: Option<ByteRange>): Result<Served> {
    match fault
    case LostRequest(kind) => Err(StoreFailure(kind))
    case LostReply(kind) => Err(StoreFailure(kind))
    case NoFault =>
      if ref.objectId !in t.objects || (ref.digest.Some? && t.objects[ref.objectId].metadata.digest != ref.digest.value)
      then Err(StoreFailure(NotFound))
      else
        var o := t.objects[ref.objectId];
        if part.None? then Ok(Served(o.metadata, o.content))
        else
          match ranges.serve(part.value, o.content)
          case None => Err(StoreFailure(Rejected))
          case Some(bytes) => Ok(Served(o.metadata, bytes))
  }

  // The object's metadata says what the resource says.
  predicate Consumable(m: ObjectMetadata, r: StoredResource) {
    && r.objectRef == Some(m.ref)
    && m.digest == r.digest && m.byteLength == r.byteLength && m.mediaType == r.mediaType
  }

  function MissingIfNotFound(e: Error): Error {
    if e == StoreFailure(NotFound) then MissingObject else e
  }

  // The store served the range of the described object, and yet it does not resolve against the recorded length.
  predicate Unresolved(ranges: Ranges, next: Result<Served>, r: StoredResource, range: ByteRange) {
    && next.Ok? && ranges.resolve(range, r.byteLength).None?
    && r.objectRef == Some(next.value.metadata.ref) && next.value.metadata.digest == r.digest
    && next.value.metadata.byteLength == r.byteLength && next.value.metadata.mediaType == r.mediaType
  }

  class ArtifactConsumer {
    const store: Store
    const payloads: PayloadRegistry
    const ranges: Ranges
    const chunking: Chunking

    ghost predicate Valid()
      reads payloads
    {
      payloads.Valid()
    }

    constructor (store: Store, payloads: PayloadRegistry, ranges: Ranges, chunking: Chunking)
      requires payloads.Valid()
      ensures Valid() && this.store == store && this.payloads == payloads && this.ranges == ranges && this.chunking == chunking
    {
      this.store, this.payloads, this.ranges, this.chunking := store, payloads, ranges, chunking;
    }

    // The answer that the next read of the object store gets.
    ghost function Next(ref: ObjectRef, part: Option<ByteRange>): Result<Served>
      reads store
    {
      Find(ranges, store.world.interfere(store.now, store.tables), store.world.fault(store.now), ref, part)
    }

    // get or read_range: the bytes come as a registration, which the caller must release.
    method Fetch(ref: ObjectRef, part: Option<ByteRange>) returns (r: Result<ObjectRead>)
      requires Valid()
      modifies store, payloads
      ensures Valid() && payloads.released == old(payloads.released)
      ensures r.Ok? <==> old(Next(ref, part)).Ok?
      ensures r.Err? ==> r.error == old(Next(ref, part)).error && payloads.sources == old(payloads.sources)
      ensures r.Ok? ==>
                var found := old(Next(ref, part)).value;
                && r.value.metadata == found.metadata
                && r.value.payload.id == old(payloads.next) && r.value.payload.id !in old(payloads.sources)
                && payloads.sources == old(payloads.sources)[r.value.payload.id := found.bytes]
    {
      var before := store.world.interfere(store.now, store.tables);
      var answer := Find(ranges, before, store.world.fault(store.now), ref, part);
      store.tables, store.now := before, store.now + 1;
      if answer.Err? {
        return Err(answer.error);
      }
      var payload := payloads.Register(answer.value.bytes, if part.None? then Some(answer.value.metadata.digest) else None,
                                       Some(|answer.value.bytes|));
      return Ok(ObjectRead(answer.value.metadata, payload));
    }

    // open, with the body of the caller's `with` statement.  It ends well exactly if the object is
    // there, is described as the resource says, has the recorded digest and length as a whole, and
    // the body only reads.  The registration is released once on every way out.
    method Open(resource: StoredResource, uses: seq<Use>) returns (data: Bytes, failure: Option<Error>)
      requires Valid()
      modifies store, payloads
      ensures Valid()
      ensures resource.profile != Artifact || resource.objectRef.None? ==>
                failure == Some(IncompatibleProfile) && data == [] && payloads.released == old(payloads.released)
      ensures payloads.sources == old(payloads.sources)
      ensures resource.profile == Artifact && resource.objectRef.Some? ==>
                var next := old(Next(resource.objectRef.value, None));
                && payloads.released == old(payloads.released) + (if next.Ok? then [old(payloads.next)] else [])
                && (next.Err? ==> failure == Some(if next.error == StoreFailure(NotFound) then MissingObject else next.error) && data == [])
                && (next.Ok? ==>
                      var m, bytes := next.value.metadata, next.value.bytes;
                      var described := m.ref == resource.objectRef.value && m.digest == resource.digest
                                       && m.byteLength == resource.byteLength && m.mediaType == resource.mediaType;
                      var genuine := store.codec.sha(bytes) == resource.digest && |bytes| == resource.byteLength;
                      && data <= bytes
                      && (failure == None <==> described && genuine && OnlyReads(uses))
                      && (!described ==> failure == Some(ArtifactDigestMismatch) && data == [])
                      && (OnlyReads(uses) && !(described && genuine) ==> failure == Some(ArtifactDigestMismatch))
                      && (failure == None && uses == [ReadUpTo(-1)] ==> |data| == Amount(chunking, 0, -1, |next.value.bytes|)))
    {
      if resource.profile != Artifact || resource.objectRef.None? {
        return [], Some(IncompatibleProfile);
      }
      var result := Fetch(resource.objectRef.value, None);
      if result.Err? {
        return [], Some(MissingIfNotFound(result.error));
      }
      var payload := result.value.payload;
      ghost var bytes := payloads.sources[payload.id];
      ReleaseUndoesRegister(old(payloads.sources), payload.id, bytes);
      if !Consumable(result.value.metadata, resource) {
        payloads.Release(payload);
        return [], Some(ArtifactDigestMismatch);
      }
      var stream := new ByteStream(payloads.sources[payload.id], chunking);
      data, failure := ReadVerified(stream, store.codec.sha, resource.digest, resource.byteLength, uses);
      payloads.Release(payload);
    }

    // read: one read(-1) of a verified stream.  What it returns is the object's bytes exactly if the
    // stream answers that read with everything; a stream that does not yields a shorter prefix, and
    // the verification, which covers the whole stream, does not notice.
    method ReadWhole(resource: StoredResource) returns (r: Result<Bytes>)
      requires Valid()
      modifies store, payloads
      ensures Valid() && payloads.sources == old(payloads.sources)
      ensures r.Ok? <==>
                && resource.profile == Artifact && resource.objectRef.Some?
                && var next := old(Next(resource.objectRef.value, None));
                  && next.Ok?
                  && next.value.metadata.ref == resource.objectRef.value && next.value.metadata.digest == resource.digest
                  && next.value.metadata.byteLength == resource.byteLength && next.value.metadata.mediaType == resource.mediaType
                  && store.codec.sha(next.value.bytes) == resource.digest && |next.value.bytes| == resource.byteLength
      ensures r.Ok? ==>
                var content := old(Next(resource.objectRef.value, None)).value.bytes;
                && r.value <= content
                && (r.value == content <==> |content| <= 1 || ReadsAll(chunking, |content|))
                && (r.value == content ==> store.codec.sha(r.value) == resource.digest && |r.value| == resource.byteLength)
      ensures r.Err? ==>
                r.error == if resource.profile != Artifact || resource.objectRef.None? then IncompatibleProfile
                           else
                             var next := old(Next(resource.objectRef.value, None));
                             if next == Err(StoreFailure(NotFound)) then MissingObject
                             else if next.Err? then next.error
                             else ArtifactDigestMismatch
    {
      var data, failure := Open(resource, [ReadUpTo(-1)]);
      if failure.Some? {
        return Err(failure.value);
      }
      ReadAllIsWhole(chunking, old(Next(resource.objectRef.value, None)).value.bytes, data);
      return Ok(data);
    }

    // Whether range_read loses the registration: the range is resolved against the recorded length
    // after the metadata is verified, and outside the block that releases.
    ghost predicate Loses(resource: StoredResource, range: ByteRange)
      reads store
    {
      && resource.profile == Artifact && resource.objectRef.Some?
      && Unresolved(ranges, Next(resource.objectRef.value, Some(range)), resource, range)
    }

    // range_read.  Its registration is released exactly once if the range resolves, and otherwise,
    // the metadata being right, never.
    method RangeRead(resource: StoredResource, range: ByteRange) returns (r: Result<Bytes>)
      requires Valid()
      modifies store, payloads
      ensures Valid()
      ensures old(Loses(resource, range)) ==>
                && r.Err? && payloads.released == old(payloads.released)
                && old(payloads.next) in payloads.sources && payloads.sources - {old(payloads.next)} == old(payloads.sources)
      ensures !old(Loses(resource, range)) ==> payloads.sources == old(payloads.sources)
      ensures resource.profile == Artifact && resource.objectRef.Some? && !old(Loses(resource, range)) ==>
                payloads.released == old(payloads.released)
                                     + (if old(Next(resource.objectRef.value, Some(range))).Ok? then [old(payloads.next)] else [])
      ensures r.Ok? <==>
                && resource.profile == Artifact && resource.objectRef.Some?
                && var next := old(Next(resource.objectRef.value, Some(range)));
                  && next.Ok?
                  && next.value.metadata.ref == resource.objectRef.value && next.value.metadata.digest == resource.digest
                  && next.value.metadata.byteLength == resource.byteLength && next.value.metadata.mediaType == resource.mediaType
                  && ranges.resolve(range, resource.byteLength) == Some(|next.value.bytes|)
      ensures r.Ok? ==> r.value == old(Next(resource.objectRef.value, Some(range))).value.bytes
      ensures resource.profile != Artifact || resource.objectRef.None? ==> r == Err(IncompatibleProfile)
      ensures resource.profile == Artifact && resource.objectRef.Some? && r.Err? ==>
                var next := old(Next(resource.objectRef.value, Some(range)));
                r.error == if next == Err(StoreFailure(NotFound)) then MissingObject
                           else if next.Err? then next.error
                           else if old(Loses(resource, range)) then InvalidInput
                           else ArtifactDigestMismatch
    {
      if resource.profile != Artifact || resource.objectRef.None? {
        return Err(IncompatibleProfile);
      }
      var result := Fetch(resource.objectRef.value, Some(range));
      if result.Err? {
        return Err(MissingIfNotFound(result.error));
      }
      var payload := result.value.payload;
      ghost var bytes := payloads.sources[payload.id];
      ReleaseUndoesRegister(old(payloads.sources), payload.id, bytes);
      if !Consumable(result.value.metadata, resource) {
        payloads.Release(payload);
        return Err(ArtifactDigestMismatch);
      }
      var resolved := ranges.resolve(range, resource.byteLength);
      if resolved.None? {
        return Err(InvalidInput);
      }
      var stream := new ByteStream(payloads.sources[payload.id], chunking);
      var value := Drain(stream);
      payloads.Release(payload);
      if |value| != resolved.value {
        return Err(ArtifactDigestMismatch);
      }
      return Ok(value);
    }

    // ------------------------------------------------------------ the scan for orphans

    // put_orphan: the row that the candidate's key has afterwards, if it describes the same object
    method RecordCandidate(orphan: Orphan, ghost scan: Clients.Scan) returns (r: Result<Orphan>)
      modifies store
      ensures old(store.Rest(Clients.DiscRecord(orphan, scan)))
           == if r.Ok? then store.Rest(Clients.Found(scan, r.value)) else Ending(Clients.Raised(r.error), store.tables, store.now)
    {
      hide Drive, Perform, Clients.Resume, Clients.SameOrphan, Clients.Advance;
      var answer;
      ghost var c := Clients.DiscRecord(orphan, scan);
      answer, c := store.Execute(PutOrphan(orphan), c);
      AfterRecord(store.codec, orphan, scan, answer);
      if answer == Failed(Conflict) {
        answer, c := store.Execute(GetOrphan(orphan.Id()), c);
        AfterRecord(store.codec, orphan, scan, answer);
        if answer.OrphanIs? && !Clients.SameOrphan(answer.orphan, orphan) {
          store.Ended(Clients.Raised(IdentityConflict));
          return Err(IdentityConflict);
        }
        if answer == Failed(NotFound) {
          store.Ended(Clients.Raised(StoreFailure(Conflict)));
          return Err(StoreFailure(Conflict));
        }
      }
      if answer.OrphanIs? {
        return Ok(answer.orphan);
      }
      store.Ended(Clients.Raised(ErrorOf(answer)));
      return Err(ErrorOf(answer));
    }

    method DiscoverOrphans(limit: nat, cursor: Option<string>, record: bool, at: string) returns (o: Outcome)
      modifies store
      ensures old(store.Rest(Clients.Start(store.codec, Clients.DiscoverOrphans(limit, cursor, record, at)))) == Ending(o, store.tables, store.now)
    {
      hide Drive, Perform, Clients.Resume, Clients.Reconcilable, Clients.DiscoveredOrphan;
      var page;
      ghost var c := Clients.DiscList(limit, cursor, record, at);
      page, c := store.Execute(ListObjects(limit, cursor), c);
      AfterListing(store.codec, limit, cursor, record, at, page);
      if !page.ObjectsAre? {
        store.Ended(Clients.Raised(ErrorOf(page)));
        return Clients.Raised(ErrorOf(page));
      }
      var items, candidates := page.items, [];
      assert items[0..] == items;
      for i := 0 to |items|
        invariant store.Rest(Clients.Advance(Clients.Scan(items[i..], page.cursor, candidates, record, at)))
               == old(store.Rest(Clients.DiscList(limit, cursor, record, at)))
      {
        var item := items[i];
        assert items[i..][0] == item && items[i..][1..] == items[i + 1..];
        if !Clients.Reconcilable(item) {
          continue;
        }
        DeclaresId(item);
        ghost var scan := Clients.Scan(items[i + 1..], page.cursor, candidates, record, at);
        var answer;
        answer, c := store.Execute(GetResource(item.declaredId.value), Clients.DiscLookup(item, scan));
        AfterLookup(store.codec, item, scan, answer);
        if answer.ResourceIs? {
          continue;
        }
        if answer != Failed(NotFound) {
          store.Ended(Clients.Raised(ErrorOf(answer)));
          return Clients.Raised(ErrorOf(answer));
        }
        var candidate := Clients.DiscoveredOrphan(store.codec, item, at);
        if candidate.None? {
          store.Ended(Clients.Raised(InvalidInput));
          return Clients.Raised(InvalidInput);
        }
        var row := candidate.value;
        if record {
          var recorded := RecordCandidate(row, scan);
          if recorded.Err? {
            return Clients.Raised(recorded.error);
          }
          row := recorded.value;
        }
        candidates := candidates + [row];
      }
      o := Clients.Orphans(candidates, page.cursor);
      store.Ended(o);
    }
  }

  // Joins the chunks of a stream, however it cuts them.
  method Drain(stream: ByteStream) returns (value: Bytes)
    requires stream.Valid() && stream.position == 0
    modifies stream
    ensures stream.Valid() && value == stream.bytes
  {
    value := [];
    var chunk := stream.Read(BLOCK);
    while chunk != []
      invariant stream.Valid()
      invariant value + chunk == stream.bytes[..stream.position]
      invariant chunk == [] ==> stream.position == |stream.bytes|
      decreases |stream.bytes| - stream.position, |chunk|
    {
      value := value + chunk;
      chunk := stream.Read(BLOCK);
    }
  }

  // Every stored artifact can be read: in consistent tables, its object is where its row says, is
  // described as its row says, and has the recorded digest and length.
  lemma StoredArtifactsAreReadable(codec: Codec, ranges: Ranges, t: Tables, r: StoredResource)
    requires TablesOk(codec, t) && Known(t, r) && r.profile == Artifact
    ensures r.objectRef.Some?
    ensures var next := Find(ranges, t, NoFault, r.objectRef.value, None);
            next.Ok? && Consumable(next.value.metadata, r) && Genuine(codec.sha, next.value.bytes, r.digest, r.byteLength)
  {
    hide ResourceId, ObjectId, Valid, ProvenanceOk, ChannelsOk, OrphansOk;
    var row := t.metadata[r.Id()];
    assert RowOk(codec, row, r.Id()) && HasObject(t.objects, row);
    assert Core(row).objectRef == row.objectRef && Core(r).objectRef == r.objectRef;
    assert Core(row).profile == row.profile && Core(r).profile == r.profile;
  }

  // If the store serves only ranges that resolve against the object's own length, then range_read
  // of a stored artifact never loses its registration, whatever fault strikes.
  lemma StoredRangesAreReleased(codec: Codec, ranges: Ranges, t: Tables, fault: Fault, r: StoredResource, range: ByteRange)
    requires TablesOk(codec, t) && Known(t, r) && r.profile == Artifact
    requires forall bytes: Bytes :: ranges.serve(range, bytes).Some? ==> ranges.resolve(range, |bytes|).Some?
    ensures r.objectRef.Some? && !Unresolved(ranges, Find(ranges, t, fault, r.objectRef.value, Some(range)), r, range)
  {
    hide ResourceId, ObjectId, Valid, ProvenanceOk, ChannelsOk, OrphansOk, TablesOk;
    StoredArtifactsAreReadable(codec, ranges, t, r);
  }

  // An input on which it does: a store that serves every range, and a range that resolves against no
  // length.  Every stored artifact then loses the registration.
  lemma UnresolvedRangeIsLost(codec: Codec, t: Tables, r: StoredResource, range: ByteRange)
    requires TablesOk(codec, t) && Known(t, r) && r.profile == Artifact
    ensures var ranges := Ranges((b, n) => None, (b, bytes) => Some(bytes));
            r.objectRef.Some? && Unresolved(ranges, Find(ranges, t, NoFault, r.objectRef.value, Some(range)), r, range)
  {
    hide ResourceId, ObjectId, Valid, ProvenanceOk, ChannelsOk, OrphansOk, TablesOk;
    StoredArtifactsAreReadable(codec, Ranges((b, n) => None, (b, bytes) => Some(bytes)), t, r);
  }

  // ---------------------------------------------------------------- the answers of a scan

  lemma AfterListing(codec: Codec, limit: nat, after: Option<string>, record: bool, at: string, r: Response)
    ensures Clients.Resume(codec, Clients.DiscList(limit, after, record, at), r)
         == if r.ObjectsAre? then Clients.Advance(Clients.Scan(r.items, r.cursor, [], record, at)) else Clients.Raise(ErrorOf(r))
  {
    hide Clients.Advance;
  }

  lemma AfterLookup(codec: Codec, item: ObjectMetadata, scan: Clients.Scan, r: Response)
    requires item.declaredId.Some?
    ensures Clients.Resume(codec, Clients.DiscLookup(item, scan), r)
         == if r.ResourceIs? then Clients.Advance(scan)
            else if r != Failed(NotFound) then Clients.Raise(ErrorOf(r))
            else match Clients.DiscoveredOrphan(codec, item, scan.at)
                 case None => Clients.Raise(InvalidInput)
                 case Some(orphan) => if scan.record then Clients.DiscRecord(orphan, scan) else Clients.Found(scan, orphan)
  {
    hide Clients.Advance, Clients.DiscoveredOrphan;
  }

  lemma AfterRecord(codec: Codec, orphan: Orphan, scan: Clients.Scan, r: Response)
    ensures Clients.Resume(codec, Clients.DiscRecord(orphan, scan), r)
         == if r.OrphanIs? then Clients.Found(scan, r.orphan)
            else if r == Failed(Conflict) then Clients.DiscCheck(orphan, scan)
            else Clients.Raise(ErrorOf(r))
    ensures Clients.Resume(codec, Clients.DiscCheck(orphan, scan), r)
         == if r.OrphanIs? then if Clients.SameOrphan(r.orphan, orphan) then Clients.Found(scan, r.orphan) else Clients.Raise(IdentityConflict)
            else if r == Failed(NotFound) then Clients.Raise(StoreFailure(Conflict))
            else Clients.Raise(ErrorOf(r))
  {
    hide Clients.Advance, Clients.SameOrphan;
  }

  lemma DeclaresId(item: ObjectMetadata)
    requires Clients.Reconcilable(item)
    ensures item.declaredId.Some?
  {
    hide IsResourceId;
  }
}
