// Crash recovery: any number of crashed or failed attempts at a publication, and then one that
// completes, leave what a single uninterrupted run leaves.

module Retries {
  import opened Basics
  import opened Canonical
  import opened References
  import opened Resources
  import opened Records
  import opened Tables
  import opened Clients
  import opened Invariants
  import opened Driving
  import opened Recovery
  import opened Orphans
  import opened Promotions

  // p is the same publication as q, by another actor or at another time.
  predicate Alike(q: ArtifactRequest, p: ArtifactRequest) {
    p == q.(description := q.description.(actor := p.description.actor, createdAt := p.description.createdAt),
            recordedAt := p.recordedAt)
  }

  // A resource but for who created it and when.
  function Erase(r: StoredResource): StoredResource {
    r.(createdBy := "", createdAt := "")
  }

  // An attempt that stops, for whatever reason, after as many steps as there are faults listed.
  function Attempt(codec: Codec, t: Tables, c: Client, faults: seq<Fault>): (Tables, Client)
    decreases |faults|
  {
    if c.Done? || faults == [] then (t, c)
    else
      var (u, d) := ClientStep(codec, t, c, faults[0]);
      Attempt(codec, u, d, faults[1..])
  }

  // One attempt: what is published, the promotion asked for, and the faults up to where it stops.
  datatype Try = Try(request: ArtifactRequest, pointing: Pointing, faults: seq<Fault>)

  function Attempts(codec: Codec, t: Tables, attempts: seq<Try>): Tables {
    if attempts == [] then t
    else
      var before, last := Attempts(codec, t, attempts[..|attempts| - 1]), attempts[|attempts| - 1];
      Attempt(codec, before, PubLookup(last.request, last.pointing), last.faults).0
  }

  // The row of the publication, as a run of a request like q commits it to t0.
  predicate RowLeft(codec: Codec, t0: Tables, t: Tables, q: ArtifactRequest) {
    var id := ResourceId(q.identity);
    && id !in t0.metadata && id in t.metadata && ObjectId(id) in t.objects
    && CandidateOf(codec, q).Some?
    && Erase(t.metadata[id]) == Erase(CandidateOf(codec, q).value.(recordVersion := Some(Num(1))))
    && t.metadata == WithRow(t0, t.metadata[id]).metadata
    && t.provenance == WithRow(t0, t.metadata[id]).provenance
  }

  predicate ObjectLeft(codec: Codec, t0: Tables, t: Tables, q: ArtifactRequest) {
    || t.objects == t0.objects
    || (ObjectId(ResourceId(q.identity)) !in t0.objects && GenuineBytes(codec.sha, q) && t.objects == WithObject(t0, q).objects)
  }

  // t is t0 with no more than what runs of requests like q add.
  predicate LeftBy(codec: Codec, t0: Tables, t: Tables, q: ArtifactRequest) {
    && Within(t0.channels, t.channels)
    && Within(t0.orphans, t.orphans)
    && ObjectLeft(codec, t0, t, q)
    && ((t.metadata == t0.metadata && t.provenance == t0.provenance) || RowLeft(codec, t0, t, q))
  }

  // Where an attempt at p can be.
  predicate Attempting(codec: Codec, t: Tables, c: Client, p: ArtifactRequest) {
    match c
    case PubLookup(q, _) => q == p
    case PubPut(q, _) => q == p
    case PubStat(q, _) => q == p
    case PubCommit(q, _, candidate, _) => q == p && Some(candidate) == CandidateOf(codec, p) && ObjectId(ResourceId(p.identity)) in t.objects
    case PubWinner(q, _, _) => q == p
    case PubOrphan(_) => true
    case PubOrphanCheck(_) => true
    case PromRead(_, _, _) => true
    case PromInsert(_, _, _) => true
    case Done(_) => true
    case _ => false
  }

  lemma AlikeCandidates(codec: Codec, q: ArtifactRequest, p: ArtifactRequest)
    requires Alike(q, p) && CandidateOf(codec, q).Some? && CandidateOf(codec, p).Some?
    ensures Erase(CandidateOf(codec, q).value.(recordVersion := Some(Num(1)))) == Erase(CandidateOf(codec, p).value.(recordVersion := Some(Num(1))))
  {
    hide CandidateOf, Valid, ResourceId, ObjectId;
    CandidateFacts(codec, q);
    CandidateFacts(codec, p);
  }

  // Orphan rows and channel rows apart, nothing changes.
  predicate OnTheSide(t: Tables, u: Tables) {
    u == t.(orphans := u.orphans, channels := u.channels) && Within(t.orphans, u.orphans) && Within(t.channels, u.channels)
  }

  lemma LookupAttempt(codec: Codec, t: Tables, c: Client, p: ArtifactRequest, fault: Fault)
    requires c.PubLookup? || c.PubWinner? || c.PubOrphan? || c.PubOrphanCheck?
    requires Attempting(codec, t, c, p)
    ensures var (u, d) := ClientStep(codec, t, c, fault); Attempting(codec, u, d, p) && OnTheSide(t, u)
  {
    hide ClientStep, OnTheSide, Attempting;
    if c.PubLookup? || c.PubWinner? {
      RowLookup(codec, t, c, p, fault);
      NothingOnTheSide(t);
    } else {
      OrphanAttempt(codec, t, c, p, fault);
    }
  }

  lemma RowLookup(codec: Codec, t: Tables, c: Client, p: ArtifactRequest, fault: Fault)
    requires c.PubLookup? || c.PubWinner?
    requires Attempting(codec, t, c, p)
    ensures var (u, d) := ClientStep(codec, t, c, fault); Attempting(codec, u, d, p) && u == t
  {
    hide ResourceId, ObjectId, ArtifactCandidate, FailedPublication, SameArtifact, ChannelName;
  }

  lemma OrphanAttempt(codec: Codec, t: Tables, c: Client, p: ArtifactRequest, fault: Fault)
    requires c.PubOrphan? || c.PubOrphanCheck?
    ensures var (u, d) := ClientStep(codec, t, c, fault); Attempting(codec, u, d, p) && OnTheSide(t, u)
  {
    hide OrphanCandidateId;
  }

  lemma PromotionAttempt(codec: Codec, t: Tables, c: Client, p: ArtifactRequest, fault: Fault)
    requires c.PromRead? || c.PromInsert?
    ensures var (u, d) := ClientStep(codec, t, c, fault); Attempting(codec, u, d, p) && OnTheSide(t, u)
  {
    hide ResourceId, ObjectId, MakeChannel, ChannelVersionId, LatestRow, Request, OnTheSide;
    if c.PromRead? {
      ReadGoesOn(codec, t, c, p, fault);
      assert OnTheSide(t, t) by { NothingOnTheSide(t); }
    } else {
      InsertGoesOn(codec, t, c, p, fault);
    }
  }

  lemma NothingOnTheSide(t: Tables)
    ensures OnTheSide(t, t)
  {
  }

  lemma ReadGoesOn(codec: Codec, t: Tables, c: Client, p: ArtifactRequest, fault: Fault)
    requires c.PromRead?
    ensures var (u, d) := ClientStep(codec, t, c, fault); u == t && Attempting(codec, u, d, p)
  {
    hide ResourceId, ObjectId, MakeChannel, LatestRow;
  }

  lemma InsertGoesOn(codec: Codec, t: Tables, c: Client, p: ArtifactRequest, fault: Fault)
    requires c.PromInsert?
    ensures var (u, d) := ClientStep(codec, t, c, fault); Attempting(codec, u, d, p) && OnTheSide(t, u)
  {
    hide ResourceId, ObjectId, ChannelVersionId;
  }

  lemma ObjectAttempt(codec: Codec, t: Tables, c: Client, p: ArtifactRequest, fault: Fault)
    requires c.PubPut? || c.PubStat?
    requires ObjectsOk(codec.sha, t) && Attempting(codec, t, c, p)
    ensures var (u, d) := ClientStep(codec, t, c, fault);
            && Attempting(codec, u, d, p)
            && (u == t || (ObjectId(ResourceId(p.identity)) !in t.objects && GenuineBytes(codec.sha, p) && u == WithObject(t, p)))
  {
    hide ResourceId, ObjectId, ArtifactCandidate;
  }

  lemma CommitAttempt(codec: Codec, t: Tables, c: Client, p: ArtifactRequest, fault: Fault)
    requires c.PubCommit? && ProvenanceOk(t) && Attempting(codec, t, c, p)
    ensures var (u, d) := ClientStep(codec, t, c, fault);
            && Attempting(codec, u, d, p)
            && (u == t || (ResourceId(p.identity) !in t.metadata && u == WithRow(t, c.candidate.(recordVersion := Some(Num(1))))))
  {
    hide ResourceId, ObjectId, CandidateOf, FailedPublication, SameArtifact, Valid, ChannelName;
    CandidateFacts(codec, p);
  }

  lemma SideLeaves(codec: Codec, t0: Tables, t: Tables, u: Tables, q: ArtifactRequest)
    requires LeftBy(codec, t0, t, q) && OnTheSide(t, u)
    ensures LeftBy(codec, t0, u, q)
  {
    hide CandidateOf, ResourceId, ObjectId, GenuineBytes;
  }

  lemma ObjectAdded(codec: Codec, t0: Tables, t: Tables, q: ArtifactRequest, p: ArtifactRequest)
    requires LeftBy(codec, t0, t, q) && Alike(q, p)
    requires ObjectId(ResourceId(p.identity)) !in t.objects && GenuineBytes(codec.sha, p)
    ensures LeftBy(codec, t0, WithObject(t, p), q)
  {
    hide CandidateOf, ResourceId, ObjectId;
  }

  lemma RowAdded(codec: Codec, t0: Tables, t: Tables, q: ArtifactRequest, p: ArtifactRequest)
    requires LeftBy(codec, t0, t, q) && Alike(q, p) && CandidateOf(codec, q).Some? && CandidateOf(codec, p).Some?
    requires ResourceId(p.identity) !in t.metadata && ObjectId(ResourceId(p.identity)) in t.objects
    ensures LeftBy(codec, t0, WithRow(t, CandidateOf(codec, p).value.(recordVersion := Some(Num(1)))), q)
  {
    hide CandidateOf, ResourceId, ObjectId, GenuineBytes, Valid, Within;
    AlikeCandidates(codec, q, p);
    CandidateFacts(codec, p);
  }

  lemma AttemptStep(codec: Codec, t0: Tables, t: Tables, c: Client, q: ArtifactRequest, p: ArtifactRequest, fault: Fault)
    requires TablesOk(codec, t) && LeftBy(codec, t0, t, q) && Alike(q, p) && CandidateOf(codec, q).Some?
    requires !c.Done? && Attempting(codec, t, c, p)
    ensures var (u, d) := ClientStep(codec, t, c, fault); LeftBy(codec, t0, u, q) && Attempting(codec, u, d, p)
  {
    hide ClientStep, LeftBy, CandidateOf, MetadataOk, ObjectsOk, ProvenanceOk, ChannelsOk, OrphansOk, ResourceId, ObjectId,
         GenuineBytes, WithObject, WithRow, OnTheSide, Alike;
    if c.PubPut? || c.PubStat? {
      ObjectAttempt(codec, t, c, p, fault);
      if ObjectId(ResourceId(p.identity)) !in t.objects && GenuineBytes(codec.sha, p) {
        ObjectAdded(codec, t0, t, q, p);
      }
    } else if c.PubCommit? {
      CommitAttempt(codec, t, c, p, fault);
      if ResourceId(p.identity) !in t.metadata {
        RowAdded(codec, t0, t, q, p);
      }
    } else {
      if c.PromRead? || c.PromInsert? {
        PromotionAttempt(codec, t, c, p, fault);
      } else {
        LookupAttempt(codec, t, c, p, fault);
      }
      SideLeaves(codec, t0, t, ClientStep(codec, t, c, fault).0, q);
    }
  }

  lemma {:induction false} AttemptLeaves(codec: Codec, t0: Tables, t: Tables, c: Client, q: ArtifactRequest, p: ArtifactRequest, faults: seq<Fault>)
    requires TablesOk(codec, t) && ClientOk(codec, t, c) && LeftBy(codec, t0, t, q) && Alike(q, p) && CandidateOf(codec, q).Some?
    requires Attempting(codec, t, c, p)
    ensures var u := Attempt(codec, t, c, faults).0; TablesOk(codec, u) && LeftBy(codec, t0, u, q)
    decreases |faults|
  {
    hide ClientStep, LeftBy, CandidateOf, TablesOk, ClientOk, Attempting, Alike, Grows;
    if !c.Done? && faults != [] {
      var (u, d) := ClientStep(codec, t, c, faults[0]);
      StepOk(codec, t, c, faults[0]);
      AttemptStep(codec, t0, t, c, q, p, faults[0]);
      AttemptLeaves(codec, t0, u, d, q, p, faults[1..]);
    }
  }

  lemma {:induction false} AttemptsLeave(codec: Codec, t0: Tables, q: ArtifactRequest, attempts: seq<Try>)
    requires TablesOk(codec, t0) && CandidateOf(codec, q).Some?
    requires forall i :: 0 <= i < |attempts| ==> Alike(q, attempts[i].request)
    ensures var u := Attempts(codec, t0, attempts); TablesOk(codec, u) && LeftBy(codec, t0, u, q)
  {
    hide Attempt, TablesOk, CandidateOf, Alike, RowLeft, ObjectLeft;
    if attempts == [] {
      assert ObjectLeft(codec, t0, t0, q) by { NothingLeft(codec, t0, q); }
    } else {
      var n := |attempts| - 1;
      AttemptsLeave(codec, t0, q, attempts[..n]);
      assert Alike(q, attempts[n].request);
      AttemptLeaves(codec, t0, Attempts(codec, t0, attempts[..n]), PubLookup(attempts[n].request, attempts[n].pointing), q, attempts[n].request, attempts[n].faults);
    }
  }

  lemma NothingLeft(codec: Codec, t: Tables, q: ArtifactRequest)
    ensures ObjectLeft(codec, t, t, q)
  {
    hide GenuineBytes, WithObject, ResourceId, ObjectId;
  }

  // ---------------------------------------------------------------- the retry

  lemma AlikeSame(codec: Codec, q: ArtifactRequest, p: ArtifactRequest, r: StoredResource)
    requires Alike(q, p) && CandidateOf(codec, q).Some? && CandidateOf(codec, p).Some?
    ensures SameArtifact(CandidateOf(codec, q).value, r) <==> SameArtifact(CandidateOf(codec, p).value, r)
  {
    hide CandidateOf, Valid, ResourceId, ObjectId;
    CandidateFacts(codec, q);
    CandidateFacts(codec, p);
  }

  lemma ErasedSame(codec: Codec, q: ArtifactRequest, r: StoredResource)
    requires CandidateOf(codec, q).Some?
    requires Erase(r) == Erase(CandidateOf(codec, q).value.(recordVersion := Some(Num(1))))
    ensures SameArtifact(CandidateOf(codec, q).value, r)
  {
    hide CandidateOf, ResourceId;
    var c := CandidateOf(codec, q).value;
    assert Erase(r).identity == r.identity && Erase(c).identity == c.identity;
  }

  lemma StillCompatible(codec: Codec, t0: Tables, t: Tables, q: ArtifactRequest, p: ArtifactRequest)
    requires Compatible(codec, t0, q) && LeftBy(codec, t0, t, q) && Alike(q, p)
    requires CandidateOf(codec, q).Some? && CandidateOf(codec, p).Some?
    ensures Compatible(codec, t, p)
  {
    hide CandidateOf, ResourceId, ObjectId, GenuineBytes, Erase, SameArtifact, Within;
    var id := ResourceId(q.identity);
    if id in t.metadata {
      AlikeSame(codec, q, p, t.metadata[id]);
      if id !in t0.metadata {
        ErasedSame(codec, q, t.metadata[id]);
      }
    }
  }

  lemma PublishOnceLeaves(codec: Codec, t0: Tables, t: Tables, q: ArtifactRequest, p: ArtifactRequest)
    requires LeftBy(codec, t0, t, q) && Alike(q, p) && CandidateOf(codec, q).Some? && PublishOnce(codec, t, p).0.Publication?
    ensures var (o, u) := PublishOnce(codec, t, p);
            LeftBy(codec, t0, u, q) && ResourceId(q.identity) in u.metadata && o.resource == u.metadata[ResourceId(q.identity)]
  {
    hide CandidateOf, ResourceId, ObjectId, GenuineBytes, SameArtifact, ObjectMatches, LeftBy, WithObject, Valid;
    var id := ResourceId(q.identity);
    if id !in t.metadata {
      CandidateFacts(codec, p);
      var u := if ObjectId(id) !in t.objects then WithObject(t, p) else t;
      if ObjectId(id) !in t.objects {
        ObjectAdded(codec, t0, t, q, p);
        assert ObjectId(id) in u.objects && u.metadata == t.metadata by { AddedObject(t, p); }
      }
      RowAdded(codec, t0, u, q, p);
    }
  }

  lemma AddedObject(t: Tables, p: ArtifactRequest)
    ensures ObjectId(ResourceId(p.identity)) in WithObject(t, p).objects && WithObject(t, p).metadata == t.metadata
  {
  }

  // The same objects, metadata and provenance, but for the creator and creation time of one row.
  predicate SameButForCreation(a: Tables, b: Tables, id: string) {
    && a.objects == b.objects
    && a.metadata.Keys == b.metadata.Keys && id in a.metadata
    && (forall k | k in a.metadata && k != id :: a.metadata[k] == b.metadata[k])
    && Erase(a.metadata[id]) == Erase(b.metadata[id])
    && a.provenance.Keys == b.provenance.Keys
    && (forall k | k in a.provenance && k != id :: a.provenance[k] == b.provenance[k])
    && (id in a.provenance ==> a.provenance[id].document == b.provenance[id].document
                               && a.provenance[id].resourceId == b.provenance[id].resourceId)
  }

  lemma LeftBySame(codec: Codec, t0: Tables, a: Tables, b: Tables, q: ArtifactRequest)
    requires TablesOk(codec, a) && TablesOk(codec, b)
    requires LeftBy(codec, t0, a, q) && LeftBy(codec, t0, b, q)
    requires ResourceId(q.identity) in a.metadata && ResourceId(q.identity) in b.metadata
    requires a.metadata[ResourceId(q.identity)].profile == Artifact && b.metadata[ResourceId(q.identity)].profile == Artifact
    ensures SameButForCreation(a, b, ResourceId(q.identity))
  {
    hide CandidateOf, ResourceId, ObjectId, GenuineBytes, ObjectLeft, Within, MetadataOk, ObjectsOk, ProvenanceOk, ChannelsOk, OrphansOk, Erase;
    var id := ResourceId(q.identity);
    SameObjects(codec, t0, a, b, q);
    ErasedEqual(a.metadata[id], b.metadata[id]);
  }

  lemma SameObjects(codec: Codec, t0: Tables, a: Tables, b: Tables, q: ArtifactRequest)
    requires MetadataOk(codec, a) && MetadataOk(codec, b) && ObjectLeft(codec, t0, a, q) && ObjectLeft(codec, t0, b, q)
    requires ResourceId(q.identity) in a.metadata && ResourceId(q.identity) in b.metadata
    requires a.metadata[ResourceId(q.identity)].profile == Artifact && b.metadata[ResourceId(q.identity)].profile == Artifact
    ensures a.objects == b.objects
  {
    hide ResourceId, ObjectId, GenuineBytes, Valid, ObjectOf;
    var id := ResourceId(q.identity);
    assert HasObject(a.objects, a.metadata[id]) && RowOk(codec, a.metadata[id], id);
    assert HasObject(b.objects, b.metadata[id]) && RowOk(codec, b.metadata[id], id);
  }

  lemma ErasedEqual(a: StoredResource, b: StoredResource)
    ensures Erase(a) == Erase(b) ==> a.provenance == b.provenance && a.identity == b.identity
  {
    assert Erase(a).provenance == a.provenance && Erase(b).provenance == b.provenance;
    assert Erase(a).identity == a.identity && Erase(b).identity == b.identity;
  }

  // Crash recovery converges.  If q would have succeeded on t0, then after any attempts at q, by
  // whomever, with whatever promotions and faults, each stopped anywhere, one that runs to completion
  // without a fault publishes, and then ends as the promotion it asks for does.  It leaves the object,
  // metadata and provenance of the uninterrupted run, up to creator and creation time; it adds no
  // orphan row, and every orphan and channel row written on the way stays.
  lemma RetryConverges(codec: Codec, t0: Tables, q: ArtifactRequest, attempts: seq<Try>, p: ArtifactRequest, pointing: Pointing)
    requires TablesOk(codec, t0)
    requires Drive(codec, Alone(), 0, t0, PubLookup(q, NO_POINTING)).outcome.Publication?
    requires forall i :: 0 <= i < |attempts| ==> Alike(q, attempts[i].request)
    requires Alike(q, p) && CandidateOf(codec, p).Some?
    ensures var once := Drive(codec, Alone(), 0, t0, PubLookup(q, NO_POINTING));
            var left := Attempts(codec, t0, attempts);
            var plain := Drive(codec, Alone(), 0, left, PubLookup(p, NO_POINTING));
            var e := Drive(codec, Alone(), 0, left, PubLookup(p, pointing));
            && plain.outcome.Publication? && Erase(plain.outcome.resource) == Erase(once.outcome.resource)
            && Left(e) == PointOnce(codec, plain.tables, By(p), plain.outcome, pointing)
            && (e.outcome.Publication? <==> !PointingFails(codec, plain.tables, By(p), plain.outcome.resource, pointing))
            && SameButForCreation(e.tables, once.tables, ResourceId(q.identity))
            && Within(t0.orphans, left.orphans) && e.tables.orphans == left.orphans
            && Within(t0.channels, left.channels) && plain.tables.channels == left.channels
            && Within(left.channels, e.tables.channels)
  {
    hide Drive, Attempts, PublishOnce, TablesOk, CandidateOf, Compatible, GenuineBytes, ResourceId, ObjectId, Erase, ObjectLeft, RowLeft, Within,
         PointOnce, PointingFails, SameButForCreation;
    var t1 := Attempts(codec, t0, attempts);
    RetryPublishes(codec, t0, q, attempts, p);
    PublishAlone(codec, 0, t1, p);
    PublishOnceAdds(codec, t1, p);
    PublishOnceOk(codec, t1, p);
    PlainReceipt(codec, t1, p);
    var (o, u) := PublishOnce(codec, t1, p);
    assert ChannelsOk(u) by { TablesParts(codec, u); }
    PublishThenPromote(codec, t1, p, pointing);
    PointOnceEnds(codec, u, By(p), o, pointing);
    var v := PointOnce(codec, u, By(p), o, pointing).1;
    ChannelsApart(u, v, Drive(codec, Alone(), 0, t0, PubLookup(q, NO_POINTING)).tables, ResourceId(q.identity));
  }

  lemma ChannelsApart(u: Tables, v: Tables, b: Tables, id: string)
    requires v == u.(channels := v.channels) && SameButForCreation(u, b, id)
    ensures SameButForCreation(v, b, id)
  {
    hide Erase;
  }

  lemma RetryPublishes(codec: Codec, t0: Tables, q: ArtifactRequest, attempts: seq<Try>, p: ArtifactRequest)
    requires TablesOk(codec, t0)
    requires Drive(codec, Alone(), 0, t0, PubLookup(q, NO_POINTING)).outcome.Publication?
    requires forall i :: 0 <= i < |attempts| ==> Alike(q, attempts[i].request)
    requires Alike(q, p) && CandidateOf(codec, p).Some?
    ensures var once := Drive(codec, Alone(), 0, t0, PubLookup(q, NO_POINTING));
            var t1 := Attempts(codec, t0, attempts);
            var (o, u) := PublishOnce(codec, t1, p);
            && TablesOk(codec, t1) && Within(t0.orphans, t1.orphans) && Within(t0.channels, t1.channels)
            && o.Publication? && Erase(o.resource) == Erase(once.outcome.resource)
            && SameButForCreation(u, once.tables, ResourceId(q.identity))
  {
    hide Drive, Attempts, PublishOnce, TablesOk, CandidateOf, Compatible, GenuineBytes, ResourceId, ObjectId, Erase, ObjectLeft, RowLeft, Within;
    var t1 := Attempts(codec, t0, attempts);
    PublishSucceedsIff(codec, t0, q);
    AttemptsLeave(codec, t0, q, attempts);
    StillCompatible(codec, t0, t1, q, p);
    PublishSucceedsIff(codec, t1, p);
    ObjectStays(codec, t0, t1, q, p);
    PublishAlone(codec, 0, t0, q);
    PublishAlone(codec, 0, t1, p);
    assert LeftBy(codec, t0, t0, q) by { NothingLeft(codec, t0, q); WithinItself(t0); }
    assert Alike(q, q);
    PublishOnceLeaves(codec, t0, t0, q, q);
    PublishOnceLeaves(codec, t0, t1, q, p);
    var a, b := PublishOnce(codec, t1, p).1, PublishOnce(codec, t0, q).1;
    PublishOnceOk(codec, t1, p);
    PublishOnceOk(codec, t0, q);
    LeftBySame(codec, t0, a, b, q);
  }

  lemma WithinItself(t: Tables)
    ensures Within(t.orphans, t.orphans) && Within(t.channels, t.channels)
  {
  }

  lemma ObjectStays(codec: Codec, t0: Tables, t: Tables, q: ArtifactRequest, p: ArtifactRequest)
    requires LeftBy(codec, t0, t, q) && Alike(q, p)
    requires ObjectId(ResourceId(q.identity)) in t0.objects || GenuineBytes(codec.sha, q)
    ensures ObjectId(ResourceId(p.identity)) in t.objects || GenuineBytes(codec.sha, p)
  {
    hide CandidateOf, ResourceId, ObjectId, RowLeft;
  }
}
