// Configuration publication from beginning to end: one store, one transaction.

module Configurations {
  import opened Basics
  import opened Canonical
  import opened References
  import opened Resources
  import opened Tables
  import opened Clients
  import opened Invariants
  import opened Driving
  import opened Recovery
  import opened Orphans
  import opened Channels
  import opened Promotions

  // Nobody has published anything else under the identity.
  predicate Agrees(t: Tables, r: StoredResource) {
    r.Id() in t.metadata ==> SameConfiguration(r, t.metadata[r.Id()])
  }

  // A configuration, a candidate of publish, that only a conflict can stop.
  predicate ConfigurationReady(codec: Codec, r: StoredResource) {
    Publishable(codec, r) && r.profile == Configuration
  }

  lemma LookupConfiguration(codec: Codec, t: Tables, r: StoredResource)
    ensures ClientStep(codec, t, CfgLookup(NO_POINTING, r), NoFault)
         == (t, if r.Id() !in t.metadata then CfgCommit(NO_POINTING, r)
                else if SameConfiguration(r, t.metadata[r.Id()]) then Done(Publication(t.metadata[r.Id()], true, false, None))
                else Raise(IdentityConflict))
    ensures r.Id() in t.metadata ==>
              ClientStep(codec, t, CfgWinner(NO_POINTING, r), NoFault)
              == (t, if SameConfiguration(r, t.metadata[r.Id()]) then Done(Publication(t.metadata[r.Id()], true, false, None))
                     else Raise(IdentityConflict))
  {
    hide ResourceId, SameConfiguration;
  }

  lemma CommitConfiguration(codec: Codec, t: Tables, r: StoredResource)
    requires ProvenanceOk(t)
    ensures var stored := r.(recordVersion := Some(Num(1)));
            ClientStep(codec, t, CfgCommit(NO_POINTING, r), NoFault)
            == if r.Id() in t.metadata then (t, CfgWinner(NO_POINTING, r))
               else (WithRow(t, stored), Done(Publication(stored, false, false, None)))
  {
    hide ResourceId;
  }

  // Alone and without faults, publish either adds the row with its provenance, or finds the same
  // publication there, or raises IdentityConflict; and it adds nothing in the other two cases.
  lemma ConfigurationAlone(codec: Codec, now: nat, t: Tables, r: StoredResource)
    requires ProvenanceOk(t)
    ensures var e := Drive(codec, Alone(), now, t, CfgLookup(NO_POINTING, r));
            var stored := r.(recordVersion := Some(Num(1)));
            Left(e) == if r.Id() !in t.metadata then (Publication(stored, false, false, None), WithRow(t, stored))
                       else if Agrees(t, r) then (Publication(t.metadata[r.Id()], true, false, None), t)
                       else (Raised(IdentityConflict), t)
    ensures Drive(codec, Alone(), now, t, CfgLookup(NO_POINTING, r)).outcome.Publication? <==> Agrees(t, r)
  {
    hide Drive, ClientStep, SameConfiguration, ResourceId, WithRow;
    DriveStep(codec, now, t, CfgLookup(NO_POINTING, r));
    LookupConfiguration(codec, t, r);
    if r.Id() !in t.metadata {
      DriveStep(codec, now + 1, t, CfgCommit(NO_POINTING, r));
      CommitConfiguration(codec, t, r);
      var stored := r.(recordVersion := Some(Num(1)));
      DriveDone(codec, now + 2, WithRow(t, stored), Publication(stored, false, false, None));
    } else {
      DriveDone(codec, now + 1, t, Publication(t.metadata[r.Id()], true, false, None));
      DriveDone(codec, now + 1, t, Raised(IdentityConflict));
    }
  }

  // ---------------------------------------------------------------- the promotion that ends a publication

  predicate Configuring(c: Client) {
    c.CfgLookup? || c.CfgCommit? || c.CfgWinner?
  }

  // The same publication, asked for no promotion.
  function Unpointed(c: Client): Client
    requires Configuring(c)
  {
    c.(pointing := NO_POINTING)
  }

  function Configurator(r: StoredResource): Publisher {
    Publisher(Configuration, r.createdBy)
  }

  // d is where the publication goes when the one without promotion goes to e.
  predicate InStep(c: Client, d: Client, e: Client)
    requires Configuring(c)
  {
    if Configuring(d) then d.pointing == c.pointing && d.candidate == c.candidate && e == Unpointed(d)
    else if e.Done? && e.outcome.Publication? then
      && e.outcome == Publication(e.outcome.resource, e.outcome.idempotent, false, None)
      && d == Onward(Configurator(c.candidate), c.pointing, e.outcome)
    else d == e && d.Done? && d.outcome.Raised?
  }

  lemma StepInStep(codec: Codec, t: Tables, c: Client, fault: Fault)
    requires Configuring(c)
    ensures var (u, d) := ClientStep(codec, t, c, fault);
            var (v, e) := ClientStep(codec, t, Unpointed(c), fault);
            u == v && InStep(c, d, e)
  {
    hide Perform, Resume, InStep;
    assert NextCall(Unpointed(c)) == NextCall(c);
    AnswerInStep(codec, c, Perform(codec.sha, t, NextCall(c), fault).1);
  }

  lemma AnswerInStep(codec: Codec, c: Client, r: Response)
    requires Configuring(c)
    ensures InStep(c, Resume(codec, c, r), Resume(codec, Unpointed(c), r))
  {
    hide SameConfiguration, Conclude;
    if r.ResourceIs? {
      ConcludeInStep(c, r.row, true);
      ConcludeInStep(c, r.row, false);
    }
  }

  lemma ConcludeInStep(c: Client, r: StoredResource, idempotent: bool)
    requires Configuring(c)
    ensures InStep(c, Conclude(Configuration, r, idempotent, c.pointing, c.candidate.createdBy),
                   Conclude(Configuration, r, idempotent, NO_POINTING, c.candidate.createdBy))
  {
    hide ChannelName;
  }

  lemma {:induction false} DriveInStep(codec: Codec, w: World, now: nat, t: Tables, c: Client)
    requires Configuring(c)
    ensures var e := Drive(codec, w, now, t, Unpointed(c));
            Drive(codec, w, now, t, c)
            == if e.outcome.Publication? then Drive(codec, w, e.now, e.tables, Onward(Configurator(c.candidate), c.pointing, e.outcome)) else e
    decreases Rank(c)
  {
    hide Drive, ClientStep, Onward, Descends;
    var s := w.interfere(now, t);
    WorldStep(codec, w, now, t, c);
    WorldStep(codec, w, now, t, Unpointed(c));
    StepInStep(codec, s, c, w.fault(now));
    StepDescends(codec, s, c, w.fault(now));
    var (u, d) := ClientStep(codec, s, c, w.fault(now));
    DescendsMeans(c, d);
    if Configuring(d) {
      DriveInStep(codec, w, now + 1, u, d);
    } else {
      WorldDone(codec, w, now + 1, u, ClientStep(codec, s, Unpointed(c), w.fault(now)).1.outcome);
    }
  }

  // In every world, publish with a promotion first does exactly what publish without one does, and only
  // after a receipt begins to promote, from the tables left by then.
  lemma ConfigurationPromotedAfter(codec: Codec, w: World, t: Tables, r: StoredResource, pointing: Pointing)
    ensures var e := Drive(codec, w, 0, t, CfgLookup(NO_POINTING, r));
            Drive(codec, w, 0, t, CfgLookup(pointing, r))
            == if e.outcome.Publication? then Drive(codec, w, e.now, e.tables, Onward(Configurator(r), pointing, e.outcome)) else e
  {
    hide Drive, Onward;
    DriveInStep(codec, w, 0, t, CfgLookup(pointing, r));
  }

  // The sequential specification of the publication of a configuration, without promotion.
  function ConfigureOnce(t: Tables, r: StoredResource): (Outcome, Tables) {
    var id := ResourceId(r.identity);
    var stored := r.(recordVersion := Some(Num(1)));
    if id !in t.metadata then
      var provenance := match r.provenance
        case None => t.provenance
        case Some(document) => t.provenance[id := ProvenanceRow(id, document, r.createdAt)];
      (Publication(stored, false, false, None), t.(metadata := t.metadata[id := stored], provenance := provenance))
    else if SameConfiguration(r, t.metadata[id]) then (Publication(t.metadata[id], true, false, None), t)
    else (Raised(IdentityConflict), t)
  }

  // Alone and from its beginning, publish refuses an invalid candidate without effect; and otherwise it
  // publishes and then, after a receipt, ends as the promotion asked for: half of one, or one from a
  // negative version, is refused after the commit.
  lemma ConfigurationFromStart(codec: Codec, t: Tables, q: ConfigurationRequest, pointing: Pointing)
    requires TablesOk(codec, t)
    ensures var made := ConfigurationCandidate(codec, q);
            Left(Drive(codec, Alone(), 0, t, Start(codec, PublishConfiguration(q, pointing))))
            == if made.None? then (Raised(InvalidInput), t) else ConfigureFully(codec, t, made.value, pointing)
  {
    hide Drive, TablesOk, ConfigurationCandidate, ResourceId, ConfigureFully;
    var made := ConfigurationCandidate(codec, q);
    if made.None? {
      DriveDone(codec, 0, t, Raised(InvalidInput));
    } else {
      ConfigureAlone(codec, t, made.value, pointing);
    }
  }

  function ConfigureFully(codec: Codec, t: Tables, r: StoredResource, pointing: Pointing): (Outcome, Tables) {
    var (o, u) := ConfigureOnce(t, r);
    if o.Publication? then PointOnce(codec, u, Publisher(Configuration, r.createdBy), o, pointing) else (o, u)
  }

  lemma ConfigureOnceIs(codec: Codec, now: nat, t: Tables, r: StoredResource)
    requires ProvenanceOk(t)
    ensures Left(Drive(codec, Alone(), now, t, CfgLookup(NO_POINTING, r))) == ConfigureOnce(t, r)
  {
    hide Drive, SameConfiguration, ResourceId;
    ConfigurationAlone(codec, now, t, r);
  }

  lemma ConfigureOnceKeeps(t: Tables, r: StoredResource)
    ensures var (o, u) := ConfigureOnce(t, r);
            && u.channels == t.channels && (ChannelsOk(t) ==> ChannelsOk(u))
            && (o.Publication? ==> o == Publication(o.resource, o.idempotent, false, None)
                                   && ResourceId(r.identity) in u.metadata && u.metadata[ResourceId(r.identity)] == o.resource)
            && (!o.Publication? ==> u == t)
  {
    hide ResourceId, SameConfiguration, ChannelVersionId;
  }

  lemma ConfigureAlone(codec: Codec, t: Tables, r: StoredResource, pointing: Pointing)
    requires TablesOk(codec, t)
    ensures Left(Drive(codec, Alone(), 0, t, CfgLookup(pointing, r))) == ConfigureFully(codec, t, r, pointing)
  {
    hide Drive, TablesOk, ConfigureOnce, PointOnce, Onward, ResourceId, ChannelsOk, ProvenanceOk;
    TablesParts(codec, t);
    ConfigurationPromotedAfter(codec, Alone(), t, r, pointing);
    ConfigureOnceIs(codec, 0, t, r);
    ConfigureOnceKeeps(t, r);
    var e := Drive(codec, Alone(), 0, t, CfgLookup(NO_POINTING, r));
    if e.outcome.Publication? {
      OnwardAlone(codec, e.now, e.tables, Configurator(r), e.outcome, pointing);
    }
  }

  // publish can commit and then raise, for configurations too: exactly when the publication succeeds and
  // the promotion asked for fails.  It then leaves the tables of the publication.
  lemma ConfiguredThoughRaised(codec: Codec, t: Tables, r: StoredResource, pointing: Pointing)
    requires TablesOk(codec, t) && ConfigureOnce(t, r).0.Publication?
    ensures var (o, u) := ConfigureOnce(t, r);
            var (end, v) := Left(Drive(codec, Alone(), 0, t, CfgLookup(pointing, r)));
            && (end.Raised? <==> PointingFails(codec, u, Publisher(Configuration, r.createdBy), o.resource, pointing))
            && (end.Raised? ==> v == u)
            && (!end.Raised? ==> end.Publication? && end == o.(channel := end.channel))
            && (!end.Raised? && pointing.channel.Some? ==>
                  end.channel.Some? && PointsAsAsked(v, r.identity, r.createdBy, pointing, end.channel.value))
            && v == u.(channels := v.channels)
            && ResourceId(r.identity) in v.metadata
  {
    hide Drive, ConfigureOnce, PointOnce, PointingFails, ResourceId, TablesOk, ChannelsOk, Within, PointsAsAsked;
    TablesParts(codec, t);
    ConfigureAlone(codec, t, r, pointing);
    ConfigureOnceKeeps(t, r);
    ConfiguredIdentity(codec, t, r);
    var (o, u) := ConfigureOnce(t, r);
    PointOnceEnds(codec, u, Configurator(r), o, pointing);
    PointOncePoints(codec, u, Configurator(r), o, pointing);
  }

  lemma ConfiguredIdentity(codec: Codec, t: Tables, r: StoredResource)
    requires ConfigureOnce(t, r).0.Publication? && MetadataOk(codec, t)
    ensures ConfigureOnce(t, r).0.resource.identity == r.identity
  {
    hide ResourceId, Valid, HasObject, SameConfiguration;
    var id := ResourceId(r.identity);
    if id in t.metadata {
      ReadIsKnown(codec, t, id);
      ResourceIdInjective(t.metadata[id].identity, r.identity);
    }
  }

  // ---------------------------------------------------------------- racing and retrying

  predicate OnCourse(t: Tables, c: Client, r: StoredResource) {
    && Agrees(t, r)
    && match c
       case CfgLookup(p, q) => p == NO_POINTING && q == r
       case CfgCommit(p, q) => p == NO_POINTING && q == r
       case CfgWinner(p, q) => p == NO_POINTING && q == r && r.Id() in t.metadata
       case Done(Publication(q, _, _, _)) => r.Id() in t.metadata && SameConfiguration(r, q)
       case _ => false
  }

  lemma OnCourseStep(codec: Codec, t: Tables, c: Client, r: StoredResource)
    requires ProvenanceOk(t) && !c.Done? && OnCourse(t, c, r)
    ensures var (u, d) := ClientStep(codec, t, c, NoFault); OnCourse(u, d, r)
  {
    hide ClientStep, ResourceId, ProvenanceOk;
    LookupConfiguration(codec, t, r);
    CommitConfiguration(codec, t, r);
  }

  ghost predicate Undisputed(codec: Codec, w: World, r: StoredResource) {
    forall n, t :: TablesOk(codec, t) && Agrees(t, r) ==> Agrees(w.interfere(n, t), r)
  }

  lemma OnCourseStable(t: Tables, u: Tables, c: Client, r: StoredResource)
    requires OnCourse(t, c, r) && Grows(t, u) && Agrees(u, r)
    ensures OnCourse(u, c, r)
  {
    hide ResourceId, SameConfiguration, Within;
  }

  lemma OnCourseMeans(t: Tables, c: Client, r: StoredResource)
    requires OnCourse(t, c, r)
    ensures Agrees(t, r)
  {
  }

  lemma {:induction false} OnCourseEnds(codec: Codec, w: World, now: nat, t: Tables, c: Client, r: StoredResource)
    requires Rely(codec, w) && FaultFree(w) && Undisputed(codec, w, r)
    requires TablesOk(codec, t) && ClientOk(codec, t, c) && OnCourse(t, c, r)
    ensures var e := Drive(codec, w, now, t, c); OnCourse(e.tables, Done(e.outcome), r)
    decreases Listing(c), Rank(c)
  {
    hide OnCourse, ClientStep, TablesOk, Grows, Descends, Agrees, ClientOk;
    if !c.Done? {
      var s := w.interfere(now, t);
      OnCourseMeans(t, c, r);
      OnCourseStable(t, s, c, r);
      ClientOkStable(codec, t, s, c);
      TablesParts(codec, s);
      OnCourseStep(codec, s, c, r);
      StepOk(codec, s, c, NoFault);
      StepDescends(codec, s, c, NoFault);
      var (u, d) := ClientStep(codec, s, c, NoFault);
      DescendsMeans(c, d);
      OnCourseEnds(codec, w, now + 1, u, d, r);
    }
  }

  // Against any number of publishers of the same configuration, and whatever earlier attempts left,
  // a publish that meets no fault ends with a receipt for the same publication, its row in place.
  lemma ConfigurationConverges(codec: Codec, w: World, t: Tables, r: StoredResource)
    requires Rely(codec, w) && FaultFree(w) && Undisputed(codec, w, r)
    requires TablesOk(codec, t) && ConfigurationReady(codec, r) && Agrees(t, r)
    ensures var e := Drive(codec, w, 0, t, CfgLookup(NO_POINTING, r));
            && e.outcome.Publication? && SameConfiguration(r, e.outcome.resource)
            && r.Id() in e.tables.metadata && SameConfiguration(r, e.tables.metadata[r.Id()])
  {
    hide Drive, TablesOk, SameConfiguration, ResourceId, Rely, FaultFree, Undisputed, Valid;
    OnCourseEnds(codec, w, 0, t, CfgLookup(NO_POINTING, r), r);
  }

  // The candidate before its constructor checks it.
  function Draft(codec: Codec, q: ConfigurationRequest): StoredResource {
    var payload := Freeze(q.payload);
    var encoded := codec.encode(Thaw(payload));
    Candidate(q.identity, Configuration, q.mediaType, codec.sha(encoded), |encoded|, None, Some(payload), Some(q.schema), q.description)
  }

  // A configuration's candidate is never refused for its digest or length: it is made exactly if its
  // creation time is a timestamp, its description is valid, and it has an object for a payload and a
  // valid schema.
  lemma CandidateIsMadeIff(codec: Codec, q: ConfigurationRequest)
    requires WellFormed(q.payload)
    ensures ConfigurationCandidate(codec, q).Some? <==>
              && codec.utc(q.description.createdAt).Some?
              && ValidDescription(codec, Draft(codec, q).(createdAt := codec.utc(q.description.createdAt).value))
              && q.payload.Dict? && ValidSchemaRef(q.schema)
  {
    hide ValidDescription, ValidSchemaRef, Freeze, Thaw, Sorted, WellFormed, ResourceId;
    FreezeSorted(q.payload);
    NormalisationIdempotent(q.payload);
    FrozenObject(q.payload);
  }

  // What a configuration's candidate is, field by field.
  lemma ConfigurationFacts(codec: Codec, q: ConfigurationRequest)
    requires ConfigurationCandidate(codec, q).Some?
    ensures var c := ConfigurationCandidate(codec, q).value;
            && Publishable(codec, c) && c.identity == q.identity && c.profile == Configuration
            && c.mediaType == q.mediaType && c.payload == Some(Freeze(q.payload)) && c.payloadSchema == Some(q.schema)
            && c.digest == codec.sha(codec.encode(Thaw(Freeze(q.payload)))) && c.byteLength == |codec.encode(Thaw(Freeze(q.payload)))|
            && c.objectRef == None && c.createdBy == q.description.actor && codec.utc(q.description.createdAt) == Some(c.createdAt)
            && c.labels == q.description.labels && c.annotations == Freeze(q.description.annotations)
            && c.provenance == q.description.provenance && c.supersedes == q.description.supersedes
            && c.versionOrder == q.description.versionOrder && c.immutable
  {
    hide Valid, ResourceId, Freeze, Thaw;
    MadeCandidate(codec, Draft(codec, q), ConfigurationCandidate(codec, q).value);
  }

  lemma FrozenObject(j: Json)
    ensures Freeze(j).Proxy? <==> j.Dict?
  {
  }

  // Requests that agree in everything else are the same publication exactly if their payloads
  // normalise to the same value.
  lemma EqualPayloadsAgree(codec: Codec, p: ConfigurationRequest, q: ConfigurationRequest)
    requires ConfigurationCandidate(codec, p).Some? && ConfigurationCandidate(codec, q).Some?
    requires p.identity == q.identity && p.mediaType == q.mediaType && p.schema == q.schema
    requires p.description.labels == q.description.labels && p.description.annotations == q.description.annotations
             && p.description.provenance == q.description.provenance && p.description.supersedes == q.description.supersedes
             && p.description.versionOrder == q.description.versionOrder
    ensures var (r, s) := (ConfigurationCandidate(codec, p).value, ConfigurationCandidate(codec, q).value);
            SameConfiguration(r, s) <==> Freeze(p.payload) == Freeze(q.payload)
  {
    hide Valid, ResourceId, Freeze, Thaw;
    CandidateIs(codec, p);
    CandidateIs(codec, q);
  }

  lemma CandidateIs(codec: Codec, q: ConfigurationRequest)
    requires ConfigurationCandidate(codec, q).Some?
    ensures var r := ConfigurationCandidate(codec, q).value;
            r == Draft(codec, q).(createdAt := r.createdAt) && ConfigurationReady(codec, r)
  {
    hide Valid, Make, ResourceId, Freeze, Thaw;
    MadeCandidate(codec, Draft(codec, q), ConfigurationCandidate(codec, q).value);
  }

  // ---------------------------------------------------------------- the race across profiles

  lemma ReadyOk(codec: Codec, t: Tables, r: StoredResource)
    requires ConfigurationReady(codec, r)
    ensures ClientOk(codec, t, CfgLookup(NO_POINTING, r))
  {
    hide Publishable;
  }

  lemma UnreadyOk(codec: Codec, t: Tables, q: ArtifactRequest)
    ensures ClientOk(codec, t, PubPut(q, NO_POINTING))
  {
  }

  lemma Rows(t: Tables, q: ArtifactRequest, r: StoredResource)
    ensures var v := WithRow(WithObject(t, q), r); r.Id() in v.metadata && v.metadata[r.Id()] == r && v.orphans == t.orphans
  {
    hide ResourceId, ObjectId;
  }

  // The race that an artifact publisher loses to a configuration is real: from any consistent state
  // that knows nothing of the identity, these four calls of the two publishers, in this order, lead
  // to the state of ConfigurationWins.  The configuration is published; the artifact's publisher
  // raises IdentityConflict; its object stays behind without evidence, and no scan reports it.
  lemma ConfigurationCanWin(codec: Codec, t: Tables, q: ArtifactRequest, r: StoredResource)
    requires TablesOk(codec, t) && GenuineBytes(codec.sha, q) && CandidateOf(codec, q).Some? && ConfigurationReady(codec, r)
    requires r.identity == q.identity && r.Id() !in t.metadata && ObjectId(r.Id()) !in t.objects
    ensures var stored := r.(recordVersion := Some(Num(1)));
            var u, v := WithObject(t, q), WithRow(WithObject(t, q), stored);
            var c := PubCommit(q, NO_POINTING, CandidateOf(codec, q).value, false);
            && ClientStep(codec, t, PubLookup(q, NO_POINTING), NoFault) == (t, PubPut(q, NO_POINTING))
            && ClientStep(codec, t, PubPut(q, NO_POINTING), NoFault) == (u, c)
            && ClientStep(codec, u, CfgLookup(NO_POINTING, r), NoFault) == (u, CfgCommit(NO_POINTING, r))
            && ClientStep(codec, u, CfgCommit(NO_POINTING, r), NoFault) == (v, Done(Publication(stored, false, false, None)))
            && Left(Drive(codec, Alone(), 0, v, c)) == (Raised(IdentityConflict), v)
            && ObjectId(r.Id()) in v.objects && ObjectId(r.Id()) !in Abandoned(v) && v.orphans == t.orphans
  {
    hide Drive, ClientStep, TablesOk, ClientOk, CandidateOf, ResourceId, ObjectId, Valid, GenuineBytes, WithObject, WithRow, SameConfiguration;
    var stored := r.(recordVersion := Some(Num(1)));
    var u, v := WithObject(t, q), WithRow(WithObject(t, q), stored);
    var c := PubCommit(q, NO_POINTING, CandidateOf(codec, q).value, false);
    assert MetadataOk(codec, t) && ObjectsOk(codec.sha, t) && ProvenanceOk(t) by { TablesParts(codec, t); }
    LookupAlone(codec, t, q);
    PutAlone(codec, t, q);
    assert ClientOk(codec, t, PubPut(q, NO_POINTING)) by { UnreadyOk(codec, t, q); }
    StepOk(codec, t, PubPut(q, NO_POINTING), NoFault);
    WithObjectKeeps(t, q);
    LookupConfiguration(codec, u, r);
    CommitConfiguration(codec, u, r);
    assert TablesOk(codec, u) && ClientOk(codec, u, c);
    assert ClientOk(codec, u, CfgLookup(NO_POINTING, r)) by { ReadyOk(codec, u, r); }
    StepOk(codec, u, CfgLookup(NO_POINTING, r), NoFault);
    StepOk(codec, u, CfgCommit(NO_POINTING, r), NoFault);
    ClientOkStable(codec, u, v, c);
    assert v.metadata[r.Id()] == stored && v.orphans == t.orphans && r.Id() in v.metadata by { Rows(t, q, stored); }
    ConfigurationWins(codec, v, c, 0);
  }
}
