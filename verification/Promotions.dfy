// Promotions and deprecations from beginning to end; a publication's promotion comes strictly after
// its commit, and can fail alone.

module Promotions {
  import opened Basics
  import opened Canonical
  import opened References
  import opened Resources
  import opened Records
  import opened Tables
  import opened Clients
  import opened Invariants
  import opened Channels
  import opened Driving
  import opened Recovery
  import opened Orphans
  import opened Pointers
  import opened Systems

  // ---------------------------------------------------------------- a publication without its promotion

  predicate Publishing(c: Client) {
    c.PubLookup? || c.PubPut? || c.PubStat? || c.PubCommit? || c.PubWinner?
  }

  // The same publication, asked for no promotion.
  function Strip(c: Client): Client
    requires Publishing(c)
  {
    c.(pointing := NO_POINTING)
  }

  // Who publishes, and under which profile.
  datatype Publisher = Publisher(profile: Profile, actor: string)

  function By(q: ArtifactRequest): Publisher {
    Publisher(Artifact, q.description.actor)
  }

  // How a publication goes on after its receipt without promotion is determined.
  function Onward(who: Publisher, pointing: Pointing, receipt: Outcome): Client
    requires receipt.Publication?
  {
    Conclude(who.profile, receipt.resource, receipt.idempotent, pointing, who.actor)
  }

  // d is where the publication goes when the one without promotion goes to e.
  predicate Alongside(c: Client, d: Client, e: Client)
    requires Publishing(c)
  {
    if Publishing(d) then d.pointing == c.pointing && d.request == c.request && e == Strip(d)
    else if e.Done? && e.outcome.Publication? then e.outcome.channel == None && d == Onward(By(c.request), c.pointing, e.outcome)
    else d == e && (d.PubOrphan? || (d.Done? && d.outcome.Raised?))
  }

  lemma ConcludeAlongside(c: Client, r: StoredResource, idempotent: bool)
    requires Publishing(c)
    ensures var actor := c.request.description.actor;
            Alongside(c, Conclude(Artifact, r, idempotent, c.pointing, actor), Conclude(Artifact, r, idempotent, NO_POINTING, actor))
  {
    hide ChannelName;
  }

  lemma LookupAlongside(codec: Codec, c: Client, r: Response)
    requires c.PubLookup? || c.PubWinner?
    ensures Alongside(c, Resume(codec, c, r), Resume(codec, Strip(c), r))
  {
    hide Conclude, ArtifactCandidate, SameArtifact, FailedPublication;
    if r.ResourceIs? {
      ConcludeAlongside(c, r.row, true);
    }
  }

  lemma ObjectAlongside(codec: Codec, c: Client, r: Response)
    requires c.PubPut? || c.PubStat?
    ensures Alongside(c, Resume(codec, c, r), Resume(codec, Strip(c), r))
  {
    hide ArtifactCandidate, ObjectMatches;
  }

  lemma CommitAlongside(codec: Codec, c: Client, r: Response)
    requires c.PubCommit?
    ensures Alongside(c, Resume(codec, c, r), Resume(codec, Strip(c), r))
  {
    hide Conclude, SameArtifact, FailedPublication;
    if r.ResourceIs? {
      ConcludeAlongside(c, r.row, c.objectIdempotent);
    }
  }

  lemma StepAlongside(codec: Codec, t: Tables, c: Client, fault: Fault)
    requires Publishing(c)
    ensures var (u, d) := ClientStep(codec, t, c, fault);
            var (v, e) := ClientStep(codec, t, Strip(c), fault);
            u == v && Alongside(c, d, e)
  {
    hide Resume, Perform, Alongside;
    assert NextCall(Strip(c)) == NextCall(c);
    var r := Perform(codec.sha, t, NextCall(c), fault).1;
    if c.PubLookup? || c.PubWinner? {
      LookupAlongside(codec, c, r);
    } else if c.PubCommit? {
      CommitAlongside(codec, c, r);
    } else {
      ObjectAlongside(codec, c, r);
    }
  }

  lemma RecordingRaises(codec: Codec, w: World, now: nat, t: Tables, o: Orphan)
    ensures Drive(codec, w, now, t, PubOrphan(o)).outcome == Raised(IncompletePublication)
  {
    hide Drive, ClientStep;
    var s := w.interfere(now, t);
    WorldStep(codec, w, now, t, PubOrphan(o));
    OrphanCalls(codec, s, o, w.fault(now));
    var (u, d) := ClientStep(codec, s, PubOrphan(o), w.fault(now));
    if d == PubOrphanCheck(o) {
      var v := w.interfere(now + 1, u);
      WorldStep(codec, w, now + 1, u, d);
      OrphanCalls(codec, v, o, w.fault(now + 1));
      WorldDone(codec, w, now + 2, v, Raised(IncompletePublication));
    } else {
      WorldDone(codec, w, now + 1, u, Raised(IncompletePublication));
    }
  }

  lemma {:induction false} DriveAlongside(codec: Codec, w: World, now: nat, t: Tables, c: Client)
    requires Publishing(c)
    ensures var e := Drive(codec, w, now, t, Strip(c));
            Drive(codec, w, now, t, c)
            == if e.outcome.Publication? then Drive(codec, w, e.now, e.tables, Onward(By(c.request), c.pointing, e.outcome)) else e
    decreases Rank(c)
  {
    hide Drive, ClientStep, Onward, Descends;
    var s := w.interfere(now, t);
    WorldStep(codec, w, now, t, c);
    WorldStep(codec, w, now, t, Strip(c));
    StepAlongside(codec, s, c, w.fault(now));
    StepDescends(codec, s, c, w.fault(now));
    var (u, d) := ClientStep(codec, s, c, w.fault(now));
    DescendsMeans(c, d);
    if Publishing(d) {
      DriveAlongside(codec, w, now + 1, u, d);
    } else {
      var e := ClientStep(codec, s, Strip(c), w.fault(now)).1;
      if e.Done? {
        WorldDone(codec, w, now + 1, u, e.outcome);
      } else {
        RecordingRaises(codec, w, now + 1, u, d.orphan);
      }
    }
  }

  // In every world, whatever interferes or fails: publish with a promotion first does exactly what
  // publish without one does.  Only if that ends in a receipt does the promotion begin, from the
  // tables it left; so a promotion that is refused, or fails, takes nothing back.
  lemma PromotionComesAfter(codec: Codec, w: World, t: Tables, q: ArtifactRequest, pointing: Pointing)
    ensures var e := Drive(codec, w, 0, t, PubLookup(q, NO_POINTING));
            Drive(codec, w, 0, t, PubLookup(q, pointing))
            == if e.outcome.Publication? then Drive(codec, w, e.now, e.tables, Onward(By(q), pointing, e.outcome)) else e
  {
    hide Drive, Onward;
    DriveAlongside(codec, w, 0, t, PubLookup(q, pointing));
  }

  // ---------------------------------------------------------------- a promotion alone

  function DraftRow(r: StoredResource, p: Promotion): ChannelRow {
    ChannelRow(ChannelOf(r, p), r.Id(), p.expected + 1, p.actor, p.at, None)
  }

  // The sequential specification of promote, on the register that the channel's rows stand for.
  function PromoteOnce(codec: Codec, t: Tables, r: StoredResource, p: Promotion, finish: Finish): (Outcome, Tables) {
    if Holds(t, ChannelOf(r, p)).version != p.expected then (Raised(StaleChannelPointer), t)
    else
      match MakeChannel(codec, DraftRow(r, p))
      case None => (Raised(InvalidInput), t)
      case Some(row) =>
        var stored := row.(recordVersion := Some(Num(1)));
        var outcome := match finish
          case Plain => Promoted(stored)
          case Receipt(resource, idempotent, committed) => Publication(resource, idempotent, committed, Some(stored));
        (outcome, t.(channels := t.channels[ChannelVersionId(row.channel, NatOf(row.pointerVersion)) := stored]))
  }

  lemma ReadAlone(codec: Codec, t: Tables, r: StoredResource, p: Promotion, finish: Finish)
    ensures ClientStep(codec, t, PromRead(r, p, finish), NoFault)
         == (t, if Holds(t, ChannelOf(r, p)).version != p.expected then Raise(StaleChannelPointer)
                else match MakeChannel(codec, DraftRow(r, p))
                     case None => Raise(InvalidInput)
                     case Some(row) => PromInsert(row, p, finish))
  {
    hide MakeChannel, LatestRow, ResourceId;
  }

  lemma InsertAlone(codec: Codec, t: Tables, row: ChannelRow, p: Promotion, finish: Finish)
    requires row.pointerVersion >= 0 && ChannelVersionId(row.channel, row.pointerVersion) !in t.channels
    ensures var stored := row.(recordVersion := Some(Num(1)));
            ClientStep(codec, t, PromInsert(row, p, finish), NoFault)
            == (t.(channels := t.channels[ChannelVersionId(row.channel, row.pointerVersion) := stored]), Finished(finish, stored))
  {
    hide ChannelVersionId;
  }

  // The successor of the latest version is free.
  lemma SuccessorIsFree(t: Tables, c: Channel, n: nat)
    requires ChannelsOk(t) && n > Holds(t, c).version
    ensures ChannelVersionId(c, n) !in t.channels
  {
    hide ChannelVersionId, LatestRow;
    LatestRowIsLatest(t, c);
    if ChannelVersionId(c, n) in t.channels {
      RowsAreKeyed(t, c, n);
    }
  }

  // Alone and without faults, promote is one compare-and-set of the register.
  lemma PromoteAlone(codec: Codec, now: nat, t: Tables, r: StoredResource, p: Promotion, finish: Finish)
    requires ChannelsOk(t)
    ensures Left(Drive(codec, Alone(), now, t, PromRead(r, p, finish))) == PromoteOnce(codec, t, r, p, finish)
  {
    hide Drive, ClientStep, MakeChannel, Holds, ResourceId, ChannelVersionId, ChannelsOk;
    DriveStep(codec, now, t, PromRead(r, p, finish));
    ReadAlone(codec, t, r, p, finish);
    if Holds(t, ChannelOf(r, p)).version != p.expected {
      DriveDone(codec, now + 1, t, Raised(StaleChannelPointer));
    } else if MakeChannel(codec, DraftRow(r, p)).None? {
      DriveDone(codec, now + 1, t, Raised(InvalidInput));
    } else {
      var row := MakeChannel(codec, DraftRow(r, p)).value;
      MadeRow(codec, r, p);
      SuccessorIsFree(t, row.channel, row.pointerVersion);
      DriveStep(codec, now + 1, t, PromInsert(row, p, finish));
      InsertAlone(codec, t, row, p, finish);
      var (o, u) := PromoteOnce(codec, t, r, p, finish);
      DriveDone(codec, now + 2, u, o);
    }
  }

  // Why promote refuses a resource before it looks at the channel, if it does.
  function Refusal(r: StoredResource, p: Promotion): Option<Error> {
    if p.profile.Some? && r.profile != p.profile.value then Some(IncompatibleProfile)
    else if r.state != Published then Some(IncompatibleProfile)
    else if !ChannelName(p.channel) then Some(InvalidInput)
    else None
  }

  // promote from the lookup of its target: a missing target, a reference that is not the stored
  // resource's, a resource of the other profile or not published, and a bad channel name are each
  // refused, in this order and without effect.
  lemma PromoteTargetAlone(codec: Codec, now: nat, t: Tables, target: Target, p: Promotion)
    requires ChannelsOk(t) && !target.ByResource?
    ensures var id := TargetId(target);
            Left(Drive(codec, Alone(), now, t, PromTarget(target, p)))
            == if id !in t.metadata then (Raised(ResourceNotFound), t)
               else
                 var r := t.metadata[id];
                 if target.ByRef? && target.ref != ResourceRef(r.identity, r.profile, r.digest) then (Raised(IdentityConflict), t)
                 else if Refusal(r, p).Some? then (Raised(Refusal(r, p).value), t)
                 else PromoteOnce(codec, t, r, p, Plain)
  {
    hide Drive, ClientStep, ResourceId, ChannelsOk, ChannelName, PromoteOnce;
    var id := TargetId(target);
    DriveStep(codec, now, t, PromTarget(target, p));
    TargetRead(codec, t, target, p);
    DriveDone(codec, now + 1, t, Raised(ResourceNotFound));
    DriveDone(codec, now + 1, t, Raised(IdentityConflict));
    if id in t.metadata {
      var r := t.metadata[id];
      if Refusal(r, p).Some? {
        DriveDone(codec, now + 1, t, Raised(Refusal(r, p).value));
      } else {
        PromoteAlone(codec, now + 1, t, r, p, Plain);
      }
    }
  }

  // The sequential specification of promote for a resource that is known.
  function PromoteKnown(codec: Codec, t: Tables, r: StoredResource, p: Promotion): (Outcome, Tables) {
    if Refusal(r, p).Some? then (Raised(Refusal(r, p).value), t) else PromoteOnce(codec, t, r, p, Plain)
  }

  // The sequential specification of promote: a negative version is refused; a resource value is
  // promoted as it is; and an identity or a reference is looked up first, a reference having to be that
  // of the row.
  function PromoteFully(codec: Codec, t: Tables, target: Target, p: Promotion): (Outcome, Tables) {
    if p.expected < 0 then (Raised(InvalidInput), t)
    else
      match target
      case ByResource(r) => PromoteKnown(codec, t, r, p)
      case ByIdentity(i) =>
        if ResourceId(i) !in t.metadata then (Raised(ResourceNotFound), t)
        else PromoteKnown(codec, t, t.metadata[ResourceId(i)], p)
      case ByRef(ref) =>
        if ResourceId(ref.identity) !in t.metadata then (Raised(ResourceNotFound), t)
        else
          var r := t.metadata[ResourceId(ref.identity)];
          if r.identity != ref.identity || r.profile != ref.profile || r.digest != ref.digest then (Raised(IdentityConflict), t)
          else PromoteKnown(codec, t, r, p)
  }

  // Alone, promote does just that from its beginning.
  lemma PromoteFromStart(codec: Codec, t: Tables, target: Target, p: Promotion)
    requires ChannelsOk(t)
    ensures Left(Drive(codec, Alone(), 0, t, Start(codec, Promote(target, p)))) == PromoteFully(codec, t, target, p)
  {
    hide Drive, ResourceId, ChannelsOk, ChannelName, PromoteOnce;
    if p.expected < 0 {
      DriveDone(codec, 0, t, Raised(InvalidInput));
    } else if target.ByResource? {
      if Refusal(target.resource, p).Some? {
        DriveDone(codec, 0, t, Raised(Refusal(target.resource, p).value));
      } else {
        PromoteAlone(codec, 0, t, target.resource, p, Plain);
      }
    } else {
      PromoteTargetAlone(codec, 0, t, target, p);
    }
  }

  // When promote succeeds, and with what: exactly if the resource is published, of the profile asked
  // for, the channel's name is valid, the channel is at the expected version (0 without rows) and the
  // successor row is valid; it then inserts just that row, and otherwise changes nothing.
  lemma PromoteKnownMeans(codec: Codec, t: Tables, r: StoredResource, p: Promotion)
    requires ChannelsOk(t) && p.expected >= 0
    ensures var (o, u) := PromoteKnown(codec, t, r, p);
            var c := Channel(r.identity.namespace, r.identity.kind, r.identity.name, p.channel);
            var latest := LatestRow(t.channels, c);
            var at := codec.utc(p.at);
            && (o.Promoted? <==>
                  && r.state == Published && (p.profile == None || p.profile == Some(r.profile)) && ChannelName(p.channel)
                  && p.expected == (if latest.None? then 0 else latest.value.pointerVersion)
                  && at.Some? && ValidChannelRow(codec, ChannelRow(c, ResourceId(r.identity), p.expected + 1, p.actor, at.value, None)))
            && (o.Promoted? ==>
                  && o.pointer == ChannelRow(c, ResourceId(r.identity), p.expected + 1, p.actor, at.value, Some(Num(1)))
                  && ChannelVersionId(c, p.expected + 1) !in t.channels
                  && u == t.(channels := t.channels[ChannelVersionId(c, p.expected + 1) := o.pointer]))
            && (!o.Promoted? ==> o.Raised? && u == t)
  {
    hide ResourceId, ChannelVersionId, ChannelName, ValidChannelRow, LatestRow, ChannelsOk;
    if Holds(t, ChannelOf(r, p)).version == p.expected {
      SuccessorIsFree(t, ChannelOf(r, p), p.expected + 1);
    }
    MadeIff(codec, DraftRow(r, p));
  }

  lemma MadeIff(codec: Codec, row: ChannelRow)
    ensures MakeChannel(codec, row)
         == match codec.utc(row.updatedAt)
            case None => None
            case Some(at) => if ValidChannelRow(codec, row.(updatedAt := at)) then Some(row.(updatedAt := at)) else None
  {
    hide ValidChannelRow;
  }

  lemma TargetRead(codec: Codec, t: Tables, target: Target, p: Promotion)
    requires !target.ByResource?
    ensures var id := TargetId(target);
            ClientStep(codec, t, PromTarget(target, p), NoFault)
            == (t, if id !in t.metadata then Raise(ResourceNotFound)
                   else
                     var r := t.metadata[id];
                     if target.ByRef? && ResourceRef(r.identity, r.profile, r.digest) != target.ref then Raise(IdentityConflict)
                     else Admit(r, p, Plain))
  {
    hide ResourceId, Admit;
  }

  lemma MadeRow(codec: Codec, r: StoredResource, p: Promotion)
    requires MakeChannel(codec, DraftRow(r, p)).Some?
    ensures var row := MakeChannel(codec, DraftRow(r, p)).value;
            row.channel == ChannelOf(r, p) && row.pointerVersion == p.expected + 1 && row.pointerVersion >= 1
  {
    hide MakeChannel;
    MadeChannelRow(codec, DraftRow(r, p), MakeChannel(codec, DraftRow(r, p)).value);
  }

  // A pointer that promote makes of a resource value resolves exactly if the value's id has a row.
  lemma PromotedPointerResolvesIff(codec: Codec, t: Tables, r: StoredResource, p: Promotion)
    requires MetadataOk(codec, t) && ChannelsOk(t)
    requires Drive(codec, Alone(), 0, t, Start(codec, Promote(ByResource(r), p))).outcome.Promoted?
    ensures var e := Drive(codec, Alone(), 0, t, Start(codec, Promote(ByResource(r), p)));
            TargetOk(e.tables, e.outcome.pointer) <==> r.Id() in t.metadata
  {
    hide Drive, ResourceId, ChannelName, ChannelsOk, PromoteOnce, TargetOk, MetadataOk;
    var c := Start(codec, Promote(ByResource(r), p));
    if c.Done? {
      DriveDone(codec, 0, t, c.outcome);
    } else {
      PromoteAlone(codec, 0, t, r, p, Plain);
      PromotedRow(codec, t, r, p);
    }
  }

  lemma PromotedRow(codec: Codec, t: Tables, r: StoredResource, p: Promotion)
    requires MetadataOk(codec, t) && PromoteOnce(codec, t, r, p, Plain).0.Promoted?
    ensures var (o, u) := PromoteOnce(codec, t, r, p, Plain); TargetOk(u, o.pointer) <==> r.Id() in t.metadata
  {
    hide ResourceId, ChannelVersionId, MakeChannel, Holds, MetadataOk, ValidChannelRow;
    MadeChannelRow(codec, DraftRow(r, p), MakeChannel(codec, DraftRow(r, p)).value);
    if r.Id() in t.metadata {
      ReadIsKnown(codec, t, r.Id());
      ResourceIdInjective(t.metadata[r.Id()].identity, r.identity);
    }
  }

  // ---------------------------------------------------------------- a publication and its promotion, alone

  function PointingOf(who: Publisher, channel: string, expected: int, at: string): Promotion {
    Promotion(channel, expected, who.actor, at, Some(who.profile))
  }

  // Why the promotion asked for is not even begun, if it is not: only one half of it is given, the
  // version is negative, or promote refuses the resource or the channel's name.
  function PointingRefused(who: Publisher, r: StoredResource, pointing: Pointing): Option<Error> {
    match (pointing.channel, pointing.expected)
    case (None, None) => None
    case (Some(channel), Some(expected)) =>
      if expected < 0 then Some(InvalidInput) else Refusal(r, PointingOf(who, channel, expected, pointing.at))
    case _ => Some(InvalidInput)
  }

  // The promotion asked for is refused, or is from another version than the channel is at, or does
  // not make a valid row.
  predicate PointingFails(codec: Codec, u: Tables, who: Publisher, r: StoredResource, pointing: Pointing) {
    || PointingRefused(who, r, pointing).Some?
    || (pointing.channel.Some? && pointing.expected.Some? &&
          var p := PointingOf(who, pointing.channel.value, pointing.expected.value, pointing.at);
          Holds(u, ChannelOf(r, p)).version != p.expected || MakeChannel(codec, DraftRow(r, p)).None?)
  }

  // The sequential specification of the end of publish, on the tables that its receipt left.
  function PointOnce(codec: Codec, u: Tables, who: Publisher, receipt: Outcome, pointing: Pointing): (Outcome, Tables)
    requires receipt.Publication?
  {
    var r := receipt.resource;
    if PointingRefused(who, r, pointing).Some? then (Raised(PointingRefused(who, r, pointing).value), u)
    else if pointing.channel.None? || pointing.expected.None? then (receipt, u)
    else
      PromoteOnce(codec, u, r, PointingOf(who, pointing.channel.value, pointing.expected.value, pointing.at),
                  Receipt(r, receipt.idempotent, receipt.objectCommitted))
  }

  lemma OnwardAlone(codec: Codec, now: nat, u: Tables, who: Publisher, o: Outcome, pointing: Pointing)
    requires ChannelsOk(u) && o.Publication? && o == Publication(o.resource, o.idempotent, who.profile == Artifact, None)
    ensures Left(Drive(codec, Alone(), now, u, Onward(who, pointing, o))) == PointOnce(codec, u, who, o, pointing)
  {
    hide Drive, ChannelsOk, ChannelName, PromoteOnce;
    var d := Onward(who, pointing, o);
    if d.Done? {
      DriveDone(codec, now, u, d.outcome);
    } else {
      PromoteAlone(codec, now, u, d.resource, d.promotion, d.finish);
    }
  }

  // Alone, publish is its publication and then, after a receipt, its promotion.
  lemma PublishThenPromote(codec: Codec, t: Tables, q: ArtifactRequest, pointing: Pointing)
    requires TablesOk(codec, t)
    ensures var (o, u) := PublishOnce(codec, t, q);
            Left(Drive(codec, Alone(), 0, t, PubLookup(q, pointing)))
            == if o.Publication? then PointOnce(codec, u, By(q), o, pointing) else (o, u)
  {
    hide Drive, PublishOnce, TablesOk, PointOnce, Onward, ResourceId, ChannelsOk;
    var w := Alone();
    PromotionComesAfter(codec, w, t, q, pointing);
    PublishAlone(codec, 0, t, q);
    var e := Drive(codec, w, 0, t, PubLookup(q, NO_POINTING));
    if e.outcome.Publication? {
      PublishOnceOk(codec, t, q);
      TablesParts(codec, e.tables);
      PlainReceipt(codec, t, q);
      OnwardAlone(codec, e.now, e.tables, By(q), e.outcome, pointing);
    }
  }

  lemma PlainReceipt(codec: Codec, t: Tables, q: ArtifactRequest)
    requires PublishOnce(codec, t, q).0.Publication?
    ensures var o := PublishOnce(codec, t, q).0; o == Publication(o.resource, o.idempotent, true, None)
  {
    hide CandidateOf, ResourceId, ObjectId, GenuineBytes, ObjectMatches, SameArtifact, WithObject, WithRow;
  }

  // The row is in the table, and points the channel asked for at the identity, by the actor, with the
  // version that follows the one expected.
  predicate PointsAsAsked(t: Tables, i: Identity, actor: string, pointing: Pointing, row: ChannelRow) {
    && row.target == ResourceId(i) && row.actor == actor
    && pointing.channel.Some? && row.channel == Channel(i.namespace, i.kind, i.name, pointing.channel.value)
    && pointing.expected == Some(row.pointerVersion - 1) && row.pointerVersion >= 1
    && ChannelVersionId(row.channel, row.pointerVersion) in t.channels
    && t.channels[ChannelVersionId(row.channel, row.pointerVersion)] == row
  }

  // What a promotion that was asked for and did not fail returns, and inserts.
  lemma PointOncePoints(codec: Codec, u: Tables, who: Publisher, receipt: Outcome, pointing: Pointing)
    requires receipt.Publication? && receipt.channel == None
    ensures var (end, v) := PointOnce(codec, u, who, receipt, pointing);
            !end.Raised? && pointing.channel.Some? ==>
              end.Publication? && end.channel.Some? && PointsAsAsked(v, receipt.resource.identity, who.actor, pointing, end.channel.value)
  {
    hide ResourceId, ChannelVersionId, MakeChannel, Holds, ChannelName, ValidChannelRow;
    if pointing.channel.Some? && pointing.expected.Some? {
      var draft := DraftRow(receipt.resource, PointingOf(who, pointing.channel.value, pointing.expected.value, pointing.at));
      if MakeChannel(codec, draft).Some? {
        MadeChannelRow(codec, draft, MakeChannel(codec, draft).value);
      }
    }
  }

  // publish can commit and then raise: exactly when.  Where nothing interferes or fails, and the
  // publication itself succeeds, publish raises if and only if the promotion asked for fails.  Whenever
  // it raises, the tables are those of the publication, the resource's row among them.
  lemma PublishedThoughRaised(codec: Codec, t: Tables, q: ArtifactRequest, pointing: Pointing)
    requires TablesOk(codec, t) && PublishOnce(codec, t, q).0.Publication?
    ensures var (o, u) := PublishOnce(codec, t, q);
            var (end, v) := Left(Drive(codec, Alone(), 0, t, PubLookup(q, pointing)));
            && (end.Raised? <==> PointingFails(codec, u, By(q), o.resource, pointing))
            && (end.Raised? ==> v == u)
            && (!end.Raised? ==> end.Publication? && end == o.(channel := end.channel))
            && (!end.Raised? && pointing.channel.Some? ==>
                  end.channel.Some? && PointsAsAsked(v, q.identity, q.description.actor, pointing, end.channel.value))
            && v == u.(channels := v.channels)
            && ResourceId(q.identity) in v.metadata
  {
    hide Drive, PublishOnce, PointOnce, PointingFails, ResourceId, TablesOk, ChannelsOk, Within, PointsAsAsked;
    PublishThenPromote(codec, t, q, pointing);
    PublishOnceOk(codec, t, q);
    PlainReceipt(codec, t, q);
    var (o, u) := PublishOnce(codec, t, q);
    TablesParts(codec, u);
    PublishedIdentity(codec, t, q);
    PointOnceEnds(codec, u, By(q), o, pointing);
    PointOncePoints(codec, u, By(q), o, pointing);
  }

  lemma PublishedIdentity(codec: Codec, t: Tables, q: ArtifactRequest)
    requires TablesOk(codec, t) && PublishOnce(codec, t, q).0.Publication?
    ensures PublishOnce(codec, t, q).0.resource.identity == q.identity
  {
    hide CandidateOf, ResourceId, ObjectId, GenuineBytes, ObjectMatches, SameArtifact, Valid, WithObject, ObjectsOk, ProvenanceOk, ChannelsOk, OrphansOk;
    if ResourceId(q.identity) !in t.metadata {
      CandidateFacts(codec, q);
    } else {
      ReadIsKnown(codec, t, ResourceId(q.identity));
      ResourceIdInjective(t.metadata[ResourceId(q.identity)].identity, q.identity);
    }
  }

  lemma PointOnceEnds(codec: Codec, u: Tables, who: Publisher, receipt: Outcome, pointing: Pointing)
    requires ChannelsOk(u) && receipt.Publication? && receipt.channel == None
    ensures var (end, v) := PointOnce(codec, u, who, receipt, pointing);
            && (end.Raised? <==> PointingFails(codec, u, who, receipt.resource, pointing))
            && (end.Raised? ==> v == u && end != Raised(IncompletePublication))
            && (!end.Raised? ==> end.Publication? && end == receipt.(channel := end.channel))
            && v == u.(channels := v.channels) && Within(u.channels, v.channels)
  {
    hide ResourceId, ChannelVersionId, MakeChannel, Holds, ChannelName, ChannelsOk;
    if pointing.channel.Some? && pointing.expected.Some? && pointing.expected.value >= 0 {
      var r, p := receipt.resource, PointingOf(who, pointing.channel.value, pointing.expected.value, pointing.at);
      if Holds(u, ChannelOf(r, p)).version == p.expected && MakeChannel(codec, DraftRow(r, p)).Some? {
        MadeRow(codec, r, p);
        SuccessorIsFree(u, ChannelOf(r, p), p.expected + 1);
      }
    }
  }

  // An input: a first publication that asks for a promotion from version 1 of a channel without rows.
  lemma StalePromotionRaises(codec: Codec, q: ArtifactRequest, channel: string, at: string)
    requires GenuineBytes(codec.sha, q) && CandidateOf(codec, q).Some? && ChannelName(channel)
    ensures var e := Drive(codec, Alone(), 0, EMPTY, PubLookup(q, Pointing(Some(channel), Some(1), at)));
            e.outcome == Raised(StaleChannelPointer) && ResourceId(q.identity) in e.tables.metadata
  {
    hide Drive, CandidateOf, GenuineBytes, ChannelName, ResourceId, ObjectId, ChannelVersionId, Valid, Holds, MakeChannel;
    CandidateFacts(codec, q);
    InitiallyOk(codec);
    PublishThenPromote(codec, EMPTY, q, Pointing(Some(channel), Some(1), at));
    var u := PublishOnce(codec, EMPTY, q).1;
    EmptyRegisters();
    SameChannelsSameRegisters(u, EMPTY);
  }

  // ---------------------------------------------------------------- objects without evidence

  // The checks that publish makes before its first call.
  predicate Entered(q: ArtifactRequest) {
    ValidIdentity(q.identity) && MediaType(q.mediaType) && IsDigest(q.digest) && q.byteLength >= 0
  }

  // Alone and from its beginning, publish refuses a request that fails those checks without effect, and
  // otherwise publishes and then, after a receipt, promotes.
  lemma PublishFromStart(codec: Codec, t: Tables, q: ArtifactRequest, pointing: Pointing)
    requires TablesOk(codec, t)
    ensures var (o, u) := PublishOnce(codec, t, q);
            Left(Drive(codec, Alone(), 0, t, Start(codec, PublishArtifact(q, pointing))))
            == if !Entered(q) then (Raised(InvalidInput), t)
               else if o.Publication? then PointOnce(codec, u, Publisher(Artifact, q.description.actor), o, pointing)
               else (o, u)
  {
    hide Drive, PublishOnce, TablesOk, PointOnce, ValidIdentity, MediaType, IsDigest;
    if Entered(q) {
      PublishThenPromote(codec, t, q, pointing);
    } else {
      DriveDone(codec, 0, t, Raised(InvalidInput));
    }
  }

  // The one way for a fault-free publish to leave an object without a metadata row: a request that
  // passes those checks, with genuine bytes, under an unused identity, and with descriptive fields that
  // the model rejects once the object is in place.  It raises no IncompletePublication and records no
  // orphan row then, whatever promotion it asks for.
  lemma UnrecordedObjectIff(codec: Codec, t: Tables, q: ArtifactRequest, pointing: Pointing)
    requires TablesOk(codec, t)
    ensures var e := Drive(codec, Alone(), 0, t, Start(codec, PublishArtifact(q, pointing)));
            var id := ResourceId(q.identity);
            && (ObjectId(id) !in t.objects && ObjectId(id) in e.tables.objects && id !in e.tables.metadata <==>
                  && Entered(q) && id !in t.metadata && ObjectId(id) !in t.objects
                  && GenuineBytes(codec.sha, q) && CandidateOf(codec, q).None?)
            && e.tables.orphans == t.orphans
            && e.outcome != Raised(IncompletePublication)
  {
    hide Drive, PublishOnce, CandidateOf, ResourceId, ObjectId, TablesOk, GenuineBytes, ValidIdentity, MediaType, IsDigest, PointOnce;
    if Entered(q) {
      PublishThenPromote(codec, t, q, pointing);
      PublishOnceAdds(codec, t, q);
      var (o, u) := PublishOnce(codec, t, q);
      if o.Publication? {
        PublishOnceOk(codec, t, q);
        TablesParts(codec, u);
        PlainReceipt(codec, t, q);
        PointOnceEnds(codec, u, By(q), o, pointing);
      }
    } else {
      DriveDone(codec, 0, t, Raised(InvalidInput));
    }
  }

  // An input: an empty actor.
  lemma EmptyActorLeavesObject(codec: Codec, t: Tables, q: ArtifactRequest, pointing: Pointing)
    requires TablesOk(codec, t) && Entered(q) && GenuineBytes(codec.sha, q) && q.description.actor == ""
    requires ResourceId(q.identity) !in t.metadata && ObjectId(ResourceId(q.identity)) !in t.objects
    ensures var e := Drive(codec, Alone(), 0, t, Start(codec, PublishArtifact(q, pointing)));
            && e.outcome == Raised(InvalidInput) && e.tables.orphans == t.orphans
            && ObjectId(ResourceId(q.identity)) in e.tables.objects && ResourceId(q.identity) !in e.tables.metadata
  {
    hide Drive, ResourceId, ObjectId, TablesOk, GenuineBytes, Entered;
    NoActorNoCandidate(codec, q);
    UnrecordedObjectIff(codec, t, q, pointing);
    PublishThenPromote(codec, t, q, pointing);
    assert Start(codec, PublishArtifact(q, pointing)) == PubLookup(q, pointing) by { EnteredStarts(codec, q, pointing); }
  }

  lemma EnteredStarts(codec: Codec, q: ArtifactRequest, pointing: Pointing)
    requires Entered(q)
    ensures Start(codec, PublishArtifact(q, pointing)) == PubLookup(q, pointing)
  {
  }

  lemma NoActorNoCandidate(codec: Codec, q: ArtifactRequest)
    requires q.description.actor == ""
    ensures CandidateOf(codec, q).None?
  {
    hide ResourceId, ObjectId, Freeze;
  }

  // ---------------------------------------------------------------- a deprecation alone

  // Alone and without faults, deprecate refuses a missing row or one of the other profile, returns a
  // deprecated row as it is, and otherwise changes the state and record version of this row only.
  lemma DeprecateAlone(codec: Codec, now: nat, t: Tables, identity: Identity, profile: Profile)
    requires MetadataOk(codec, t)
    ensures var id := ResourceId(identity);
            Left(Drive(codec, Alone(), now, t, Start(codec, DeprecateResource(identity, profile))))
            == if id !in t.metadata then (Raised(ResourceNotFound), t)
               else if t.metadata[id].profile != profile then (Raised(IncompatibleProfile), t)
               else
                 var row := t.metadata[id].(state := Deprecated, recordVersion := Some(Num(2)));
                 (DeprecatedTo(row), t.(metadata := t.metadata[id := row]))
  {
    hide Drive, ClientStep, ResourceId, MetadataOk, Valid, HasObject;
    var id := ResourceId(identity);
    DriveStep(codec, now, t, DepRead(identity, profile));
    DeprecationRead(codec, t, identity, profile);
    if id !in t.metadata {
      DriveDone(codec, now + 1, t, Raised(ResourceNotFound));
    } else if t.metadata[id].profile != profile {
      DriveDone(codec, now + 1, t, Raised(IncompatibleProfile));
    } else {
      ReadIsKnown(codec, t, id);
      var row := t.metadata[id];
      var u := t.(metadata := t.metadata[id := row.(state := Deprecated, recordVersion := Some(Num(2)))]);
      if row.state == Deprecated {
        assert row == row.(state := Deprecated, recordVersion := Some(Num(2)));
        assert t.metadata[id := row] == t.metadata;
        DriveDone(codec, now + 1, t, DeprecatedTo(row));
      } else {
        DriveStep(codec, now + 1, t, DepPatch(row));
        DeprecationPatch(codec, t, row);
        DriveDone(codec, now + 2, u, DeprecatedTo(u.metadata[id]));
      }
    }
  }

  lemma DeprecationRead(codec: Codec, t: Tables, identity: Identity, profile: Profile)
    requires MetadataOk(codec, t)
    ensures var id := ResourceId(identity);
            ClientStep(codec, t, DepRead(identity, profile), NoFault)
            == (t, if id !in t.metadata then Raise(ResourceNotFound)
                   else if t.metadata[id].profile != profile then Raise(IncompatibleProfile)
                   else if t.metadata[id].state == Deprecated then Done(DeprecatedTo(t.metadata[id]))
                   else DepPatch(t.metadata[id]))
  {
    hide ResourceId, Valid, HasObject;
    if ResourceId(identity) in t.metadata {
      assert RowOk(codec, t.metadata[ResourceId(identity)], ResourceId(identity));
    }
  }

  lemma DeprecationPatch(codec: Codec, t: Tables, row: StoredResource)
    requires row.Id() in t.metadata && t.metadata[row.Id()] == row && row.recordVersion == Some(Num(1))
    ensures var patched := row.(state := Deprecated, recordVersion := Some(Num(2)));
            ClientStep(codec, t, DepPatch(row), NoFault) == (t.(metadata := t.metadata[row.Id() := patched]), Done(DeprecatedTo(patched)))
  {
    hide ResourceId;
  }
}
