// Convergence in every run: what becomes of one call among any number of clients of any kind, whose
// steps interleave with it, fail and crash as they may, while its own steps meet no fault.

module Convergence {
  import opened Basics
  import opened Canonical
  import opened References
  import opened Resources
  import opened Records
  import opened Tables
  import opened Clients
  import opened Invariants
  import opened Systems
  import opened Driving
  import opened Recovery
  import opened Promotions
  import opened Retries
  import opened Configurations

  // ---------------------------------------------------------------- one client of a run

  // The client's own steps meet no fault, and it does not crash.
  predicate Undisturbed(events: seq<Event>, id: nat) {
    forall i | 0 <= i < |events| :: events[i] != Crash(id) && (events[i].Step? && events[i].id == id ==> events[i].fault == NoFault)
  }

  // The number of its steps.
  function Steps(events: seq<Event>, id: nat): nat {
    if events == [] then 0
    else
      var e := events[|events| - 1];
      Steps(events[..|events| - 1], id) + (if e.Step? && e.id == id then 1 else 0)
  }

  lemma RunExtends(codec: Codec, x: seq<Event>, y: seq<Event>)
    requires y != []
    ensures Run(codec, x + y) == Apply(codec, Run(codec, x + y[..|y| - 1]), y[|y| - 1])
    ensures forall id :: Undisturbed(y, id) ==> Undisturbed(y[..|y| - 1], id)
  {
    hide Apply;
    assert (x + y)[..|x + y| - 1] == x + y[..|y| - 1];
  }

  lemma RankLeft(c: Client)
    ensures Listing(c) == 0 && Rank(c) == 0 ==> c.Done?
  {
  }

  // A call that lists no objects ends after as many of its own steps as its rank.
  lemma {:induction false} CallsEnd(codec: Codec, events: seq<Event>, more: seq<Event>, id: nat)
    requires id in Run(codec, events).clients && Listing(Run(codec, events).clients[id]) == 0
    ensures id in Run(codec, events + more).clients
    ensures var c, d := Run(codec, events).clients[id], Run(codec, events + more).clients[id];
            Listing(d) == 0 && (d.Done? || Rank(d) + Steps(more, id) <= Rank(c))
            && (Steps(more, id) >= Rank(c) ==> d.Done?)
  {
    hide ClientStep, Start, Rank;
    if more == [] {
      assert events + more == events;
      RankLeft(Run(codec, events).clients[id]);
    } else {
      var n := |more| - 1;
      var s := Run(codec, events + more[..n]);
      RunExtends(codec, events, more);
      CallsEnd(codec, events, more[..n], id);
      var e := more[n];
      if e.Step? && e.id == id && Running(s, id) {
        StepDescends(codec, s.tables, s.clients[id], e.fault);
        DescendsMeans(s.clients[id], ClientStep(codec, s.tables, s.clients[id], e.fault).1);
      }
      RankLeft(Run(codec, events + more).clients[id]);
    }
  }

  // ---------------------------------------------------------------- deprecation

  lemma StageStable(t: Tables, u: Tables, c: Client, identity: Identity, profile: Profile, r: StoredResource)
    requires Stage(t, c, identity, profile, r) && Grows(t, u)
    ensures Stage(u, c, identity, profile, r)
  {
    hide ResourceId, Within;
  }

  lemma {:induction false} StageInRun(codec: Codec, events: seq<Event>, more: seq<Event>, id: nat, identity: Identity, profile: Profile, r: StoredResource)
    requires id in Run(codec, events).clients && Undisturbed(more, id)
    requires Stage(Run(codec, events).tables, Run(codec, events).clients[id], identity, profile, r)
    ensures id in Run(codec, events + more).clients
    ensures Stage(Run(codec, events + more).tables, Run(codec, events + more).clients[id], identity, profile, r)
  {
    hide ClientStep, Start, Stage, SystemOk, Grows, TablesOk, ClientOk, Undisturbed;
    if more == [] {
      assert events + more == events;
    } else {
      var n := |more| - 1;
      var s, e := Run(codec, events + more[..n]), more[n];
      RunExtends(codec, events, more);
      StageInRun(codec, events, more[..n], id, identity, profile, r);
      Reachable(codec, events + more[..n]);
      ApplyKeeps(codec, s, e);
      OwnSteps(more, id);
      var u := Run(codec, events + more).tables;
      if e.Step? && e.id == id && Running(s, id) {
        RunningParts(codec, s, id);
        DeprecatingNext(codec, s.tables, s.clients[id], identity, profile, r);
      } else {
        StageStable(s.tables, u, s.clients[id], identity, profile, r);
      }
    }
  }

  lemma OwnSteps(more: seq<Event>, id: nat)
    requires more != [] && Undisturbed(more, id)
    ensures var e := more[|more| - 1]; e != Crash(id) && (e.Step? && e.id == id ==> e.fault == NoFault)
  {
  }

  lemma RunningParts(codec: Codec, s: System, id: nat)
    requires SystemOk(codec, s) && id in s.clients
    ensures TablesOk(codec, s.tables) && ClientOk(codec, s.tables, s.clients[id])
  {
  }

  lemma DeprecatingNext(codec: Codec, t: Tables, c: Client, identity: Identity, profile: Profile, r: StoredResource)
    requires !c.Done? && TablesOk(codec, t) && ClientOk(codec, t, c) && Stage(t, c, identity, profile, r)
    ensures var (u, d) := ClientStep(codec, t, c, NoFault); Stage(u, d, identity, profile, r)
  {
    hide ClientStep, ClientOk, TablesOk, Stage;
    DeprecatingStep(codec, t, c, identity, profile, r);
  }

  // Concurrent deprecation converges in every run.  From any reachable state, a deprecate of an
  // existing row of its profile, whose own steps meet no fault, ends after at most three of them; and
  // it ends with that row deprecated, every immutable field as it was.
  lemma DeprecationConvergesInRun(codec: Codec, before: seq<Event>, after: seq<Event>, id: nat, identity: Identity, profile: Profile)
    requires id !in Run(codec, before).clients && Undisturbed(after, id)
    requires var t := Run(codec, before).tables; ResourceId(identity) in t.metadata && t.metadata[ResourceId(identity)].profile == profile
    ensures var row := Run(codec, before).tables.metadata[ResourceId(identity)];
            var s := Run(codec, before + [Begin(id, DeprecateResource(identity, profile))] + after);
            && id in s.clients && ResourceId(identity) in s.tables.metadata
            && (Steps(after, id) >= 3 ==> s.clients[id].Done?)
            && (s.clients[id].Done? ==>
                  var now := s.tables.metadata[ResourceId(identity)];
                  s.clients[id] == Done(DeprecatedTo(now)) && now.state == Deprecated && Core(now) == Core(row))
  {
    hide Run, ResourceId, Undisturbed, Core;
    var e := Begin(id, DeprecateResource(identity, profile));
    var x := before + [e];
    RunExtends(codec, before, [e]);
    assert before + [e][..0] == before;
    CallsEnd(codec, x, after, id);
    StageInRun(codec, x, after, id, identity, profile, Run(codec, before).tables.metadata[ResourceId(identity)]);
  }

  // ---------------------------------------------------------------- who publishes nothing else

  // The client publishes no other content under the identity of q.
  predicate Friendly(codec: Codec, c: Client, q: ArtifactRequest) {
    match c
    case PubLookup(p, _) => p.identity == q.identity ==> Alike(q, p)
    case PubPut(p, _) => p.identity == q.identity ==> Alike(q, p)
    case PubStat(p, _) => p.identity == q.identity ==> Alike(q, p)
    case PubCommit(p, _, candidate, _) => (p.identity == q.identity ==> Alike(q, p)) && Some(candidate) == CandidateOf(codec, p)
    case PubWinner(p, _, _) => p.identity == q.identity ==> Alike(q, p)
    case CfgLookup(_, candidate) => candidate.identity != q.identity
    case CfgCommit(_, candidate) => candidate.identity != q.identity
    case CfgWinner(_, candidate) => candidate.identity != q.identity
    case _ => true
  }

  predicate FriendlyApi(api: Api, q: ArtifactRequest) {
    match api
    case PublishArtifact(p, _) => p.identity == q.identity ==> Alike(q, p)
    case PublishConfiguration(p, _) => p.identity != q.identity
    case _ => true
  }

  // Any number of clients of any kind, none of which publishes other content under the identity of q.
  predicate FriendlyRun(events: seq<Event>, q: ArtifactRequest) {
    forall i | 0 <= i < |events| && events[i].Begin? :: FriendlyApi(events[i].api, q)
  }

  // Neither publishing an artifact nor a configuration.
  predicate Past(c: Client) {
    !Publishing(c) && !c.CfgLookup? && !c.CfgCommit? && !c.CfgWinner?
  }

  lemma ConcludePast(profile: Profile, r: StoredResource, idempotent: bool, pointing: Pointing, actor: string)
    ensures Past(Conclude(profile, r, idempotent, pointing, actor))
  {
    hide ChannelName;
  }

  lemma {:induction false} AdvancePast(scan: Scan)
    ensures Past(Advance(scan))
    decreases |scan.rest|
  {
    hide Reconcilable;
    if scan.rest != [] {
      AdvancePast(scan.(rest := scan.rest[1..]));
    }
  }

  lemma DiscoveryPast(codec: Codec, c: Client, r: Response)
    requires c.DiscList? || c.DiscLookup? || c.DiscRecord? || c.DiscCheck?
    ensures Past(ResumeDiscovery(codec, c, r))
  {
    hide MakeOrphan, Advance, OrphanCandidateId;
    if c.DiscList? && r.ObjectsAre? {
      AdvancePast(Scan(r.items, r.cursor, [], c.record, c.at));
    } else if c.DiscLookup? {
      AdvancePast(c.scan);
      if c.item.declaredId.Some? && DiscoveredOrphan(codec, c.item, c.scan.at).Some? {
        AdvancePast(c.scan.(found := c.scan.found + [DiscoveredOrphan(codec, c.item, c.scan.at).value]));
      }
    } else if (c.DiscRecord? || c.DiscCheck?) && r.OrphanIs? {
      AdvancePast(c.scan.(found := c.scan.found + [r.orphan]));
    }
  }

  lemma StaysPast(codec: Codec, c: Client, r: Response)
    requires !c.Done? && Past(c)
    ensures Past(Resume(codec, c, r))
  {
    hide ResumeDiscovery, MakeChannel, ChannelName;
    if c.DiscList? || c.DiscLookup? || c.DiscRecord? || c.DiscCheck? {
      DiscoveryPast(codec, c, r);
    }
  }

  // ---------------------------------------------------------------- what they leave alone

  // Of the steps that could touch what is stored under the identity, this is none.
  predicate Elsewhere(c: Client, i: Identity) {
    match c
    case PubPut(p, _) => p.identity != i
    case PubCommit(_, _, candidate, _) => candidate.identity != i
    case CfgCommit(_, candidate) => candidate.identity != i
    case _ => true
  }

  lemma ElsewhereAddsNothing(codec: Codec, t: Tables, c: Client, fault: Fault, i: Identity)
    requires !c.Done? && Elsewhere(c, i)
    ensures var u := Perform(codec.sha, t, NextCall(c), fault).0;
            && (ResourceId(i) in u.metadata ==> ResourceId(i) in t.metadata)
            && (ObjectId(ResourceId(i)) in u.objects ==> ObjectId(ResourceId(i)) in t.objects)
  {
    hide ResourceId, OrphanCandidateId, ChannelVersionId, LatestRow, ExecListObjects;
    if c.PubPut? {
      ResourceIdInjective(c.request.identity, i);
      ObjectIdInjective(ResourceId(c.request.identity), ResourceId(i));
    } else if c.PubCommit? || c.CfgCommit? {
      ResourceIdInjective(c.candidate.identity, i);
    }
  }

  lemma ObjectIdInjective(a: string, b: string)
    ensures ObjectId(a) == ObjectId(b) ==> a == b
  {
    assert ObjectId(a)[|"artifacts/"|..] == a && ObjectId(b)[|"artifacts/"|..] == b;
  }

  lemma SameCoreSameArtifact(x: StoredResource, a: StoredResource, b: StoredResource)
    requires Core(a) == Core(b)
    ensures SameArtifact(x, a) <==> SameArtifact(x, b)
    ensures SameConfiguration(x, a) <==> SameConfiguration(x, b)
  {
    assert Core(a).identity == a.identity && Core(b).identity == b.identity;
    assert Core(a).profile == a.profile && Core(b).profile == b.profile;
    assert Core(a).mediaType == a.mediaType && Core(b).mediaType == b.mediaType;
    assert Core(a).digest == a.digest && Core(b).digest == b.digest;
    assert Core(a).byteLength == a.byteLength && Core(b).byteLength == b.byteLength;
    assert Core(a).objectRef == a.objectRef && Core(b).objectRef == b.objectRef;
    assert Core(a).labels == a.labels && Core(b).labels == b.labels;
    assert Core(a).annotations == a.annotations && Core(b).annotations == b.annotations;
    assert Core(a).provenance == a.provenance && Core(b).provenance == b.provenance;
    assert Core(a).supersedes == a.supersedes && Core(b).supersedes == b.supersedes;
    assert Core(a).versionOrder == a.versionOrder && Core(b).versionOrder == b.versionOrder;
    assert Core(a).payload == a.payload && Core(b).payload == b.payload;
    assert Core(a).payloadSchema == a.payloadSchema && Core(b).payloadSchema == b.payloadSchema;
  }

  lemma CompatibleGrows(codec: Codec, t: Tables, u: Tables, q: ArtifactRequest)
    requires Compatible(codec, t, q) && Grows(t, u)
    requires ResourceId(q.identity) in u.metadata ==> ResourceId(q.identity) in t.metadata
    requires ObjectId(ResourceId(q.identity)) in u.objects ==> ObjectId(ResourceId(q.identity)) in t.objects
    ensures Compatible(codec, u, q)
  {
    hide CandidateOf, SameArtifact, ObjectMatches, ResourceId, ObjectId, Core;
    var id := ResourceId(q.identity);
    if id in u.metadata {
      SameCoreSameArtifact(CandidateOf(codec, q).value, t.metadata[id], u.metadata[id]);
    }
  }

  // ---------------------------------------------------------------- publishers of the same content

  lemma OnlyOwnCandidates(codec: Codec, t: Tables, c: Client, fault: Fault)
    requires Publishing(c) && ObjectsOk(codec.sha, t)
    requires c.PubCommit? ==> Some(c.candidate) == CandidateOf(codec, c.request) && ObjectId(ResourceId(c.request.identity)) in t.objects
    ensures var d := ClientStep(codec, t, c, fault).1;
            && (Publishing(d) ==> d.request == c.request)
            && (d.PubCommit? ==> Some(d.candidate) == CandidateOf(codec, c.request))
            && !d.CfgLookup? && !d.CfgCommit? && !d.CfgWinner?
  {
    hide CandidateOf, ClientStep, ObjectsOk, ResourceId, ObjectId;
    if c.PubPut? || c.PubStat? {
      ObjectAttempt(codec, t, c, c.request, fault);
    } else if c.PubCommit? {
      CommitGoesOn(codec, t, c, fault);
    } else {
      LookupAttempt(codec, t, c, c.request, fault);
      LookupGoesOn(codec, t, c, fault);
    }
  }

  lemma CommitGoesOn(codec: Codec, t: Tables, c: Client, fault: Fault)
    requires c.PubCommit?
    ensures var d := ClientStep(codec, t, c, fault).1; if d.PubWinner? then d.request == c.request else Past(d)
  {
    hide ResourceId, ObjectId, FailedPublication, SameArtifact, Conclude;
    var r := Perform(codec.sha, t, NextCall(c), fault).1;
    if r.ResourceIs? {
      ConcludePast(Artifact, r.row, c.objectIdempotent, c.pointing, c.request.description.actor);
    }
  }

  lemma LookupGoesOn(codec: Codec, t: Tables, c: Client, fault: Fault)
    requires c.PubLookup? || c.PubWinner?
    ensures var d := ClientStep(codec, t, c, fault).1; if d.PubPut? then d.request == c.request else Past(d)
  {
    hide ResourceId, ObjectId, ArtifactCandidate, FailedPublication, SameArtifact, Conclude;
    var r := Perform(codec.sha, t, NextCall(c), fault).1;
    if r.ResourceIs? {
      ConcludePast(Artifact, r.row, true, c.pointing, c.request.description.actor);
    }
  }

  lemma ConfigurationGoesOn(codec: Codec, t: Tables, c: Client, fault: Fault)
    requires c.CfgLookup? || c.CfgCommit? || c.CfgWinner?
    ensures var d := ClientStep(codec, t, c, fault).1;
            if d.CfgCommit? || d.CfgWinner? then d.candidate == c.candidate && d.pointing == c.pointing else Past(d)
  {
    hide ResourceId, SameConfiguration, Conclude;
    var r := Perform(codec.sha, t, NextCall(c), fault).1;
    if r.ResourceIs? {
      ConcludePast(Configuration, r.row, true, c.pointing, c.candidate.createdBy);
      ConcludePast(Configuration, r.row, false, c.pointing, c.candidate.createdBy);
    }
  }

  lemma AlikeObjectMatches(q: ArtifactRequest, p: ArtifactRequest)
    requires Alike(q, p)
    ensures ObjectMatches(ObjectOf(p).metadata, q)
  {
    hide ResourceId, ObjectId;
  }

  lemma AlikeRowMatches(codec: Codec, q: ArtifactRequest, p: ArtifactRequest)
    requires Alike(q, p) && CandidateOf(codec, q).Some? && CandidateOf(codec, p).Some?
    ensures SameArtifact(CandidateOf(codec, q).value, CandidateOf(codec, p).value.(recordVersion := Some(Num(1))))
    ensures CandidateOf(codec, p).value.Id() == ResourceId(p.identity)
  {
    hide CandidateOf, ResourceId, ObjectId, Valid;
    CandidateFacts(codec, q);
    CandidateFacts(codec, p);
  }

  // A step of a publisher of the same content, by another actor or at another time and under any
  // fault, keeps what is stored compatible with q.
  lemma AttemptKeepsCompatible(codec: Codec, t: Tables, c: Client, q: ArtifactRequest, p: ArtifactRequest, fault: Fault)
    requires TablesOk(codec, t) && Compatible(codec, t, q) && Alike(q, p) && CandidateOf(codec, q).Some?
    requires Publishing(c) && c.request == p && Attempting(codec, t, c, p)
    ensures Compatible(codec, ClientStep(codec, t, c, fault).0, q)
  {
    hide ClientStep, CandidateOf, MetadataOk, ChannelsOk, OrphansOk, ResourceId, ObjectId, GenuineBytes, Within, SameArtifact, ObjectMatches, ObjectOf;
    if c.PubPut? || c.PubStat? {
      ObjectAttempt(codec, t, c, p, fault);
      AlikeObjectMatches(q, p);
    } else if c.PubCommit? {
      CommitAttempt(codec, t, c, p, fault);
      AlikeRowMatches(codec, q, p);
    } else {
      LookupAttempt(codec, t, c, p, fault);
    }
  }

  lemma ReadyHasObject(codec: Codec, t: Tables, c: Client)
    requires c.PubCommit? && ClientOk(codec, t, c)
    ensures ObjectId(ResourceId(c.request.identity)) in t.objects && c.candidate.identity == c.request.identity
  {
    hide Valid, ResourceId, ObjectId;
  }

  // A step of any client that publishes nothing else under the identity keeps what is stored compatible
  // with q, and leaves the client such a client.
  lemma FriendlyStep(codec: Codec, t: Tables, c: Client, q: ArtifactRequest, fault: Fault)
    requires !c.Done? && TablesOk(codec, t) && ClientOk(codec, t, c)
    requires Friendly(codec, c, q) && Compatible(codec, t, q) && CandidateOf(codec, q).Some?
    ensures var (u, d) := ClientStep(codec, t, c, fault); Compatible(codec, u, q) && Friendly(codec, d, q)
  {
    hide Resume, Perform, NextCall, ClientOk, CandidateOf, Alike, Compatible, ResourceId, ObjectId, MetadataOk, ObjectsOk, ProvenanceOk, ChannelsOk, OrphansOk, Grows;
    var (u, r) := Perform(codec.sha, t, NextCall(c), fault);
    if c.PubCommit? {
      ReadyHasObject(codec, t, c);
    }
    if Publishing(c) {
      OnlyOwnCandidates(codec, t, c, fault);
    } else if c.CfgLookup? || c.CfgCommit? || c.CfgWinner? {
      ConfigurationGoesOn(codec, t, c, fault);
    } else {
      StaysPast(codec, c, r);
    }
    if Publishing(c) && c.request.identity == q.identity {
      AttemptKeepsCompatible(codec, t, c, q, c.request, fault);
    } else {
      StepOk(codec, t, c, fault);
      ElsewhereAddsNothing(codec, t, c, fault, q.identity);
      CompatibleGrows(codec, t, u, q);
    }
  }

  ghost predicate Crowd(codec: Codec, s: System, q: ArtifactRequest) {
    Compatible(codec, s.tables, q) && forall id | id in s.clients :: Friendly(codec, s.clients[id], q)
  }

  lemma FriendlyStart(codec: Codec, api: Api, q: ArtifactRequest)
    requires FriendlyApi(api, q)
    ensures Friendly(codec, Start(codec, api), q)
  {
    hide Valid, Make, ChannelName, MediaType, ValidIdentity, IsDigest, Alike;
    if api.PublishConfiguration? && ConfigurationCandidate(codec, api.configuration).Some? {
      CandidateIs(codec, api.configuration);
    }
  }

  lemma FriendlyCrash(codec: Codec, q: ArtifactRequest)
    ensures Friendly(codec, Done(Crashed), q)
  {
  }

  lemma ApplyFriendly(codec: Codec, s: System, e: Event, q: ArtifactRequest)
    requires SystemOk(codec, s) && Crowd(codec, s, q) && CandidateOf(codec, q).Some?
    requires e.Begin? ==> FriendlyApi(e.api, q)
    ensures Crowd(codec, Apply(codec, s, e), q)
  {
    hide ClientStep, Start, Friendly, FriendlyApi, Compatible, CandidateOf, TablesOk, ClientOk, Credited;
    match e
    case Begin(id, api) => FriendlyStart(codec, api, q);
    case Step(id, fault) =>
      if Running(s, id) {
        assert ClientOk(codec, s.tables, s.clients[id]);
        FriendlyStep(codec, s.tables, s.clients[id], q, fault);
      }
    case Crash(id) => FriendlyCrash(codec, q);
  }

  lemma FriendlyBefore(events: seq<Event>, q: ArtifactRequest)
    requires events != [] && FriendlyRun(events, q)
    ensures FriendlyRun(events[..|events| - 1], q)
    ensures var e := events[|events| - 1]; e.Begin? ==> FriendlyApi(e.api, q)
  {
    hide FriendlyApi;
  }

  // In every such run, all that is stored under the identity is compatible with q, at all times.
  lemma {:induction false} CrowdStays(codec: Codec, events: seq<Event>, q: ArtifactRequest)
    requires FriendlyRun(events, q) && CandidateOf(codec, q).Some?
    ensures Crowd(codec, Run(codec, events), q)
  {
    hide Apply, SystemOk, Friendly, FriendlyRun, FriendlyApi, CandidateOf;
    if events != [] {
      FriendlyBefore(events, q);
      CrowdStays(codec, events[..|events| - 1], q);
      Reachable(codec, events[..|events| - 1]);
      ApplyFriendly(codec, Run(codec, events[..|events| - 1]), events[|events| - 1], q);
    }
  }

  // ---------------------------------------------------------------- publication

  // How far the publication of q has come: on its track as long as it publishes, and its row is there
  // once it does not.
  predicate Way(codec: Codec, t: Tables, c: Client, q: ArtifactRequest, pointing: Pointing) {
    if Publishing(c) then c.request == q && c.pointing == pointing && OnTrack(codec, t, Strip(c), q)
    else
      && Past(c) && CandidateOf(codec, q).Some? && ResourceId(q.identity) in t.metadata
      && (pointing == NO_POINTING ==> c.Done? && c.outcome.Publication? && SameArtifact(CandidateOf(codec, q).value, c.outcome.resource))
  }

  lemma WayStable(codec: Codec, t: Tables, u: Tables, c: Client, q: ArtifactRequest, pointing: Pointing)
    requires Way(codec, t, c, q, pointing) && Grows(t, u) && Compatible(codec, u, q)
    ensures Way(codec, u, c, q, pointing)
  {
    hide OnTrack, CandidateOf, ResourceId, SameArtifact, Within, Compatible;
    if Publishing(c) {
      OnTrackStable(codec, t, u, Strip(c), q);
    }
  }

  lemma TrackEnds(codec: Codec, t: Tables, c: Client, q: ArtifactRequest)
    requires OnTrack(codec, t, c, q) && !Publishing(c)
    ensures c.Done? && c.outcome.Publication? && c.outcome == Publication(c.outcome.resource, c.outcome.idempotent, true, None)
    ensures ResourceId(q.identity) in t.metadata && CandidateOf(codec, q).Some?
            && SameArtifact(CandidateOf(codec, q).value, c.outcome.resource)
  {
    hide CandidateOf, ResourceId, SameArtifact, Compatible, GenuineBytes;
  }

  lemma TrackRequest(codec: Codec, t: Tables, c: Client, q: ArtifactRequest)
    requires OnTrack(codec, t, c, q) && Publishing(c)
    ensures c.request == q
  {
    hide CandidateOf, ResourceId, SameArtifact, Compatible, GenuineBytes;
  }

  lemma OnwardPast(q: ArtifactRequest, pointing: Pointing, receipt: Outcome)
    requires receipt.Publication? && receipt == Publication(receipt.resource, receipt.idempotent, true, None)
    ensures Past(Onward(By(q), pointing, receipt))
    ensures Onward(By(q), NO_POINTING, receipt) == Done(receipt)
  {
    hide ChannelName;
  }

  lemma WayPublishes(codec: Codec, t: Tables, c: Client, q: ArtifactRequest, pointing: Pointing)
    requires Publishing(c) && TablesOk(codec, t) && Way(codec, t, c, q, pointing)
    ensures var (u, d) := ClientStep(codec, t, c, NoFault); Way(codec, u, d, q, pointing)
  {
    hide ClientStep, OnTrack, CandidateOf, ResourceId, SameArtifact, TablesOk, Onward;
    OnTrackStep(codec, t, Strip(c), q);
    StepAlongside(codec, t, c, NoFault);
    var (u, d) := ClientStep(codec, t, c, NoFault);
    var e := ClientStep(codec, t, Strip(c), NoFault).1;
    if Publishing(d) {
      TrackRequest(codec, u, e, q);
    } else {
      NotPublishing(c, d, e);
      TrackEnds(codec, u, e, q);
      OnwardPast(q, pointing, e.outcome);
    }
  }

  lemma NotPublishing(c: Client, d: Client, e: Client)
    requires Publishing(c) && Alongside(c, d, e) && !Publishing(d)
    ensures !Publishing(e)
  {
  }

  lemma WayNext(codec: Codec, t: Tables, c: Client, q: ArtifactRequest, pointing: Pointing)
    requires !c.Done? && TablesOk(codec, t) && ClientOk(codec, t, c) && Way(codec, t, c, q, pointing)
    ensures var (u, d) := ClientStep(codec, t, c, NoFault); Way(codec, u, d, q, pointing)
  {
    hide Resume, Perform, NextCall, OnTrack, CandidateOf, ResourceId, SameArtifact, TablesOk, ClientOk, Within;
    if Publishing(c) {
      WayPublishes(codec, t, c, q, pointing);
    } else {
      StepOk(codec, t, c, NoFault);
      StaysPast(codec, c, Perform(codec.sha, t, NextCall(c), NoFault).1);
    }
  }

  lemma {:induction false} WayInRun(codec: Codec, events: seq<Event>, more: seq<Event>, id: nat, q: ArtifactRequest, pointing: Pointing)
    requires FriendlyRun(events + more, q) && CandidateOf(codec, q).Some?
    requires id in Run(codec, events).clients && Undisturbed(more, id)
    requires Way(codec, Run(codec, events).tables, Run(codec, events).clients[id], q, pointing)
    ensures id in Run(codec, events + more).clients
    ensures Way(codec, Run(codec, events + more).tables, Run(codec, events + more).clients[id], q, pointing)
  {
    hide ClientStep, Start, Way, SystemOk, Grows, TablesOk, ClientOk, Undisturbed, FriendlyRun, Compatible, CandidateOf, Friendly;
    if more == [] {
      assert events + more == events;
    } else {
      var n := |more| - 1;
      var x := events + more[..n];
      var s, e := Run(codec, x), more[n];
      RunExtends(codec, events, more);
      assert x == (events + more)[..|events + more| - 1];
      FriendlyBefore(events + more, q);
      WayInRun(codec, events, more[..n], id, q, pointing);
      Reachable(codec, x);
      ApplyKeeps(codec, s, e);
      CrowdStays(codec, events + more, q);
      OwnSteps(more, id);
      if e.Step? && e.id == id && Running(s, id) {
        RunningParts(codec, s, id);
        WayNext(codec, s.tables, s.clients[id], q, pointing);
      } else {
        WayStable(codec, s.tables, Run(codec, events + more).tables, s.clients[id], q, pointing);
      }
    }
  }

  lemma WayStarts(codec: Codec, t: Tables, q: ArtifactRequest, pointing: Pointing)
    requires Compatible(codec, t, q) && CandidateOf(codec, q).Some? && GenuineBytes(codec.sha, q)
    ensures Way(codec, t, PubLookup(q, pointing), q, pointing)
  {
    hide CandidateOf, GenuineBytes, Compatible;
  }

  // Publication converges in every run.  Among any number of clients of any kind, none of which ever
  // publishes other content under the identity, and whatever attempts of theirs have failed or crashed
  // before or do so meanwhile, a publish of valid fields and genuine bytes whose own steps meet no fault
  // ends after at most nine of them; and when it has ended, the row and the object of the requested
  // publication are in place, and, unless it was to end with a promotion, so it says in its receipt.
  lemma PublicationConvergesInRun(codec: Codec, before: seq<Event>, after: seq<Event>, id: nat, q: ArtifactRequest, pointing: Pointing)
    requires Entered(q) && CandidateOf(codec, q).Some? && GenuineBytes(codec.sha, q)
    requires id !in Run(codec, before).clients && Undisturbed(after, id)
    requires FriendlyRun(before + [Begin(id, PublishArtifact(q, pointing))] + after, q)
    ensures var s := Run(codec, before + [Begin(id, PublishArtifact(q, pointing))] + after);
            && id in s.clients
            && (Steps(after, id) >= 9 ==> s.clients[id].Done?)
            && (s.clients[id].Done? ==>
                  var key := ResourceId(q.identity);
                  && key in s.tables.metadata && SameArtifact(CandidateOf(codec, q).value, s.tables.metadata[key])
                  && ObjectId(key) in s.tables.objects && ObjectMatches(s.tables.objects[ObjectId(key)].metadata, q)
                  && (pointing == NO_POINTING ==>
                        && s.clients[id].outcome.Publication?
                        && SameArtifact(CandidateOf(codec, q).value, s.clients[id].outcome.resource)))
  {
    hide Run, Entered, CandidateOf, GenuineBytes, ResourceId, ObjectId, SameArtifact, ObjectMatches, Undisturbed, FriendlyRun, TablesOk,
         ClientOk, Credited, Friendly, OnTrack;
    var e := Begin(id, PublishArtifact(q, pointing));
    var x := before + [e];
    RunExtends(codec, before, [e]);
    assert before + [e][..0] == before;
    EnteredStarts(codec, q, pointing);
    assert Run(codec, x).clients[id] == PubLookup(q, pointing);
    FriendlyPrefix(x, after, q);
    CrowdStays(codec, x, q);
    WayStarts(codec, Run(codec, x).tables, q, pointing);
    CallsEnd(codec, x, after, id);
    WayInRun(codec, x, after, id, q, pointing);
    CrowdStays(codec, x + after, q);
    Reachable(codec, x + after);
    var s := Run(codec, x + after);
    if s.clients[id].Done? {
      ArtifactHasObject(codec, s.tables, q);
    }
  }

  lemma FriendlyPrefix(x: seq<Event>, y: seq<Event>, q: ArtifactRequest)
    requires FriendlyRun(x + y, q)
    ensures FriendlyRun(x, q)
  {
    hide FriendlyApi;
    forall i | 0 <= i < |x| && x[i].Begin?
      ensures FriendlyApi(x[i].api, q)
    {
      assert (x + y)[i] == x[i];
    }
  }

  // ---------------------------------------------------------------- configurations

  // The client publishes nothing else than the configuration r under its identity.
  predicate Concordant(c: Client, r: StoredResource) {
    match c
    case CfgLookup(_, candidate) => candidate.identity == r.identity ==> SameConfiguration(r, candidate)
    case CfgCommit(_, candidate) => candidate.identity == r.identity ==> SameConfiguration(r, candidate)
    case CfgWinner(_, candidate) => candidate.identity == r.identity ==> SameConfiguration(r, candidate)
    case _ => Publishing(c) ==> c.request.identity != r.identity
  }

  predicate ConcordantApi(codec: Codec, api: Api, r: StoredResource) {
    match api
    case PublishArtifact(p, _) => p.identity != r.identity
    case PublishConfiguration(p, _) =>
      p.identity == r.identity && ConfigurationCandidate(codec, p).Some? ==> SameConfiguration(r, ConfigurationCandidate(codec, p).value)
    case _ => true
  }

  predicate ConcordantRun(codec: Codec, events: seq<Event>, r: StoredResource) {
    forall i | 0 <= i < |events| && events[i].Begin? :: ConcordantApi(codec, events[i].api, r)
  }

  lemma AgreesGrows(t: Tables, u: Tables, r: StoredResource)
    requires Agrees(t, r) && Grows(t, u) && (r.Id() in u.metadata ==> r.Id() in t.metadata)
    ensures Agrees(u, r)
  {
    hide SameConfiguration, ResourceId, Core;
    if r.Id() in u.metadata {
      SameCoreSameArtifact(r, t.metadata[r.Id()], u.metadata[r.Id()]);
    }
  }

  lemma SameCommitAgrees(codec: Codec, t: Tables, c: Client, r: StoredResource, fault: Fault)
    requires c.CfgCommit? && c.candidate.identity == r.identity && SameConfiguration(r, c.candidate) && Agrees(t, r)
    ensures Agrees(ClientStep(codec, t, c, fault).0, r)
  {
    hide ResourceId, Resume;
  }

  // A step of any client that publishes nothing else under the identity keeps what is stored in
  // agreement with r, and leaves the client such a client.
  lemma ConcordantStep(codec: Codec, t: Tables, c: Client, r: StoredResource, fault: Fault)
    requires !c.Done? && TablesOk(codec, t) && ClientOk(codec, t, c) && Concordant(c, r) && Agrees(t, r)
    requires c.PubCommit? ==> Some(c.candidate) == CandidateOf(codec, c.request)
    ensures var (u, d) := ClientStep(codec, t, c, fault);
            Agrees(u, r) && Concordant(d, r) && (d.PubCommit? ==> Some(d.candidate) == CandidateOf(codec, d.request))
  {
    hide Resume, Perform, NextCall, ClientOk, CandidateOf, Agrees, ResourceId, ObjectId, MetadataOk, ObjectsOk, ProvenanceOk, ChannelsOk, OrphansOk,
         Grows, SameConfiguration;
    var (u, reply) := Perform(codec.sha, t, NextCall(c), fault);
    if c.PubCommit? {
      ReadyHasObject(codec, t, c);
    }
    if Publishing(c) {
      OnlyOwnCandidates(codec, t, c, fault);
    } else if c.CfgLookup? || c.CfgCommit? || c.CfgWinner? {
      ConfigurationGoesOn(codec, t, c, fault);
    } else {
      StaysPast(codec, c, reply);
    }
    if c.CfgCommit? && c.candidate.identity == r.identity {
      SameCommitAgrees(codec, t, c, r, fault);
    } else {
      StepOk(codec, t, c, fault);
      ElsewhereAddsNothing(codec, t, c, fault, r.identity);
      AgreesGrows(t, u, r);
    }
  }

  ghost predicate Concord(codec: Codec, s: System, r: StoredResource) {
    && Agrees(s.tables, r)
    && forall id | id in s.clients ::
      && Concordant(s.clients[id], r)
      && (s.clients[id].PubCommit? ==> Some(s.clients[id].candidate) == CandidateOf(codec, s.clients[id].request))
  }

  lemma ConcordantStart(codec: Codec, api: Api, r: StoredResource)
    requires ConcordantApi(codec, api, r)
    ensures Concordant(Start(codec, api), r) && !Start(codec, api).PubCommit?
  {
    hide Valid, Make, ChannelName, MediaType, ValidIdentity, IsDigest, SameConfiguration;
    if api.PublishConfiguration? && ConfigurationCandidate(codec, api.configuration).Some? {
      CandidateIs(codec, api.configuration);
    }
  }

  lemma ConcordantCrash(r: StoredResource)
    ensures Concordant(Done(Crashed), r)
  {
  }

  lemma ApplyConcordant(codec: Codec, s: System, e: Event, r: StoredResource)
    requires SystemOk(codec, s) && Concord(codec, s, r)
    requires e.Begin? ==> ConcordantApi(codec, e.api, r)
    ensures Concord(codec, Apply(codec, s, e), r)
  {
    hide ClientStep, Start, Concordant, ConcordantApi, Agrees, CandidateOf, TablesOk, ClientOk, Credited;
    match e
    case Begin(id, api) => ConcordantStart(codec, api, r);
    case Step(id, fault) =>
      if Running(s, id) {
        assert ClientOk(codec, s.tables, s.clients[id]);
        ConcordantStep(codec, s.tables, s.clients[id], r, fault);
      }
    case Crash(id) => ConcordantCrash(r);
  }

  lemma ConcordantBefore(codec: Codec, events: seq<Event>, r: StoredResource)
    requires events != [] && ConcordantRun(codec, events, r)
    ensures ConcordantRun(codec, events[..|events| - 1], r)
    ensures var e := events[|events| - 1]; e.Begin? ==> ConcordantApi(codec, e.api, r)
  {
    hide ConcordantApi;
  }

  // In every such run, all that is stored under the identity agrees with r, at all times.
  lemma {:induction false} ConcordStays(codec: Codec, events: seq<Event>, r: StoredResource)
    requires ConcordantRun(codec, events, r)
    ensures Concord(codec, Run(codec, events), r)
  {
    hide Apply, SystemOk, Concordant, ConcordantRun, ConcordantApi, CandidateOf;
    if events != [] {
      ConcordantBefore(codec, events, r);
      ConcordStays(codec, events[..|events| - 1], r);
      Reachable(codec, events[..|events| - 1]);
      ApplyConcordant(codec, Run(codec, events[..|events| - 1]), events[|events| - 1], r);
    }
  }

  // How far the publication of the configuration r has come.
  predicate Course(t: Tables, c: Client, r: StoredResource, pointing: Pointing) {
    match c
    case CfgLookup(p, candidate) => p == pointing && candidate == r
    case CfgCommit(p, candidate) => p == pointing && candidate == r
    case CfgWinner(p, candidate) => p == pointing && candidate == r && r.Id() in t.metadata
    case _ =>
      && Past(c) && r.Id() in t.metadata
      && (pointing == NO_POINTING ==> c.Done? && c.outcome.Publication? && SameConfiguration(r, c.outcome.resource))
  }

  lemma CourseStable(t: Tables, u: Tables, c: Client, r: StoredResource, pointing: Pointing)
    requires Course(t, c, r, pointing) && Grows(t, u)
    ensures Course(u, c, r, pointing)
  {
    hide ResourceId, SameConfiguration, Within;
  }

  lemma ConcludesCourse(profile: Profile, q: StoredResource, idempotent: bool, pointing: Pointing, actor: string)
    ensures Past(Conclude(profile, q, idempotent, pointing, actor))
    ensures Conclude(profile, q, idempotent, NO_POINTING, actor) == Done(Publication(q, idempotent, profile == Artifact, None))
  {
    hide ChannelName;
  }

  lemma CourseConfigures(codec: Codec, t: Tables, c: Client, r: StoredResource, pointing: Pointing)
    requires c.CfgLookup? || c.CfgCommit? || c.CfgWinner?
    requires ProvenanceOk(t) && Agrees(t, r) && Course(t, c, r, pointing)
    ensures var (u, d) := ClientStep(codec, t, c, NoFault); Course(u, d, r, pointing)
  {
    hide ResourceId, SameConfiguration, Conclude;
    var reply := Perform(codec.sha, t, NextCall(c), NoFault).1;
    CommittedSame(r);
    if reply.ResourceIs? {
      ConcludesCourse(Configuration, reply.row, true, pointing, r.createdBy);
      ConcludesCourse(Configuration, reply.row, false, pointing, r.createdBy);
    }
  }

  lemma CommittedSame(r: StoredResource)
    ensures SameConfiguration(r, r.(recordVersion := Some(Num(1))))
  {
  }

  lemma CourseNext(codec: Codec, t: Tables, c: Client, r: StoredResource, pointing: Pointing)
    requires !c.Done? && TablesOk(codec, t) && ClientOk(codec, t, c) && Agrees(t, r) && Course(t, c, r, pointing)
    ensures var (u, d) := ClientStep(codec, t, c, NoFault); Course(u, d, r, pointing)
  {
    hide Resume, Perform, NextCall, Agrees, ResourceId, SameConfiguration, MetadataOk, ObjectsOk, ProvenanceOk, ChannelsOk, OrphansOk, ClientOk, Within;
    if c.CfgLookup? || c.CfgCommit? || c.CfgWinner? {
      CourseConfigures(codec, t, c, r, pointing);
    } else {
      StepOk(codec, t, c, NoFault);
      StaysPast(codec, c, Perform(codec.sha, t, NextCall(c), NoFault).1);
    }
  }

  lemma {:induction false} CourseInRun(codec: Codec, events: seq<Event>, more: seq<Event>, id: nat, r: StoredResource, pointing: Pointing)
    requires ConcordantRun(codec, events + more, r)
    requires id in Run(codec, events).clients && Undisturbed(more, id)
    requires Course(Run(codec, events).tables, Run(codec, events).clients[id], r, pointing)
    ensures id in Run(codec, events + more).clients
    ensures Course(Run(codec, events + more).tables, Run(codec, events + more).clients[id], r, pointing)
  {
    hide ClientStep, Start, Course, SystemOk, Grows, TablesOk, ClientOk, Undisturbed, ConcordantRun, Agrees, Concordant, CandidateOf;
    if more == [] {
      assert events + more == events;
    } else {
      var n := |more| - 1;
      var x := events + more[..n];
      var s, e := Run(codec, x), more[n];
      RunExtends(codec, events, more);
      assert x == (events + more)[..|events + more| - 1];
      ConcordantBefore(codec, events + more, r);
      CourseInRun(codec, events, more[..n], id, r, pointing);
      Reachable(codec, x);
      ApplyKeeps(codec, s, e);
      ConcordStays(codec, x, r);
      OwnSteps(more, id);
      if e.Step? && e.id == id && Running(s, id) {
        RunningParts(codec, s, id);
        CourseNext(codec, s.tables, s.clients[id], r, pointing);
      } else {
        CourseStable(s.tables, Run(codec, events + more).tables, s.clients[id], r, pointing);
      }
    }
  }

  // The same for configurations.  Among any number of clients of any kind, none of which ever publishes
  // anything else under the identity, and whatever attempts of theirs have failed or crashed before or
  // do so meanwhile, a publish of a valid configuration whose own steps meet no fault ends after at most
  // six of them; and when it has ended, its row is in place, and, unless it was to end with a promotion,
  // so it says in its receipt.
  lemma ConfigurationConvergesInRun(codec: Codec, before: seq<Event>, after: seq<Event>, id: nat, q: ConfigurationRequest, pointing: Pointing)
    requires ConfigurationCandidate(codec, q).Some?
    requires id !in Run(codec, before).clients && Undisturbed(after, id)
    requires ConcordantRun(codec, before + [Begin(id, PublishConfiguration(q, pointing))] + after, ConfigurationCandidate(codec, q).value)
    ensures var r := ConfigurationCandidate(codec, q).value;
            var s := Run(codec, before + [Begin(id, PublishConfiguration(q, pointing))] + after);
            && id in s.clients
            && (Steps(after, id) >= 6 ==> s.clients[id].Done?)
            && (s.clients[id].Done? ==>
                  && r.Id() in s.tables.metadata && SameConfiguration(r, s.tables.metadata[r.Id()])
                  && (pointing == NO_POINTING ==>
                        s.clients[id].outcome.Publication? && SameConfiguration(r, s.clients[id].outcome.resource)))
  {
    hide Run, ResourceId, SameConfiguration, Undisturbed, ConcordantRun, ConfigurationCandidate, Concordant, CandidateOf;
    var r := ConfigurationCandidate(codec, q).value;
    var e := Begin(id, PublishConfiguration(q, pointing));
    var x := before + [e];
    RunExtends(codec, before, [e]);
    assert before + [e][..0] == before;
    assert Run(codec, x).clients[id] == CfgLookup(pointing, r);
    CallsEnd(codec, x, after, id);
    CourseInRun(codec, x, after, id, r, pointing);
    ConcordStays(codec, x + after, r);
  }
}
