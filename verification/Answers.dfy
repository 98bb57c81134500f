// What the callers of promotions are told, over all interleavings: each call performs at most one
// operation on its channel's register, the one it asked for, and what it is told is what the register
// answered.

module Answers {
  import opened Basics
  import opened Canonical
  import opened References
  import opened Resources
  import opened Records
  import opened Tables
  import opened Clients
  import opened Invariants
  import opened Systems
  import opened Channels

  // ---------------------------------------------------------------- what a call asks for

  // The request with which a client began.
  function ApiOf(events: seq<Event>, id: nat): Option<Api> {
    if events == [] then None
    else
      var before, e := ApiOf(events[..|events| - 1], id), events[|events| - 1];
      if before.None? && e.Begin? && e.id == id then Some(e.api) else before
  }

  // The compare-and-set that a call asks for.
  datatype Wanted = Wanted(channel: Channel, expected: int, target: string)

  function WantedFor(i: Identity, channel: string, expected: int): Wanted {
    Wanted(Channel(i.namespace, i.kind, i.name, channel), expected, ResourceId(i))
  }

  function WantedAfter(i: Identity, pointing: Pointing): Option<Wanted> {
    match (pointing.channel, pointing.expected)
    case (Some(channel), Some(expected)) => Some(WantedFor(i, channel, expected))
    case _ => None
  }

  function IdentityOf(target: Target): Identity {
    match target
    case ByIdentity(i) => i
    case ByRef(ref) => ref.identity
    case ByResource(r) => r.identity
  }

  function Asked(api: Api): Option<Wanted> {
    match api
    case PublishArtifact(q, pointing) => WantedAfter(q.identity, pointing)
    case PublishConfiguration(q, pointing) => WantedAfter(q.identity, pointing)
    case Promote(target, p) => Some(WantedFor(IdentityOf(target), p.channel, p.expected))
    case _ => None
  }

  // The client is on its way to w and to no other operation.
  predicate Pursues(w: Option<Wanted>, c: Client) {
    match c
    case PubLookup(q, pointing) => w == WantedAfter(q.identity, pointing)
    case PubPut(q, pointing) => w == WantedAfter(q.identity, pointing)
    case PubStat(q, pointing) => w == WantedAfter(q.identity, pointing)
    case PubCommit(q, pointing, _, _) => w == WantedAfter(q.identity, pointing)
    case PubWinner(q, pointing, _) => w == WantedAfter(q.identity, pointing)
    case CfgLookup(pointing, candidate) => w == WantedAfter(candidate.identity, pointing)
    case CfgCommit(pointing, candidate) => w == WantedAfter(candidate.identity, pointing)
    case CfgWinner(pointing, candidate) => w == WantedAfter(candidate.identity, pointing)
    case PromTarget(target, p) => w == Some(WantedFor(IdentityOf(target), p.channel, p.expected))
    case PromRead(r, p, _) => w == Some(WantedFor(r.identity, p.channel, p.expected))
    case PromInsert(row, p, _) => w == Some(Wanted(row.channel, p.expected, row.target))
    case _ => true
  }

  lemma ConcludePursues(w: Option<Wanted>, profile: Profile, r: StoredResource, idempotent: bool, pointing: Pointing, actor: string)
    requires w == WantedAfter(r.identity, pointing)
    ensures Pursues(w, Conclude(profile, r, idempotent, pointing, actor))
  {
    hide ChannelName, ResourceId;
  }

  // A row read under an identity's id has that identity.
  lemma RowHasIdentity(codec: Codec, t: Tables, i: Identity)
    requires MetadataOk(codec, t) && ResourceId(i) in t.metadata
    ensures t.metadata[ResourceId(i)].identity == i
  {
    hide ResourceId, Valid, HasObject;
    ReadIsKnown(codec, t, ResourceId(i));
    ResourceIdInjective(t.metadata[ResourceId(i)].identity, i);
  }

  lemma PublishPursues(codec: Codec, t: Tables, c: Client, fault: Fault, w: Option<Wanted>)
    requires c.PubLookup? || c.PubPut? || c.PubStat? || c.PubWinner? || c.PubOrphan? || c.PubOrphanCheck?
    requires MetadataOk(codec, t) && Pursues(w, c)
    ensures Pursues(w, ClientStep(codec, t, c, fault).1)
  {
    hide ResourceId, ObjectId, MetadataOk, ArtifactCandidate, FailedPublication, SameArtifact, ObjectMatches, Conclude, OrphanCandidateId;
    if (c.PubLookup? || c.PubWinner?) && ResourceId(c.request.identity) in t.metadata {
      RowHasIdentity(codec, t, c.request.identity);
      ConcludePursues(w, Artifact, t.metadata[ResourceId(c.request.identity)], true, c.pointing, c.request.description.actor);
    }
  }

  lemma CommitPursues(codec: Codec, t: Tables, c: Client, fault: Fault, w: Option<Wanted>)
    requires c.PubCommit? && ClientOk(codec, t, c) && Pursues(w, c)
    ensures Pursues(w, ClientStep(codec, t, c, fault).1)
  {
    hide ResourceId, ObjectId, FailedPublication, SameArtifact, Conclude, Valid;
    var r := Perform(codec.sha, t, NextCall(c), fault).1;
    if r.ResourceIs? {
      ConcludePursues(w, Artifact, r.row, c.objectIdempotent, c.pointing, c.request.description.actor);
    }
  }

  lemma ConfigurationPursues(codec: Codec, t: Tables, c: Client, fault: Fault, w: Option<Wanted>)
    requires c.CfgLookup? || c.CfgCommit? || c.CfgWinner?
    requires MetadataOk(codec, t) && Pursues(w, c)
    ensures Pursues(w, ClientStep(codec, t, c, fault).1)
  {
    hide ResourceId, MetadataOk, SameConfiguration, Conclude;
    var r := Perform(codec.sha, t, NextCall(c), fault).1;
    if r.ResourceIs? {
      if !c.CfgCommit? {
        RowHasIdentity(codec, t, c.candidate.identity);
      }
      ConcludePursues(w, Configuration, r.row, true, c.pointing, c.candidate.createdBy);
      ConcludePursues(w, Configuration, r.row, false, c.pointing, c.candidate.createdBy);
    }
  }

  lemma PromotionPursues(codec: Codec, t: Tables, c: Client, fault: Fault, w: Option<Wanted>)
    requires c.PromTarget? || c.PromRead? || c.PromInsert?
    requires MetadataOk(codec, t) && Pursues(w, c)
    ensures Pursues(w, ClientStep(codec, t, c, fault).1)
  {
    hide ResourceId, MetadataOk, ChannelName, MakeChannel, LatestRow, ChannelVersionId, ValidChannelRow;
    var r := Perform(codec.sha, t, NextCall(c), fault).1;
    if c.PromTarget? && r.ResourceIs? {
      RowHasIdentity(codec, t, IdentityOf(c.target));
    } else if c.PromRead? && r.ChannelIs? {
      var version := if r.pointer.None? then 1 else r.pointer.value.pointerVersion + 1;
      var draft := ChannelRow(ChannelOf(c.resource, c.promotion), c.resource.Id(), version, c.promotion.actor, c.promotion.at, None);
      if MakeChannel(codec, draft).Some? {
        MadeChannelRow(codec, draft, MakeChannel(codec, draft).value);
      }
    }
  }

  lemma {:induction false} AdvancePursues(w: Option<Wanted>, scan: Scan)
    ensures Pursues(w, Advance(scan))
    decreases |scan.rest|
  {
    hide Reconcilable, ResourceId;
    if scan.rest != [] {
      AdvancePursues(w, scan.(rest := scan.rest[1..]));
    }
  }

  lemma DiscoveryPursues(codec: Codec, c: Client, r: Response, w: Option<Wanted>)
    requires c.DiscList? || c.DiscLookup? || c.DiscRecord? || c.DiscCheck?
    ensures Pursues(w, ResumeDiscovery(codec, c, r))
  {
    hide MakeOrphan, Advance, OrphanCandidateId, ResourceId;
    if c.DiscList? && r.ObjectsAre? {
      AdvancePursues(w, Scan(r.items, r.cursor, [], c.record, c.at));
    } else if c.DiscLookup? {
      AdvancePursues(w, c.scan);
      if c.item.declaredId.Some? && DiscoveredOrphan(codec, c.item, c.scan.at).Some? {
        AdvancePursues(w, c.scan.(found := c.scan.found + [DiscoveredOrphan(codec, c.item, c.scan.at).value]));
      }
    } else if (c.DiscRecord? || c.DiscCheck?) && r.OrphanIs? {
      AdvancePursues(w, c.scan.(found := c.scan.found + [r.orphan]));
    }
  }

  lemma DeprecationPursues(codec: Codec, c: Client, r: Response, w: Option<Wanted>)
    requires c.DepRead? || c.DepPatch? || c.DepWinner?
    ensures Pursues(w, Resume(codec, c, r))
  {
    hide ResourceId;
  }

  // A step of a client keeps to what its call asked for.
  lemma StepPursues(codec: Codec, t: Tables, c: Client, fault: Fault, w: Option<Wanted>)
    requires !c.Done? && TablesOk(codec, t) && ClientOk(codec, t, c) && Pursues(w, c)
    ensures Pursues(w, ClientStep(codec, t, c, fault).1)
  {
    hide Resume, ClientOk, Pursues, MetadataOk, ObjectsOk, ProvenanceOk, ChannelsOk, OrphansOk, Perform, NextCall;
    var r := Perform(codec.sha, t, NextCall(c), fault).1;
    if c.CfgLookup? || c.CfgCommit? || c.CfgWinner? {
      ConfigurationPursues(codec, t, c, fault, w);
    } else if c.PromTarget? || c.PromRead? || c.PromInsert? {
      PromotionPursues(codec, t, c, fault, w);
    } else if c.DepRead? || c.DepPatch? || c.DepWinner? {
      DeprecationPursues(codec, c, r, w);
    } else if c.DiscList? || c.DiscLookup? || c.DiscRecord? || c.DiscCheck? {
      DiscoveryPursues(codec, c, r, w);
      ResumeIsDiscovery(codec, c, r);
    } else if c.PubCommit? {
      CommitPursues(codec, t, c, fault, w);
    } else {
      PublishPursues(codec, t, c, fault, w);
    }
  }

  lemma StartPursues(codec: Codec, api: Api)
    ensures Pursues(Asked(api), Start(codec, api))
  {
    hide Make, Valid, ChannelName, MediaType, ValidIdentity, IsDigest, ResourceId;
    if api.PublishConfiguration? && ConfigurationCandidate(codec, api.configuration).Some? {
      var q := api.configuration;
      var payload := Freeze(q.payload);
      var encoded := codec.encode(Thaw(payload));
      MadeCandidate(codec, Candidate(q.identity, Configuration, q.mediaType, codec.sha(encoded), |encoded|, None, Some(payload),
                                     Some(q.schema), q.description), ConfigurationCandidate(codec, q).value);
    }
  }

  // Every client of a run began with some request, and pursues what that asked for.
  predicate Faithful(events: seq<Event>, s: System, id: nat)
    requires id in s.clients
  {
    ApiOf(events, id).Some? && Pursues(Asked(ApiOf(events, id).value), s.clients[id])
  }

  lemma {:induction false} ClientsPursue(codec: Codec, events: seq<Event>, id: nat)
    ensures id in Run(codec, events).clients <==> ApiOf(events, id).Some?
    ensures id in Run(codec, events).clients ==> Faithful(events, Run(codec, events), id)
  {
    hide Pursues, Asked, ClientStep, Start, SystemOk;
    if events != [] {
      var s, e := Run(codec, events[..|events| - 1]), events[|events| - 1];
      ClientsPursue(codec, events[..|events| - 1], id);
      match e
      case Begin(j, api) => StartPursues(codec, api);
      case Step(j, fault) =>
        if Running(s, j) && j == id {
          Reachable(codec, events[..|events| - 1]);
          SystemParts(codec, s, id);
          StepPursues(codec, s.tables, s.clients[id], fault, Asked(ApiOf(events[..|events| - 1], id).value));
        }
      case Crash(j) =>
        if Running(s, j) && j == id {
          CrashPursues(Asked(ApiOf(events[..|events| - 1], id).value));
        }
    }
  }

  lemma CrashPursues(w: Option<Wanted>)
    ensures Pursues(w, Done(Crashed))
  {
  }

  lemma SystemParts(codec: Codec, s: System, id: nat)
    requires SystemOk(codec, s) && id in s.clients
    ensures TablesOk(codec, s.tables) && ClientOk(codec, s.tables, s.clients[id])
  {
  }

  lemma EffectIsPursued(codec: Codec, s: System, e: Event, w: Option<Wanted>)
    requires e.Step? && Running(s, e.id) && Pursues(w, s.clients[e.id])
    ensures forall k | 0 <= k < |Effect(codec, s, e)| ::
              var op := Effect(codec, s, e)[k]; op.client == e.id && w == Some(Wanted(op.channel, op.expected, op.target))
  {
    hide ResourceId, ChannelVersionId, Holds;
  }

  // Every operation of the history is the one that its client's call asked for: its channel, its
  // expected version and its target.
  lemma {:induction false} OperationsAreAsked(codec: Codec, events: seq<Event>, k: nat)
    requires k < |History(codec, events)|
    ensures var op := History(codec, events)[k];
            && op.client in Run(codec, events).clients && ApiOf(events, op.client).Some?
            && Asked(ApiOf(events, op.client).value) == Some(Wanted(op.channel, op.expected, op.target))
  {
    hide Effect, Asked, Pursues, Start, ClientStep;
    var n := |events| - 1;
    var s, before, e := Run(codec, events[..n]), History(codec, events[..n]), events[n];
    if k < |before| {
      OperationsAreAsked(codec, events[..n], k);
    } else {
      NoEffectWithoutStep(codec, s, e);
      ClientsPursue(codec, events[..n], e.id);
      EffectIsPursued(codec, s, e, Asked(ApiOf(events[..n], e.id).value));
    }
  }

  lemma NoEffectWithoutStep(codec: Codec, s: System, e: Event)
    ensures Effect(codec, s, e) != [] ==> e.Step? && Running(s, e.id)
  {
    hide ChannelVersionId, Holds, ResourceId;
  }

  // ---------------------------------------------------------------- one operation for each call

  lemma EffectEndsCall(codec: Codec, s: System, e: Event)
    requires Effect(codec, s, e) != []
    ensures e.Step? && Running(s, e.id) && |Effect(codec, s, e)| == 1 && Effect(codec, s, e)[0].client == e.id
    ensures Apply(codec, s, e).clients[e.id].Done?
  {
    hide ChannelVersionId, ResourceId, LatestRow, MakeChannel;
  }

  lemma {:induction false} OperationsEndCalls(codec: Codec, events: seq<Event>, k: nat)
    requires k < |History(codec, events)|
    ensures var id := History(codec, events)[k].client;
            id in Run(codec, events).clients && Run(codec, events).clients[id].Done?
  {
    hide Effect, ClientStep, Start;
    var n := |events| - 1;
    var s, before := Run(codec, events[..n]), History(codec, events[..n]);
    if k < |before| {
      OperationsEndCalls(codec, events[..n], k);
    } else {
      EffectEndsCall(codec, s, events[n]);
    }
  }

  // A call performs at most one operation.
  lemma {:induction false} OneOperationPerCall(codec: Codec, events: seq<Event>, i: nat, j: nat)
    requires i < |History(codec, events)| && j < |History(codec, events)|
    requires History(codec, events)[i].client == History(codec, events)[j].client
    ensures i == j
  {
    hide Effect, ClientStep, Start;
    var n := |events| - 1;
    var s, before := Run(codec, events[..n]), History(codec, events[..n]);
    if i < |before| && j < |before| {
      OneOperationPerCall(codec, events[..n], i, j);
    } else {
      EffectEndsCall(codec, s, events[n]);
      if i < |before| {
        OperationsEndCalls(codec, events[..n], i);
      } else if j < |before| {
        OperationsEndCalls(codec, events[..n], j);
      }
    }
  }

  // ---------------------------------------------------------------- what a call is told

  // The store reports a conflict to this step only when there is one.
  predicate Honest(e: Event) {
    e.Step? ==> match e.fault case NoFault => true case LostRequest(k) => k != Conflict case LostReply(k) => k != Conflict
  }

  // ... and to this client.
  predicate HonestTo(events: seq<Event>, id: nat) {
    forall i | 0 <= i < |events| :: events[i].Step? && events[i].id == id ==> Honest(events[i])
  }

  // The pointer row that an operation returned to its caller, if it moved a channel.
  function Returned(c: Client): Option<ChannelRow> {
    match c
    case Done(Promoted(row)) => Some(row)
    case Done(Publication(_, _, _, pointer)) => pointer
    case _ => None
  }

  // A call that returned a pointer row performed the operation that made it.
  predicate Moved(ops: seq<Cas>, id: nat, c: Client) {
    Returned(c).Some? ==>
      exists k :: 0 <= k < |ops| && ops[k].client == id && ops[k].success
                  && ops[k].channel == Returned(c).value.channel && ops[k].target == Returned(c).value.target
                  && ops[k].expected + 1 == Returned(c).value.pointerVersion
  }

  // A call that ended as stale performed an operation that the register refused.
  predicate Refused(ops: seq<Cas>, id: nat, c: Client) {
    c == Raise(StaleChannelPointer) ==> exists k :: 0 <= k < |ops| && ops[k].client == id && !ops[k].success
  }

  predicate Justified(ops: seq<Cas>, id: nat, c: Client, honest: bool) {
    Moved(ops, id, c) && (honest ==> Refused(ops, id, c))
  }

  lemma ConcludeIsOpen(profile: Profile, r: StoredResource, idempotent: bool, pointing: Pointing, actor: string)
    ensures var d := Conclude(profile, r, idempotent, pointing, actor); d != Raise(StaleChannelPointer) && Returned(d) == None
  {
    hide ChannelName;
  }

  lemma {:induction false} AdvanceIsOpen(scan: Scan)
    ensures Advance(scan) != Raise(StaleChannelPointer) && Returned(Advance(scan)) == None
    decreases |scan.rest|
  {
    hide Reconcilable;
    if scan.rest != [] {
      AdvanceIsOpen(scan.(rest := scan.rest[1..]));
    }
  }

  lemma PublishIsOpen(codec: Codec, c: Client, r: Response)
    requires c.PubLookup? || c.PubPut? || c.PubStat? || c.PubCommit? || c.PubWinner? || c.PubOrphan? || c.PubOrphanCheck?
    ensures var d := ResumePublish(codec, c, r); d != Raise(StaleChannelPointer) && Returned(d) == None
  {
    hide ResourceId, ObjectId, ArtifactCandidate, FailedPublication, SameArtifact, ObjectMatches, Conclude;
    if r.ResourceIs? && (c.PubLookup? || c.PubCommit? || c.PubWinner?) {
      ConcludeIsOpen(Artifact, r.row, true, c.pointing, c.request.description.actor);
      if c.PubCommit? {
        ConcludeIsOpen(Artifact, r.row, c.objectIdempotent, c.pointing, c.request.description.actor);
      }
    }
  }

  lemma ConfigurationIsOpen(c: Client, r: Response)
    requires c.CfgLookup? || c.CfgCommit? || c.CfgWinner?
    ensures var d := ResumeConfiguration(c, r); d != Raise(StaleChannelPointer) && Returned(d) == None
  {
    hide SameConfiguration, Conclude;
    if r.ResourceIs? {
      ConcludeIsOpen(Configuration, r.row, true, c.pointing, c.candidate.createdBy);
      ConcludeIsOpen(Configuration, r.row, false, c.pointing, c.candidate.createdBy);
    }
  }

  lemma DiscoveryIsOpen(codec: Codec, c: Client, r: Response)
    requires c.DiscList? || c.DiscLookup? || c.DiscRecord? || c.DiscCheck?
    ensures var d := ResumeDiscovery(codec, c, r); d != Raise(StaleChannelPointer) && Returned(d) == None
  {
    hide MakeOrphan, Advance, OrphanCandidateId;
    if c.DiscList? && r.ObjectsAre? {
      AdvanceIsOpen(Scan(r.items, r.cursor, [], c.record, c.at));
    } else if c.DiscLookup? {
      AdvanceIsOpen(c.scan);
      if c.item.declaredId.Some? && DiscoveredOrphan(codec, c.item, c.scan.at).Some? {
        AdvanceIsOpen(c.scan.(found := c.scan.found + [DiscoveredOrphan(codec, c.item, c.scan.at).value]));
      }
    } else if (c.DiscRecord? || c.DiscCheck?) && r.OrphanIs? {
      AdvanceIsOpen(c.scan.(found := c.scan.found + [r.orphan]));
    }
  }

  // Only a promoter's read or insert can end a call as stale or with a pointer row.
  lemma OthersAreOpen(codec: Codec, c: Client, r: Response)
    requires !c.Done? && !c.PromRead? && !c.PromInsert?
    ensures var d := Resume(codec, c, r); d != Raise(StaleChannelPointer) && Returned(d) == None
  {
    hide ResumePublish, ResumeConfiguration, ResumeDiscovery, ChannelName;
    if c.CfgLookup? || c.CfgCommit? || c.CfgWinner? {
      ConfigurationIsOpen(c, r);
    } else if c.PromTarget? || c.DepRead? || c.DepPatch? || c.DepWinner? {
    } else if c.DiscList? || c.DiscLookup? || c.DiscRecord? || c.DiscCheck? {
      DiscoveryIsOpen(codec, c, r);
    } else {
      PublishIsOpen(codec, c, r);
    }
  }

  lemma PromotionEndsWithEffect(codec: Codec, s: System, e: Event)
    requires e.Step? && Running(s, e.id)
    requires s.clients[e.id].PromRead? || s.clients[e.id].PromInsert?
    requires ClientOk(codec, s.tables, s.clients[e.id])
    ensures Justified(Effect(codec, s, e), e.id, Apply(codec, s, e).clients[e.id], Honest(e))
  {
    hide ChannelVersionId, ResourceId, LatestRow, MakeChannel, FinishOk;
    var c := s.clients[e.id];
    var ops := Effect(codec, s, e);
    if ops != [] {
      assert ops[0].client == e.id;
    }
  }

  lemma StepJustified(codec: Codec, s: System, e: Event)
    requires e.Step? && Running(s, e.id) && ClientOk(codec, s.tables, s.clients[e.id])
    ensures Justified(Effect(codec, s, e), e.id, Apply(codec, s, e).clients[e.id], Honest(e))
  {
    hide Effect, Resume, ClientOk, Returned;
    if s.clients[e.id].PromRead? || s.clients[e.id].PromInsert? {
      PromotionEndsWithEffect(codec, s, e);
    } else {
      OthersAreOpen(codec, s.clients[e.id], Perform(codec.sha, s.tables, NextCall(s.clients[e.id]), e.fault).1);
    }
  }

  lemma JustifiedGrows(ops: seq<Cas>, more: seq<Cas>, id: nat, c: Client, honest: bool)
    requires Justified(ops, id, c, honest) || Justified(more, id, c, honest)
    ensures Justified(ops + more, id, c, honest)
  {
    hide Returned;
    var all := ops + more;
    assert forall k :: 0 <= k < |ops| ==> all[k] == ops[k];
    assert forall k :: 0 <= k < |more| ==> all[|ops| + k] == more[k];
  }

  lemma JustifiedLess(ops: seq<Cas>, id: nat, c: Client, honest: bool, less: bool)
    requires Justified(ops, id, c, honest) && (less ==> honest)
    ensures Justified(ops, id, c, less)
  {
    hide Moved, Refused;
  }

  lemma StartIsOpen(codec: Codec, api: Api, id: nat)
    ensures Justified([], id, Start(codec, api), true) && Justified([], id, Done(Crashed), true)
  {
    hide ConfigurationCandidate, ValidIdentity, MediaType, IsDigest, ChannelName;
  }

  lemma HonestBefore(events: seq<Event>, id: nat)
    requires events != []
    ensures HonestTo(events, id) ==> HonestTo(events[..|events| - 1], id)
    ensures HonestTo(events, id) && events[|events| - 1].Step? && events[|events| - 1].id == id ==> Honest(events[|events| - 1])
  {
  }

  lemma {:induction false} AnswersJustified(codec: Codec, events: seq<Event>, id: nat)
    requires id in Run(codec, events).clients
    ensures Justified(History(codec, events), id, Run(codec, events).clients[id], HonestTo(events, id))
  {
    hide Justified, Effect, ClientStep, SystemOk, Start, HonestTo, Honest;
    if events != [] {
      var n := |events| - 1;
      var s, e := Run(codec, events[..n]), events[n];
      var before, ops, honest := History(codec, events[..n]), Effect(codec, s, e), HonestTo(events, id);
      var c := Run(codec, events).clients[id];
      Reachable(codec, events[..n]);
      HonestBefore(events, id);
      if e.Step? && Running(s, id) && e.id == id {
        SystemParts(codec, s, id);
        StepJustified(codec, s, e);
        JustifiedLess(ops, id, c, Honest(e), honest);
        JustifiedGrows(before, ops, id, c, honest);
      } else if id in s.clients && c == s.clients[id] {
        AnswersJustified(codec, events[..n], id);
        JustifiedLess(before, id, c, HonestTo(events[..n], id), honest);
        JustifiedGrows(before, ops, id, c, honest);
      } else {
        StartIsOpen(codec, if e.Begin? then e.api else DiscoverOrphans(0, None, false, ""), id);
        JustifiedLess([], id, c, true, honest);
        JustifiedGrows([], before + ops, id, c, honest);
        assert [] + (before + ops) == before + ops;
      }
    }
  }

  // Linearizability of the answers.  In every run, whoever was told that a pointer moved moved it, in
  // the one atomic operation of its call, from the version it expected to the next.
  lemma SuccessesAreReal(codec: Codec, events: seq<Event>, id: nat)
    requires id in Run(codec, events).clients && Returned(Run(codec, events).clients[id]).Some?
    ensures var row := Returned(Run(codec, events).clients[id]).value;
            && (exists k :: 0 <= k < |History(codec, events)| && Performed(History(codec, events)[k], id, row))
            && ApiOf(events, id).Some? && Asked(ApiOf(events, id).value) == Some(Wanted(row.channel, row.pointerVersion - 1, row.target))
  {
    hide Run, History, Asked;
    AnswersJustified(codec, events, id);
    var ops := History(codec, events);
    var row := Returned(Run(codec, events).clients[id]).value;
    var k :| 0 <= k < |ops| && ops[k].client == id && ops[k].success && ops[k].channel == row.channel
             && ops[k].target == row.target && ops[k].expected + 1 == row.pointerVersion;
    assert Performed(ops[k], id, row);
    OperationsAreAsked(codec, events, k);
  }

  predicate Performed(op: Cas, id: nat, row: ChannelRow) {
    op == Cas(id, row.channel, row.pointerVersion - 1, row.target, true)
  }

  // ... and whoever was told StaleChannelPointer, without an invented conflict in its own steps, had
  // the operation that its call asked for refused by the register.
  lemma RefusalsAreReal(codec: Codec, events: seq<Event>, id: nat)
    requires HonestTo(events, id)
    requires id in Run(codec, events).clients && Run(codec, events).clients[id] == Raise(StaleChannelPointer)
    ensures ApiOf(events, id).Some? && Asked(ApiOf(events, id).value).Some?
    ensures var w := Asked(ApiOf(events, id).value).value;
            exists k :: 0 <= k < |History(codec, events)| && History(codec, events)[k] == Cas(id, w.channel, w.expected, w.target, false)
  {
    hide Run, History, Asked;
    AnswersJustified(codec, events, id);
    var ops := History(codec, events);
    var k :| 0 <= k < |ops| && ops[k].client == id && !ops[k].success;
    OperationsAreAsked(codec, events, k);
    var w := Asked(ApiOf(events, id).value).value;
    assert ops[k] == Cas(id, w.channel, w.expected, w.target, false);
  }

  // ---------------------------------------------------------------- invented conflicts

  // Exactly when a step tells its caller StaleChannelPointer although the register refused nothing:
  // at an insert, under an invented conflict, unless the key was taken and the reply was lost.
  lemma MisledIff(codec: Codec, s: System, e: Event)
    requires SystemOk(codec, s) && e.Step? && Running(s, e.id)
    requires s.clients[e.id].PromRead? || s.clients[e.id].PromInsert?
    requires Apply(codec, s, e).clients[e.id] == Raise(StaleChannelPointer)
    ensures (forall k | 0 <= k < |Effect(codec, s, e)| :: Effect(codec, s, e)[k].success) <==>
              && s.clients[e.id].PromInsert?
              && (e.fault == LostRequest(Conflict) ||
                  (e.fault == LostReply(Conflict) &&
                   ChannelVersionId(s.clients[e.id].pointer.channel, NatOf(s.clients[e.id].pointer.pointerVersion)) !in s.tables.channels))
  {
    hide ChannelVersionId, ResourceId, LatestRow, MakeChannel, FinishOk, TablesOk, Credited;
    var c, ops := s.clients[e.id], Effect(codec, s, e);
    assert ClientOk(codec, s.tables, c);
    if c.PromInsert? {
      PositiveVersion(s.tables.channels, c.pointer);
    }
    if ops != [] {
      assert ops[0].client == e.id;
    }
  }

  lemma FirstRead(codec: Codec, r: StoredResource, p: Promotion, row: ChannelRow)
    requires p.expected == 0 && Some(row) == MakeChannel(codec, ChannelRow(ChannelOf(r, p), r.Id(), 1, p.actor, p.at, None))
    ensures ClientStep(codec, EMPTY, PromRead(r, p, Plain), NoFault) == (EMPTY, PromInsert(row, p, Plain))
  {
    hide ResourceId, MakeChannel, LatestRow;
    NoRows(ChannelOf(r, p));
  }

  lemma LostInsert(codec: Codec, row: ChannelRow, p: Promotion)
    requires row.pointerVersion == 1
    ensures ClientStep(codec, EMPTY, PromInsert(row, p, Plain), LostReply(Conflict))
         == (EMPTY.(channels := map[ChannelVersionId(row.channel, 1) := row.(recordVersion := Some(Num(1)))]), Raise(StaleChannelPointer))
  {
    hide ChannelVersionId;
  }

  // An input: the reply to a first insert is lost and reported as a conflict.  The caller is told that
  // its pointer is stale; its row is in the table.
  lemma InventedConflictMisleads(codec: Codec, r: StoredResource, p: Promotion)
    requires r.state == Published && ChannelName(p.channel) && p.expected == 0 && p.profile == None
    requires MakeChannel(codec, ChannelRow(ChannelOf(r, p), r.Id(), 1, p.actor, p.at, None)).Some?
    ensures var s := Run(codec, [Begin(0, Promote(ByResource(r), p)), Step(0, NoFault), Step(0, LostReply(Conflict))]);
            var id := ChannelVersionId(ChannelOf(r, p), 1);
            && 0 in s.clients && s.clients[0] == Raise(StaleChannelPointer)
            && id in s.tables.channels && s.tables.channels[id].target == r.Id()
  {
    hide ClientStep, ChannelName, ChannelVersionId, ResourceId, MakeChannel, ValidChannelRow;
    var e0, e1, e2 := Begin(0, Promote(ByResource(r), p)), Step(0, NoFault), Step(0, LostReply(Conflict));
    var draft := ChannelRow(ChannelOf(r, p), r.Id(), 1, p.actor, p.at, None);
    var row := MakeChannel(codec, draft).value;
    MadeChannelRow(codec, draft, row);
    RunOfThree(codec, e0, e1, e2);
    FirstRead(codec, r, p, row);
    LostInsert(codec, row, p);
    assert Apply(codec, INITIAL, e0).clients[0] == PromRead(r, p, Plain);
  }
}
