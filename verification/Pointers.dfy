// Channel pointers lead to stored resources of the channel's own logical name.

module Pointers {
  import opened Basics
  import opened Canonical
  import opened References
  import opened Resources
  import opened Records
  import opened Tables
  import opened Clients
  import opened Invariants
  import opened Systems
  import opened Channels

  predicate TargetOk(t: Tables, row: ChannelRow) {
    && row.target in t.metadata
    && var i := t.metadata[row.target].identity;
      i.namespace == row.channel.namespace && i.kind == row.channel.kind && i.name == row.channel.name
  }

  predicate Aimed(t: Tables, c: Client) {
    match c
    case PromRead(r, _, _) => r.Id() in t.metadata
    case PromInsert(row, _, _) => TargetOk(t, row)
    case _ => true
  }

  ghost predicate PointersOk(s: System) {
    && (forall id | id in s.tables.channels :: TargetOk(s.tables, s.tables.channels[id]))
    && (forall j | j in s.clients :: Aimed(s.tables, s.clients[j]))
  }

  // Callers promote identities, references, or resources that are stored: a resource value whose
  // id has no row is the one thing they must not promote.
  predicate Trusted(s: System, e: Event) {
    e.Begin? && e.api.Promote? && e.api.target.ByResource? ==> e.api.target.resource.Id() in s.tables.metadata
  }

  predicate TrustedRun(codec: Codec, events: seq<Event>) {
    events != [] ==>
      TrustedRun(codec, events[..|events| - 1]) && Trusted(Run(codec, events[..|events| - 1]), events[|events| - 1])
  }

  lemma AimedStable(t: Tables, u: Tables, c: Client)
    requires Aimed(t, c) && Grows(t, u)
    ensures Aimed(u, c)
  {
    hide ResourceId;
  }

  lemma TargetStable(t: Tables, u: Tables, row: ChannelRow)
    requires TargetOk(t, row) && Grows(t, u)
    ensures TargetOk(u, row)
  {
  }

  // A publication promotes the resource its receipt is about.
  predicate PromotesReceipt(d: Client) {
    !d.PromInsert? && (d.PromRead? ==> d.finish.Receipt? && d.finish.resource == d.resource)
  }

  lemma ConcludePromotesReceipt(profile: Profile, r: StoredResource, idempotent: bool, pointing: Pointing, actor: string)
    ensures PromotesReceipt(Conclude(profile, r, idempotent, pointing, actor))
  {
    hide ChannelName;
  }

  lemma PublishAims(codec: Codec, c: Client, r: Response)
    requires c.PubLookup? || c.PubPut? || c.PubStat? || c.PubCommit? || c.PubWinner? || c.PubOrphan? || c.PubOrphanCheck?
    ensures PromotesReceipt(ResumePublish(codec, c, r))
  {
    hide ResourceId, ObjectId, ArtifactCandidate, FailedPublication, SameArtifact, ObjectMatches, Conclude;
    if r.ResourceIs? && (c.PubLookup? || c.PubCommit? || c.PubWinner?) {
      ConcludePromotesReceipt(Artifact, r.row, true, c.pointing, c.request.description.actor);
      if c.PubCommit? {
        ConcludePromotesReceipt(Artifact, r.row, c.objectIdempotent, c.pointing, c.request.description.actor);
      }
    }
  }

  lemma ConfigurationAims(c: Client, r: Response)
    requires c.CfgLookup? || c.CfgCommit? || c.CfgWinner?
    ensures PromotesReceipt(ResumeConfiguration(c, r))
  {
    hide SameConfiguration, Conclude;
    if r.ResourceIs? {
      ConcludePromotesReceipt(Configuration, r.row, true, c.pointing, c.candidate.createdBy);
      ConcludePromotesReceipt(Configuration, r.row, false, c.pointing, c.candidate.createdBy);
    }
  }

  lemma {:induction false} AdvanceAims(scan: Scan)
    ensures PromotesReceipt(Advance(scan))
    decreases |scan.rest|
  {
    hide Reconcilable;
    if scan.rest != [] {
      AdvanceAims(scan.(rest := scan.rest[1..]));
    }
  }

  lemma DiscoveryAims(codec: Codec, c: Client, r: Response)
    requires c.DiscList? || c.DiscLookup? || c.DiscRecord? || c.DiscCheck?
    ensures PromotesReceipt(ResumeDiscovery(codec, c, r))
  {
    hide MakeOrphan, Advance, OrphanCandidateId, PromotesReceipt;
    if c.DiscList? && r.ObjectsAre? {
      AdvanceAims(Scan(r.items, r.cursor, [], c.record, c.at));
    } else if c.DiscLookup? {
      AdvanceAims(c.scan);
      if c.item.declaredId.Some? && DiscoveredOrphan(codec, c.item, c.scan.at).Some? {
        AdvanceAims(c.scan.(found := c.scan.found + [DiscoveredOrphan(codec, c.item, c.scan.at).value]));
      }
    } else if (c.DiscRecord? || c.DiscCheck?) && r.OrphanIs? {
      AdvanceAims(c.scan.(found := c.scan.found + [r.orphan]));
    }
    RaisingAims();
    RecordingAims();
  }

  lemma RaisingAims()
    ensures forall e: Error :: PromotesReceipt(Raise(e))
  {
  }

  lemma RecordingAims()
    ensures forall o: Orphan, s: Scan :: PromotesReceipt(DiscRecord(o, s)) && PromotesReceipt(DiscCheck(o, s))
  {
  }

  lemma TargetAims(codec: Codec, t: Tables, c: Client, fault: Fault)
    requires c.PromTarget? && MetadataOk(codec, t)
    ensures var (u, d) := ClientStep(codec, t, c, fault); u.metadata == t.metadata && Aimed(u, d)
  {
    hide MetadataOk, ResourceId, ChannelName;
    if TargetId(c.target) in t.metadata {
      ReadIsKnown(codec, t, TargetId(c.target));
    }
  }

  lemma RequestAims(codec: Codec, t: Tables, r: StoredResource, p: Promotion, current: Option<ChannelRow>, finish: Finish)
    requires MetadataOk(codec, t) && r.Id() in t.metadata
    ensures Aimed(t, Request(codec, r, p, current, finish))
  {
    hide MakeChannel, ResourceId, ValidChannelRow, MetadataOk;
    ReadIsKnown(codec, t, r.Id());
    ResourceIdInjective(t.metadata[r.Id()].identity, r.identity);
    var version := if current.None? then 1 else current.value.pointerVersion + 1;
    var draft := ChannelRow(ChannelOf(r, p), r.Id(), version, p.actor, p.at, None);
    if MakeChannel(codec, draft).Some? {
      MadeChannelRow(codec, draft, MakeChannel(codec, draft).value);
    }
  }

  lemma ReadAims(codec: Codec, t: Tables, c: Client, fault: Fault)
    requires c.PromRead? && MetadataOk(codec, t) && Aimed(t, c)
    ensures var (u, d) := ClientStep(codec, t, c, fault); u.metadata == t.metadata && Aimed(u, d)
  {
    hide Request, LatestRow, MetadataOk, ResourceId;
    var r := Perform(codec.sha, t, NextCall(c), fault).1;
    if r.ChannelIs? {
      RequestAims(codec, t, c.resource, c.promotion, r.pointer, c.finish);
    }
  }

  lemma InsertAims(codec: Codec, t: Tables, c: Client, fault: Fault)
    requires c.PromInsert?
    ensures var (u, d) := ClientStep(codec, t, c, fault); u.metadata == t.metadata && Aimed(u, d)
  {
    hide ResourceId, ChannelVersionId;
  }

  lemma PromotionAims(codec: Codec, t: Tables, c: Client, fault: Fault)
    requires c.PromTarget? || c.PromRead? || c.PromInsert?
    requires MetadataOk(codec, t) && Aimed(t, c)
    ensures var (u, d) := ClientStep(codec, t, c, fault); u.metadata == t.metadata && Aimed(u, d)
  {
    hide ClientStep, MetadataOk, Aimed;
    if c.PromTarget? {
      TargetAims(codec, t, c, fault);
    } else if c.PromRead? {
      ReadAims(codec, t, c, fault);
    } else {
      InsertAims(codec, t, c, fault);
    }
  }

  lemma StepAims(codec: Codec, t: Tables, c: Client, fault: Fault)
    requires !c.Done? && TablesOk(codec, t) && ClientOk(codec, t, c) && Aimed(t, c)
    ensures var (u, d) := ClientStep(codec, t, c, fault); Aimed(u, d)
  {
    hide Resume, Perform, NextCall, ClientOk, Aimed, PromotesReceipt, MetadataOk, ProvenanceOk, ChannelsOk, ObjectsOk, OrphansOk, Grows;
    StepOk(codec, t, c, fault);
    if c.PromTarget? || c.PromRead? || c.PromInsert? {
      PromotionAims(codec, t, c, fault);
    } else {
      var (u, r) := Perform(codec.sha, t, NextCall(c), fault);
      OthersPromoteReceipts(codec, c, r);
      ReceiptAims(codec, u, Resume(codec, c, r));
    }
  }

  lemma ReceiptAims(codec: Codec, t: Tables, c: Client)
    requires ClientOk(codec, t, c) && PromotesReceipt(c)
    ensures Aimed(t, c)
  {
    hide ResourceId;
  }

  lemma OthersPromoteReceipts(codec: Codec, c: Client, r: Response)
    requires !c.Done? && !c.PromTarget? && !c.PromRead? && !c.PromInsert?
    ensures PromotesReceipt(Resume(codec, c, r))
  {
    hide ResumePublish, ResumeConfiguration, ResumeDiscovery;
    if c.CfgLookup? || c.CfgCommit? || c.CfgWinner? {
      ConfigurationAims(c, r);
    } else if c.DepRead? || c.DepPatch? || c.DepWinner? {
    } else if c.DiscList? || c.DiscLookup? || c.DiscRecord? || c.DiscCheck? {
      DiscoveryAims(codec, c, r);
    } else {
      PublishAims(codec, c, r);
    }
  }

  lemma StartAims(codec: Codec, s: System, e: Event)
    requires e.Begin? && Trusted(s, e)
    ensures Aimed(s.tables, Start(codec, e.api))
  {
    hide ConfigurationCandidate, ValidIdentity, MediaType, IsDigest, ChannelName, Known;
  }

  // The only new row a step can add is the one the promoter was inserting.
  lemma NewRowsAreAimed(codec: Codec, t: Tables, c: Client, fault: Fault, id: string)
    requires !c.Done? && Aimed(t, c)
    requires var u := Perform(codec.sha, t, NextCall(c), fault).0; id in u.channels && id !in t.channels
    ensures var u := Perform(codec.sha, t, NextCall(c), fault).0; TargetOk(u, u.channels[id])
  {
    hide ChannelVersionId, ResourceId, ObjectId, OrphanCandidateId, LatestRow, ExecListObjects;
  }

  lemma ApplyAims(codec: Codec, s: System, e: Event)
    requires SystemOk(codec, s) && PointersOk(s) && Trusted(s, e)
    ensures PointersOk(Apply(codec, s, e))
  {
    hide Grows, TargetOk, Aimed, Resume, Start, TablesOk, ClientOk, Credited;
    ApplyKeeps(codec, s, e);
    var s' := Apply(codec, s, e);
    if e.Begin? {
      StartAims(codec, s, e);
    }
    if e.Step? && Running(s, e.id) {
      StepAims(codec, s.tables, s.clients[e.id], e.fault);
    }
    forall j | j in s'.clients
      ensures Aimed(s'.tables, s'.clients[j])
    {
      if j in s.clients && s'.clients[j] == s.clients[j] {
        AimedStable(s.tables, s'.tables, s.clients[j]);
      } else {
        CrashedAims(s'.tables);
      }
    }
    forall id | id in s'.tables.channels
      ensures TargetOk(s'.tables, s'.tables.channels[id])
    {
      if id in s.tables.channels {
        TargetStable(s.tables, s'.tables, s.tables.channels[id]);
        RowsStay(s.tables, s'.tables, id);
      } else {
        NewRowsAreAimed(codec, s.tables, s.clients[e.id], e.fault, id);
      }
    }
  }

  lemma RowsStay(t: Tables, u: Tables, id: string)
    requires Grows(t, u) && id in t.channels
    ensures id in u.channels && u.channels[id] == t.channels[id]
  {
  }

  lemma CrashedAims(t: Tables)
    ensures Aimed(t, Done(Crashed))
  {
  }

  lemma {:induction false} RunAims(codec: Codec, events: seq<Event>)
    requires TrustedRun(codec, events)
    ensures PointersOk(Run(codec, events))
  {
    hide Apply, SystemOk, TargetOk, Aimed;
    if events != [] {
      var n := |events| - 1;
      RunAims(codec, events[..n]);
      Reachable(codec, events[..n]);
      ApplyAims(codec, Run(codec, events[..n]), events[n]);
    }
  }

  // ---------------------------------------------------------------- whether a pointer resolves

  // The row's target is the id of an identity with the channel's own namespace, kind and name.
  predicate Named(row: ChannelRow) {
    match DecodeIdentity(row.target)
    case None => false
    case Some(i) =>
      && ResourceId(i) == row.target
      && i.namespace == row.channel.namespace && i.kind == row.channel.kind && i.name == row.channel.name
  }

  predicate NamesOk(t: Tables) {
    forall id | id in t.channels :: Named(t.channels[id])
  }

  predicate NamedInsert(c: Client) {
    c.PromInsert? ==> Named(c.pointer)
  }

  lemma RequestIsNamed(codec: Codec, r: StoredResource, p: Promotion, current: Option<ChannelRow>, finish: Finish)
    ensures NamedInsert(Request(codec, r, p, current, finish))
  {
    hide MakeChannel, ResourceId, DecodeIdentity, ValidChannelRow;
    IdentityRoundTrip(r.identity);
    var version := if current.None? then 1 else current.value.pointerVersion + 1;
    var draft := ChannelRow(ChannelOf(r, p), r.Id(), version, p.actor, p.at, None);
    if MakeChannel(codec, draft).Some? {
      MadeChannelRow(codec, draft, MakeChannel(codec, draft).value);
    }
  }

  lemma PromotionNames(codec: Codec, c: Client, r: Response)
    requires c.PromTarget? || c.PromRead? || c.PromInsert?
    ensures NamedInsert(ResumePromotion(codec, c, r))
  {
    hide Request, Named, ChannelName, ResourceId;
    if c.PromRead? && r.ChannelIs? {
      RequestIsNamed(codec, c.resource, c.promotion, r.pointer, c.finish);
    }
  }

  lemma StepNames(codec: Codec, t: Tables, c: Client, fault: Fault)
    requires !c.Done? && NamesOk(t) && NamedInsert(c)
    ensures var (u, d) := ClientStep(codec, t, c, fault); NamesOk(u) && NamedInsert(d)
  {
    hide Resume, Perform, NextCall, Named, PromotesReceipt;
    var r := Perform(codec.sha, t, NextCall(c), fault).1;
    OnlyNamedRows(codec, t, c, fault);
    if c.PromTarget? || c.PromRead? || c.PromInsert? {
      PromotionNames(codec, c, r);
      ResumeIsPromotion(codec, c, r);
    } else {
      OthersPromoteReceipts(codec, c, r);
      ReceiptsInsertNothing(Resume(codec, c, r));
    }
  }

  lemma ReceiptsInsertNothing(c: Client)
    requires PromotesReceipt(c)
    ensures NamedInsert(c)
  {
  }

  lemma OnlyNamedRows(codec: Codec, t: Tables, c: Client, fault: Fault)
    requires !c.Done? && NamesOk(t) && NamedInsert(c)
    ensures NamesOk(Perform(codec.sha, t, NextCall(c), fault).0)
  {
    hide DecodeIdentity, ChannelVersionId, ResourceId, ObjectId, OrphanCandidateId, LatestRow, ExecListObjects;
  }

  ghost predicate AllNamed(s: System) {
    NamesOk(s.tables) && forall id | id in s.clients :: NamedInsert(s.clients[id])
  }

  lemma NamedStart(codec: Codec, api: Api)
    ensures NamedInsert(Start(codec, api)) && NamedInsert(Done(Crashed))
  {
    hide ConfigurationCandidate, ValidIdentity, MediaType, IsDigest, ChannelName, Named;
  }

  lemma {:induction false} RunNames(codec: Codec, events: seq<Event>)
    ensures AllNamed(Run(codec, events))
  {
    hide NamesOk, NamedInsert, ClientStep, Start;
    if events == [] {
      assert NamesOk(EMPTY) by { NothingNamed(); }
    } else {
      var s, e := Run(codec, events[..|events| - 1]), events[|events| - 1];
      RunNames(codec, events[..|events| - 1]);
      match e
      case Begin(id, api) => NamedStart(codec, api);
      case Step(id, fault) =>
        if Running(s, id) {
          StepNames(codec, s.tables, s.clients[id], fault);
        }
      case Crash(id) => NamedStart(codec, DiscoverOrphans(0, None, false, ""));
    }
  }

  lemma NothingNamed()
    ensures NamesOk(EMPTY)
  {
  }

  // Exactly when a pointer resolves, in every reachable state, whoever promoted what: if and only if
  // its target has a metadata row.  That row then has the channel's own namespace, kind and name.
  lemma PointersResolveIff(codec: Codec, events: seq<Event>, id: string)
    requires id in Run(codec, events).tables.channels
    ensures var t := Run(codec, events).tables;
            TargetOk(t, t.channels[id]) <==> t.channels[id].target in t.metadata
  {
    RunNames(codec, events);
    Reachable(codec, events);
    var t := Run(codec, events).tables;
    hide Run, ResourceId, DecodeIdentity, Valid, HasObject, ClientOk, Credited, ObjectsOk, ProvenanceOk, ChannelsOk, OrphansOk, NamedInsert;
    var row := t.channels[id];
    assert Named(row);
    if row.target in t.metadata {
      ReadIsKnown(codec, t, row.target);
      ResourceIdInjective(t.metadata[row.target].identity, DecodeIdentity(row.target).value);
    }
  }

  // In every reachable state the target of every pointer is a stored resource with the channel's own
  // namespace, kind and name; if it is an artifact, its object is there, with the recorded digest.
  lemma PointersNeverDangle(codec: Codec, events: seq<Event>, id: string)
    requires TrustedRun(codec, events) && id in Run(codec, events).tables.channels
    ensures var t := Run(codec, events).tables;
            var row := t.channels[id];
            && row.target in t.metadata
            && var r := t.metadata[row.target];
              && r.identity.namespace == row.channel.namespace && r.identity.kind == row.channel.kind
              && r.identity.name == row.channel.name
              && (r.profile == Artifact ==>
                    && ObjectId(row.target) in t.objects
                    && t.objects[ObjectId(row.target)].metadata.digest == r.digest
                    && codec.sha(t.objects[ObjectId(row.target)].content) == r.digest)
  {
    hide Run, ObjectId;
    RunAims(codec, events);
    var t := Run(codec, events).tables;
    assert TargetOk(t, t.channels[id]);
    if t.metadata[t.channels[id].target].profile == Artifact {
      ArtifactIntegrity(codec, events, t.channels[id].target);
    }
  }

  // The condition is needed: a resource that the library never stored can be promoted as well, and
  // its pointer then leads nowhere.
  lemma UnstoredTargetDangles(codec: Codec, r: StoredResource, p: Promotion)
    requires r.state == Published && ChannelName(p.channel) && p.expected == 0 && p.profile == None
    requires MakeChannel(codec, ChannelRow(ChannelOf(r, p), r.Id(), 1, p.actor, p.at, None)).Some?
    ensures var events := [Begin(0, Promote(ByResource(r), p)), Step(0, NoFault), Step(0, NoFault)];
            var t := Run(codec, events).tables;
            var id := ChannelVersionId(ChannelOf(r, p), 1);
            && id in t.channels && t.channels[id].target == r.Id() && r.Id() !in t.metadata
  {
    hide ChannelName, ChannelVersionId, ResourceId, MakeChannel, ValidChannelRow, LatestRow;
    var e0, e1 := Begin(0, Promote(ByResource(r), p)), Step(0, NoFault);
    var draft := ChannelRow(ChannelOf(r, p), r.Id(), 1, p.actor, p.at, None);
    var row := MakeChannel(codec, draft).value;
    MadeChannelRow(codec, draft, row);
    RunOfThree(codec, e0, e1, e1);
    NoRows(ChannelOf(r, p));
    var s1 := Apply(codec, INITIAL, e0);
    assert s1 == System(EMPTY, map[0 := PromRead(r, p, Plain)], map[]);
    var s2 := Apply(codec, s1, e1);
    assert s2.clients[0] == PromInsert(row, p, Plain) && s2.tables == EMPTY;
  }
}
