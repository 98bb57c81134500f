// Any number of clients interleaving their steps over one store, with faults and crashes.

module Systems {
  import opened Basics
  import opened Canonical
  import opened References
  import opened Resources
  import opened Records
  import opened Tables
  import opened Clients
  import opened Invariants

  // committers is history: which client's transaction created each metadata row.
  datatype System = System(tables: Tables, clients: map<nat, Client>, committers: map<string, nat>)

  datatype Event = Begin(id: nat, api: Api) | Step(id: nat, fault: Fault) | Crash(id: nat)

  const INITIAL := System(EMPTY, map[], map[])

  predicate Running(s: System, id: nat) {
    id in s.clients && !s.clients[id].Done?
  }

  function Apply(codec: Codec, s: System, e: Event): System {
    match e
    case Begin(id, api) => if id in s.clients then s else s.(clients := s.clients[id := Start(codec, api)])
    case Step(id, fault) =>
      if !Running(s, id) then s
      else
        var (u, d) := ClientStep(codec, s.tables, s.clients[id], fault);
        System(u, s.clients[id := d], map k | k in u.metadata :: if k in s.committers then s.committers[k] else id)
    case Crash(id) => if Running(s, id) then s.(clients := s.clients[id := Done(Crashed)]) else s
  }

  // The state a run reaches.
  function Run(codec: Codec, events: seq<Event>): System {
    if events == [] then INITIAL
    else Apply(codec, Run(codec, events[..|events| - 1]), events[|events| - 1])
  }

  // ---------------------------------------------------------------- the invariant

  // The identity for which a client holds, or is about to return, a non-idempotent receipt.
  function Credit(c: Client): Option<string> {
    match c
    case PromRead(_, _, Receipt(r, false, _)) => Some(r.Id())
    case PromInsert(_, _, Receipt(r, false, _)) => Some(r.Id())
    case Done(Publication(r, false, _, _)) => Some(r.Id())
    case _ => None
  }

  predicate Credited(s: System, id: nat)
    requires id in s.clients
  {
    var k := Credit(s.clients[id]);
    k.Some? ==> k.value in s.committers && s.committers[k.value] == id
  }

  ghost predicate SystemOk(codec: Codec, s: System) {
    && TablesOk(codec, s.tables)
    && (forall id | id in s.clients :: ClientOk(codec, s.tables, s.clients[id]))
    && s.committers.Keys == s.tables.metadata.Keys
    && (forall id | id in s.clients :: Credited(s, id))
  }

  lemma ConcludeCredit(profile: Profile, r: StoredResource, idempotent: bool, pointing: Pointing, actor: string)
    ensures var k := Credit(Conclude(profile, r, idempotent, pointing, actor)); k == None || (!idempotent && k == Some(r.Id()))
  {
    hide ChannelName, ResourceId;
  }

  lemma {:induction false} AdvanceCredit(scan: Scan)
    ensures Credit(Advance(scan)) == None
    decreases |scan.rest|
  {
    hide Reconcilable, ResourceId;
    if scan.rest != [] {
      AdvanceCredit(scan.(rest := scan.rest[1..]));
    }
  }

  lemma PublishCredit(codec: Codec, t: Tables, c: Client, fault: Fault)
    requires c.PubLookup? || c.PubPut? || c.PubStat? || c.PubCommit? || c.PubWinner? || c.PubOrphan? || c.PubOrphanCheck?
    ensures var (u, d) := ClientStep(codec, t, c, fault);
            Credit(d).Some? ==> Credit(d).value in u.metadata && Credit(d).value !in t.metadata
  {
    hide ResourceId, ObjectId, ArtifactCandidate, FailedPublication, SameArtifact, ObjectMatches, Conclude;
    var r := Perform(codec.sha, t, NextCall(c), fault).1;
    if r.ResourceIs? {
      ConcludeCredit(Artifact, r.row, true, c.pointing, c.request.description.actor);
      if c.PubCommit? {
        ConcludeCredit(Artifact, r.row, c.objectIdempotent, c.pointing, c.request.description.actor);
      }
    }
  }

  lemma ConfigurationCredit(codec: Codec, t: Tables, c: Client, fault: Fault)
    requires c.CfgLookup? || c.CfgCommit? || c.CfgWinner?
    ensures var (u, d) := ClientStep(codec, t, c, fault);
            Credit(d).Some? ==> Credit(d).value in u.metadata && Credit(d).value !in t.metadata
  {
    hide ResourceId, SameConfiguration, Conclude;
    var r := Perform(codec.sha, t, NextCall(c), fault).1;
    if r.ResourceIs? {
      ConcludeCredit(Configuration, r.row, true, c.pointing, c.candidate.createdBy);
      ConcludeCredit(Configuration, r.row, false, c.pointing, c.candidate.createdBy);
    }
  }

  lemma DiscoveryCredit(codec: Codec, c: Client, r: Response)
    requires c.DiscList? || c.DiscLookup? || c.DiscRecord? || c.DiscCheck?
    ensures Credit(ResumeDiscovery(codec, c, r)) == None
  {
    hide MakeOrphan, Advance, OrphanCandidateId;
    if c.DiscList? && r.ObjectsAre? {
      AdvanceCredit(Scan(r.items, r.cursor, [], c.record, c.at));
    } else if c.DiscLookup? {
      AdvanceCredit(c.scan);
      if c.item.declaredId.Some? && DiscoveredOrphan(codec, c.item, c.scan.at).Some? {
        AdvanceCredit(c.scan.(found := c.scan.found + [DiscoveredOrphan(codec, c.item, c.scan.at).value]));
      }
    } else if (c.DiscRecord? || c.DiscCheck?) && r.OrphanIs? {
      AdvanceCredit(c.scan.(found := c.scan.found + [r.orphan]));
    }
  }

  // Credit is earned only by the step that creates the row.
  lemma StepCredit(codec: Codec, t: Tables, c: Client, fault: Fault)
    requires !c.Done?
    ensures var (u, d) := ClientStep(codec, t, c, fault);
            Credit(d).Some? ==> Credit(d) == Credit(c) || (Credit(d).value in u.metadata && Credit(d).value !in t.metadata)
  {
    hide Resume, ResourceId;
    if c.CfgLookup? || c.CfgCommit? || c.CfgWinner? {
      ConfigurationCredit(codec, t, c, fault);
    } else if c.PromTarget? || c.PromRead? || c.PromInsert? {
      PromotionCredit(codec, c, Perform(codec.sha, t, NextCall(c), fault).1);
      ResumeIsPromotion(codec, c, Perform(codec.sha, t, NextCall(c), fault).1);
    } else if c.DepRead? || c.DepPatch? || c.DepWinner? {
      DeprecationCredit(codec, c, Perform(codec.sha, t, NextCall(c), fault).1);
    } else if c.DiscList? || c.DiscLookup? || c.DiscRecord? || c.DiscCheck? {
      DiscoveryCredit(codec, c, Perform(codec.sha, t, NextCall(c), fault).1);
      ResumeIsDiscovery(codec, c, Perform(codec.sha, t, NextCall(c), fault).1);
    } else {
      PublishCredit(codec, t, c, fault);
    }
  }

  lemma ResumeIsPromotion(codec: Codec, c: Client, r: Response)
    requires c.PromTarget? || c.PromRead? || c.PromInsert?
    ensures Resume(codec, c, r) == ResumePromotion(codec, c, r)
  {
    hide ResumePromotion;
  }

  lemma ResumeIsDiscovery(codec: Codec, c: Client, r: Response)
    requires c.DiscList? || c.DiscLookup? || c.DiscRecord? || c.DiscCheck?
    ensures Resume(codec, c, r) == ResumeDiscovery(codec, c, r)
  {
    hide ResumeDiscovery;
  }

  lemma PromotionCredit(codec: Codec, c: Client, r: Response)
    requires c.PromTarget? || c.PromRead? || c.PromInsert?
    ensures var d := ResumePromotion(codec, c, r); Credit(d).Some? ==> Credit(d) == Credit(c)
  {
    hide MakeChannel, ResourceId, ChannelName;
  }

  lemma DeprecationCredit(codec: Codec, c: Client, r: Response)
    requires c.DepRead? || c.DepPatch? || c.DepWinner?
    ensures Credit(Resume(codec, c, r)) == None
  {
    hide ResourceId;
  }

  // ---------------------------------------------------------------- preservation

  lemma BeginKeeps(codec: Codec, s: System, id: nat, api: Api)
    requires SystemOk(codec, s)
    ensures SystemOk(codec, Apply(codec, s, Begin(id, api)))
  {
    StartOk(codec, s.tables, api);
    StartCredit(codec, api);
    hide TablesOk, ClientOk, Start, Credit;
  }

  lemma StartCredit(codec: Codec, api: Api)
    ensures Credit(Start(codec, api)) == None
  {
    hide ConfigurationCandidate, ValidIdentity, MediaType, IsDigest, ChannelName;
  }

  lemma ClientStepKeeps(codec: Codec, s: System, id: nat, fault: Fault)
    requires SystemOk(codec, s) && Running(s, id)
    ensures SystemOk(codec, Apply(codec, s, Step(id, fault)))
    ensures Grows(s.tables, Apply(codec, s, Step(id, fault)).tables)
  {
    hide TablesOk, ClientOk, ClientStep, Credit, Within;
    var c := s.clients[id];
    var (u, d) := ClientStep(codec, s.tables, c, fault);
    var s' := Apply(codec, s, Step(id, fault));
    StepOk(codec, s.tables, c, fault);
    StepCredit(codec, s.tables, c, fault);
    forall j | j in s'.clients
      ensures ClientOk(codec, u, s'.clients[j])
    {
      if j != id {
        ClientOkStable(codec, s.tables, u, s.clients[j]);
      }
    }
    forall j | j in s'.clients
      ensures Credited(s', j)
    {
      assert j != id ==> Credited(s, j);
      assert Credited(s, id);
    }
  }

  lemma GrowsReflexive(t: Tables)
    ensures Grows(t, t)
  {
  }

  lemma CrashKeeps(codec: Codec, s: System, id: nat)
    requires SystemOk(codec, s)
    ensures SystemOk(codec, Apply(codec, s, Crash(id)))
  {
    hide TablesOk, ClientStep, Credit, ResourceId;
    assert Credit(Done(Crashed)) == None by {
      CrashedCredit();
    }
  }

  lemma CrashedCredit()
    ensures Credit(Done(Crashed)) == None
  {
  }

  lemma ApplyKeeps(codec: Codec, s: System, e: Event)
    requires SystemOk(codec, s)
    ensures SystemOk(codec, Apply(codec, s, e)) && Grows(s.tables, Apply(codec, s, e).tables)
  {
    hide SystemOk, ClientStep, Start, Grows;
    GrowsReflexive(s.tables);
    match e
    case Begin(id, api) => BeginKeeps(codec, s, id, api);
    case Step(id, fault) =>
      if Running(s, id) {
        ClientStepKeeps(codec, s, id, fault);
      }
    case Crash(id) => CrashKeeps(codec, s, id);
  }

  // The invariant holds in every reachable state.
  lemma {:induction false} Reachable(codec: Codec, events: seq<Event>)
    ensures SystemOk(codec, Run(codec, events))
  {
    hide TablesOk, ClientOk, Credited, Apply;
    if events == [] {
      InitiallyOk(codec);
    } else {
      Reachable(codec, events[..|events| - 1]);
      ApplyKeeps(codec, Run(codec, events[..|events| - 1]), events[|events| - 1]);
    }
  }

  lemma InitiallyOk(codec: Codec)
    ensures SystemOk(codec, INITIAL)
  {
  }

  // ---------------------------------------------------------------- theorems about every run

  // Two-store integrity: an artifact row always points to an object that exists, under its own id,
  // with the recorded digest, length and media type, and with bytes of that digest and length.
  lemma ArtifactIntegrity(codec: Codec, events: seq<Event>, id: string)
    requires var t := Run(codec, events).tables; id in t.metadata && t.metadata[id].profile == Artifact
    ensures var t := Run(codec, events).tables;
            var r := t.metadata[id];
            && ObjectId(id) in t.objects
            && var o := t.objects[ObjectId(id)];
              && r.objectRef == Some(o.metadata.ref) && o.metadata.ref.objectId == ObjectId(id)
              && o.metadata.digest == r.digest && codec.sha(o.content) == r.digest
              && o.metadata.byteLength == r.byteLength == |o.content|
              && o.metadata.mediaType == r.mediaType
  {
    Reachable(codec, events);
    hide Run, Valid, ResourceId, ObjectId, ProvenanceOk, ChannelsOk, OrphansOk, ClientOk, Credited;
  }

  // Nothing is ever overwritten or removed: between any two points of a run, every object, channel
  // row, provenance row and orphan row stays as it is, and a resource changes only by being
  // deprecated, once.
  lemma {:induction false} NothingIsOverwritten(codec: Codec, events: seq<Event>, more: seq<Event>)
    ensures Grows(Run(codec, events).tables, Run(codec, events + more).tables)
  {
    hide Grows, Apply, SystemOk;
    if more == [] {
      assert events + more == events;
      GrowsReflexive(Run(codec, events).tables);
    } else {
      var n := |more| - 1;
      NothingIsOverwritten(codec, events, more[..n]);
      var before := events + more[..n];
      assert (events + more)[..|events + more| - 1] == before;
      Reachable(codec, before);
      ApplyKeeps(codec, Run(codec, before), more[n]);
      GrowsTransitive(Run(codec, events).tables, Run(codec, before).tables, Run(codec, events + more).tables);
    }
  }

  predicate Received(s: System, id: nat, r: StoredResource, idempotent: bool) {
    id in s.clients && s.clients[id].Done? && s.clients[id].outcome.Publication?
    && s.clients[id].outcome.resource == r && s.clients[id].outcome.idempotent == idempotent
  }

  // All receipts for one identity agree on everything but the lifecycle state, whoever published,
  // under whichever profile, and whenever; and a receipt is always backed by the metadata row.
  lemma ReceiptsAgree(codec: Codec, events: seq<Event>, i: nat, q: StoredResource, iq: bool, j: nat, r: StoredResource, ir: bool)
    requires Received(Run(codec, events), i, q, iq) && Received(Run(codec, events), j, r, ir)
    ensures q.identity == r.identity ==> Core(q) == Core(r)
    ensures Known(Run(codec, events).tables, q)
  {
    Reachable(codec, events);
    hide Run, TablesOk, Core, ResourceId, Credited;
    var s := Run(codec, events);
    assert ClientOk(codec, s.tables, s.clients[i]) && ClientOk(codec, s.tables, s.clients[j]);
  }

  // At most one receipt for an identity is not idempotent.
  lemma OneFirstReceipt(codec: Codec, events: seq<Event>, i: nat, q: StoredResource, j: nat, r: StoredResource)
    requires Received(Run(codec, events), i, q, false) && Received(Run(codec, events), j, r, false)
    requires q.identity == r.identity
    ensures i == j
  {
    Reachable(codec, events);
    hide Run, TablesOk, ClientOk, ResourceId;
    assert Credited(Run(codec, events), i) && Credited(Run(codec, events), j);
  }

  // Provenance rows are exactly those of the metadata rows that carry provenance, and agree with them.
  lemma ProvenanceAgrees(codec: Codec, events: seq<Event>, id: string)
    ensures var t := Run(codec, events).tables;
            && (id in t.provenance <==> id in t.metadata && t.metadata[id].provenance.Some?)
            && (id in t.provenance ==>
                  && t.provenance[id].resourceId == id
                  && Some(t.provenance[id].document) == t.metadata[id].provenance
                  && t.provenance[id].createdAt == t.metadata[id].createdAt)
  {
    Reachable(codec, events);
    hide Run, Valid, HasObject, ObjectsOk, ChannelsOk, OrphansOk, ClientOk, Credited, ResourceId;
    var t := Run(codec, events).tables;
    if id in t.metadata {
      assert RowOk(codec, t.metadata[id], id);
    }
  }

  // Evidence is never invented: every orphan row describes an object that exists, under the key that
  // its resource, object and digest determine.
  lemma OrphanRowsAreTrue(codec: Codec, events: seq<Event>, id: string)
    requires id in Run(codec, events).tables.orphans
    ensures var t := Run(codec, events).tables;
            var o := t.orphans[id];
            && id == OrphanCandidateId(o.resourceId, o.objectRef.objectId, o.digest)
            && OrphanHasObject(t.objects, o)
  {
    Reachable(codec, events);
    hide Run, MetadataOk, ProvenanceOk, ObjectsOk, ChannelsOk, ClientOk, Credited, OrphanHasObject, OrphanCandidateId;
  }

  // ... and each (resource, object, digest) has at most one.
  lemma OneOrphanRowEach(codec: Codec, events: seq<Event>, a: string, b: string)
    requires var t := Run(codec, events).tables;
             && a in t.orphans && b in t.orphans
             && t.orphans[a].resourceId == t.orphans[b].resourceId
             && t.orphans[a].objectRef == t.orphans[b].objectRef && t.orphans[a].digest == t.orphans[b].digest
    ensures a == b
  {
    OrphanRowsAreTrue(codec, events, a);
    OrphanRowsAreTrue(codec, events, b);
  }

  lemma RunOfThree(codec: Codec, a: Event, b: Event, c: Event)
    ensures Run(codec, [a, b, c]) == Apply(codec, Apply(codec, Apply(codec, INITIAL, a), b), c)
  {
    hide Apply;
    assert [a, b, c][..2] == [a, b] && [a, b][..1] == [a] && [a][..0] == [];
    assert Run(codec, [a]) == Apply(codec, INITIAL, a);
    assert Run(codec, [a, b]) == Apply(codec, Run(codec, [a]), b);
  }
}
