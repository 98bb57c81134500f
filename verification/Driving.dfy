// One operation run to its end, while the rest of the world does what it likes between its calls.

module Driving {
  import opened Basics
  import opened References
  import opened Resources
  import opened Tables
  import opened Clients
  import opened Invariants

  // What strikes the n-th call of the operation: the changes that others make to the tables just
  // before it, and its fault.
  datatype World = World(interfere: (nat, Tables) -> Tables, fault: nat -> Fault)

  datatype Ending = Ending(outcome: Outcome, tables: Tables, now: nat)

  function Drive(codec: Codec, w: World, now: nat, t: Tables, c: Client): Ending
    decreases Listing(c), Rank(c)
  {
    if c.Done? then Ending(c.outcome, t, now)
    else
      var (u, d) := ClientStep(codec, w.interfere(now, t), c, w.fault(now));
      StepDescends(codec, w.interfere(now, t), c, w.fault(now));
      Drive(codec, w, now + 1, u, d)
  }

  lemma WorldStep(codec: Codec, w: World, now: nat, t: Tables, c: Client)
    requires !c.Done?
    ensures var (u, d) := ClientStep(codec, w.interfere(now, t), c, w.fault(now));
            Drive(codec, w, now, t, c) == Drive(codec, w, now + 1, u, d)
  {
    hide ClientStep;
  }

  lemma WorldDone(codec: Codec, w: World, now: nat, t: Tables, o: Outcome)
    ensures Drive(codec, w, now, t, Done(o)) == Ending(o, t, now)
  {
  }

  // One call of an operation, and its answer.
  lemma CallStep(codec: Codec, w: World, now: nat, t: Tables, c: Client, u: Tables, r: Response)
    requires !c.Done? && (u, r) == Perform(codec.sha, w.interfere(now, t), NextCall(c), w.fault(now))
    ensures Drive(codec, w, now, t, c) == Drive(codec, w, now + 1, u, Resume(codec, c, r))
  {
    hide Drive, Perform, Resume, NextCall;
    WorldStep(codec, w, now, t, c);
  }

  lemma StepDescends(codec: Codec, t: Tables, c: Client, fault: Fault)
    requires !c.Done?
    ensures Descends(c, ClientStep(codec, t, c, fault).1)
  {
    hide Resume, Descends;
    ResumeDescends(codec, c, Perform(codec.sha, t, NextCall(c), fault).1);
  }

  // Others keep the tables consistent and only let them grow, as every client of the library does.
  ghost predicate Rely(codec: Codec, w: World) {
    forall n, t :: TablesOk(codec, t) ==> TablesOk(codec, w.interfere(n, t)) && Grows(t, w.interfere(n, t))
  }

  ghost predicate FaultFree(w: World) {
    forall n :: w.fault(n) == NoFault
  }

  // The store never reports a conflict where there is none.
  ghost predicate HonestWorld(w: World) {
    forall n :: match w.fault(n) case NoFault => true case LostRequest(k) => k != Conflict case LostReply(k) => k != Conflict
  }

  // Nobody else is there, and nothing fails.
  function Alone(): World {
    World((n, t) => t, n => NoFault)
  }

  // ---------------------------------------------------------------- deprecation

  // How far a deprecation of the row with core r has come, if it can only end with that row deprecated.
  predicate Stage(t: Tables, c: Client, identity: Identity, profile: Profile, r: StoredResource) {
    var id := ResourceId(identity);
    && id in t.metadata && Core(t.metadata[id]) == Core(r) && r.profile == profile
    && match c
       case DepRead(i, p) => i == identity && p == profile
       case DepPatch(q) => q.Id() == id
       case DepWinner(i) => i == id && t.metadata[id].state == Deprecated
       case Done(DeprecatedTo(q)) => q.Id() == id && q == t.metadata[id] && q.state == Deprecated
       case _ => false
  }

  predicate Deprecating(codec: Codec, t: Tables, c: Client, identity: Identity, profile: Profile, r: StoredResource) {
    TablesOk(codec, t) && ClientOk(codec, t, c) && Stage(t, c, identity, profile, r)
  }

  lemma DeprecatingStable(codec: Codec, t: Tables, u: Tables, c: Client, identity: Identity, profile: Profile, r: StoredResource)
    requires Deprecating(codec, t, c, identity, profile, r) && TablesOk(codec, u) && Grows(t, u)
    ensures Deprecating(codec, u, c, identity, profile, r)
  {
    hide ResourceId, TablesOk, Within, ClientOk;
    ClientOkStable(codec, t, u, c);
  }

  lemma StageRead(codec: Codec, t: Tables, c: Client, identity: Identity, profile: Profile, r: StoredResource)
    requires c.DepRead? || c.DepWinner?
    requires MetadataOk(codec, t) && Stage(t, c, identity, profile, r)
    ensures var (u, d) := ClientStep(codec, t, c, NoFault); Stage(u, d, identity, profile, r)
  {
    hide ResourceId, Valid, HasObject, MetadataOk;
    ReadIsKnown(codec, t, ResourceId(identity));
  }

  lemma StagePatch(codec: Codec, t: Tables, c: Client, identity: Identity, profile: Profile, r: StoredResource)
    requires c.DepPatch?
    requires MetadataOk(codec, t) && ClientOk(codec, t, c) && Stage(t, c, identity, profile, r)
    ensures var (u, d) := ClientStep(codec, t, c, NoFault); Stage(u, d, identity, profile, r)
  {
    hide ResourceId, Valid, HasObject, MetadataOk;
    ReadIsKnown(codec, t, ResourceId(identity));
  }

  lemma DeprecatingStep(codec: Codec, t: Tables, c: Client, identity: Identity, profile: Profile, r: StoredResource)
    requires !c.Done? && Deprecating(codec, t, c, identity, profile, r)
    ensures var (u, d) := ClientStep(codec, t, c, NoFault); Deprecating(codec, u, d, identity, profile, r)
  {
    hide ClientStep, ClientOk, Grows, ResourceId, MetadataOk, ObjectsOk, ProvenanceOk, ChannelsOk, OrphansOk;
    StepOk(codec, t, c, NoFault);
    if c.DepPatch? {
      StagePatch(codec, t, c, identity, profile, r);
    } else {
      StageRead(codec, t, c, identity, profile, r);
    }
  }

  lemma {:induction false} DeprecatingEnds(codec: Codec, w: World, now: nat, t: Tables, c: Client, identity: Identity, profile: Profile, r: StoredResource)
    requires Rely(codec, w) && FaultFree(w)
    requires Deprecating(codec, t, c, identity, profile, r)
    ensures var e := Drive(codec, w, now, t, c); Deprecating(codec, e.tables, Done(e.outcome), identity, profile, r)
    decreases Listing(c), Rank(c)
  {
    hide Deprecating, ClientStep, TablesOk, Grows, Descends;
    if !c.Done? {
      var s := w.interfere(now, t);
      assert TablesOk(codec, t) by { DeprecatingTables(codec, t, c, identity, profile, r); }
      DeprecatingStable(codec, t, s, c, identity, profile, r);
      DeprecatingStep(codec, s, c, identity, profile, r);
      StepDescends(codec, s, c, NoFault);
      var (u, d) := ClientStep(codec, s, c, NoFault);
      assert Listing(d) < Listing(c) || (Listing(d) == Listing(c) && Rank(d) < Rank(c)) by { DescendsMeans(c, d); }
      DeprecatingEnds(codec, w, now + 1, u, d, identity, profile, r);
    }
  }

  lemma DescendsMeans(c: Client, d: Client)
    requires Descends(c, d)
    ensures Listing(d) < Listing(c) || (Listing(d) == Listing(c) && Rank(d) < Rank(c))
  {
  }

  lemma DeprecatingTables(codec: Codec, t: Tables, c: Client, identity: Identity, profile: Profile, r: StoredResource)
    requires Deprecating(codec, t, c, identity, profile, r)
    ensures TablesOk(codec, t)
  {
  }

  // Concurrent deprecation converges: however many others interfere, a fault-free deprecate of an
  // existing row of the right profile returns that row deprecated, with every immutable field as it was.
  lemma DeprecationConverges(codec: Codec, w: World, t: Tables, identity: Identity, profile: Profile)
    requires Rely(codec, w) && FaultFree(w) && TablesOk(codec, t)
    requires ResourceId(identity) in t.metadata && t.metadata[ResourceId(identity)].profile == profile
    ensures var e := Drive(codec, w, 0, t, DepRead(identity, profile));
            var before := t.metadata[ResourceId(identity)];
            && e.outcome.DeprecatedTo?
            && e.outcome.resource.state == Deprecated && Core(e.outcome.resource) == Core(before)
            && ResourceId(identity) in e.tables.metadata && e.tables.metadata[ResourceId(identity)] == e.outcome.resource
  {
    hide Drive, TablesOk, ResourceId, FaultFree, Rely;
    DeprecatingEnds(codec, w, 0, t, DepRead(identity, profile), identity, profile, t.metadata[ResourceId(identity)]);
  }

  // A client past the point where a conflict could still be re-raised.
  predicate NoConflictLeft(t: Tables, c: Client) {
    match c
    case DepRead(_, _) => true
    case DepPatch(q) => true
    case DepWinner(id) => id in t.metadata && t.metadata[id].state == Deprecated
    case Done(o) => o != Raised(StoreFailure(Conflict))
    case _ => false
  }

  lemma NoConflictRead(codec: Codec, t: Tables, c: Client, fault: Fault)
    requires (c.DepRead? || c.DepWinner?) && NoConflictLeft(t, c)
    requires fault != LostRequest(Conflict) && fault != LostReply(Conflict)
    ensures var (u, d) := ClientStep(codec, t, c, fault); NoConflictLeft(u, d)
  {
    hide ResourceId;
  }

  lemma NoConflictPatch(codec: Codec, t: Tables, c: Client, fault: Fault)
    requires c.DepPatch? && MetadataOk(codec, t) && ClientOk(codec, t, c)
    requires fault != LostRequest(Conflict) && fault != LostReply(Conflict)
    ensures var (u, d) := ClientStep(codec, t, c, fault); NoConflictLeft(u, d)
  {
    hide ResourceId, Valid, HasObject, MetadataOk, Core;
    ReadIsKnown(codec, t, c.resource.Id());
  }

  lemma NoConflictStep(codec: Codec, t: Tables, c: Client, fault: Fault)
    requires !c.Done? && TablesOk(codec, t) && ClientOk(codec, t, c) && NoConflictLeft(t, c)
    requires fault != LostRequest(Conflict) && fault != LostReply(Conflict)
    ensures var (u, d) := ClientStep(codec, t, c, fault); NoConflictLeft(u, d)
  {
    hide ClientStep, ClientOk, MetadataOk, ObjectsOk, ProvenanceOk, ChannelsOk, OrphansOk;
    if c.DepPatch? {
      NoConflictPatch(codec, t, c, fault);
    } else {
      NoConflictRead(codec, t, c, fault);
    }
  }

  lemma {:induction false} NoConflictEnds(codec: Codec, w: World, now: nat, t: Tables, c: Client)
    requires Rely(codec, w) && HonestWorld(w)
    requires TablesOk(codec, t) && ClientOk(codec, t, c) && NoConflictLeft(t, c)
    ensures Drive(codec, w, now, t, c).outcome != Raised(StoreFailure(Conflict))
    decreases Listing(c), Rank(c)
  {
    hide TablesOk, Grows, ClientOk, ClientStep, Descends, Valid;
    if !c.Done? {
      var s := w.interfere(now, t);
      ClientOkStable(codec, t, s, c);
      NoConflictStable(t, s, c);
      StepOk(codec, s, c, w.fault(now));
      NoConflictStep(codec, s, c, w.fault(now));
      StepDescends(codec, s, c, w.fault(now));
      var (u, d) := ClientStep(codec, s, c, w.fault(now));
      DescendsMeans(c, d);
      NoConflictEnds(codec, w, now + 1, u, d);
    }
  }

  lemma NoConflictStable(t: Tables, u: Tables, c: Client)
    requires NoConflictLeft(t, c) && Grows(t, u)
    ensures NoConflictLeft(u, c)
  {
  }

  // The re-raise of a version conflict at the end of deprecate is unreachable: whatever else fails,
  // and whatever others do, no deprecate reports a conflict that the store did not invent.
  lemma ConflictIsNeverReraised(codec: Codec, w: World, t: Tables, identity: Identity, profile: Profile)
    requires Rely(codec, w) && HonestWorld(w) && TablesOk(codec, t)
    ensures Drive(codec, w, 0, t, DepRead(identity, profile)).outcome != Raised(StoreFailure(Conflict))
  {
    hide Drive, TablesOk, Rely, HonestWorld;
    NoConflictEnds(codec, w, 0, t, DepRead(identity, profile));
  }
}
