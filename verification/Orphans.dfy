// Orphan evidence and orphan discovery: what is recorded when a publication cannot commit, and what
// a scan of the whole object store reports.

module Orphans {
  import opened Basics
  import opened Text
  import opened Canonical
  import opened References
  import opened Resources
  import opened Records
  import opened Tables
  import opened Clients
  import opened Invariants
  import opened Driving
  import opened Recovery
  import opened Systems

  // ---------------------------------------------------------------- ids in order

  function Elements(ids: seq<string>): set<string> { set id | id in ids }

  function All(ids: set<string>): seq<string> { Leading(ids, |ids|) }

  // The ids of the list that are in the set, in the order of the list.
  function Keep(ids: seq<string>, kept: set<string>): seq<string> {
    if ids == [] then [] else (if ids[0] in kept then [ids[0]] else []) + Keep(ids[1..], kept)
  }

  lemma {:induction false} KeepSplits(a: seq<string>, b: seq<string>, kept: set<string>)
    ensures Keep(a + b, kept) == Keep(a, kept) + Keep(b, kept)
  {
    if a == [] {
      assert a + b == b;
    } else {
      KeepSplits(a[1..], b, kept);
      assert (a + b)[0] == a[0] && (a + b)[1..] == a[1..] + b;
      var head := if a[0] in kept then [a[0]] else [];
      assert head + (Keep(a[1..], kept) + Keep(b, kept)) == (head + Keep(a[1..], kept)) + Keep(b, kept);
    }
  }

  lemma LeadingStep(ids: set<string>, n: nat)
    requires n > 0 && ids != {}
    ensures Leading(ids, n) == [First(ids)] + Leading(ids - {First(ids)}, n - 1)
    ensures All(ids) == [First(ids)] + All(ids - {First(ids)})
  {
  }

  lemma LeadingNone(ids: set<string>, n: nat)
    requires n == 0 || ids == {}
    ensures Leading(ids, n) == []
  {
  }

  // The first n ids, and then the rest: all ids.
  lemma {:induction false} LeadingSplits(ids: set<string>, n: nat)
    ensures var rest := ids - Elements(Leading(ids, n));
            All(ids) == Leading(ids, n) + All(rest) && |rest| == |ids| - |Leading(ids, n)|
  {
    hide All, Least, Leading;
    if n == 0 || ids == {} {
      LeadingNone(ids, n);
      assert ids - Elements([]) == ids;
    } else {
      var a := First(ids);
      var tail := Leading(ids - {a}, n - 1);
      LeadingStep(ids, n);
      LeadingSplits(ids - {a}, n - 1);
      assert ids - Elements([a] + tail) == (ids - {a}) - Elements(tail);
    }
  }

  // The rest is what comes after the last of the first n.
  lemma {:induction false} RestComesAfter(ids: set<string>, n: nat)
    requires n >= 1 && ids != {}
    ensures var page := Leading(ids, n);
            page != [] && ids - Elements(page) == set id | id in ids && Before(page[|page| - 1], id)
  {
    var a := First(ids);
    var tail := Leading(ids - {a}, n - 1);
    LeadingIn(ids - {a}, n - 1);
    if n > 1 && ids - {a} != {} {
      RestComesAfter(ids - {a}, n - 1);
    }
    LastBounds(ids, a, tail);
  }

  lemma LastBounds(ids: set<string>, a: string, tail: seq<string>)
    requires Least(ids, a)
    requires forall id :: id in tail ==> id in ids - {a}
    requires tail == [] || (ids - {a}) - Elements(tail) == set id | id in ids - {a} && Before(tail[|tail| - 1], id)
    ensures var page := [a] + tail; ids - Elements(page) == set id | id in ids && Before(page[|page| - 1], id)
  {
    hide Before;
    var page := [a] + tail;
    var z := page[|page| - 1];
    assert Elements(page) == {a} + Elements(tail);
    BeforeIsTotal(a, z);
    BeforeIsTotal(a, a);
    if tail == [] {
      assert z == a;
    } else {
      assert z == tail[|tail| - 1] && z in tail;
      assert ids - Elements(page) == (ids - {a}) - Elements(tail);
      assert !Before(z, a);
    }
  }

  // Dropping ids from the sorted list of a set gives the sorted list of the smaller set.
  lemma {:induction false} KeepAll(ids: set<string>, kept: set<string>)
    ensures Keep(All(ids), kept) == All(ids * kept)
    decreases |ids|
  {
    if ids == {} {
      assert ids * kept == {};
    } else {
      var a := First(ids);
      KeepAll(ids - {a}, kept);
      assert All(ids) == [a] + All(ids - {a});
      if a in kept {
        assert Least(ids * kept, a);
        LeastIsUnique(ids * kept, a, First(ids * kept));
        assert (ids - {a}) * kept == ids * kept - {a};
      } else {
        assert (ids - {a}) * kept == ids * kept;
      }
    }
  }

  // No id is listed twice, and none is missing.
  lemma {:induction false} AllListsOnce(ids: set<string>)
    ensures forall id :: id in All(ids) <==> id in ids
    ensures forall i, j | 0 <= i < j < |All(ids)| :: Before(All(ids)[i], All(ids)[j])
    decreases |ids|
  {
    if ids != {} {
      var a := First(ids);
      LeadingStep(ids, |ids|);
      AllListsOnce(ids - {a});
      hide Before, Leading;
      assert forall id :: id in All(ids - {a}) ==> Before(a, id);
    }
  }

  // ---------------------------------------------------------------- what a scan should report

  // The objects a lister may return: any that carry their own id, and a digest and a length.
  predicate Listable(t: Tables) {
    forall id | id in t.objects ::
      var m := t.objects[id].metadata;
      && m.ref == ObjectRef(m.ref.resource, id, Some(m.digest)) && IsDigest(m.digest) && m.byteLength >= 0
  }

  // The objects that declare their own resource id and have no metadata row.
  function Abandoned(t: Tables): set<string> {
    set id | id in t.objects
             && t.objects[id].metadata.declaredId.Some?
             && IsResourceId(t.objects[id].metadata.declaredId.value)
             && id == "artifacts/" + t.objects[id].metadata.declaredId.value
             && t.objects[id].metadata.declaredId.value !in t.metadata
  }

  predicate Describes(o: Orphan, m: ObjectMetadata) {
    && Some(o.resourceId) == m.declaredId && o.objectRef == m.ref && o.digest == m.digest && o.byteLength == m.byteLength
  }

  function IdsOf(found: seq<Orphan>): seq<string> {
    seq(|found|, i requires 0 <= i < |found| => found[i].objectRef.objectId)
  }

  lemma IdsOfLength(found: seq<Orphan>)
    ensures |IdsOf(found)| == |found|
  {
  }

  // Every row reported describes its object, and is the recorded one if the scan records.
  predicate Faithful(t: Tables, found: seq<Orphan>, record: bool) {
    forall i | 0 <= i < |found| ::
      var o := found[i];
      && o.objectRef.objectId in t.objects && Describes(o, t.objects[o.objectRef.objectId].metadata)
      && (record ==> o.Id() in t.orphans && t.orphans[o.Id()] == o)
  }

  // A scan adds no rows but those it reports, and only if it records.
  predicate AddsOnly(t: Tables, u: Tables, found: seq<Orphan>, record: bool) {
    && u == t.(orphans := u.orphans)
    && Within(t.orphans, u.orphans)
    && u.orphans.Keys == if record then t.orphans.Keys + (set i | 0 <= i < |found| :: found[i].Id()) else t.orphans.Keys
  }

  lemma AbandonedIffReconcilable(t: Tables, id: string)
    requires id in t.objects && t.objects[id].metadata.ref.objectId == id
    ensures id in Abandoned(t) <==> Reconcilable(t.objects[id].metadata) && t.objects[id].metadata.declaredId.value !in t.metadata
  {
    hide IsResourceId;
  }

  // The objects meant: those that lie under the id of some valid identity, which they declare.
  lemma AbandonedMeans(t: Tables, id: string)
    ensures id in Abandoned(t) <==>
              && id in t.objects
              && exists i :: ValidIdentity(i) && id == ObjectId(ResourceId(i)) && t.objects[id].metadata.declaredId == Some(ResourceId(i))
                             && ResourceId(i) !in t.metadata
  {
    hide ResourceId, ValidIdentity, DecodeIdentity;
    if id in t.objects && t.objects[id].metadata.declaredId.Some? {
      ResourceIdsAreOfIdentities(t.objects[id].metadata.declaredId.value);
    }
  }

  lemma ResourceIdsAreOfIdentities(s: string)
    ensures IsResourceId(s) <==> exists i :: ValidIdentity(i) && s == ResourceId(i)
  {
    hide ResourceId, ValidIdentity, DecodeIdentity;
    forall i | ValidIdentity(i) && s == ResourceId(i)
      ensures IsResourceId(s)
    {
      IdentityRoundTrip(i);
    }
  }

  // ---------------------------------------------------------------- one object

  lemma ReasonsAreBounded()
    ensures BoundedString(NO_METADATA, 512) && BoundedString(PUBLICATION_FAILED, 512)
  {
    hide Utf8, BoundedString;
    PlainIsBounded(NO_METADATA, 512);
    PlainIsBounded(PUBLICATION_FAILED, 512);
  }

  lemma DiscoveredIsMade(codec: Codec, t: Tables, id: string, at: string)
    requires Listable(t) && id in Abandoned(t) && codec.utc(at) == Some(at)
    ensures var m := t.objects[id].metadata;
            DiscoveredOrphan(codec, m, at) == Some(Orphan(m.declaredId.value, m.ref, m.digest, m.byteLength, NO_METADATA, at, Discovered, None))
  {
    hide IsResourceId, BoundedString, IsDigest, ObjectId;
    ReasonsAreBounded();
  }

  // ---------------------------------------------------------------- one page

  // What becomes of a candidate: reported as it is, or in the one row that its key has.
  function Noted(t: Tables, o: Orphan, record: bool): (Orphan, Tables) {
    if !record then (o, t)
    else if o.Id() in t.orphans then (t.orphans[o.Id()], t)
    else
      var stored := o.(recordVersion := Some(Num(1)));
      (stored, t.(orphans := t.orphans[o.Id() := stored]))
  }

  function Candidacy(codec: Codec, t: Tables, id: string, at: string): Option<Orphan> {
    if id in Abandoned(t) then DiscoveredOrphan(codec, t.objects[id].metadata, at) else None
  }

  // The specification of a scan over the objects with these ids.
  function Report(codec: Codec, t: Tables, ids: seq<string>, at: string, record: bool): (seq<Orphan>, Tables)
    decreases |ids|
  {
    if ids == [] then ([], t)
    else
      match Candidacy(codec, t, ids[0], at)
      case None => Report(codec, t, ids[1..], at, record)
      case Some(candidate) =>
        var (o, u) := Noted(t, candidate, record);
        var (more, v) := Report(codec, u, ids[1..], at, record);
        ([o] + more, v)
  }

  // A row under the key of a candidate describes the same object.
  lemma SameKeySameOrphan(t: Tables, o: Orphan)
    requires OrphansOk(t) && o.Id() in t.orphans && o.objectRef.objectId in t.objects
    requires Describes(o, t.objects[o.objectRef.objectId].metadata)
    ensures SameOrphan(t.orphans[o.Id()], o) && Describes(t.orphans[o.Id()], t.objects[o.objectRef.objectId].metadata)
  {
    hide OrphanCandidateId;
    var e := t.orphans[o.Id()];
    assert e.Id() == o.Id() && OrphanHasObject(t.objects, e);
    OrphanCandidateIdInjective(e.resourceId, e.objectRef.objectId, e.digest, o.resourceId, o.objectRef.objectId, o.digest);
  }

  lemma NotedOk(t: Tables, candidate: Orphan, record: bool)
    requires OrphansOk(t) && candidate.objectRef.objectId in t.objects
    requires Describes(candidate, t.objects[candidate.objectRef.objectId].metadata)
    ensures var (o, u) := Noted(t, candidate, record);
            && OrphansOk(u) && u == t.(orphans := u.orphans) && AddsOnly(t, u, [o], record)
            && o.objectRef.objectId == candidate.objectRef.objectId && Faithful(u, [o], record)
  {
    hide OrphanCandidateId;
    if record && candidate.Id() in t.orphans {
      SameKeySameOrphan(t, candidate);
    }
    var (o, u) := Noted(t, candidate, record);
    assert o.Id() == candidate.Id();
    var one := [o];
    assert (set i | 0 <= i < |one| :: one[i].Id()) == {o.Id()} by {
      assert one[0] == o;
    }
  }

  lemma OrphansApart(t: Tables, u: Tables)
    requires u == t.(orphans := u.orphans)
    ensures Abandoned(u) == Abandoned(t) && (Listable(t) ==> Listable(u))
  {
    hide Reconcilable, IsDigest;
  }

  lemma WithinChain(a: map<string, Orphan>, b: map<string, Orphan>, c: map<string, Orphan>)
    requires Within(a, b) && Within(b, c)
    ensures Within(a, c)
  {
  }

  lemma AddsOnlyChain(t: Tables, u: Tables, v: Tables, first: seq<Orphan>, more: seq<Orphan>, record: bool)
    requires AddsOnly(t, u, first, record) && AddsOnly(u, v, more, record)
    ensures AddsOnly(t, v, first + more, record)
  {
    hide OrphanCandidateId, Within;
    WithinChain(t.orphans, u.orphans, v.orphans);
    var found := first + more;
    assert (set i | 0 <= i < |found| :: found[i].Id())
        == (set i | 0 <= i < |first| :: first[i].Id()) + (set i | 0 <= i < |more| :: more[i].Id()) by {
      forall i | 0 <= i < |first|
        ensures first[i].Id() in (set i | 0 <= i < |found| :: found[i].Id())
      {
        assert found[i] == first[i];
      }
      forall i | 0 <= i < |more|
        ensures more[i].Id() in (set i | 0 <= i < |found| :: found[i].Id())
      {
        assert found[|first| + i] == more[i];
      }
    }
  }

  lemma FaithfulChain(u: Tables, v: Tables, first: seq<Orphan>, more: seq<Orphan>, record: bool)
    requires Faithful(u, first, record) && Faithful(v, more, record)
    requires v == u.(orphans := v.orphans) && Within(u.orphans, v.orphans)
    ensures Faithful(v, first + more, record)
  {
    hide OrphanCandidateId, Describes;
  }

  lemma {:induction false} ReportFacts(codec: Codec, t: Tables, ids: seq<string>, at: string, record: bool)
    requires Listable(t) && OrphansOk(t) && codec.utc(at) == Some(at)
    ensures var (found, u) := Report(codec, t, ids, at, record);
            && OrphansOk(u) && Faithful(u, found, record) && AddsOnly(t, u, found, record)
            && IdsOf(found) == Keep(ids, Abandoned(t))
    decreases |ids|
  {
    hide Listable, OrphansOk, Candidacy, Abandoned, Noted, OrphanCandidateId, Faithful, AddsOnly, Describes;
    if ids == [] {
      NothingReported(t, [], record);
    } else {
      CandidacyOk(codec, t, ids[0], at);
      match Candidacy(codec, t, ids[0], at)
      case None => ReportFacts(codec, t, ids[1..], at, record);
      case Some(candidate) =>
        NotedOk(t, candidate, record);
        var (o, u) := Noted(t, candidate, record);
        OrphansApart(t, u);
        ReportFacts(codec, u, ids[1..], at, record);
        var (more, v) := Report(codec, u, ids[1..], at, record);
        AddsOnlyChain(t, u, v, [o], more, record);
        AddsOnlyMeans(u, v, more, record);
        FaithfulChain(u, v, [o], more, record);
        assert IdsOf([o] + more) == [o.objectRef.objectId] + IdsOf(more);
    }
  }

  lemma CandidacyOk(codec: Codec, t: Tables, id: string, at: string)
    requires Listable(t) && codec.utc(at) == Some(at)
    ensures Candidacy(codec, t, id, at).Some? <==> id in Abandoned(t)
    ensures Candidacy(codec, t, id, at).Some? ==>
              var o := Candidacy(codec, t, id, at).value;
              o.objectRef.objectId == id && id in t.objects && Describes(o, t.objects[id].metadata)
  {
    hide DiscoveredOrphan, IsResourceId, ObjectId, IsDigest;
    if id in Abandoned(t) {
      DiscoveredIsMade(codec, t, id, at);
    }
  }

  lemma NothingReported(t: Tables, found: seq<Orphan>, record: bool)
    requires |found| == 0
    ensures Faithful(t, found, record) && AddsOnly(t, t, found, record)
  {
    hide OrphanCandidateId;
  }

  lemma AddsOnlyMeans(t: Tables, u: Tables, found: seq<Orphan>, record: bool)
    requires AddsOnly(t, u, found, record)
    ensures u == t.(orphans := u.orphans) && Within(t.orphans, u.orphans)
  {
  }

  // ---------------------------------------------------------------- the machine reports just that

  // put_orphan, on finding a row under the key: it must say the same of the same object.
  lemma OtherOrphanConflicts(codec: Codec, t: Tables, o: Orphan, next: Scan)
    requires o.Id() in t.orphans
    ensures var e := t.orphans[o.Id()];
            ClientStep(codec, t, DiscCheck(o, next), NoFault)
            == (t, if e.Id() == o.Id() && e.resourceId == o.resourceId && e.objectRef == o.objectRef && e.digest == o.digest
                      && e.byteLength == o.byteLength
                   then Advance(next.(found := next.found + [e])) else Raise(IdentityConflict))
  {
    hide Advance, OrphanCandidateId;
  }

  lemma LookupStep(codec: Codec, t: Tables, id: string, next: Scan)
    requires id in t.objects && t.objects[id].metadata.ref.objectId == id && Reconcilable(t.objects[id].metadata)
    requires id in Abandoned(t) ==> Candidacy(codec, t, id, next.at).Some?
    ensures var (u, d) := ClientStep(codec, t, DiscLookup(t.objects[id].metadata, next), NoFault);
            && u == t
            && d == match Candidacy(codec, t, id, next.at)
                    case None => Advance(next)
                    case Some(o) => if next.record then DiscRecord(o, next) else Found(next, o)
  {
    hide MakeOrphan, IsResourceId, ObjectId, Advance, Abandoned, Candidacy, Found, DiscoveredOrphan, Reconcilable;
    AbandonedIffReconcilable(t, id);
    CandidacyIs(codec, t, id, next.at);
    ReconcilableDeclares(t.objects[id].metadata);
  }

  lemma CandidacyIs(codec: Codec, t: Tables, id: string, at: string)
    ensures id in Abandoned(t) ==> id in t.objects && t.objects[id].metadata.declaredId.Some?
                                   && Candidacy(codec, t, id, at) == DiscoveredOrphan(codec, t.objects[id].metadata, at)
    ensures id !in Abandoned(t) ==> Candidacy(codec, t, id, at) == None
  {
    hide IsResourceId, DiscoveredOrphan;
  }

  lemma ReconcilableDeclares(m: ObjectMetadata)
    requires Reconcilable(m)
    ensures m.declaredId.Some?
  {
    hide IsResourceId;
  }

  lemma RecordStep(codec: Codec, t: Tables, o: Orphan, next: Scan)
    ensures var (u, d) := ClientStep(codec, t, DiscRecord(o, next), NoFault);
            if o.Id() in t.orphans then u == t && d == DiscCheck(o, next)
            else u == Noted(t, o, true).1 && d == Found(next, Noted(t, o, true).0)
  {
    hide Advance, OrphanCandidateId;
  }

  lemma CheckStep(codec: Codec, t: Tables, o: Orphan, next: Scan)
    requires o.Id() in t.orphans && SameOrphan(t.orphans[o.Id()], o)
    ensures ClientStep(codec, t, DiscCheck(o, next), NoFault) == (t, Found(next, t.orphans[o.Id()]))
  {
    hide Advance, OrphanCandidateId;
  }

  function Left(e: Ending): (Outcome, Tables) { (e.outcome, e.tables) }

  // Recording a candidate takes one call or two.
  lemma RecordAlone(codec: Codec, now: nat, t: Tables, o: Orphan, next: Scan)
    requires o.Id() in t.orphans ==> SameOrphan(t.orphans[o.Id()], o)
    ensures var later := if o.Id() in t.orphans then now + 2 else now + 1;
            var (noted, u) := Noted(t, o, true);
            Drive(codec, Alone(), now, t, DiscRecord(o, next)) == Drive(codec, Alone(), later, u, Found(next, noted))
  {
    hide Drive, ClientStep, SameOrphan, OrphanCandidateId, Found;
    DriveStep(codec, now, t, DiscRecord(o, next));
    RecordStep(codec, t, o, next);
    if o.Id() in t.orphans {
      DriveStep(codec, now + 1, t, DiscCheck(o, next));
      CheckStep(codec, t, o, next);
    }
  }

  // The rest of a page, alone: the candidates of the report are added to those found.
  lemma {:induction false} ScanAlone(codec: Codec, now: nat, t: Tables, ids: seq<string>, scan: Scan)
    requires Listable(t) && OrphansOk(t) && codec.utc(scan.at) == Some(scan.at)
    requires forall id :: id in ids ==> id in t.objects
    requires scan.rest == MetadataOf(t.objects, ids)
    ensures var (found, u) := Report(codec, t, ids, scan.at, scan.record);
            Left(Drive(codec, Alone(), now, t, Advance(scan))) == (Orphans(scan.found + found, scan.cursor), u)
    decreases |ids|
  {
    hide Drive, Listable, OrphansOk, ClientStep, Candidacy, Abandoned, Noted, Describes, Faithful, SameOrphan, Reconcilable, OrphanCandidateId;
    if ids == [] {
      assert scan.found + [] == scan.found;
      DriveDone(codec, now, t, Orphans(scan.found, scan.cursor));
    } else {
      var id := ids[0];
      var m := t.objects[id].metadata;
      var next := scan.(rest := scan.rest[1..]);
      assert scan.rest[0] == m && next.rest == MetadataOf(t.objects, ids[1..]);
      ListedId(t, id);
      CandidacyOk(codec, t, id, scan.at);
      if !Reconcilable(m) {
        ScanAlone(codec, now, t, ids[1..], next);
      } else {
        DriveStep(codec, now, t, DiscLookup(m, next));
        LookupStep(codec, t, id, next);
        match Candidacy(codec, t, id, scan.at)
        case None => ScanAlone(codec, now + 1, t, ids[1..], next);
        case Some(candidate) =>
          NotedOk(t, candidate, scan.record);
          var (o, u) := Noted(t, candidate, scan.record);
          OrphansApart(t, u);
          if scan.record && candidate.Id() in t.orphans {
            SameKeySameOrphan(t, candidate);
          }
          var later := if !scan.record then now + 1 else if candidate.Id() in t.orphans then now + 3 else now + 2;
          if scan.record {
            RecordAlone(codec, now + 1, t, candidate, next);
          } else {
            NotedSilently(t, candidate);
          }
          var on := next.(found := scan.found + [o]);
          ScanAlone(codec, later, u, ids[1..], on);
          assert scan.found + [o] + Report(codec, u, ids[1..], scan.at, scan.record).0
              == scan.found + ([o] + Report(codec, u, ids[1..], scan.at, scan.record).0);
      }
    }
  }

  lemma NotedSilently(t: Tables, o: Orphan)
    ensures Noted(t, o, false) == (o, t)
  {
  }

  lemma DriveDone(codec: Codec, now: nat, t: Tables, o: Outcome)
    ensures Drive(codec, Alone(), now, t, Done(o)) == Ending(o, t, now)
  {
  }

  lemma ListedId(t: Tables, id: string)
    requires Listable(t) && id in t.objects
    ensures t.objects[id].metadata.ref.objectId == id
    ensures id in Abandoned(t) ==> Reconcilable(t.objects[id].metadata)
  {
    hide IsDigest, Reconcilable, Abandoned;
    AbandonedIffReconcilable(t, id);
  }

  // ---------------------------------------------------------------- all pages

  lemma PageAlone(codec: Codec, now: nat, t: Tables, limit: nat, after: Option<string>, record: bool, at: string)
    requires Listable(t) && OrphansOk(t) && codec.utc(at) == Some(at)
    ensures var ids := IdsAfter(t.objects, after);
            var page := Leading(ids, limit);
            var (found, u) := Report(codec, t, page, at, record);
            Left(Drive(codec, Alone(), now, t, DiscList(limit, after, record, at)))
              == (Orphans(found, if page != [] && |ids| > limit then Some(page[|page| - 1]) else None), u)
  {
    hide Drive, Listable, OrphansOk, Leading, Report, Advance, Left;
    DriveStep(codec, now, t, DiscList(limit, after, record, at));
    var ids := IdsAfter(t.objects, after);
    LeadingIn(ids, limit);
    var page := Leading(ids, limit);
    var cursor := if page != [] && |ids| > limit then Some(page[|page| - 1]) else None;
    ScanAlone(codec, now + 1, t, page, Scan(MetadataOf(t.objects, page), cursor, [], record, at));
    var found := Report(codec, t, page, at, record).0;
    assert [] + found == found;
  }

  lemma CursorAdvances(objects: map<string, StoredObject>, after: Option<string>, limit: nat)
    requires limit >= 1 && |IdsAfter(objects, after)| > limit
    ensures var ids := IdsAfter(objects, after);
            var page := Leading(ids, limit);
            && page != []
            && IdsAfter(objects, Some(page[|page| - 1])) == ids - Elements(page)
            && |IdsAfter(objects, Some(page[|page| - 1]))| < |ids|
  {
    hide Leading, Before;
    var ids := IdsAfter(objects, after);
    var page := Leading(ids, limit);
    RestComesAfter(ids, limit);
    LeadingIn(ids, limit);
    LeadingSplits(ids, limit);
    var last := page[|page| - 1];
    assert last in page;
    forall id | id in IdsAfter(objects, Some(last))
      ensures id in ids
    {
      if after.Some? {
        BeforeIsTransitive(after.value, last, id);
      }
    }
  }

  // Discovery by a caller that follows the cursor to the end, on a store where nothing else happens.
  function DiscoverAll(codec: Codec, t: Tables, limit: nat, after: Option<string>, record: bool, at: string): (seq<Orphan>, Tables)
    requires limit >= 1 && Listable(t) && OrphansOk(t) && codec.utc(at) == Some(at)
    decreases |IdsAfter(t.objects, after)|
  {
    var e := Drive(codec, Alone(), 0, t, Start(codec, DiscoverOrphans(limit, after, record, at)));
    PageLeaves(codec, t, limit, after, record, at);
    if e.outcome.Orphans? && e.outcome.cursor.Some? then
      var (more, u) := DiscoverAll(codec, e.tables, limit, e.outcome.cursor, record, at);
      (e.outcome.found + more, u)
    else if e.outcome.Orphans? then (e.outcome.found, e.tables)
    else ([], e.tables)
  }

  lemma PageLeaves(codec: Codec, t: Tables, limit: nat, after: Option<string>, record: bool, at: string)
    requires limit >= 1 && Listable(t) && OrphansOk(t) && codec.utc(at) == Some(at)
    ensures var e := Drive(codec, Alone(), 0, t, Start(codec, DiscoverOrphans(limit, after, record, at)));
            var ids := IdsAfter(t.objects, after);
            var page := Leading(ids, limit);
            && e.outcome.Orphans?
            && OrphansOk(e.tables) && Faithful(e.tables, e.outcome.found, record) && AddsOnly(t, e.tables, e.outcome.found, record)
            && Listable(e.tables) && Abandoned(e.tables) == Abandoned(t) && e.tables.objects == t.objects
            && IdsOf(e.outcome.found) == Keep(page, Abandoned(t))
            && (e.outcome.cursor.None? ==> page == All(ids))
            && (e.outcome.cursor.Some? ==>
                  && IdsAfter(t.objects, e.outcome.cursor) == ids - Elements(page)
                  && |IdsAfter(t.objects, e.outcome.cursor)| < |ids|)
  {
    hide Drive, Listable, OrphansOk, Leading, Report, Faithful, AddsOnly, Abandoned, IdsAfter;
    PageAlone(codec, 0, t, limit, after, record, at);
    var ids := IdsAfter(t.objects, after);
    var page := Leading(ids, limit);
    ReportFacts(codec, t, page, at, record);
    var (found, u) := Report(codec, t, page, at, record);
    AddsOnlyMeans(t, u, found, record);
    OrphansApart(t, u);
    LeadingIn(ids, limit);
    if |ids| > limit {
      CursorAdvances(t.objects, after, limit);
    } else {
      LeadingSplits(ids, limit);
      LeadingNone({}, 0);
      assert ids - Elements(page) == {};
    }
  }

  lemma {:induction false} AllPages(codec: Codec, t: Tables, limit: nat, after: Option<string>, record: bool, at: string)
    requires limit >= 1 && Listable(t) && OrphansOk(t) && codec.utc(at) == Some(at)
    ensures var (found, u) := DiscoverAll(codec, t, limit, after, record, at);
            && OrphansOk(u) && Faithful(u, found, record) && AddsOnly(t, u, found, record)
            && IdsOf(found) == Keep(All(IdsAfter(t.objects, after)), Abandoned(t))
    decreases |IdsAfter(t.objects, after)|
  {
    hide Drive, Listable, OrphansOk, Leading, All, Faithful, AddsOnly, Abandoned, IdsAfter;
    PageLeaves(codec, t, limit, after, record, at);
    var e := Drive(codec, Alone(), 0, t, Start(codec, DiscoverOrphans(limit, after, record, at)));
    if e.outcome.cursor.Some? {
      var ids := IdsAfter(t.objects, after);
      var page := Leading(ids, limit);
      AllPages(codec, e.tables, limit, e.outcome.cursor, record, at);
      var (more, u) := DiscoverAll(codec, e.tables, limit, e.outcome.cursor, record, at);
      AddsOnlyMeans(e.tables, u, more, record);
      AddsOnlyChain(t, e.tables, u, e.outcome.found, more, record);
      FaithfulChain(e.tables, u, e.outcome.found, more, record);
      LeadingSplits(ids, limit);
      KeepSplits(page, All(ids - Elements(page)), Abandoned(t));
      assert IdsOf(e.outcome.found + more) == IdsOf(e.outcome.found) + IdsOf(more);
    }
  }

  // Orphan discovery is sound and complete.  Whatever objects are in the store, following the cursor
  // to the end reports exactly one candidate for each object that lies under its declared resource
  // id and has no metadata row, in the order of their ids.  Each describes its object; a recording
  // scan leaves one row for each and adds no other, and one that does not record changes nothing.
  lemma DiscoveryIsExact(codec: Codec, t: Tables, limit: nat, record: bool, at: string)
    requires limit >= 1 && Listable(t) && OrphansOk(t) && codec.utc(at) == Some(at)
    ensures var (found, u) := DiscoverAll(codec, t, limit, None, record, at);
            && IdsOf(found) == All(Abandoned(t))
            && (forall id :: id in IdsOf(found) <==> id in Abandoned(t))
            && (forall i, j | 0 <= i < j < |found| :: Before(IdsOf(found)[i], IdsOf(found)[j]))
            && Faithful(u, found, record) && AddsOnly(t, u, found, record)
            && OrphansOk(u) && Listable(u) && Abandoned(u) == Abandoned(t)
  {
    hide DiscoverAll, Listable, OrphansOk, All, Keep, Faithful, AddsOnly, IdsOf, Before;
    AllPages(codec, t, limit, None, record, at);
    var (found, u) := DiscoverAll(codec, t, limit, None, record, at);
    AddsOnlyMeans(t, u, found, record);
    OrphansApart(t, u);
    KeepAll(IdsAfter(t.objects, None), Abandoned(t));
    AbandonedAreListed(t);
    assert IdsAfter(t.objects, None) * Abandoned(t) == Abandoned(t);
    AllListsOnce(Abandoned(t));
    assert |IdsOf(found)| == |found| by { IdsOfLength(found); }
  }

  lemma AbandonedAreListed(t: Tables)
    requires Listable(t)
    ensures Abandoned(t) <= IdsAfter(t.objects, None)
  {
    hide IsResourceId, IsDigest;
    forall id | id in Abandoned(t)
      ensures "artifacts/" <= id
    {
      var m := t.objects[id].metadata;
      assert m.ref.objectId == id && id == ObjectId(m.declaredId.value);
    }
  }

  // ---------------------------------------------------------------- one row for each

  lemma FaithfulIds(u: Tables, v: Tables, a: seq<Orphan>, b: seq<Orphan>)
    requires Faithful(u, a, true) && Faithful(v, b, true) && IdsOf(a) == IdsOf(b)
    requires v == u.(orphans := v.orphans) && Within(u.orphans, v.orphans)
    ensures a == b
  {
    hide OrphanCandidateId;
    assert |a| == |IdsOf(a)| == |b|;
    forall i | 0 <= i < |a|
      ensures a[i] == b[i]
    {
      assert a[i].objectRef.objectId == IdsOf(a)[i] == IdsOf(b)[i] == b[i].objectRef.objectId;
      assert a[i].Id() == b[i].Id();
    }
  }

  lemma NothingAdded(u: Tables, v: Tables, found: seq<Orphan>)
    requires Faithful(u, found, true) && AddsOnly(u, v, found, true)
    ensures v == u
  {
    hide OrphanCandidateId, Describes;
    assert v.orphans.Keys == u.orphans.Keys;
    assert v.orphans == u.orphans;
  }

  // Scanning again, with any page size and at any time, reports the same rows and adds none.
  lemma DiscoveryIsIdempotent(codec: Codec, t: Tables, limit: nat, at: string, limit': nat, at': string)
    requires limit >= 1 && limit' >= 1 && Listable(t) && OrphansOk(t)
    requires codec.utc(at) == Some(at) && codec.utc(at') == Some(at')
    ensures var (found, u) := DiscoverAll(codec, t, limit, None, true, at);
            Listable(u) && OrphansOk(u) && DiscoverAll(codec, u, limit', None, true, at') == (found, u)
  {
    hide DiscoverAll, Listable, OrphansOk, Abandoned, All, Faithful, AddsOnly, IdsOf;
    DiscoveryIsExact(codec, t, limit, true, at);
    var (found, u) := DiscoverAll(codec, t, limit, None, true, at);
    DiscoveryIsExact(codec, u, limit', true, at');
    var (again, v) := DiscoverAll(codec, u, limit', None, true, at');
    AddsOnlyMeans(u, v, again, true);
    FaithfulIds(u, v, found, again);
    NothingAdded(u, v, found);
  }

  // ---------------------------------------------------------------- the objects that publishers leave

  // Requests that have passed the checks at the start of publish.
  predicate Checked(c: Client) {
    c.PubLookup? || c.PubPut? || c.PubStat? ==>
      ValidIdentity(c.request.identity) && IsDigest(c.request.digest) && c.request.byteLength >= 0
  }

  predicate Traceable(t: Tables) {
    forall id | id in t.objects ::
      var m := t.objects[id].metadata;
      && m.declaredId.Some? && IsResourceId(m.declaredId.value) && id == ObjectId(m.declaredId.value)
      && m.ref == ObjectRef(m.ref.resource, id, Some(m.digest)) && IsDigest(m.digest) && m.byteLength >= 0
  }

  lemma CheckedStep(codec: Codec, t: Tables, c: Client, fault: Fault)
    requires !c.Done? && Checked(c)
    ensures Checked(ClientStep(codec, t, c, fault).1)
  {
    hide ValidIdentity, IsDigest, Make, MakeOrphan, MakeChannel, ResourceId, ObjectId, SameArtifact, SameConfiguration, ChannelName,
         Advance, FailedPublication, ArtifactCandidate, Perform, ObjectMatches, OrphanCandidateId;
    var r := Perform(codec.sha, t, NextCall(c), fault).1;
    if c.DiscList? || c.DiscLookup? || c.DiscRecord? || c.DiscCheck? {
      CheckedDiscovery(codec, c, r);
    }
  }

  lemma CheckedDiscovery(codec: Codec, c: Client, r: Response)
    requires c.DiscList? || c.DiscLookup? || c.DiscRecord? || c.DiscCheck?
    ensures Checked(ResumeDiscovery(codec, c, r))
  {
    hide MakeOrphan, ValidIdentity, IsDigest, Advance, OrphanCandidateId;
    if c.DiscList? && r.ObjectsAre? {
      CheckedAdvance(Scan(r.items, r.cursor, [], c.record, c.at));
    } else if c.DiscLookup? {
      CheckedAdvance(c.scan);
      if c.item.declaredId.Some? && DiscoveredOrphan(codec, c.item, c.scan.at).Some? {
        CheckedAdvance(c.scan.(found := c.scan.found + [DiscoveredOrphan(codec, c.item, c.scan.at).value]));
      }
    } else if (c.DiscRecord? || c.DiscCheck?) && r.OrphanIs? {
      CheckedAdvance(c.scan.(found := c.scan.found + [r.orphan]));
    }
  }

  lemma {:induction false} CheckedAdvance(scan: Scan)
    ensures Checked(Advance(scan))
    decreases |scan.rest|
  {
    hide Reconcilable, ValidIdentity, IsDigest;
    if scan.rest != [] {
      CheckedAdvance(scan.(rest := scan.rest[1..]));
    }
  }

  lemma TraceableStep(codec: Codec, t: Tables, c: Client, fault: Fault)
    requires !c.Done? && Checked(c) && Traceable(t)
    ensures Traceable(ClientStep(codec, t, c, fault).0)
  {
    hide ValidIdentity, IsDigest, ResourceId, IsResourceId, ObjectId, OrphanCandidateId, ChannelVersionId, LatestRow, ExecListObjects, Resume;
    if c.PubPut? {
      IdentitiesAreIds(c.request.identity);
    }
  }

  lemma IdentitiesAreIds(i: Identity)
    requires ValidIdentity(i)
    ensures IsResourceId(ResourceId(i))
  {
    hide ResourceId, DecodeIdentity, ValidIdentity;
    IdentityRoundTrip(i);
  }

  ghost predicate AllChecked(s: System) {
    Traceable(s.tables) && forall id | id in s.clients :: Checked(s.clients[id])
  }

  lemma {:induction false} ObjectsAreTraceable(codec: Codec, events: seq<Event>)
    ensures AllChecked(Run(codec, events))
  {
    hide Traceable, Checked, ClientStep, Start;
    if events == [] {
      NothingToTrace();
    } else {
      var s, e := Run(codec, events[..|events| - 1]), events[|events| - 1];
      ObjectsAreTraceable(codec, events[..|events| - 1]);
      match e
      case Begin(id, api) => CheckedStart(codec, api);
      case Step(id, fault) =>
        if Running(s, id) {
          CheckedStep(codec, s.tables, s.clients[id], fault);
          TraceableStep(codec, s.tables, s.clients[id], fault);
        }
      case Crash(id) => CheckedCrash();
    }
  }

  lemma NothingToTrace()
    ensures AllChecked(INITIAL)
  {
  }

  lemma CheckedStart(codec: Codec, api: Api)
    ensures Checked(Start(codec, api))
  {
    hide ValidIdentity, IsDigest, ConfigurationCandidate, MediaType, ChannelName;
  }

  lemma CheckedCrash()
    ensures Checked(Done(Crashed))
  {
  }

  // Every object that publishers leave without a metadata row is found: after any run, with crashes
  // and faults anywhere, following the cursor to the end reports the ids of exactly the objects whose
  // resource has no metadata row.
  lemma DeadPublishersAreFound(codec: Codec, events: seq<Event>, limit: nat, record: bool, at: string)
    requires limit >= 1 && codec.utc(at) == Some(at)
    ensures var t := Run(codec, events).tables;
            && Listable(t) && OrphansOk(t)
            && var (found, u) := DiscoverAll(codec, t, limit, None, record, at);
              && IdsOf(found) == All(set id | id in t.objects && t.objects[id].metadata.declaredId.Some?
                                               && t.objects[id].metadata.declaredId.value !in t.metadata)
              && Faithful(u, found, record) && AddsOnly(t, u, found, record)
  {
    hide Run, DiscoverAll, All, Faithful, AddsOnly, IdsOf, Listable, Abandoned, Traceable, TablesOk, ClientOk, Credited;
    var t := Run(codec, events).tables;
    Reachable(codec, events);
    ObjectsAreTraceable(codec, events);
    TraceableMeans(t);
    assert OrphansOk(t) by { TablesParts(codec, t); }
    DiscoveryIsExact(codec, t, limit, record, at);
  }

  lemma TraceableMeans(t: Tables)
    requires Traceable(t)
    ensures Listable(t)
    ensures Abandoned(t) == set id | id in t.objects && t.objects[id].metadata.declaredId.Some?
                                     && t.objects[id].metadata.declaredId.value !in t.metadata
  {
    hide IsResourceId, IsDigest;
  }

  // ---------------------------------------------------------------- evidence

  lemma OrphanCalls(codec: Codec, t: Tables, o: Orphan, fault: Fault)
    ensures var (u, d) := ClientStep(codec, t, PubOrphan(o), fault);
            && (d == Raise(IncompletePublication) || d == PubOrphanCheck(o))
            && (fault == NoFault ==> o.Id() in u.orphans)
    ensures ClientStep(codec, t, PubOrphanCheck(o), fault) == (t, Raise(IncompletePublication))
  {
    hide OrphanCandidateId;
  }

  // Recording is best effort: the publication is reported as incomplete whatever becomes of it.
  lemma RecordingEnds(codec: Codec, w: World, now: nat, t: Tables, o: Orphan)
    requires Rely(codec, w) && TablesOk(codec, t) && OrphanHasObject(t.objects, o)
    ensures var e := Drive(codec, w, now, t, PubOrphan(o));
            && e.outcome == Raised(IncompletePublication) && TablesOk(codec, e.tables) && Grows(t, e.tables)
            && (w.fault(now) == NoFault ==> o.Id() in e.tables.orphans)
  {
    hide Drive, ClientStep, TablesOk, OrphanHasObject, OrphanCandidateId, Within, RowsGrow;
    var c := PubOrphan(o);
    var s := w.interfere(now, t);
    WorldStep(codec, w, now, t, c);
    assert ClientOk(codec, s, c) by { ClientOkStable(codec, t, s, c); }
    StepOk(codec, s, c, w.fault(now));
    OrphanCalls(codec, s, o, w.fault(now));
    var (u, d) := ClientStep(codec, s, c, w.fault(now));
    GrowsTransitive(t, s, u);
    if d == PubOrphanCheck(o) {
      var v := w.interfere(now + 1, u);
      WorldStep(codec, w, now + 1, u, d);
      OrphanCalls(codec, v, o, w.fault(now + 1));
      WorldDone(codec, w, now + 2, v, Raised(IncompletePublication));
      GrowsTransitive(t, u, v);
      if o.Id() in u.orphans {
        OrphanStays(u, v, o.Id());
      }
    } else {
      WorldDone(codec, w, now + 1, u, Raised(IncompletePublication));
    }
  }

  lemma OrphanStays(t: Tables, u: Tables, id: string)
    requires Grows(t, u) && id in t.orphans
    ensures id in u.orphans
  {
  }

  lemma FailureIsMade(codec: Codec, r: StoredResource, at: string)
    requires Valid(codec, r) && r.profile == Artifact && codec.utc(at) == Some(at)
    ensures r.objectRef.Some?
    ensures FailedPublication(codec, r, at)
              == Some(Orphan(r.Id(), r.objectRef.value, r.digest, r.byteLength, PUBLICATION_FAILED, at, Recorded, None))
  {
    hide IsResourceId, BoundedString, IsDigest, ResourceId, ValidIdentity, BoundedMapping, StringMapping, ValidProvenance, MediaType;
    ReasonsAreBounded();
    IdentitiesAreIds(r.identity);
  }

  // Without a valid time for it there is no evidence to record: that is what publish then raises.
  lemma UndatedEvidence(codec: Codec, q: ArtifactRequest, r: StoredResource)
    requires codec.utc(q.recordedAt) == None && r.objectRef.Some?
    ensures OnCommitFailure(codec, q, r) == Raise(InvalidInput)
  {
    hide ValidOrphan, ResourceId;
  }

  lemma CommitFails(codec: Codec, t: Tables, c: Client, kind: Failure, fault: Fault)
    requires c.PubCommit? && kind != Conflict && (fault == LostRequest(kind) || fault == LostReply(kind))
    ensures ClientStep(codec, t, c, fault).1 == OnCommitFailure(codec, c.request, c.candidate)
  {
    hide OnCommitFailure, ExecCommit;
  }

  // A failed commit leaves evidence.  If the transaction fails, for any reason but a conflict and
  // whether or not it took effect, publish raises IncompletePublication; and unless recording fails
  // too, a row then describes the object, whatever others do meanwhile.
  lemma EvidenceIsRecorded(codec: Codec, w: World, now: nat, t: Tables, c: Client, kind: Failure)
    requires Rely(codec, w) && TablesOk(codec, t) && ClientOk(codec, t, c) && c.PubCommit?
    requires codec.utc(c.request.recordedAt) == Some(c.request.recordedAt)
    requires kind != Conflict && (w.fault(now) == LostRequest(kind) || w.fault(now) == LostReply(kind))
    ensures var e := Drive(codec, w, now, t, c);
            var r := c.candidate;
            var key := OrphanCandidateId(r.Id(), ObjectId(r.Id()), r.digest);
            && e.outcome == Raised(IncompletePublication)
            && ObjectId(r.Id()) in e.tables.objects
            && (w.fault(now + 1) == NoFault ==>
                  key in e.tables.orphans && Describes(e.tables.orphans[key], e.tables.objects[ObjectId(r.Id())].metadata))
  {
    hide Drive, ClientStep, TablesOk, ResourceId, OrphanCandidateId, ObjectId, FailedPublication, Valid, Grows, Rely, Describes, OrphanHasObject, HasObject;
    var s := w.interfere(now, t);
    assert TablesOk(codec, s) && Grows(t, s) by { RelyMeans(codec, w, now, t); }
    WorldStep(codec, w, now, t, c);
    ClientOkStable(codec, t, s, c);
    StepOk(codec, s, c, w.fault(now));
    CommitFails(codec, s, c, kind, w.fault(now));
    var r := c.candidate;
    FailureIsMade(codec, r, c.request.recordedAt);
    var o := FailedPublication(codec, r, c.request.recordedAt).value;
    var u := ClientStep(codec, s, c, w.fault(now)).0;
    RecordingEnds(codec, w, now + 1, u, o);
    var e := Drive(codec, w, now + 1, u, PubOrphan(o));
    CandidateObject(codec, t, s, u, e.tables, r, o);
  }

  lemma MissingWinner(codec: Codec, t: Tables, c: Client, fault: Fault)
    requires c.PubWinner? && Perform(codec.sha, t, NextCall(c), fault).1 == Failed(NotFound)
    ensures ClientStep(codec, t, c, fault) == (t, OnCommitFailure(codec, c.request, c.candidate))
  {
    hide OnCommitFailure, ResourceId;
  }

  // The same evidence if the commit conflicts and the winner is then reported missing, rightly or not.
  lemma MissingWinnerIsRecorded(codec: Codec, w: World, now: nat, t: Tables, c: Client)
    requires Rely(codec, w) && TablesOk(codec, t) && ClientOk(codec, t, c) && c.PubWinner?
    requires codec.utc(c.request.recordedAt) == Some(c.request.recordedAt)
    requires Perform(codec.sha, w.interfere(now, t), NextCall(c), w.fault(now)).1 == Failed(NotFound)
    ensures var e := Drive(codec, w, now, t, c);
            var r := c.candidate;
            var key := OrphanCandidateId(r.Id(), ObjectId(r.Id()), r.digest);
            && e.outcome == Raised(IncompletePublication)
            && ObjectId(r.Id()) in e.tables.objects
            && (w.fault(now + 1) == NoFault ==>
                  key in e.tables.orphans && Describes(e.tables.orphans[key], e.tables.objects[ObjectId(r.Id())].metadata))
            && (Quiet(w) ==> e.tables.metadata == t.metadata)
  {
    hide Drive, ClientStep, Perform, NextCall, TablesOk, ResourceId, OrphanCandidateId, ObjectId, FailedPublication, Valid, Grows, Rely,
         Describes, OrphanHasObject, HasObject;
    var s := w.interfere(now, t);
    assert TablesOk(codec, s) && Grows(t, s) by { RelyMeans(codec, w, now, t); }
    WorldStep(codec, w, now, t, c);
    ClientOkStable(codec, t, s, c);
    StepOk(codec, s, c, w.fault(now));
    MissingWinner(codec, s, c, w.fault(now));
    var r := c.candidate;
    FailureIsMade(codec, r, c.request.recordedAt);
    var o := FailedPublication(codec, r, c.request.recordedAt).value;
    RecordingEnds(codec, w, now + 1, s, o);
    var e := Drive(codec, w, now + 1, s, PubOrphan(o));
    assert Grows(s, s) by { GrowsReflexive(s); }
    CandidateObject(codec, t, s, s, e.tables, r, o);
    if Quiet(w) {
      RecordingLeavesRows(codec, w, now + 1, t, o);
    }
  }

  // ---------------------------------------------------------------- false evidence

  // Others do nothing.
  ghost predicate Quiet(w: World) {
    forall n, t :: w.interfere(n, t) == t
  }

  lemma RecordingLeavesRows(codec: Codec, w: World, now: nat, t: Tables, o: Orphan)
    requires Quiet(w)
    ensures Drive(codec, w, now, t, PubOrphan(o)).tables.metadata == t.metadata
  {
    hide Drive, ClientStep;
    WorldStep(codec, w, now, t, PubOrphan(o));
    OrphanCalls(codec, t, o, w.fault(now));
    OrphanCallsLeaveRows(codec, t, o, w.fault(now));
    var (u, d) := ClientStep(codec, t, PubOrphan(o), w.fault(now));
    if d == PubOrphanCheck(o) {
      WorldStep(codec, w, now + 1, u, d);
      OrphanCalls(codec, u, o, w.fault(now + 1));
      WorldDone(codec, w, now + 2, u, Raised(IncompletePublication));
    } else {
      WorldDone(codec, w, now + 1, u, Raised(IncompletePublication));
    }
  }

  lemma OrphanCallsLeaveRows(codec: Codec, t: Tables, o: Orphan, fault: Fault)
    ensures ClientStep(codec, t, PubOrphan(o), fault).0.metadata == t.metadata
  {
    hide OrphanCandidateId;
  }

  lemma CommitRowIff(codec: Codec, t: Tables, c: Client, fault: Fault)
    requires c.PubCommit? && ProvenanceOk(t) && c.candidate.Id() !in t.metadata
    ensures c.candidate.Id() in ClientStep(codec, t, c, fault).0.metadata <==> !fault.LostRequest?
  {
    hide ResourceId, Resume;
  }

  // Whether the evidence is false.  A commit under an unused identity fails, not as a conflict, where
  // nobody else does anything, and its object is recorded as an orphan: it has its metadata row all
  // the same if and only if the commit took effect and only its reply was lost.
  lemma FalseEvidenceIff(codec: Codec, w: World, now: nat, t: Tables, c: Client, kind: Failure)
    requires Quiet(w) && TablesOk(codec, t) && ClientOk(codec, t, c) && c.PubCommit? && c.candidate.Id() !in t.metadata
    requires codec.utc(c.request.recordedAt) == Some(c.request.recordedAt)
    requires kind != Conflict && (w.fault(now) == LostRequest(kind) || w.fault(now) == LostReply(kind))
    requires w.fault(now + 1) == NoFault
    ensures var e := Drive(codec, w, now, t, c);
            var r := c.candidate;
            && e.outcome == Raised(IncompletePublication)
            && OrphanCandidateId(r.Id(), ObjectId(r.Id()), r.digest) in e.tables.orphans
            && (r.Id() in e.tables.metadata <==> w.fault(now).LostReply?)
  {
    hide Drive, ClientStep, TablesOk, ResourceId, OrphanCandidateId, ObjectId, FailedPublication, Valid, ClientOk, ProvenanceOk;
    assert Rely(codec, w) by { QuietRelies(codec, w); }
    EvidenceIsRecorded(codec, w, now, t, c, kind);
    WorldStep(codec, w, now, t, c);
    CommitFails(codec, t, c, kind, w.fault(now));
    assert ProvenanceOk(t) by { TablesParts(codec, t); }
    CommitRowIff(codec, t, c, w.fault(now));
    CandidateIsValid(codec, t, c);
    FailureIsMade(codec, c.candidate, c.request.recordedAt);
    RecordingLeavesRows(codec, w, now + 1, ClientStep(codec, t, c, w.fault(now)).0,
                        FailedPublication(codec, c.candidate, c.request.recordedAt).value);
  }

  lemma CandidateIsValid(codec: Codec, t: Tables, c: Client)
    requires ClientOk(codec, t, c) && c.PubCommit?
    ensures Valid(codec, c.candidate) && c.candidate.profile == Artifact
  {
    hide Valid;
  }

  lemma QuietRelies(codec: Codec, w: World)
    requires Quiet(w)
    ensures Rely(codec, w)
  {
    hide TablesOk, Grows;
    forall n, t | TablesOk(codec, t)
      ensures TablesOk(codec, w.interfere(n, t)) && Grows(t, w.interfere(n, t))
    {
      GrowsReflexive(t);
    }
  }

  lemma TablesParts(codec: Codec, t: Tables)
    requires TablesOk(codec, t)
    ensures MetadataOk(codec, t) && ObjectsOk(codec.sha, t) && ProvenanceOk(t) && ChannelsOk(t) && OrphansOk(t)
  {
  }

  lemma RelyMeans(codec: Codec, w: World, now: nat, t: Tables)
    requires Rely(codec, w) && TablesOk(codec, t)
    ensures TablesOk(codec, w.interfere(now, t)) && Grows(t, w.interfere(now, t))
  {
    hide TablesOk, Grows;
  }

  lemma CandidateObject(codec: Codec, t: Tables, s: Tables, u: Tables, v: Tables, r: StoredResource, o: Orphan)
    requires HasObject(t.objects, r) && Grows(t, s) && Grows(s, u) && Grows(u, v) && TablesOk(codec, v)
    requires o.resourceId == r.Id() && Some(o.objectRef) == r.objectRef && o.digest == r.digest && o.byteLength == r.byteLength
    ensures var id := ObjectId(r.Id());
            && id in v.objects && o.Id() == OrphanCandidateId(r.Id(), id, r.digest)
            && (o.Id() in v.orphans ==> Describes(v.orphans[o.Id()], v.objects[id].metadata))
  {
    hide ResourceId, OrphanCandidateId, MetadataOk, ProvenanceOk, ChannelsOk, OrphansOk, RowsGrow;
    var id := ObjectId(r.Id());
    assert id in v.objects && v.objects[id] == t.objects[id];
    var m := v.objects[id].metadata;
    assert ObjectId(m.declaredId.value)[|"artifacts/"|..] == m.declaredId.value;
    assert id[|"artifacts/"|..] == r.Id();
    if o.Id() in v.orphans {
      SameKeySameOrphan(v, o);
    }
  }

  // ---------------------------------------------------------------- a configuration in the way

  // If a configuration takes the identity after the artifact's object is in place, the publisher
  // loses: it raises IdentityConflict and records nothing.  Its object stays, unreferenced, and no
  // scan reports it, because the identity has a row.
  lemma ConfigurationWins(codec: Codec, t: Tables, c: Client, now: nat)
    requires TablesOk(codec, t) && ClientOk(codec, t, c) && c.PubCommit?
    requires ResourceId(c.request.identity) in t.metadata && t.metadata[ResourceId(c.request.identity)].profile == Configuration
    ensures Left(Drive(codec, Alone(), now, t, c)) == (Raised(IdentityConflict), t)
    ensures ObjectId(ResourceId(c.request.identity)) in t.objects && ObjectId(ResourceId(c.request.identity)) !in Abandoned(t)
  {
    hide Drive, ClientStep, Valid, OrphansOk, ChannelsOk, ProvenanceOk, ResourceId, IsResourceId;
    var id := ResourceId(c.request.identity);
    DriveStep(codec, now, t, c);
    CommitConflicts(codec, t, c);
    var d := PubWinner(c.request, c.pointing, c.candidate);
    DriveStep(codec, now + 1, t, d);
    LoserStops(codec, t, d);
    DriveDone(codec, now + 2, t, Raised(IdentityConflict));
    var declared := t.objects[ObjectId(id)].metadata.declaredId.value;
    assert ObjectId(declared)[|"artifacts/"|..] == declared;
    assert ObjectId(id)[|"artifacts/"|..] == id;
  }

  lemma CommitConflicts(codec: Codec, t: Tables, c: Client)
    requires c.PubCommit? && c.candidate.Id() in t.metadata
    ensures ClientStep(codec, t, c, NoFault) == (t, PubWinner(c.request, c.pointing, c.candidate))
  {
    hide ResourceId;
  }

  lemma LoserStops(codec: Codec, t: Tables, c: Client)
    requires c.PubWinner? && ResourceId(c.request.identity) in t.metadata
    requires t.metadata[ResourceId(c.request.identity)].profile != c.candidate.profile
    ensures ClientStep(codec, t, c, NoFault) == (t, Raise(IdentityConflict))
  {
    hide ResourceId;
  }
}
