// The library's methods as they run: calls to the store one after another, each decision taken on
// the last answer.  Every method ends as the state machine of its operation does, in every world.

module Repository {
  import opened Basics
  import opened Canonical
  import opened References
  import opened Resources
  import opened Records
  import opened Tables
  import Clients
  import opened Driving
  import opened Payloads

  type Client = Clients.Client
  type Outcome = Clients.Outcome

  // The store as one caller meets it: `now` counts its calls.
  class Store {
    const codec: Codec
    const world: World
    var tables: Tables
    var now: nat

    constructor (codec: Codec, world: World, tables: Tables)
      ensures this.codec == codec && this.world == world && this.tables == tables && now == 0
    {
      this.codec, this.world, this.tables, now := codec, world, tables, 0;
    }

    // How an operation that has come to c ends from here on.
    ghost function Rest(c: Client): Ending
      reads this
    {
      Drive(codec, world, now, tables, c)
    }

    // One call of an operation that has come to c; d is where the answer takes it.
    method Execute(call: Call, ghost c: Client) returns (r: Response, ghost d: Client)
      requires !c.Done? && call == Clients.NextCall(c)
      modifies this
      ensures now == old(now) + 1
      ensures (tables, r) == Perform(codec.sha, world.interfere(old(now), old(tables)), call, world.fault(old(now)))
      ensures d == Clients.Resume(codec, c, r) && Rest(d) == old(Rest(c))
    {
      hide Drive, Perform, Clients.Resume, Clients.NextCall;
      var (after, response) := Perform(codec.sha, world.interfere(now, tables), call, world.fault(now));
      CallStep(codec, world, now, tables, c, after, response);
      tables, now, r, d := after, now + 1, response, Clients.Resume(codec, c, response);
    }

    lemma Ended(o: Outcome)
      ensures Rest(Clients.Done(o)) == Ending(o, tables, now)
    {
    }
  }

  // The error that a failed call raises, if the caller does not handle it.
  function ErrorOf(r: Response): Error {
    if r.Failed? then StoreFailure(r.kind) else InvalidRepositoryResult
  }

  function RequiredErrorOf(r: Response): Error {
    if r == Failed(NotFound) then ResourceNotFound else ErrorOf(r)
  }

  // ---------------------------------------------------------------- channels

  function Settled(finish: Clients.Finish, r: Result<ChannelRow>): Outcome {
    match r
    case Err(e) => Clients.Raised(e)
    case Ok(winner) =>
      match finish
      case Plain => Clients.Promoted(winner)
      case Receipt(resource, idempotent, committed) => Clients.Publication(resource, idempotent, committed, Some(winner))
  }

  lemma SettledErrors(finish: Clients.Finish)
    ensures forall e :: Settled(finish, Err(e)) == Clients.Raised(e)
  {
  }

  lemma AfterRead(codec: Codec, resource: StoredResource, p: Clients.Promotion, finish: Clients.Finish, r: Response)
    ensures Clients.Resume(codec, Clients.PromRead(resource, p, finish), r)
         == if r.ChannelIs? then Clients.Request(codec, resource, p, r.pointer, finish) else Clients.Raise(ErrorOf(r))
  {
    hide Clients.Request;
  }

  lemma AfterInsert(codec: Codec, row: ChannelRow, p: Clients.Promotion, finish: Clients.Finish, r: Response)
    ensures Clients.Resume(codec, Clients.PromInsert(row, p, finish), r)
         == if r == Failed(Conflict) then Clients.Raise(StaleChannelPointer)
            else if !r.ChannelIs? || r.pointer.None? then Clients.Raise(ErrorOf(r))
            else if r.pointer.value.target != row.target then Clients.Raise(StaleChannelPointer)
            else Clients.Done(Settled(finish, Ok(r.pointer.value)))
  {
  }

  lemma AfterTarget(codec: Codec, target: Clients.Target, p: Clients.Promotion, r: Response)
    ensures Clients.Resume(codec, Clients.PromTarget(target, p), r)
         == if !r.ResourceIs? then Clients.Raise(RequiredErrorOf(r))
            else if target.ByRef? && Clients.ResourceRef(r.row.identity, r.row.profile, r.row.digest) != target.ref
            then Clients.Raise(IdentityConflict)
            else Clients.Admit(r.row, p, Clients.Plain)
  {
    hide Clients.Admit;
  }

  class ChannelRepository {
    const store: Store

    constructor (store: Store)
      ensures this.store == store
    {
      this.store := store;
    }

    // promote, once the target resource is known
    method PromoteResource(resource: StoredResource, p: Clients.Promotion, ghost finish: Clients.Finish) returns (r: Result<ChannelRow>)
      modifies store
      ensures old(store.Rest(Clients.Admit(resource, p, finish))) == Ending(Settled(finish, r), store.tables, store.now)
    {
      hide Drive, MakeChannel, Perform, ChannelName, Clients.Resume, Settled;
      SettledErrors(finish);
      if p.profile.Some? && resource.profile != p.profile.value {
        r := Err(IncompatibleProfile);
      } else if resource.state != Published {
        r := Err(IncompatibleProfile);
      } else if !ChannelName(p.channel) {
        r := Err(InvalidInput);
      } else {
        r := CompareAndSet(resource, p, finish);
        return;
      }
      store.Ended(Clients.Raised(r.error));
    }

    // The read of the latest row and the insert of its successor.
    method CompareAndSet(resource: StoredResource, p: Clients.Promotion, ghost finish: Clients.Finish) returns (r: Result<ChannelRow>)
      modifies store
      ensures old(store.Rest(Clients.PromRead(resource, p, finish))) == Ending(Settled(finish, r), store.tables, store.now)
    {
      hide Drive, MakeChannel, Perform, Clients.Resume, Settled;
      SettledErrors(finish);
      var answer;
      ghost var c := Clients.PromRead(resource, p, finish);
      answer, c := store.Execute(LatestChannel(Clients.ChannelOf(resource, p)), c);
      AfterRead(store.codec, resource, p, finish, answer);
      if !answer.ChannelIs? {
        r := Err(ErrorOf(answer));
      } else {
        var current := answer.pointer;
        var matches, version := p.expected == 0, 1;
        if current.Some? {
          matches, version := current.value.pointerVersion == p.expected, current.value.pointerVersion + 1;
        }
        if !matches {
          r := Err(StaleChannelPointer);
        } else {
          var requested := MakeChannel(store.codec, ChannelRow(Clients.ChannelOf(resource, p), resource.Id(), version, p.actor, p.at, None));
          if requested.None? {
            r := Err(InvalidInput);
          } else {
            answer, c := store.Execute(PutChannel(requested.value), c);
            AfterInsert(store.codec, requested.value, p, finish, answer);
            if answer == Failed(Conflict) {
              r := Err(StaleChannelPointer);
            } else if !answer.ChannelIs? || answer.pointer.None? {
              r := Err(ErrorOf(answer));
            } else if answer.pointer.value.target != requested.value.target {
              r := Err(StaleChannelPointer);
            } else {
              r := Ok(answer.pointer.value);
            }
          }
        }
      }
      store.Ended(Settled(finish, r));
    }

    method Promote(target: Clients.Target, p: Clients.Promotion) returns (o: Outcome)
      modifies store
      ensures old(store.Rest(Clients.Start(store.codec, Clients.Promote(target, p)))) == Ending(o, store.tables, store.now)
    {
      hide Drive, Perform, Clients.Resume, Clients.Admit, ChannelName;
      if p.expected < 0 {
        store.Ended(Clients.Raised(InvalidInput));
        return Clients.Raised(InvalidInput);
      }
      var resource;
      if target.ByResource? {
        resource := target.resource;
      } else {
        var answer;
        ghost var c := Clients.PromTarget(target, p);
        answer, c := store.Execute(GetResource(Clients.TargetId(target)), c);
        AfterTarget(store.codec, target, p, answer);
        if !answer.ResourceIs? {
          store.Ended(Clients.Raised(RequiredErrorOf(answer)));
          return Clients.Raised(RequiredErrorOf(answer));
        }
        resource := answer.row;
        if target.ByRef? && Clients.ResourceRef(resource.identity, resource.profile, resource.digest) != target.ref {
          store.Ended(Clients.Raised(IdentityConflict));
          return Clients.Raised(IdentityConflict);
        }
      }
      var promoted := PromoteResource(resource, p, Clients.Plain);
      return Settled(Clients.Plain, promoted);
    }
  }

  // ---------------------------------------------------------------- deprecation, for either profile

  lemma AfterDepRead(codec: Codec, identity: Identity, profile: Profile, r: Response)
    ensures Clients.Resume(codec, Clients.DepRead(identity, profile), r)
         == if !r.ResourceIs? then Clients.Raise(RequiredErrorOf(r))
            else if r.row.profile != profile then Clients.Raise(IncompatibleProfile)
            else if r.row.state == Deprecated then Clients.Done(Clients.DeprecatedTo(r.row))
            else if r.row.recordVersion == None then Clients.Raise(InvalidRepositoryResult)
            else Clients.DepPatch(r.row)
  {
  }

  lemma AfterDepPatch(codec: Codec, resource: StoredResource, r: Response)
    ensures Clients.Resume(codec, Clients.DepPatch(resource), r)
         == if r.ResourceIs? then Clients.Done(Clients.DeprecatedTo(r.row))
            else if r == Failed(Conflict) then Clients.DepWinner(resource.Id())
            else Clients.Raise(ErrorOf(r))
  {
    hide ResourceId;
  }

  lemma AfterDepWinner(codec: Codec, id: string, r: Response)
    ensures Clients.Resume(codec, Clients.DepWinner(id), r)
         == if !r.ResourceIs? then Clients.Raise(RequiredErrorOf(r))
            else if r.row.state == Deprecated then Clients.Done(Clients.DeprecatedTo(r.row))
            else Clients.Raise(StoreFailure(Conflict))
  {
  }

  method DeprecateResource(store: Store, identity: Identity, profile: Profile) returns (o: Outcome)
    modifies store
    ensures old(store.Rest(Clients.Start(store.codec, Clients.DeprecateResource(identity, profile)))) == Ending(o, store.tables, store.now)
  {
    hide Drive, Perform, Clients.Resume;
    var answer;
    ghost var c := Clients.DepRead(identity, profile);
    answer, c := store.Execute(GetResource(ResourceId(identity)), c);
    AfterDepRead(store.codec, identity, profile, answer);
    if !answer.ResourceIs? {
      o := Clients.Raised(RequiredErrorOf(answer));
    } else if answer.row.profile != profile {
      o := Clients.Raised(IncompatibleProfile);
    } else if answer.row.state == Deprecated {
      o := Clients.DeprecatedTo(answer.row);
    } else if answer.row.recordVersion == None {
      o := Clients.Raised(InvalidRepositoryResult);
    } else {
      var resource := answer.row;
      answer, c := store.Execute(Deprecate(resource.Id(), resource.recordVersion), c);
      AfterDepPatch(store.codec, resource, answer);
      if answer == Failed(Conflict) {
        answer, c := store.Execute(GetResource(resource.Id()), c);
        AfterDepWinner(store.codec, resource.Id(), answer);
        if answer.ResourceIs? && answer.row.state == Deprecated {
          o := Clients.DeprecatedTo(answer.row);
        } else if answer.ResourceIs? {
          o := Clients.Raised(StoreFailure(Conflict));
        } else {
          o := Clients.Raised(RequiredErrorOf(answer));
        }
      } else if answer.ResourceIs? {
        o := Clients.DeprecatedTo(answer.row);
      } else {
        o := Clients.Raised(ErrorOf(answer));
      }
    }
    store.Ended(o);
  }

  // ---------------------------------------------------------------- the end of a publication

  // The promotion a publication may end with, and its receipt.
  method Conclude(channels: ChannelRepository, profile: Profile, resource: StoredResource, idempotent: bool, pointing: Clients.Pointing, actor: string)
    returns (o: Outcome)
    modifies channels.store
    ensures old(channels.store.Rest(Clients.Conclude(profile, resource, idempotent, pointing, actor)))
         == Ending(o, channels.store.tables, channels.store.now)
  {
    hide Drive, Clients.Admit;
    if pointing.channel.None? {
      if pointing.expected.Some? {
        o := Clients.Raised(InvalidInput);
      } else {
        o := Clients.Publication(resource, idempotent, profile == Artifact, None);
      }
    } else if pointing.expected.None? || pointing.expected.value < 0 {
      o := Clients.Raised(InvalidInput);
    } else {
      ghost var finish := Clients.Receipt(resource, idempotent, profile == Artifact);
      var p := Clients.Promotion(pointing.channel.value, pointing.expected.value, actor, pointing.at, Some(profile));
      var promoted := channels.PromoteResource(resource, p, finish);
      return match promoted
        case Err(e) => Clients.Raised(e)
        case Ok(winner) => Clients.Publication(resource, idempotent, profile == Artifact, Some(winner));
    }
    channels.store.Ended(o);
  }

  // ---------------------------------------------------------------- configurations

  lemma AfterCfgLookup(codec: Codec, pointing: Clients.Pointing, candidate: StoredResource, r: Response)
    ensures Clients.Resume(codec, Clients.CfgLookup(pointing, candidate), r)
         == if r.ResourceIs? then Clients.ExistingReceipt(Configuration, Clients.SameConfiguration(candidate, r.row), r.row, pointing, candidate.createdBy)
            else if r == Failed(NotFound) then Clients.CfgCommit(pointing, candidate)
            else Clients.Raise(ErrorOf(r))
  {
    hide Clients.SameConfiguration, Clients.ExistingReceipt;
  }

  lemma AfterCfgCommit(codec: Codec, pointing: Clients.Pointing, candidate: StoredResource, r: Response)
    ensures Clients.Resume(codec, Clients.CfgCommit(pointing, candidate), r)
         == if r.ResourceIs? then
              if Clients.SameConfiguration(candidate, r.row) then Clients.Conclude(Configuration, r.row, false, pointing, candidate.createdBy)
              else Clients.Raise(IdentityConflict)
            else if r == Failed(Conflict) then Clients.CfgWinner(pointing, candidate)
            else Clients.Raise(ErrorOf(r))
  {
    hide Clients.SameConfiguration, Clients.Conclude;
  }

  lemma AfterCfgWinner(codec: Codec, pointing: Clients.Pointing, candidate: StoredResource, r: Response)
    ensures Clients.Resume(codec, Clients.CfgWinner(pointing, candidate), r)
         == if r.ResourceIs? then Clients.ExistingReceipt(Configuration, Clients.SameConfiguration(candidate, r.row), r.row, pointing, candidate.createdBy)
            else if r == Failed(NotFound) then Clients.Raise(StoreFailure(Conflict))
            else Clients.Raise(ErrorOf(r))
  {
    hide Clients.SameConfiguration, Clients.ExistingReceipt;
  }

  // publish, on finding a row with the identity: a receipt for the same publication, or a conflict
  method ExistingReceipt(channels: ChannelRepository, profile: Profile, same: bool, existing: StoredResource, pointing: Clients.Pointing, actor: string)
    returns (o: Outcome)
    modifies channels.store
    ensures old(channels.store.Rest(Clients.ExistingReceipt(profile, same, existing, pointing, actor)))
         == Ending(o, channels.store.tables, channels.store.now)
  {
    hide Drive, Clients.Conclude;
    if same {
      o := Conclude(channels, profile, existing, true, pointing, actor);
    } else {
      o := Clients.Raised(IdentityConflict);
      channels.store.Ended(o);
    }
  }

  class ConfigurationPublisher {
    const store: Store
    const channels: ChannelRepository

    ghost predicate Valid() { channels.store == store }

    constructor (channels: ChannelRepository)
      ensures Valid() && this.channels == channels
    {
      this.channels, store := channels, channels.store;
    }

    method Publish(q: Clients.ConfigurationRequest, pointing: Clients.Pointing) returns (o: Outcome)
      requires Valid()
      modifies store
      ensures old(store.Rest(Clients.Start(store.codec, Clients.PublishConfiguration(q, pointing)))) == Ending(o, store.tables, store.now)
    {
      hide Drive, Perform, Clients.Resume, Clients.ConfigurationCandidate, Clients.SameConfiguration, Clients.Conclude, Clients.ExistingReceipt;
      var made := Clients.ConfigurationCandidate(store.codec, q);
      if made.None? {
        store.Ended(Clients.Raised(InvalidInput));
        return Clients.Raised(InvalidInput);
      }
      var candidate := made.value;
      MadeBy(store.codec, q, pointing);
      var answer;
      ghost var c := Clients.CfgLookup(pointing, candidate);
      answer, c := store.Execute(GetResource(candidate.Id()), c);
      AfterCfgLookup(store.codec, pointing, candidate, answer);
      if answer.ResourceIs? {
        o := ExistingReceipt(channels, Configuration, Clients.SameConfiguration(candidate, answer.row), answer.row, pointing, candidate.createdBy);
        return;
      }
      if answer != Failed(NotFound) {
        store.Ended(Clients.Raised(ErrorOf(answer)));
        return Clients.Raised(ErrorOf(answer));
      }
      answer, c := store.Execute(Commit(candidate), c);
      AfterCfgCommit(store.codec, pointing, candidate, answer);
      if answer.ResourceIs? && Clients.SameConfiguration(candidate, answer.row) {
        o := Conclude(channels, Configuration, answer.row, false, pointing, candidate.createdBy);
        return;
      }
      if answer == Failed(Conflict) {
        answer, c := store.Execute(GetResource(candidate.Id()), c);
        AfterCfgWinner(store.codec, pointing, candidate, answer);
        if answer.ResourceIs? {
          o := ExistingReceipt(channels, Configuration, Clients.SameConfiguration(candidate, answer.row), answer.row, pointing, candidate.createdBy);
          return;
        }
        o := Clients.Raised(if answer == Failed(NotFound) then StoreFailure(Conflict) else ErrorOf(answer));
      } else if answer.ResourceIs? {
        o := Clients.Raised(IdentityConflict);
      } else {
        o := Clients.Raised(ErrorOf(answer));
      }
      store.Ended(o);
    }

    lemma MadeBy(codec: Codec, q: Clients.ConfigurationRequest, pointing: Clients.Pointing)
      ensures Clients.Start(codec, Clients.PublishConfiguration(q, pointing))
           == if Clients.ConfigurationCandidate(codec, q).None? then Clients.Raise(InvalidInput)
              else Clients.CfgLookup(pointing, Clients.ConfigurationCandidate(codec, q).value)
    {
      hide Clients.ConfigurationCandidate;
    }
  }

  // ---------------------------------------------------------------- artifacts

  lemma AfterPubLookup(codec: Codec, q: Clients.ArtifactRequest, pointing: Clients.Pointing, r: Response)
    ensures Clients.Resume(codec, Clients.PubLookup(q, pointing), r)
         == if r.ResourceIs? then Clients.OnExisting(codec, q, pointing, r.row)
            else if r == Failed(NotFound) then Clients.PubPut(q, pointing)
            else Clients.Raise(ErrorOf(r))
  {
    hide Clients.OnExisting;
  }

  lemma AfterPubPut(codec: Codec, q: Clients.ArtifactRequest, pointing: Clients.Pointing, r: Response)
    ensures Clients.Resume(codec, Clients.PubPut(q, pointing), r)
         == if r.ObjectIs? then Clients.OnObject(codec, q, pointing, r.metadata, false)
            else if r == Failed(Conflict) then Clients.PubStat(q, pointing)
            else Clients.Raise(ErrorOf(r))
    ensures Clients.Resume(codec, Clients.PubStat(q, pointing), r)
         == if r.ObjectIs? then Clients.OnObject(codec, q, pointing, r.metadata, true) else Clients.Raise(ErrorOf(r))
  {
    hide Clients.OnObject;
  }

  lemma AfterPubCommit(codec: Codec, q: Clients.ArtifactRequest, pointing: Clients.Pointing, candidate: StoredResource, idempotent: bool, r: Response)
    ensures Clients.Resume(codec, Clients.PubCommit(q, pointing, candidate, idempotent), r)
         == if r.ResourceIs? then
              if Clients.SameArtifact(candidate, r.row) then Clients.Conclude(Artifact, r.row, idempotent, pointing, q.description.actor)
              else Clients.Raise(IdentityConflict)
            else if r == Failed(Conflict) then Clients.PubWinner(q, pointing, candidate)
            else Clients.OnCommitFailure(codec, q, candidate)
    ensures Clients.Resume(codec, Clients.PubWinner(q, pointing, candidate), r)
         == if r.ResourceIs? then Clients.ExistingReceipt(Artifact, Clients.SameArtifact(candidate, r.row), r.row, pointing, q.description.actor)
            else if r == Failed(NotFound) then Clients.OnCommitFailure(codec, q, candidate)
            else Clients.Raise(ErrorOf(r))
  {
    hide Clients.SameArtifact, Clients.Conclude, Clients.OnCommitFailure, Clients.ExistingReceipt;
  }

  // What the object store reads of a payload.  It cannot read a reference that nobody registered; as it
  // rejects that like bytes of another length, such bytes stand for it.
  function Readable(payload: Payload, sources: map<nat, Bytes>, length: int): Bytes {
    match payload
    case Raw(bytes) => bytes
    case Streamed(bytes) => bytes
    case Referenced(reference) => if reference.id in sources then sources[reference.id] else Unreadable(length)
    case Unusable => Unreadable(length)
  }

  function Unreadable(length: int): (bytes: Bytes)
    ensures |bytes| != length
  {
    if length == 0 then [0] else []
  }

  // The object store never stores a payload that it cannot read: it reports a conflict if the object is
  // there already, and rejects the payload otherwise.
  lemma UnreadableIsRejected(sha: Bytes -> string, t: Tables, resourceId: string, digest: string, length: int, mediaType: string)
    ensures Exec(sha, t, PutObject(resourceId, Unreadable(length), digest, length, mediaType))
         == (t, Failed(if ObjectId(resourceId) in t.objects then Conflict else Rejected))
  {
    hide ObjectId;
  }

  class ArtifactPublisher {
    const store: Store
    const channels: ChannelRepository
    const payloads: PayloadRegistry

    ghost predicate Valid()
      reads payloads
    {
      channels.store == store && payloads.Valid()
    }

    constructor (channels: ChannelRepository, payloads: PayloadRegistry)
      requires payloads.Valid()
      ensures Valid() && this.channels == channels && this.payloads == payloads
    {
      this.channels, store, this.payloads := channels, channels.store, payloads;
    }

    // The object first, then its metadata: the body of publish between registering and releasing.
    method PublishRegistered(q: Clients.ArtifactRequest, pointing: Clients.Pointing) returns (o: Outcome)
      requires Valid()
      modifies store
      ensures old(store.Rest(Clients.PubLookup(q, pointing))) == Ending(o, store.tables, store.now)
    {
      hide Drive, Perform, Clients.Resume, Clients.ArtifactCandidate, Clients.SameArtifact, Clients.Conclude, Clients.ExistingReceipt,
           Clients.ObjectMatches, Clients.OnCommitFailure;
      var answer;
      ghost var c := Clients.PubLookup(q, pointing);
      answer, c := store.Execute(GetResource(ResourceId(q.identity)), c);
      AfterPubLookup(store.codec, q, pointing, answer);
      if answer.ResourceIs? {
        o := OnExisting(q, pointing, answer.row);
        return;
      }
      if answer != Failed(NotFound) {
        store.Ended(Clients.Raised(ErrorOf(answer)));
        return Clients.Raised(ErrorOf(answer));
      }
      var idempotent := false;
      answer, c := store.Execute(PutObject(ResourceId(q.identity), q.content, q.digest, q.byteLength, q.mediaType), c);
      AfterPubPut(store.codec, q, pointing, answer);
      if answer == Failed(Conflict) {
        answer, c := store.Execute(StatObject(ObjectId(ResourceId(q.identity))), c);
        AfterPubPut(store.codec, q, pointing, answer);
        idempotent := true;
      }
      if !answer.ObjectIs? {
        store.Ended(Clients.Raised(ErrorOf(answer)));
        return Clients.Raised(ErrorOf(answer));
      }
      if !Clients.ObjectMatches(answer.metadata, q) {
        store.Ended(Clients.Raised(IdentityConflict));
        return Clients.Raised(IdentityConflict);
      }
      var candidate := Clients.ArtifactCandidate(store.codec, q, answer.metadata.ref);
      if candidate.None? {
        store.Ended(Clients.Raised(InvalidInput));
        return Clients.Raised(InvalidInput);
      }
      o := CommitMetadata(q, pointing, candidate.value, idempotent);
    }

    method OnExisting(q: Clients.ArtifactRequest, pointing: Clients.Pointing, existing: StoredResource) returns (o: Outcome)
      requires Valid()
      modifies store
      ensures old(store.Rest(Clients.OnExisting(store.codec, q, pointing, existing))) == Ending(o, store.tables, store.now)
    {
      hide Drive, Clients.ArtifactCandidate, Clients.SameArtifact, Clients.ExistingReceipt;
      if existing.profile != Artifact || existing.digest != q.digest || existing.byteLength != q.byteLength
         || existing.mediaType != q.mediaType || existing.objectRef.None? {
        store.Ended(Clients.Raised(IdentityConflict));
        return Clients.Raised(IdentityConflict);
      }
      var candidate := Clients.ArtifactCandidate(store.codec, q, existing.objectRef.value);
      if candidate.None? {
        store.Ended(Clients.Raised(InvalidInput));
        return Clients.Raised(InvalidInput);
      }
      o := ExistingReceipt(channels, Artifact, Clients.SameArtifact(candidate.value, existing), existing, pointing, q.description.actor);
    }

    // Metadata and provenance in one transaction; on a conflict, the winner decides; on any other
    // failure, evidence of the object.
    method CommitMetadata(q: Clients.ArtifactRequest, pointing: Clients.Pointing, candidate: StoredResource, idempotent: bool) returns (o: Outcome)
      requires Valid()
      modifies store
      ensures old(store.Rest(Clients.PubCommit(q, pointing, candidate, idempotent))) == Ending(o, store.tables, store.now)
    {
      hide Drive, Perform, Clients.Resume, Clients.SameArtifact, Clients.Conclude, Clients.ExistingReceipt, Clients.OnCommitFailure;
      var answer;
      ghost var c := Clients.PubCommit(q, pointing, candidate, idempotent);
      answer, c := store.Execute(Commit(candidate), c);
      AfterPubCommit(store.codec, q, pointing, candidate, idempotent, answer);
      if answer.ResourceIs? {
        if !Clients.SameArtifact(candidate, answer.row) {
          store.Ended(Clients.Raised(IdentityConflict));
          return Clients.Raised(IdentityConflict);
        }
        o := Conclude(channels, Artifact, answer.row, idempotent, pointing, q.description.actor);
        return;
      }
      if answer == Failed(Conflict) {
        answer, c := store.Execute(GetResource(ResourceId(q.identity)), c);
        AfterPubCommit(store.codec, q, pointing, candidate, idempotent, answer);
        if answer.ResourceIs? {
          o := ExistingReceipt(channels, Artifact, Clients.SameArtifact(candidate, answer.row), answer.row, pointing, q.description.actor);
          return;
        }
        if answer != Failed(NotFound) {
          store.Ended(Clients.Raised(ErrorOf(answer)));
          return Clients.Raised(ErrorOf(answer));
        }
      }
      o := RecordOrphan(q, candidate);
    }

    // Whatever becomes of the record, the publication is reported as incomplete.
    method RecordOrphan(q: Clients.ArtifactRequest, candidate: StoredResource) returns (o: Outcome)
      modifies store
      ensures old(store.Rest(Clients.OnCommitFailure(store.codec, q, candidate))) == Ending(o, store.tables, store.now)
    {
      hide Drive, Perform, Clients.FailedPublication;
      var orphan := Clients.FailedPublication(store.codec, candidate, q.recordedAt);
      if orphan.None? {
        store.Ended(Clients.Raised(InvalidInput));
        return Clients.Raised(InvalidInput);
      }
      var answer;
      ghost var c := Clients.PubOrphan(orphan.value);
      answer, c := store.Execute(PutOrphan(orphan.value), c);
      if answer == Failed(Conflict) {
        answer, c := store.Execute(GetOrphan(orphan.value.Id()), c);
      }
      o := Clients.Raised(IncompletePublication);
      store.Ended(o);
    }

    // publish: register the payload, publish, and release what was registered on every way out.
    method Publish(identity: Identity, payload: Payload, mediaType: string, expectedDigest: Option<string>, expectedLength: Option<int>,
                   description: Clients.Description, recordedAt: string, pointing: Clients.Pointing)
      returns (o: Outcome, ghost q: Option<Clients.ArtifactRequest>)
      requires Valid()
      modifies store, payloads
      ensures Valid()
      // it publishes the bytes of the payload under the content identity of the call, or nothing
      ensures q.Some? <==> ValidIdentity(identity) && MediaType(mediaType)
                           && ContentIdentity(store.codec.sha, payload, expectedDigest, expectedLength).Some?
      ensures q.Some? ==>
                var (digest, length) := ContentIdentity(store.codec.sha, payload, expectedDigest, expectedLength).value;
                var content := Readable(payload, old(payloads.sources), length);
                && q.value == Clients.ArtifactRequest(identity, content, digest, length, mediaType, description, recordedAt)
                && old(store.Rest(Clients.PubLookup(q.value, pointing))) == Ending(o, store.tables, store.now)
      // bytes that contradict what the call declares of them are refused
      ensures ValidIdentity(identity) && MediaType(mediaType) && payload.Raw?
              && ((expectedDigest.Some? && expectedDigest.value != store.codec.sha(payload.bytes))
                  || (expectedLength.Some? && expectedLength.value != |payload.bytes|))
              ==> q.None? && o == Clients.Raised(InvalidPayload)
      ensures payload.Raw? && q.Some? ==> q.value.digest == store.codec.sha(payload.bytes) && q.value.byteLength == |payload.bytes|
      ensures q.None? ==> o.Raised? && store.tables == old(store.tables) && store.now == old(store.now)
      // the registrations are as they were; only its own registration is released, and only once
      ensures payloads.sources == old(payloads.sources)
      ensures payloads.released == old(payloads.released) + if q.Some? && !payload.Referenced? then [old(payloads.next)] else []
    {
      hide Drive, ValidIdentity, MediaType;
      q := None;
      if !ValidIdentity(identity) || !MediaType(mediaType) {
        return Clients.Raised(InvalidInput), None;
      }
      var registered := RegisterPayload(store.codec.sha, payload, payloads, expectedDigest, expectedLength);
      if registered.Err? {
        return Clients.Raised(registered.error), None;
      }
      var Registered(reference, digest, length, owned) := registered.value;
      var content := if reference.id in payloads.sources then payloads.sources[reference.id] else Unreadable(length);
      var request := Clients.ArtifactRequest(identity, content, digest, length, mediaType, description, recordedAt);
      q := Some(request);
      o := PublishRegistered(request, pointing);
      if owned {
        payloads.Release(reference);
        ReleaseUndoesRegister(old(payloads.sources), reference.id, payload.bytes);
      }
    }
  }
}
