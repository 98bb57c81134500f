# Configuration and artifact resources over a shared store

A Dafny model of the Meridian configuration and artifact plugin, as a protocol: four structured tables
(metadata, provenance, channels, orphan candidates), one table of immutable objects, and any number of
clients that publish, promote, deprecate and scan for orphans in small steps. Steps interleave in any
order, and a client may crash, or meet a fault of the store, between any two of them.

`dafny verify dfyconfig.toml` checks everything.

## How it is built

- `Text`, `Canonical`, `References`, `Resources`, `Records`: the values. Percent-escaped canonical keys
  and their decoders, JSON and its frozen form, the validity of each model class, and its records.
- `Tables`: the store. `Exec` is what each call does, `Perform` what it does under a fault. A fault strikes
  before the call takes effect (`LostRequest`) or between the effect and the reply (`LostReply`), and shows
  as a failure of any category.
- `Clients`: each operation as a machine whose states lie between two calls; `NextCall` is the call it makes,
  `Resume` what it makes of the answer.
- `Invariants`, `Systems`, `Channels`, `Answers`, `Pointers`: all interleavings. `Run` takes any sequence of
  beginnings, steps with faults, and crashes; the theorems hold for every such sequence.
- `Driving`, `Recovery`, `Retries`, `Configurations`, `Promotions`, `Republication`, `Orphans`: one operation run to its end in
  a world that interferes before each of its calls. `Rely` is what others are assumed to do, and
  `Invariants.StepOk` shows that every client does it.
- `Convergence`: one call of such a run whose own steps meet no fault, among any others.
- `Deprecation`: the judgement of an adapter's answer to the deprecating patch, and its transaction. The
  machine of `Clients` takes the answer of a faithful adapter, which `Deprecation.FaithfulIsAccepted` shows is accepted.
- `Ordering`: queries, pages and `latest`.
- `Payloads`, `Readers`, `Repository`, `Consumers`: the library's methods in their own imperative form.
  Each that calls the store ends, in every world, as the machine of its operation does
  (`Store.Rest`), so what is proved of the machine holds of the method.

Three functions come from other packages and are parameters (`Codec`): SHA-256, canonical JSON bytes, and
the normalisation of a UTC timestamp. Every result holds for all of them; where a timestamp must be
well formed, the result says so.

## What the proofs brought to light

- A `publish` whose descriptive fields (labels, annotations, actor and so on) are invalid is rejected only
  after its object is stored. It then leaves an object without a row, without IncompletePublication and
  without an orphan row (`Promotions.UnrecordedObjectIff`, for example with an empty actor). Discovery finds
  the object.
- `publish` can commit and then raise in its promotion (`Promotions.PublishedThoughRaised` says when).
- An artifact publisher can lose its identity to a configuration after its object is stored. The object
  stays, unreferenced, and is never reported (`Configurations.ConfigurationCanWin`, `Orphans.ConfigurationWins`).
- An orphan row may describe an object that has its metadata row: a commit that took effect and whose reply
  is lost is recorded as an orphan (`Orphans.FalseEvidenceIff`). Nor does a retry clear the rows recorded
  before it (`Retries.RetryConverges`).
- A promoter can be told StaleChannelPointer although its row was inserted, or although nothing was refused:
  exactly if the store reports a conflict that was none (`Answers.MisledIff`).
- `PayloadSchemaRef.parse` is not the inverse of `canonical` when a name has a '.' or a version an '@'
  (`References.SchemaRefRoundTrip`).
- `read` trusts that a single read(-1) reaches the end (`Consumers.ArtifactConsumer.ReadWhole`).
- `range_read` loses a registration exactly if the range was served but does not resolve against the recorded
  length (`Consumers.ArtifactConsumer.RangeRead`, `Consumers.UnresolvedRangeIsLost`); a store that resolves ranges itself rules this out.
- A caller that promotes a resource value it made itself can make a pointer that leads nowhere; a pointer
  resolves exactly if its target has a row (`Pointers.PointersResolveIff`).

Where the code and its documentation differ, the model follows the code:

- The library's README, lines 133-135, says that an orphan candidate is recorded if the second phase of an artifact publication
  fails. The code records one for a commit that fails other than by a conflict, as far as recording itself
  succeeds, and none for descriptive fields rejected between the phases or for a lost identity.
- The library's docs/operations.md:20 says that consumer reads release their registrations on every exit path. `range_read`
  does not if the range fails to resolve against the recorded length.

## Model

| member | source | states |
|---|---|---|
| Text.Utf8RoundTrip | src/meridian_storage/plugins/config_artifact/models/refs.py:176-177 | Decoding undoes UTF-8 for every string, so distinct component values reach percent-escaping as distinct bytes. |
| Text.EscapedRoundTrip | src/meridian_storage/plugins/config_artifact/models/refs.py:176-177 | A decoder undoes percent-escaping (sections 2.1 and 2.3 of RFC 3986) for every string. |
| Text.EscapedHasNoDelimiter | src/meridian_storage/plugins/config_artifact/models/refs.py:176-177 | An escaped component contains no character outside the unreserved set and '%', so none of the delimiters ':', '/', '@', '#', '|'. |
| Text.UnreservedStay | src/meridian_storage/plugins/config_artifact/models/refs.py:176-177 | Escaping leaves strings of the unreserved characters of section 2.3 of RFC 3986 as they are. |
| Text.DelimitersAreEncoded | src/meridian_storage/plugins/config_artifact/models/refs.py:176-177 | Each delimiter of a key, and '%' itself, is written as its percent-encoding in upper-case hexadecimal. |
| Text.DecimalRoundTrip | src/meridian_storage/plugins/config_artifact/models/refs.py:164-167 | The decimal numeral of a pointer version reads back as that version. |
| References.IdentityRoundTrip | src/meridian_storage/plugins/config_artifact/models/refs.py:48-53 | The canonical string of any identity decodes to that identity. |
| References.ResourceIdInjective | src/meridian_storage/plugins/config_artifact/models/refs.py:48-57 | Two identities have the same canonical string if and only if they are equal. |
| References.ChannelVersionRoundTrip | src/meridian_storage/plugins/config_artifact/models/refs.py:157-168 | The canonical string of any channel and pointer version decodes to them. |
| References.ChannelVersionIdInjective | src/meridian_storage/plugins/config_artifact/models/refs.py:157-168 | Two (channel, pointer version) pairs have the same key if and only if they are equal. |
| References.OrphanRoundTrip | src/meridian_storage/plugins/config_artifact/models/refs.py:171-173 | The canonical string of any (resource, object, digest) triple decodes to it. |
| References.OrphanCandidateIdInjective | src/meridian_storage/plugins/config_artifact/models/refs.py:171-173 | Two orphan triples have the same key if and only if they are equal. |
| References.SchemaRefRoundTrip | src/meridian_storage/plugins/config_artifact/models/refs.py:86-120 | For every valid PayloadSchemaRef, parsing its canonical form gives it back if and only if its name has no '.' and its version no '@'. |
| References.VersionWithAtFails | src/meridian_storage/plugins/config_artifact/models/refs.py:111-120 | If the version contains '@', parsing the canonical form always fails. |
| References.DottedNameShifts | src/meridian_storage/plugins/config_artifact/models/refs.py:117-120 | If only the name contains '.', parsing cuts it at its last '.' and moves the front part to the namespace. |
| References.DottedReference | src/meridian_storage/plugins/config_artifact/models/refs.py:86-120 | An input: the valid reference to schema b.c in namespace a comes back as schema c in namespace a.b. |
| References.PrintParsed | src/meridian_storage/plugins/config_artifact/models/refs.py:98-120 | Whatever string parses prints back as itself, with the default catalog spelled out if it was missing, and is valid. |
| Canonical.FreezeSorted | src/meridian_storage/plugins/config_artifact/_canonical.py:119-124 | Freezing any JSON value sorts every mapping in it strictly by key, at every depth. |
| Canonical.FreezeThaw | src/meridian_storage/plugins/config_artifact/_canonical.py:119-132 | Freezing undoes thawing on every canonical frozen value. |
| Canonical.NormalisationIdempotent | src/meridian_storage/plugins/config_artifact/_canonical.py:119-132 | Freezing again what was frozen and thawed gives the same frozen value. |
| Canonical.FrozenFormDecidesEquality | src/meridian_storage/plugins/config_artifact/_canonical.py:119-124 | Two JSON values freeze to the same value if and only if they are equal up to the order of object fields, at every depth. |
| Canonical.ThawFreeze | src/meridian_storage/plugins/config_artifact/_canonical.py:119-132 | Thawing undoes freezing: the value that comes back equals the one that went in, and has no repeated keys. |
| Records.ProvenanceRoundTrip | src/meridian_storage/plugins/config_artifact/models/resources.py:77-115 | Every valid provenance document is read back from its mapping. |
| Records.StoredRecordRoundTrip | src/meridian_storage/plugins/config_artifact/models/resources.py:266-337 | A stored record of a valid resource, with any record version beside it and any spelling of its creation time, reads back as that resource with that version. |
| Records.ResourceRoundTrip | src/meridian_storage/plugins/config_artifact/models/resources.py:234-337 | from_record(to_record(r)) is r, for every valid resource, up to the record version, which the record does not hold. |
| Records.ParsedIsValid | src/meridian_storage/plugins/config_artifact/models/resources.py:144-216 | Whatever record parses gives a valid resource, whose own record parses to the same resource. |
| Records.ResourceRecordIs | src/meridian_storage/plugins/config_artifact/models/resources.py:234-337 | Whatever record parses holds each value of the resource under its own field name, in its declared spelling, has every field and no other. |
| Records.NestedRecordsAre | src/meridian_storage/plugins/config_artifact/models/resources.py:77-115 | So do its nested schema reference and provenance document, of which only the latter may leave fields out. |
| Records.ResourceInvariants | src/meridian_storage/plugins/config_artifact/models/resources.py:179-214 | What a valid resource of each profile carries and does not carry, that its digest and length are those of its payload or object reference, and that it is immutable exactly if it is not a draft. |
| Records.ConfigurationCheck | src/meridian_storage/plugins/config_artifact/models/resources.py:192-203 | The model normalises a configuration payload once more before it hashes it; for a payload that the publisher normalised, it accepts a digest and length if and only if they are those that the publisher computes. |
| Configurations.CandidateIsMadeIff | src/meridian_storage/plugins/config_artifact/configuration/repository.py:94-125 | A configuration candidate is never refused for its digest or length: it is made if and only if its time is a timestamp, its description valid, its payload an object and its schema reference valid. |
| Records.MappingIsFrozen | src/meridian_storage/plugins/config_artifact/_canonical.py:76-99 | For canonical JSON that keeps values up to field order, canonical_mapping accepts exactly the mappings within its limits, and what comes back from the bytes and is frozen is the frozen form of what went in. |
| Records.MappingIsStable | src/meridian_storage/plugins/config_artifact/_canonical.py:83-99 | Normalisation is idempotent, limits included: a mapping that was accepted, thawed, is accepted again as it is. |
| Records.BoundedIsFitting | src/meridian_storage/plugins/config_artifact/models/resources.py:165-174 | The bounds on annotations and provenance attributes hold of a frozen mapping if and only if canonical_mapping accepts the value within its 64 entries and 262144 bytes. |
| Records.ChannelRoundTrip | src/meridian_storage/plugins/config_artifact/models/resources.py:383-424 | Every valid channel row is read back from its record with the stored record version. |
| Records.ChannelRecordIs | src/meridian_storage/plugins/config_artifact/models/resources.py:354-424 | Whatever channel record parses holds each value under its own field name, its key being that of its channel and version, which is at least 1. |
| Records.OrphanRoundTrip | src/meridian_storage/plugins/config_artifact/models/resources.py:469-510 | Every valid orphan candidate is read back from its record with the stored record version. |
| Records.OrphanRecordIs | src/meridian_storage/plugins/config_artifact/models/resources.py:446-510 | Whatever orphan record parses holds each value under its own field name, its key being that of its triple and its reference having its digest. |
| Deprecation.AcceptedIsFaithful | src/meridian_storage/plugins/config_artifact/repositories/metadata.py:147-204 | Whatever the adapter answers to the patch, an accepted result is the old resource with only the state changed and a record version that is there, is not the old one, is not empty and is not negative; and the resource was not a draft. |
| Deprecation.AcceptedIff | src/meridian_storage/plugins/config_artifact/repositories/metadata.py:147-204 | Exactly which answers are accepted: one mapping for the one scope, whose envelope, if any, is for this resource and scope, in the known format, complete and without foreign keys, and whose values read as the old resource, deprecated, with a new version. |
| Deprecation.MisfitsAreRefused | src/meridian_storage/plugins/config_artifact/repositories/metadata.py:150-203 | An answer for another scope or resource, of another number of records, with foreign keys, or with the old record version is refused. |
| Deprecation.FaithfulIsAccepted | src/meridian_storage/plugins/config_artifact/repositories/metadata.py:159-204 | A faithful answer is accepted in the flat form and in the Record envelope, whatever the spelling of its times. |
| Deprecation.MetadataTable.DeprecateResource | src/meridian_storage/plugins/config_artifact/repositories/metadata.py:131-145 | For every adapter reply the transaction is all or nothing: it commits exactly when the reply is accepted, with a record version other than the old one; a refused patch, or an answer that does not fit, leaves the table as it was. |
| Ordering.TwoPasses | tests/conftest.py:144-157 | Sorting stably by a secondary key and then by a primary key is sorting by the primary key and, among equals, by the secondary one. |
| Ordering.Query | tests/conftest.py:144-168 | One stable sort for each key, the last key first, yields rows in one-pass lexicographic order, for any number of keys; a page holds at most the limit, from where the cursor says, and has a cursor exactly if rows are left. |
| Ordering.CollectPages | tests/conftest.py:158-168 | Following the cursors to the end yields the whole ordered answer, with no gap and no repetition, for every page size. |
| Ordering.LatestOrderIsNewer | src/meridian_storage/plugins/config_artifact/repositories/metadata.py:229-232 | The order of the query is exactly 'newer': a greater version order, any version order against none, then a later creation time. |
| Ordering.FirstIsNewest | src/meridian_storage/plugins/config_artifact/repositories/metadata.py:248-266 | No row of the answer is newer than its first row. |
| Ordering.Latest | src/meridian_storage/plugins/config_artifact/repositories/metadata.py:248-266 | latest returns a published match that no published match is newer than, and ResourceNotFound if and only if there is none. |
| Invariants.PerformKeeps | tests/conftest.py:106-143 | Every store call of a client, under every fault, keeps the five tables consistent with each other and only lets them grow. |
| Invariants.PutsAreIfAbsent | tests/conftest.py:106-125 | Every put conflicts on a key that is taken and changes nothing, provenance included. |
| Invariants.PatchesCompareVersions | tests/conftest.py:132-143 | A patch that expects another version than the row's conflicts and changes nothing. |
| Invariants.LatestRowIsLatest | src/meridian_storage/plugins/config_artifact/repositories/metadata.py:278-307 | The row that latest_channel returns is the one with the channel's greatest pointer version, and there is none exactly if the channel has no rows. |
| Clients.ResumeDescends | src/meridian_storage/plugins/config_artifact/artifact/repository.py:95-223 | Every operation ends: whatever the store answers, each call brings it strictly closer to its end. |
| Invariants.ClientOkStable | src/meridian_storage/plugins/config_artifact/artifact/repository.py:155-176 | What a client relies on between two calls (its object, the row it read, the predecessor of the row it inserts) is not taken away by anything the others do. |
| Invariants.StepOk | src/meridian_storage/plugins/config_artifact/artifact/repository.py:95-223 | One step of any client under any fault keeps the tables consistent, lets them only grow, and leaves the client with what it relies on. |
| Systems.Reachable | src/meridian_storage/plugins/config_artifact/artifact/repository.py:95-349 | In every reachable state of any number of interleaved clients, with faults and crashes anywhere, the tables are consistent and every client has what it relies on. |
| Systems.ArtifactIntegrity | src/meridian_storage/plugins/config_artifact/artifact/repository.py:123-223 | In every reachable state an artifact row points to an object that exists under its own id, with the recorded digest, length and media type, and with bytes of that digest and length. |
| Systems.NothingIsOverwritten | src/meridian_storage/plugins/config_artifact/artifact/repository.py:261-304 | Between any two points of a run no object, channel, provenance or orphan row changes or disappears, and a resource changes at most once, by being deprecated. |
| Systems.ReceiptsAgree | src/meridian_storage/plugins/config_artifact/artifact/repository.py:60-74 | All receipts for one identity, of either profile, by whomever and whenever, agree on everything but lifecycle state and record version, and are backed by the row. |
| Systems.OneFirstReceipt | src/meridian_storage/plugins/config_artifact/artifact/repository.py:188-219 | At most one receipt for an identity is not idempotent, over both profiles and the whole run. |
| Systems.ProvenanceAgrees | src/meridian_storage/plugins/config_artifact/models/resources.py:518-527 | In every reachable state a provenance row exists if and only if its metadata row carries provenance, with the same document and creation time. |
| Systems.OrphanRowsAreTrue | src/meridian_storage/plugins/config_artifact/artifact/repository.py:306-329 | Every orphan row of a run lies under the key of its triple and describes an object that exists. |
| Systems.OneOrphanRowEach | src/meridian_storage/plugins/config_artifact/repositories/metadata.py:330-350 | Each (resource, object, digest) has at most one orphan row. |
| Channels.HistoryHasNoGaps | src/meridian_storage/plugins/config_artifact/channels/repository.py:99-132 | In every reachable state the rows of a channel have exactly the pointer versions 1..n, one row each. |
| Channels.PromotionRefinesCas | src/meridian_storage/plugins/config_artifact/channels/repository.py:92-145 | Every run is a run of atomic compare-and-set registers: at its read or insert, each promotion gets the answer that the register gives, and the table stands for the registers at all times. |
| Answers.OperationsAreAsked | src/meridian_storage/plugins/config_artifact/channels/repository.py:92-132 | Every operation of that history has the channel, expected version and target that its client's call asked for. |
| Answers.OneOperationPerCall | src/meridian_storage/plugins/config_artifact/channels/repository.py:92-145 | A call performs at most one operation of the history. |
| Answers.SuccessesAreReal | src/meridian_storage/plugins/config_artifact/channels/repository.py:128-145 | In every run, whatever the faults: a pointer row returned to a caller was made by its call's own successful operation, from the version it expected to the next. |
| Answers.RefusalsAreReal | src/meridian_storage/plugins/config_artifact/channels/repository.py:107-139 | If no conflict is invented in its own steps, a caller that is told StaleChannelPointer had the operation it asked for refused by the register. |
| Answers.MisledIff | src/meridian_storage/plugins/config_artifact/channels/repository.py:128-140 | A step that raises StaleChannelPointer has nothing refused if and only if it is an insert under an invented conflict, unless the key was taken and only the reply was lost. |
| Answers.InventedConflictMisleads | src/meridian_storage/plugins/config_artifact/channels/repository.py:128-140 | An input: the reply to a first insert is lost and reported as a conflict; the caller is told its pointer is stale, and its row is in the table. |
| Channels.OneWinner | src/meridian_storage/plugins/config_artifact/channels/repository.py:128-145 | For a channel and an expected version at most one promotion of the whole run succeeds. |
| Pointers.PointersResolveIff | src/meridian_storage/plugins/config_artifact/channels/repository.py:69-127 | In every reachable state, whoever promoted what: a pointer leads to a row of the channel's namespace, kind and name if and only if its target has a row. |
| Pointers.PointersNeverDangle | src/meridian_storage/plugins/config_artifact/channels/repository.py:69-127 | If every resource value promoted has a stored id (identities and references always do), every pointer leads to a stored resource of the channel's namespace, kind and name, and for an artifact on to an object with the recorded digest. |
| Pointers.UnstoredTargetDangles | src/meridian_storage/plugins/config_artifact/channels/repository.py:69-75 | An input: promoting a resource value that was never stored makes a pointer whose target has no row. |
| Promotions.PromotedPointerResolvesIff | src/meridian_storage/plugins/config_artifact/channels/repository.py:69-127 | Alone, the pointer that promote makes of a resource value resolves if and only if the value's id has a row. |
| Promotions.PromoteAlone | src/meridian_storage/plugins/config_artifact/channels/repository.py:92-145 | Alone, promote is one compare-and-set of the register, in every case: stale, rejected fields, or the successor row inserted. |
| Promotions.PromoteTargetAlone | src/meridian_storage/plugins/config_artifact/channels/repository.py:63-91 | From the target on: which error a missing target, a foreign reference, a wrong profile, an unpublished resource or a bad channel name gives, in this order and without effect. |
| Promotions.PromoteFromStart | src/meridian_storage/plugins/config_artifact/channels/repository.py:54-145 | Alone and from its beginning, for every kind of target: a negative version is refused, a resource value is promoted as it is, an identity or reference is looked up under its own id, and a reference must be that of the row. |
| Promotions.PromoteKnownMeans | src/meridian_storage/plugins/config_artifact/channels/repository.py:81-145 | Promotion succeeds if and only if the resource is published and of the profile asked for, the channel's name valid, the channel at the expected version (0 without rows) and the successor row valid; it inserts just that row, and otherwise changes nothing. |
| Promotions.PromotionComesAfter | src/meridian_storage/plugins/config_artifact/artifact/repository.py:212-220 | In every world, publish with a promotion first does exactly what publish without one does, and begins to promote only after a receipt, from the tables left by then. |
| Promotions.PublishThenPromote | src/meridian_storage/plugins/config_artifact/artifact/repository.py:123-220 | Alone, publish with any promotion is its publication and then, after a receipt, its promotion, in outcome and tables; half a promotion or a negative version is refused after the commit. |
| Promotions.PublishFromStart | src/meridian_storage/plugins/config_artifact/artifact/repository.py:115-220 | The same from the entry checks on, which refuse a request without effect. |
| Promotions.PublishedThoughRaised | src/meridian_storage/plugins/config_artifact/artifact/repository.py:212-213 | publish can commit and then raise: when its publication succeeds, it raises if and only if the promotion asked for is half given, is of a negative version, is refused for the resource or channel name, is from another version than the channel is at, or makes no valid row; the tables are then those of the publication, and otherwise they hold the returned pointer, of the channel, version, target and actor asked for. |
| Promotions.StalePromotionRaises | src/meridian_storage/plugins/config_artifact/artifact/repository.py:212-213 | An input: a first publication that asks to promote from version 1 of a channel without rows raises StaleChannelPointer, and its row is there. |
| Driving.DeprecationConverges | src/meridian_storage/plugins/config_artifact/artifact/repository.py:225-239 | However many others interfere, a fault-free deprecate of an existing row of its profile returns that row deprecated, every immutable field as it was. |
| Convergence.DeprecationConvergesInRun | src/meridian_storage/plugins/config_artifact/artifact/repository.py:225-239 | From any state of any run, among any clients, faults and crashes, a deprecate of an existing row of its profile whose own steps meet no fault ends within three of them, with the row deprecated and every immutable field as it was. |
| Driving.ConflictIsNeverReraised | src/meridian_storage/plugins/config_artifact/configuration/repository.py:165-182 | Whatever else fails and whatever others do, deprecate never reports a conflict that the store did not invent: the final re-raise is unreachable. |
| Promotions.DeprecateAlone | src/meridian_storage/plugins/config_artifact/artifact/repository.py:225-239 | Alone, every case of deprecate: missing row, other profile, deprecated already, and the one-row change of state and record version. |
| Recovery.PublishAlone | src/meridian_storage/plugins/config_artifact/artifact/repository.py:123-223 | Alone, the calls of publish end as its sequential specification says, in outcome and tables, in every case. |
| Recovery.PublishSucceedsIff | src/meridian_storage/plugins/config_artifact/artifact/repository.py:123-223 | A fault-free publish succeeds if and only if nothing incompatible is stored under the identity, the descriptive fields are valid, and the bytes are genuine or their object is already there. |
| Republication.FoundArtifactIff | src/meridian_storage/plugins/config_artifact/artifact/repository.py:60-74 | On an identity that has a row, a valid publish ends in a receipt for it if and only if the request has the row's media type, digest, length, labels, annotations, provenance, supersedes and version order and the row is an artifact's, and in IdentityConflict otherwise; it changes nothing. |
| Republication.RepublishedArtifactIff | src/meridian_storage/plugins/config_artifact/artifact/repository.py:331-349 | Publishing again under an identity ends in a receipt for the first publication if and only if the two requests agree in each of those fields, and in IdentityConflict otherwise. |
| Republication.FoundConfigurationIff | src/meridian_storage/plugins/config_artifact/configuration/repository.py:40-56 | The same for configurations, with the schema and the normalised payload. |
| Republication.RepublishedConfigurationIff | src/meridian_storage/plugins/config_artifact/configuration/repository.py:126-134 | Publishing a configuration again ends in a receipt for the first publication if and only if the two requests agree in media type, schema, normalised payload, labels, annotations, provenance, supersedes and version order. |
| Promotions.UnrecordedObjectIff | src/meridian_storage/plugins/config_artifact/artifact/repository.py:115-176 | A fault-free publish, from its entry checks on and with any promotion, leaves an object without a row if and only if it passes those checks, the identity is unused, the bytes genuine and the descriptive fields invalid; it raises no IncompletePublication and records nothing then. |
| Promotions.EmptyActorLeavesObject | src/meridian_storage/plugins/config_artifact/artifact/repository.py:155-176 | An input: with an empty actor, publish raises InvalidInput and leaves the object, no row and no orphan row. |
| Recovery.PublicationConverges | src/meridian_storage/plugins/config_artifact/artifact/repository.py:185-211 | In any world that keeps the tables consistent and what is stored under the identity compatible, a publish that meets no fault ends with a receipt, the row and the object in place. |
| Convergence.AttemptKeepsCompatible | src/meridian_storage/plugins/config_artifact/artifact/repository.py:123-220 | A step of a publisher of the same content, by another actor, at another time and under any fault, keeps what is stored compatible. |
| Convergence.FriendlyStep | src/meridian_storage/plugins/config_artifact/artifact/repository.py:123-220 | So does a step of any client of any kind that publishes no other content under the identity, and it stays such a client. |
| Convergence.PublicationConvergesInRun | src/meridian_storage/plugins/config_artifact/artifact/repository.py:123-220 | In every run of any clients, none of which publishes other content under the identity, with any failed and crashed attempts before and meanwhile, a publish whose own steps meet no fault ends within nine of them, with the row and object of the requested publication in place and, unless it was to promote, with a receipt for it. |
| Convergence.CallsEnd | src/meridian_storage/plugins/config_artifact/artifact/repository.py:95-223 | In every run a call that lists no objects ends after as many of its own steps as its rank, whatever else happens. |
| Retries.RetryConverges | src/meridian_storage/plugins/config_artifact/artifact/repository.py:124-220 | After any attempts at a publication, each with any promotion and faults and stopped anywhere, one attempt without a fault, with any promotion, publishes and then ends as its promotion does; it leaves the object, metadata and provenance of an uninterrupted run, up to creator and creation time, adds no orphan row, and keeps every orphan and channel row written before. |
| Configurations.ConfigurationAlone | src/meridian_storage/plugins/config_artifact/configuration/repository.py:126-163 | Alone, publish adds the row and its provenance, or finds the same publication, or raises IdentityConflict and adds nothing; it succeeds if and only if what is stored is the same publication or nothing. |
| Configurations.ConfigurationFacts | src/meridian_storage/plugins/config_artifact/configuration/repository.py:94-125 | The candidate of a configuration, field by field: everything the request says, the digest and length of its canonical payload, no object. |
| Configurations.ConfigurationPromotedAfter | src/meridian_storage/plugins/config_artifact/configuration/repository.py:126-163 | In every world, publish with a promotion first does exactly what publish without one does, and begins to promote only after a receipt. |
| Configurations.ConfigurationFromStart | src/meridian_storage/plugins/config_artifact/configuration/repository.py:94-163 | Alone and from its beginning, publish refuses an invalid candidate without effect, and otherwise publishes and then ends as the promotion asked for; half of one, or one from a negative version, is refused after the commit. |
| Configurations.ConfiguredThoughRaised | src/meridian_storage/plugins/config_artifact/configuration/repository.py:156-163 | publish can commit and then raise: when its publication succeeds, it raises if and only if the promotion asked for fails, and leaves the tables of the publication; otherwise they hold the returned pointer, of the channel, version, target and actor asked for. |
| Configurations.ConfigurationConverges | src/meridian_storage/plugins/config_artifact/configuration/repository.py:136-155 | In any world that keeps the tables consistent and in agreement with the configuration, a fault-free publish ends with a receipt for it, the row in place. |
| Convergence.ConcordantStep | src/meridian_storage/plugins/config_artifact/configuration/repository.py:126-163 | A step of any client that publishes nothing else under the identity keeps what is stored there in agreement with the configuration, and it stays such a client. |
| Convergence.ConfigurationConvergesInRun | src/meridian_storage/plugins/config_artifact/configuration/repository.py:126-163 | In every run of any clients, none of which publishes anything else under the identity, with any failed and crashed attempts before and meanwhile, a publish of a valid configuration whose own steps meet no fault ends within six of them, with its row in place and, unless it was to promote, with a receipt for it. |
| Configurations.EqualPayloadsAgree | src/meridian_storage/plugins/config_artifact/configuration/repository.py:40-56 | Of two requests equal in everything else, the configurations are the same publication if and only if their payloads normalise to the same value. |
| Configurations.ConfigurationCanWin | src/meridian_storage/plugins/config_artifact/artifact/repository.py:185-198 | Four calls in which a configuration takes the identity after the artifact's object is in place: the configuration is published, the artifact's publisher raises IdentityConflict, and no scan reports the object it leaves. |
| Orphans.EvidenceIsRecorded | src/meridian_storage/plugins/config_artifact/artifact/repository.py:199-211 | If the commit fails for any reason but a conflict, publish raises IncompletePublication, and unless recording fails too, an orphan row then describes the object, whatever others do. |
| Orphans.UndatedEvidence | src/meridian_storage/plugins/config_artifact/artifact/repository.py:306-325 | Evidence needs a valid time: without one, publish raises its rejection and records nothing. |
| Orphans.MissingWinnerIsRecorded | src/meridian_storage/plugins/config_artifact/artifact/repository.py:187-204 | The same if the commit conflicts and the lookup of the winner then finds none; where others do nothing, the metadata table is left as it was. |
| Orphans.FalseEvidenceIff | src/meridian_storage/plugins/config_artifact/artifact/repository.py:185-211 | Of an unused identity whose commit fails, not as a conflict, where others do nothing: the object recorded as an orphan has its metadata row all the same if and only if the commit took effect and only its reply was lost. |
| Orphans.ConfigurationWins | src/meridian_storage/plugins/config_artifact/artifact/repository.py:188-198 | If the identity has a configuration row when the artifact's metadata is to be committed, publish raises IdentityConflict and changes nothing; its object stays and is not reported, for the identity has a row. |
| Orphans.PageAlone | src/meridian_storage/plugins/config_artifact/artifact/repository.py:645-675 | Alone, one page of discovery reports and records what its specification says for the objects of that page, and passes on the cursor. |
| Orphans.DiscoveryIsExact | src/meridian_storage/plugins/config_artifact/artifact/repository.py:638-675 | On a quiescent store with any objects in it, following the cursor to the end reports exactly one candidate, each once and in increasing order of ids, for each object that lies under its declared resource id and has no row; a recording scan leaves one row for each and no other. |
| Orphans.AbandonedMeans | src/meridian_storage/plugins/config_artifact/artifact/repository.py:647-658 | The objects meant are those that lie under the id of some valid identity, declare that id, and have no row. |
| Orphans.OtherOrphanConflicts | src/meridian_storage/plugins/config_artifact/repositories/metadata.py:340-348 | A row found under a candidate's key is taken if it names the same resource, object reference, digest and length, and is an IdentityConflict otherwise. |
| Orphans.DiscoveryIsIdempotent | src/meridian_storage/plugins/config_artifact/repositories/metadata.py:330-350 | Scanning again, with any page size and at any time, reports the same rows and adds none. |
| Orphans.DeadPublishersAreFound | src/meridian_storage/plugins/config_artifact/artifact/repository.py:638-675 | After any run with crashes and faults, discovery reports exactly the objects whose resource has no metadata row. |
| Readers.VerifyingReader.Read | src/meridian_storage/plugins/config_artifact/artifact/repository.py:456-465 | A read passes on the next bytes of the stream and hashes and counts exactly those. |
| Readers.VerifyingReader.ReadInto | src/meridian_storage/plugins/config_artifact/artifact/repository.py:467-471 | Filling a buffer passes on the next bytes at its front, and leaves the rest of it alone. |
| Readers.VerifyingReader.Verify | src/meridian_storage/plugins/config_artifact/artifact/repository.py:476-484 | Whatever was read before, the first verification drains the finite stream and succeeds if and only if the whole stream has the recorded digest and length; a later one says nothing. |
| Readers.Consume | src/meridian_storage/plugins/config_artifact/artifact/repository.py:589-595 | Any sequence of reads of any sizes, on a stream that returns any chunks, hands out a prefix of the stream with nothing lost or repeated. |
| Readers.ReadVerified | src/meridian_storage/plugins/config_artifact/artifact/repository.py:589-595 | A body that only reads is told of a mismatch if and only if the whole stream is not the expected one, however stream and body cut it. |
| Readers.ReadAllIsWhole | src/meridian_storage/plugins/config_artifact/artifact/repository.py:599-601 | What a single read(-1) returns is the whole stream if and only if the stream answers that read with everything (or has at most one byte). |
| Payloads.RegisterPayload | src/meridian_storage/plugins/config_artifact/artifact/payloads.py:34-113 | Bytes are registered if and only if what is declared of them is well formed and true, under their own digest and length; streams if and only if both are declared and well formed, under those; references under the call's declarations or else their own. It owns what it registers, and never owns or touches what the caller registered. |
| Payloads.ContentIdentityIs | src/meridian_storage/plugins/config_artifact/artifact/payloads.py:43-84 | The content identity of each kind of payload, in terms of its bytes and declarations. |
| Repository.ArtifactPublisher.Publish | src/meridian_storage/plugins/config_artifact/artifact/repository.py:115-223 | publish does what the client machine does, for the bytes of the payload under the content identity of the call, and refuses bytes that contradict what the call declares; on every way out the registrations are as they were, and only its own is released, once. |
| Repository.UnreadableIsRejected | tests/conftest.py:175-189 | A payload reference that nobody registered is never stored: the put conflicts if the object is there, and is rejected otherwise. |
| Repository.ArtifactPublisher.PublishRegistered | src/meridian_storage/plugins/config_artifact/artifact/repository.py:123-220 | Call by call, the method ends with the outcome and tables of the client machine, in every world of interference and faults. |
| Repository.ArtifactPublisher.CommitMetadata | src/meridian_storage/plugins/config_artifact/artifact/repository.py:177-220 | The transaction, the winner on a conflict, and the evidence on any other failure, as the client machine has them. |
| Repository.ConfigurationPublisher.Publish | src/meridian_storage/plugins/config_artifact/configuration/repository.py:94-163 | Call by call, the method ends with the outcome and tables of the client machine, in every world. |
| Repository.ChannelRepository.Promote | src/meridian_storage/plugins/config_artifact/channels/repository.py:54-145 | Call by call, the method ends with the outcome and tables of the client machine, in every world. |
| Repository.ChannelRepository.CompareAndSet | src/meridian_storage/plugins/config_artifact/channels/repository.py:92-145 | The read of the latest row and the insert of its successor, as the client machine has them, whether the promotion stands alone or ends a publication. |
| Repository.DeprecateResource | src/meridian_storage/plugins/config_artifact/artifact/repository.py:225-239 | Call by call, the method ends with the outcome and tables of the client machine, for both profiles. |
| Consumers.ArtifactConsumer.DiscoverOrphans | src/meridian_storage/plugins/config_artifact/artifact/repository.py:638-675 | The loop over a page ends with the outcome and tables of the client machine, in every world. |
| Consumers.ArtifactConsumer.Open | src/meridian_storage/plugins/config_artifact/artifact/repository.py:567-597 | open ends well if and only if the object is there, is described as the resource says, is genuine as a whole, and the body only reads; the registration received is released exactly once on every way out. |
| Consumers.ArtifactConsumer.ReadWhole | src/meridian_storage/plugins/config_artifact/artifact/repository.py:599-601 | read returns the recorded bytes if and only if the stream answers read(-1) with everything; otherwise a shorter prefix, which verification does not notice. |
| Consumers.ArtifactConsumer.RangeRead | src/meridian_storage/plugins/config_artifact/artifact/repository.py:603-636 | range_read returns the served bytes if and only if the object is as described and their number is that of the range; its registration is released exactly once unless the range does not resolve against the recorded length, and then never. |
| Consumers.UnresolvedRangeIsLost | src/meridian_storage/plugins/config_artifact/artifact/repository.py:622-636 | An input: with a store that serves every range, a range that resolves against no length loses the registration of every stored artifact. |
| Consumers.StoredArtifactsAreReadable | src/meridian_storage/plugins/config_artifact/artifact/repository.py:681-693 | In consistent tables a read of any stored artifact finds its object, described as recorded and genuine. |
| Consumers.StoredRangesAreReleased | src/meridian_storage/plugins/config_artifact/artifact/repository.py:622-636 | If the store serves only ranges that resolve against the object's own length, range_read of a stored artifact never loses its registration. |

## Left out

- RefusalsAreReal: assumes that no conflict is invented in the call's own steps; `Answers.MisledIff` says exactly what happens otherwise.
- PointersNeverDangle: assumes that the ids of resource values passed as targets are stored; `Pointers.PointersResolveIff` is the exact condition.
- EvidenceIsRecorded: speaks of a commit that fails other than by a conflict; `Orphans.MissingWinnerIsRecorded` covers a missing winner. If the lookup of the winner fails in another way, publish raises that failure and records nothing, as the code does.
- Publish: a reference that nobody registered is rejected by the store under the category of any rejected payload; the category that the payload registry itself gives is not part of this model.
- Key hashing with uuid5: canonical strings serve as keys, and a resource id is the canonical string of an identity; prefixes and hexadecimal forms of ids are not modelled.
- Floats in JSON values, and Python's equality of `True` with `1`, which the comparison of publications would inherit inside annotations and payloads.
- Calendar arithmetic in timestamps, and the clock: times are parameters.
- Validation of payloads against their registered schemas (`validate_record`), which is outside this repository.
- Adapters that answer a put with other values than were put: puts return what was stored. For the deprecating patch every answer is modelled.
- Ill-typed record fields beyond the kind of value each field holds, and the nested form of object references.
- Transactions and reads are taken as the schemas declare them: atomic, without dirty reads, strongly consistent. The test double's transactions, which do not roll back, are not modelled.
- Listing of objects takes the last id of a page as its cursor; the test double's listing, which never returns one, is not modelled.
- Streams that fail, return more than asked for, or are read by others than their reader; chunk sizes of the external payload iterator.
- Metadata that the object store keeps beside the resource id (creation context, other user metadata, provenance copy).
- The wiring classes (`ResourceStore`, `ResourcePublisher`, `ResourceConsumer`), the plugin manifest, schema definitions, contract loading, tenancy, and the wording and causes of errors.
- Simple reads (`exact`, `channel`, `stat`, `list_orphans`) and `delete`, which always refuses: each would add only a lookup.
