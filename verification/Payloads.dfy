// Payload registrations: what the caller or the library registers, and who must release it.

module Payloads {
  import opened Basics
  import opened Canonical

  datatype PayloadReference = PayloadReference(id: nat, expectedDigest: Option<string>, expectedLength: Option<int>)

  // What a caller may pass as the payload: bytes, a source or stream of bytes, or a reference to
  // something it has registered itself.
  datatype Payload = Raw(bytes: Bytes) | Streamed(bytes: Bytes) | Referenced(reference: PayloadReference) | Unusable

  datatype Registered = Registered(reference: PayloadReference, digest: string, byteLength: int, owned: bool)

  // Live registrations by id, and the ids released so far, in order.
  class PayloadRegistry {
    var sources: map<nat, Bytes>
    var next: nat
    var released: seq<nat>

    ghost predicate Valid()
      reads this
    {
      forall k | k in sources :: k < next
    }

    constructor ()
      ensures Valid() && sources == map[] && released == []
    {
      sources, next, released := map[], 0, [];
    }

    method Register(bytes: Bytes, digest: Option<string>, length: Option<int>) returns (reference: PayloadReference)
      requires Valid()
      modifies this
      ensures Valid() && next == old(next) + 1 && released == old(released)
      ensures reference == PayloadReference(old(next), digest, length)
      ensures sources == old(sources)[reference.id := bytes] && reference.id !in old(sources)
    {
      reference := PayloadReference(next, digest, length);
      sources, next := sources[next := bytes], next + 1;
    }

    method Release(reference: PayloadReference)
      requires Valid()
      modifies this
      ensures Valid() && next == old(next) && released == old(released) + [reference.id]
      ensures sources == old(sources) - {reference.id}
    {
      sources, released := sources - {reference.id}, released + [reference.id];
    }
  }

  function RequiredDigest(value: Option<string>): Result<string> {
    if value.Some? && IsDigest(value.value) then Ok(value.value) else Err(InvalidPayload)
  }

  function RequiredLength(value: Option<int>): Result<int> {
    if value.Some? && value.value >= 0 then Ok(value.value) else Err(InvalidPayload)
  }

  // Declared values must be well formed and those observed.
  predicate MatchDeclared(digest: string, length: int, declaredDigest: Option<string>, declaredLength: Option<int>) {
    && (declaredDigest.Some? ==> RequiredDigest(declaredDigest) == Ok(digest))
    && (declaredLength.Some? ==> RequiredLength(declaredLength) == Ok(length))
  }

  // The digest and length that a reference is published under: those declared in the call, or else
  // those of the reference.  An empty digest in the call counts as none.
  function SelectedDigest(reference: PayloadReference, declared: Option<string>): Option<string> {
    if declared.Some? && declared.value != "" then declared else reference.expectedDigest
  }

  function SelectedLength(reference: PayloadReference, declared: Option<int>): Option<int> {
    if declared.Some? then declared else reference.expectedLength
  }

  // The complete content identity that the call gives for the payload, if it gives one.
  function ContentIdentity(sha: Bytes -> string, payload: Payload, digest: Option<string>, length: Option<int>): Option<(string, int)> {
    match payload
    case Raw(bytes) => if MatchDeclared(sha(bytes), |bytes|, digest, length) then Some((sha(bytes), |bytes|)) else None
    case Streamed(_) =>
      if RequiredDigest(digest).Ok? && RequiredLength(length).Ok? then Some((digest.value, length.value)) else None
    case Referenced(reference) =>
      var (d, n) := (SelectedDigest(reference, digest), SelectedLength(reference, length));
      if RequiredDigest(d).Ok? && RequiredLength(n).Ok? then Some((d.value, n.value)) else None
    case Unusable => None
  }

  // What a content identity is, payload by payload.
  lemma ContentIdentityIs(sha: Bytes -> string, payload: Payload, digest: Option<string>, length: Option<int>, d: string, n: int)
    ensures payload.Raw? ==> (ContentIdentity(sha, payload, digest, length) == Some((d, n)) <==>
                                && d == sha(payload.bytes) && n == |payload.bytes|
                                && (digest == None || (digest == Some(d) && IsDigest(d))) && (length == None || length == Some(n)))
    ensures payload.Streamed? ==> (ContentIdentity(sha, payload, digest, length) == Some((d, n)) <==>
                                     digest == Some(d) && IsDigest(d) && length == Some(n) && n >= 0)
    ensures payload.Referenced? ==> (ContentIdentity(sha, payload, digest, length) == Some((d, n)) <==>
                                       && IsDigest(d) && n >= 0
                                       && Some(d) == (if digest in {None, Some("")} then payload.reference.expectedDigest else digest)
                                       && Some(n) == (if length == None then payload.reference.expectedLength else length))
    ensures payload.Unusable? ==> ContentIdentity(sha, payload, digest, length) == None
  {
    hide IsDigest;
  }

  method RegisterPayload(sha: Bytes -> string, payload: Payload, registry: PayloadRegistry, digest: Option<string>, length: Option<int>)
    returns (r: Result<Registered>)
    requires registry.Valid()
    modifies registry
    ensures registry.Valid() && registry.released == old(registry.released)
    // it succeeds exactly when the content identity is complete, and registers under that identity
    ensures r.Ok? <==> ContentIdentity(sha, payload, digest, length).Some?
    ensures r.Ok? ==> ContentIdentity(sha, payload, digest, length) == Some((r.value.digest, r.value.byteLength))
    // bytes: what is declared must be well formed and true, and they are registered as what they are
    ensures payload.Raw? ==> (r.Ok? <==> (digest.Some? ==> IsDigest(digest.value) && digest.value == sha(payload.bytes))
                                         && (length.Some? ==> length.value == |payload.bytes|))
    ensures payload.Raw? && r.Ok? ==> r.value.digest == sha(payload.bytes) && r.value.byteLength == |payload.bytes|
    ensures payload.Raw? && r.Err? ==> r == Err(InvalidPayload)
    // streams: both must be declared, and are taken at their word
    ensures payload.Streamed? ==> (r.Ok? <==> digest.Some? && IsDigest(digest.value) && length.Some? && length.value >= 0)
    ensures payload.Streamed? && r.Ok? ==> digest == Some(r.value.digest) && length == Some(r.value.byteLength)
    ensures payload.Streamed? && r.Err? ==> r == Err(InvalidPayload)
    // references: the call's declaration, or else the reference's; an empty digest declares nothing
    ensures payload.Referenced? && r.Ok? ==>
              && IsDigest(r.value.digest) && r.value.byteLength >= 0
              && Some(r.value.digest) == (if digest in {None, Some("")} then payload.reference.expectedDigest else digest)
              && Some(r.value.byteLength) == (if length == None then payload.reference.expectedLength else length)
    ensures payload.Referenced? && r.Err? ==>
              var d := if digest in {None, Some("")} then payload.reference.expectedDigest else digest;
              var n := if length == None then payload.reference.expectedLength else length;
              r == Err(InvalidPayload) && (d == None || !IsDigest(d.value) || n == None || n.value < 0)
    // only what the library registers itself is its own
    ensures r.Ok? ==> (r.value.owned <==> !payload.Referenced?)
    ensures r.Ok? && r.value.owned ==>
              && r.value.reference.id == old(registry.next) && r.value.reference.id !in old(registry.sources)
              && registry.sources == old(registry.sources)[r.value.reference.id := payload.bytes]
              && r.value.reference.expectedDigest == Some(r.value.digest) && r.value.reference.expectedLength == Some(r.value.byteLength)
    ensures r.Ok? && !r.value.owned ==> r.value.reference == payload.reference
    ensures r.Err? || !r.value.owned ==> registry.sources == old(registry.sources) && registry.next == old(registry.next)
  {
    if payload.Raw? {
      var observedDigest, observedLength := sha(payload.bytes), |payload.bytes|;
      if !MatchDeclared(observedDigest, observedLength, digest, length) {
        return Err(InvalidPayload);
      }
      var reference := registry.Register(payload.bytes, Some(observedDigest), Some(observedLength));
      return Ok(Registered(reference, observedDigest, observedLength, true));
    }
    if payload.Referenced? {
      var selectedDigest, selectedLength := SelectedDigest(payload.reference, digest), SelectedLength(payload.reference, length);
      var d := RequiredDigest(selectedDigest);
      if d.Err? {
        return Err(d.error);
      }
      var n := RequiredLength(selectedLength);
      if n.Err? {
        return Err(n.error);
      }
      return Ok(Registered(payload.reference, d.value, n.value, false));
    }
    var selectedDigest := RequiredDigest(digest);
    if selectedDigest.Err? {
      return Err(selectedDigest.error);
    }
    var selectedLength := RequiredLength(length);
    if selectedLength.Err? {
      return Err(selectedLength.error);
    }
    if payload.Unusable? {
      return Err(InvalidInput);
    }
    var reference := registry.Register(payload.bytes, Some(selectedDigest.value), Some(selectedLength.value));
    return Ok(Registered(reference, selectedDigest.value, selectedLength.value, true));
  }

  // Registering and releasing what one registered leaves the registrations as they were.
  lemma ReleaseUndoesRegister(sources: map<nat, Bytes>, id: nat, bytes: Bytes)
    requires id !in sources
    ensures sources[id := bytes] - {id} == sources
  {
  }
}
