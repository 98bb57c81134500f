// Byte streams that may return less than asked, and the reader that verifies one as it is read.

module Readers {
  import opened Basics

  // How much a stream returns when it has something to return: any amount at its position, bounded
  // below by one byte and above by what was asked and what is left.
  type Chunking = (nat, int) -> nat

  function Clamp(n: nat, low: nat, high: nat): nat
    requires low <= high
  {
    if n < low then low else if n > high then high else n
  }

  // The number of bytes that a read of `size` returns, of `left` that remain; a negative size asks for all.
  function Amount(chunking: Chunking, position: nat, size: int, left: nat): (n: nat)
    ensures n <= left && (size >= 0 ==> n <= size)
    ensures n == 0 <==> size == 0 || left == 0
  {
    if size == 0 || left == 0 then 0
    else Clamp(chunking(position, size), 1, if size < 0 || size > left then left else size)
  }

  // A finite binary stream.
  class ByteStream {
    const bytes: Bytes
    const chunking: Chunking
    var position: nat

    ghost predicate Valid()
      reads this
    {
      position <= |bytes|
    }

    constructor (bytes: Bytes, chunking: Chunking)
      ensures Valid() && this.bytes == bytes && this.chunking == chunking && position == 0
    {
      this.bytes, this.chunking, position := bytes, chunking, 0;
    }

    method Read(size: int) returns (value: Bytes)
      requires Valid()
      modifies this
      ensures Valid() && position == old(position) + |value|
      ensures value == bytes[old(position)..position]
      ensures |value| == Amount(chunking, old(position), size, |bytes| - old(position))
    {
      var n := Amount(chunking, position, size, |bytes| - position);
      value := bytes[position..position + n];
      position := position + n;
    }
  }

  const BLOCK := 1024 * 1024

  // A reader whose hash and length cover every byte it has passed on.
  class VerifyingReader {
    const stream: ByteStream
    const sha: Bytes -> string
    const expectedDigest: string
    const expectedLength: int
    var hashed: Bytes
    var length: nat
    var done: bool
    var closed: bool

    // The reader alone reads its stream, from the beginning.
    ghost predicate Valid()
      reads this, stream
    {
      && stream.Valid()
      && hashed == stream.bytes[..stream.position]
      && length == |hashed|
    }

    constructor (stream: ByteStream, sha: Bytes -> string, expectedDigest: string, expectedLength: int)
      requires stream.Valid() && stream.position == 0
      ensures Valid() && !done && !closed
      ensures this.stream == stream && this.sha == sha && this.expectedDigest == expectedDigest && this.expectedLength == expectedLength
    {
      this.stream, this.sha, this.expectedDigest, this.expectedLength := stream, sha, expectedDigest, expectedLength;
      hashed, length, done, closed := [], 0, false, false;
    }

    method Read(size: int) returns (r: Result<Bytes>)
      requires Valid()
      modifies this, stream
      ensures Valid() && done == old(done) && closed == old(closed) && stream.position >= old(stream.position)
      ensures r.Ok? <==> !closed
      ensures r.Ok? ==>
                && r.value == stream.bytes[old(stream.position)..stream.position]
                && |r.value| == Amount(stream.chunking, old(stream.position), size, |stream.bytes| - old(stream.position))
                && stream.position == old(stream.position) + |r.value|
      ensures r.Err? ==> r.error == InvalidInput && stream.position == old(stream.position)
    {
      if closed {
        return Err(InvalidInput);
      }
      var value := stream.Read(size);
      if value != [] {
        hashed, length := hashed + value, length + |value|;
      }
      return Ok(value);
    }

    // Fills the front of the buffer, and touches nothing behind it.
    method ReadInto(buffer: array<Byte>) returns (r: Result<nat>)
      requires Valid()
      modifies this, stream, buffer
      ensures Valid() && done == old(done) && closed == old(closed) && stream.position >= old(stream.position)
      ensures r.Ok? <==> !closed
      ensures r.Ok? ==>
                && r.value == Amount(stream.chunking, old(stream.position), buffer.Length, |stream.bytes| - old(stream.position))
                && stream.position == old(stream.position) + r.value
                && buffer[..r.value] == stream.bytes[old(stream.position)..stream.position]
                && buffer[r.value..] == old(buffer[r.value..])
      ensures r.Err? ==> stream.position == old(stream.position) && buffer[..] == old(buffer[..])
    {
      var value := Read(buffer.Length);
      if value.Err? {
        return Err(value.error);
      }
      ghost var before := buffer[..];
      var n := |value.value|;
      for i := 0 to n
        invariant forall k :: 0 <= k < i ==> buffer[k] == value.value[k]
        invariant forall k :: i <= k < buffer.Length ==> buffer[k] == before[k]
        invariant Valid() && done == old(done) && closed == old(closed) && stream.position == old(stream.position) + n
        invariant value.value == stream.bytes[old(stream.position)..stream.position]
        modifies buffer
      {
        buffer[i] := value.value[i];
      }
      return Ok(n);
    }

    // Drains the stream and compares.  Whatever was read before, in whatever pieces, the first
    // verification of an open reader succeeds exactly if the whole stream has the expected digest
    // and length; any later one says nothing.
    method Verify() returns (failure: Option<Error>)
      requires Valid()
      modifies this, stream
      ensures Valid() && closed == old(closed)
      ensures old(done) ==> failure == None && stream.position == old(stream.position) && done
      ensures !old(done) && closed ==> failure == Some(InvalidInput) && !done && stream.position == old(stream.position)
      ensures !old(done) && !closed ==>
                && done && stream.position == |stream.bytes|
                && failure == if Genuine(sha, stream.bytes, expectedDigest, expectedLength) then None else Some(ArtifactDigestMismatch)
    {
      if done {
        return None;
      }
      var block := Read(BLOCK);
      while block.Ok? && block.value != []
        invariant Valid() && done == old(done) && closed == old(closed)
        invariant block.Ok? <==> !closed
        invariant block.Err? ==> block.error == InvalidInput && stream.position == old(stream.position)
        invariant block.Ok? && block.value == [] ==> stream.position == |stream.bytes|
        decreases |stream.bytes| - stream.position, if block.Ok? then |block.value| else 0
      {
        block := Read(BLOCK);
      }
      if block.Err? {
        return Some(block.error);
      }
      assert hashed == stream.bytes;
      var observed := sha(hashed);
      done := true;
      if length != expectedLength || observed != expectedDigest {
        return Some(ArtifactDigestMismatch);
      }
      return None;
    }

    method Close()
      requires Valid()
      modifies this
      ensures Valid() && closed && done == old(done)
    {
      closed := true;
    }
  }

  predicate Genuine(sha: Bytes -> string, bytes: Bytes, digest: string, length: int) {
    sha(bytes) == digest && |bytes| == length
  }

  // ---------------------------------------------------------------- any use of a reader

  // What a caller may do with an open reader; Raises is an exception of its own.
  datatype Use = ReadUpTo(size: int) | FillBuffer(capacity: nat) | CloseEarly | Raises

  predicate OnlyReads(uses: seq<Use>) {
    forall u | u in uses :: u.ReadUpTo? || u.FillBuffer?
  }

  lemma OnlyReadsSteps(uses: seq<Use>, k: nat)
    requires k < |uses|
    ensures OnlyReads(uses[..k + 1]) <==> OnlyReads(uses[..k]) && (uses[k].ReadUpTo? || uses[k].FillBuffer?)
    ensures OnlyReads(uses) ==> OnlyReads(uses[..k + 1])
  {
    assert uses[..k + 1] == uses[..k] + [uses[k]];
    assert uses == uses[..k + 1] + uses[k + 1..];
  }

  // Runs the uses in order, up to the first that raises, and collects the bytes handed out: always a
  // prefix of the stream, with nothing lost or repeated between the reads.
  method Consume(reader: VerifyingReader, uses: seq<Use>) returns (data: Bytes, failure: Option<Error>)
    requires reader.Valid() && !reader.done && !reader.closed && reader.stream.position == 0
    modifies reader, reader.stream
    ensures reader.Valid() && !reader.done
    ensures data == reader.stream.bytes[..reader.stream.position]
    ensures failure == None && !reader.closed <==> OnlyReads(uses)
    ensures uses == [ReadUpTo(-1)] ==> |data| == Amount(reader.stream.chunking, 0, -1, |reader.stream.bytes|)
  {
    data, failure := [], None;
    for k := 0 to |uses|
      invariant reader.Valid() && !reader.done && failure == None
      invariant data == reader.stream.bytes[..reader.stream.position]
      invariant !reader.closed <==> OnlyReads(uses[..k])
      invariant k == 0 ==> data == []
      invariant k == 1 && uses == [ReadUpTo(-1)] ==> |data| == Amount(reader.stream.chunking, 0, -1, |reader.stream.bytes|)
    {
      OnlyReadsSteps(uses, k);
      match uses[k]
      case ReadUpTo(size) =>
        var value := reader.Read(size);
        if value.Err? {
          return data, Some(value.error);
        }
        data := data + value.value;
      case FillBuffer(capacity) =>
        var buffer := new Byte[capacity](i => 0);
        var count := reader.ReadInto(buffer);
        if count.Err? {
          return data, Some(count.error);
        }
        data := data + buffer[..count.value];
      case CloseEarly =>
        reader.Close();
      case Raises =>
        return data, Some(InvalidInput);
    }
    assert uses[..|uses|] == uses;
  }

  // open: run the body on a verifying reader, verify unless the body raised, close in any case.
  // The chunks of the stream and of the body make no difference: a body that only reads is told of
  // a mismatch exactly if the whole stream is not the expected one.
  method ReadVerified(stream: ByteStream, sha: Bytes -> string, digest: string, length: int, uses: seq<Use>)
    returns (data: Bytes, failure: Option<Error>)
    requires stream.Valid() && stream.position == 0
    modifies stream
    ensures stream.Valid() && data <= stream.bytes
    ensures OnlyReads(uses) ==> failure == if Genuine(sha, stream.bytes, digest, length) then None else Some(ArtifactDigestMismatch)
    ensures !OnlyReads(uses) ==> failure.Some?
    ensures uses == [ReadUpTo(-1)] ==> |data| == Amount(stream.chunking, 0, -1, |stream.bytes|)
  {
    var reader := new VerifyingReader(stream, sha, digest, length);
    data, failure := Consume(reader, uses);
    if failure.None? {
      failure := reader.Verify();
    }
    reader.Close();
  }

  // A stream that answers read(-1) with everything.
  predicate ReadsAll(chunking: Chunking, length: nat) {
    chunking(0, -1) >= length
  }

  // What a single read(-1) returns is the whole stream exactly if the stream answers it with everything.
  lemma ReadAllIsWhole(chunking: Chunking, bytes: Bytes, data: Bytes)
    requires data <= bytes && |data| == Amount(chunking, 0, -1, |bytes|)
    ensures data == bytes <==> |bytes| <= 1 || ReadsAll(chunking, |bytes|)
  {
  }
}
