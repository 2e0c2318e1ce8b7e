/** apps/api/src/lib/artifact-digest.ts
  *
  * An artifact is inspected a chunk at a time. Its digest is some function of all bytes the hasher
  * was given.
  */
module ArtifactDigest {
  import opened Prelude
  import opened Elf

  const HEADER_BYTES := 65_536

  type Digest = seq<Byte> -> string

  datatype Inspection =
    | Stored(digest: string, sizeBytes: nat)
    | NotExecutable
    | UnsupportedMachine(machine: nat)
    | UnsupportedInterpreter(interpreter: string)
    | TooLarge

  function RefuseMachine(bytes: seq<Byte>): Option<Inspection> {
    match MachineOf(bytes)
    case Some(machine) => if machine != GUEST_MACHINE then Some(UnsupportedMachine(machine)) else None
    case None => None
  }

  function RefuseInterpreter(bytes: seq<Byte>, decode: Decoder): Option<Inspection> {
    match InterpreterOf(bytes, decode)
    case Some(path) => if path !in GUEST_INTERPRETERS then Some(UnsupportedInterpreter(path)) else None
    case None => None
  }

  function RefuseHeader(bytes: seq<Byte>, decode: Decoder): Option<Inspection> {
    if RefuseMachine(bytes).Some? then RefuseMachine(bytes) else RefuseInterpreter(bytes, decode)
  }

  /** The part of the bytes that is kept for reading headers. */
  function Header(bytes: seq<Byte>): seq<Byte> {
    bytes[..Min(|bytes|, HEADER_BYTES)]
  }

  // ----- The verdict on an artifact as a whole

  function Whole(bytes: seq<Byte>, maxSizeBytes: int, digest: Digest, decode: Decoder): Inspection {
    var refusal := RefuseHeader(Header(bytes), decode);
    if !HasMagic(bytes) then NotExecutable
    else if refusal.Some? then refusal.value
    else if |bytes| > maxSizeBytes then TooLarge
    else Stored(digest(bytes), |bytes|)
  }

  // ----- The verdict made a chunk at a time

  /** What a chunk settles, behind the bytes read before it. */
  function Settled(before: seq<Byte>, chunk: seq<Byte>, maxSizeBytes: int, decode: Decoder): Option<Inspection> {
    var read := before + chunk;
    var justFilled := |before| < HEADER_BYTES <= |read|;
    if |read| >= ELF_MAGIC_LENGTH && !HasMagic(read) then Some(NotExecutable)
    else if justFilled && RefuseHeader(Header(read), decode).Some? then RefuseHeader(Header(read), decode)
    else if |read| > maxSizeBytes then Some(TooLarge)
    else None
  }

  function Final(read: seq<Byte>, digest: Digest, decode: Decoder): Inspection {
    if !HasMagic(read) then NotExecutable
    else if |read| < HEADER_BYTES && RefuseHeader(read, decode).Some? then RefuseHeader(read, decode).value
    else Stored(digest(read), |read|)
  }

  function Streamed(before: seq<Byte>, chunks: seq<seq<Byte>>, maxSizeBytes: int, digest: Digest, decode: Decoder): Inspection
    decreases |chunks|
  {
    if chunks == [] then Final(before, digest, decode)
    else
      match Settled(before, chunks[0], maxSizeBytes, decode)
      case Some(refusal) => refusal
      case None => Streamed(before + chunks[0], chunks[1..], maxSizeBytes, digest, decode)
  }

  class Reading {
    const maxSizeBytes: int
    const header: array<Byte>
    var headerLength: nat
    var sizeBytes: nat
    var hashed: seq<Byte>

    /** Everything taken so far was hashed and counted, and its beginning is in the header. */
    ghost predicate Read(bytes: seq<Byte>)
      reads this, header
    {
      && header.Length == HEADER_BYTES && headerLength == Min(|bytes|, HEADER_BYTES)
      && header[..headerLength] == bytes[..headerLength] && sizeBytes == |bytes| && hashed == bytes
    }

    constructor (maxSizeBytes: int)
      ensures Read([]) && fresh(header) && this.maxSizeBytes == maxSizeBytes
    {
      this.maxSizeBytes := maxSizeBytes;
      header := new Byte[HEADER_BYTES](_ => 0);
      headerLength, sizeBytes, hashed := 0, 0, [];
    }

    method RefuseChunk(headerJustFilled: bool, decode: Decoder) returns (refusal: Option<Inspection>)
      requires headerLength <= header.Length == HEADER_BYTES && (headerJustFilled ==> headerLength == HEADER_BYTES)
      ensures refusal ==
        if headerLength >= ELF_MAGIC_LENGTH && !HasMagic(header[..]) then Some(NotExecutable)
        else if headerJustFilled && RefuseHeader(header[..], decode).Some? then RefuseHeader(header[..], decode)
        else if sizeBytes > maxSizeBytes then Some(TooLarge)
        else None
    {
      var elf := IsElfExecutable(header[..]);
      if headerLength >= ELF_MAGIC_LENGTH && !elf {
        return Some(NotExecutable);
      }
      if headerJustFilled {
        refusal := RefuseHeader(header[..], decode);
        if refusal.Some? {
          return;
        }
      }
      refusal := if sizeBytes > maxSizeBytes then Some(TooLarge) else None;
    }

    method Take(chunk: seq<Byte>, decode: Decoder, ghost before: seq<Byte>) returns (refusal: Option<Inspection>)
      requires Read(before)
      modifies this, header
      ensures refusal == Settled(before, chunk, maxSizeBytes, decode)
      ensures refusal.None? ==> Read(before + chunk)
    {
      ghost var read := before + chunk;
      var wasComplete := headerLength == HEADER_BYTES;
      if !wasComplete {
        var taken := Min(|chunk|, HEADER_BYTES - headerLength);
        forall i | 0 <= i < taken {
          header[headerLength + i] := chunk[i];
        }
        headerLength := headerLength + taken;
      }
      sizeBytes := sizeBytes + |chunk|;
      assert header[..headerLength] == read[..headerLength];
      MagicInHeader(header[..], read, headerLength);
      assert headerLength == HEADER_BYTES ==> header[..] == Header(read);
      refusal := RefuseChunk(!wasComplete && headerLength == HEADER_BYTES, decode);
      if refusal.None? {
        hashed := hashed + chunk;
      }
    }

    method Verdict(digest: Digest, decode: Decoder, ghost read: seq<Byte>) returns (inspection: Inspection)
      requires Read(read)
      ensures inspection == Final(read, digest, decode)
    {
      var beginning := header[..headerLength];
      var elf := IsElfExecutable(beginning);
      MagicInHeader(beginning, read, headerLength);
      if !elf {
        return NotExecutable;
      }
      if headerLength < HEADER_BYTES {
        assert beginning == read;
        var refusal := RefuseHeader(beginning, decode);
        if refusal.Some? {
          return refusal.value;
        }
      }
      inspection := Stored(digest(hashed), sizeBytes);
    }
  }

  /** The magic is in the header as soon as it is in the bytes. */
  lemma MagicInHeader(header: seq<Byte>, read: seq<Byte>, n: nat)
    requires n == Min(|read|, HEADER_BYTES) <= |header| && header[..n] == read[..n]
    ensures n >= ELF_MAGIC_LENGTH ==> (HasMagic(header) <==> HasMagic(read))
    ensures |header| == n ==> (HasMagic(header) <==> HasMagic(read))
  {
    if n >= ELF_MAGIC_LENGTH {
      assert header[..ELF_MAGIC_LENGTH] == header[..n][..ELF_MAGIC_LENGTH] == read[..ELF_MAGIC_LENGTH];
    }
  }

  /** `inspectArtifact`. */
  method InspectArtifact(chunks: seq<seq<Byte>>, maxSizeBytes: int, digest: Digest, decode: Decoder)
    returns (inspection: Inspection)
    ensures inspection == Streamed([], chunks, maxSizeBytes, digest, decode)
  {
    var reading := new Reading(maxSizeBytes);
    ghost var read: seq<Byte> := [];
    for index := 0 to |chunks|
      invariant reading.Read(read) && reading.maxSizeBytes == maxSizeBytes && fresh(reading) && fresh(reading.header)
      invariant Streamed([], chunks, maxSizeBytes, digest, decode)
             == Streamed(read, chunks[index..], maxSizeBytes, digest, decode)
    {
      var refusal := reading.Take(chunks[index], decode, read);
      assert chunks[index..][1..] == chunks[index + 1..];
      if refusal.Some? {
        return refusal.value;
      }
      read := read + chunks[index];
    }
    inspection := reading.Verdict(digest, decode, read);
  }

  // ----- How the bytes were cut does not matter

  function Concatenated(chunks: seq<seq<Byte>>): seq<Byte> {
    if chunks == [] then [] else chunks[0] + Concatenated(chunks[1..])
  }

  /** Nothing settled so far. */
  predicate Open(read: seq<Byte>, maxSizeBytes: int, decode: Decoder) {
    && (|read| >= ELF_MAGIC_LENGTH ==> HasMagic(read))
    && (|read| >= HEADER_BYTES ==> RefuseHeader(Header(read), decode).None?)
    && |read| <= maxSizeBytes
  }

  lemma BeginningStands(read: seq<Byte>, rest: seq<Byte>)
    ensures |read| >= ELF_MAGIC_LENGTH ==> (HasMagic(read + rest) <==> HasMagic(read))
    ensures |read| >= HEADER_BYTES ==> Header(read + rest) == Header(read)
  {
    if |read| >= ELF_MAGIC_LENGTH {
      assert (read + rest)[..ELF_MAGIC_LENGTH] == read[..ELF_MAGIC_LENGTH];
    }
  }

  lemma SettledIsWhole(before: seq<Byte>, chunk: seq<Byte>, rest: seq<Byte>, maxSizeBytes: int, digest: Digest, decode: Decoder)
    requires maxSizeBytes >= HEADER_BYTES - 1 && Open(before, maxSizeBytes, decode)
    ensures match Settled(before, chunk, maxSizeBytes, decode)
            case Some(refusal) => refusal == Whole(before + chunk + rest, maxSizeBytes, digest, decode)
            case None => Open(before + chunk, maxSizeBytes, decode)
  {
    BeginningStands(before + chunk, rest);
    BeginningStands(before, chunk);
  }

  lemma {:induction false} StreamedIsWhole(
    before: seq<Byte>, chunks: seq<seq<Byte>>, maxSizeBytes: int, digest: Digest, decode: Decoder)
    requires maxSizeBytes >= HEADER_BYTES - 1 && Open(before, maxSizeBytes, decode)
    ensures Streamed(before, chunks, maxSizeBytes, digest, decode)
         == Whole(before + Concatenated(chunks), maxSizeBytes, digest, decode)
    decreases |chunks|
  {
    if chunks == [] {
      assert before + Concatenated(chunks) == before;
      assert |before| < HEADER_BYTES ==> Header(before) == before;
    } else {
      SettledIsWhole(before, chunks[0], Concatenated(chunks[1..]), maxSizeBytes, digest, decode);
      assert before + chunks[0] + Concatenated(chunks[1..]) == before + Concatenated(chunks);
      if Settled(before, chunks[0], maxSizeBytes, decode).None? {
        StreamedIsWhole(before + chunks[0], chunks[1..], maxSizeBytes, digest, decode);
      }
    }
  }

  /** An x86-64 ELF header that names a machine of another kind. */
  function Foreign(size: nat): seq<Byte>
    requires size >= ELF_HEADER_BYTES
  {
    ELF_MAGIC + [ELF_CLASS_64, ELF_LITTLE_ENDIAN] + seq(size - 6, i => 0 as Byte)
  }

  /** Under a smaller cap one artifact has two verdicts, depending on where it is cut. */
  lemma CutMatters(maxSizeBytes: int, digest: Digest, decode: Decoder)
    requires maxSizeBytes < HEADER_BYTES - 1
    ensures var bytes := Foreign(HEADER_BYTES);
            && Streamed([], [bytes], maxSizeBytes, digest, decode) == UnsupportedMachine(0)
            && Streamed([], [bytes[..HEADER_BYTES - 1], bytes[HEADER_BYTES - 1..]], maxSizeBytes, digest, decode) == TooLarge
  {
    var bytes := Foreign(HEADER_BYTES);
    assert [] + bytes == bytes;
    assert Header(bytes) == bytes;
    assert bytes[MACHINE_AT] == 0 && bytes[MACHINE_AT + 1] == 0;
    assert Number(bytes, MACHINE_AT + 1, 1) == 0;
    var first := bytes[..HEADER_BYTES - 1];
    assert [] + first == first;
    assert first[..ELF_MAGIC_LENGTH] == bytes[..ELF_MAGIC_LENGTH] == ELF_MAGIC;
  }

  lemma JoinedOne(chunk: seq<Byte>)
    ensures Concatenated([chunk]) == chunk
  {
    assert [chunk][1..] == [];
    assert chunk + [] == chunk;
  }

  /** The verdict depends on the bytes alone exactly when the cap is no smaller than the header less one
    * byte; and then it is the verdict on the whole. */
  lemma ChunksDoNotMatter(maxSizeBytes: int, digest: Digest, decode: Decoder)
    ensures maxSizeBytes >= HEADER_BYTES - 1 <==>
      forall a, b :: Concatenated(a) == Concatenated(b) ==>
        Streamed([], a, maxSizeBytes, digest, decode) == Streamed([], b, maxSizeBytes, digest, decode)
    ensures maxSizeBytes >= HEADER_BYTES - 1 ==>
      forall chunks :: Streamed([], chunks, maxSizeBytes, digest, decode) == Whole(Concatenated(chunks), maxSizeBytes, digest, decode)
  {
    if maxSizeBytes >= HEADER_BYTES - 1 {
      forall chunks
        ensures Streamed([], chunks, maxSizeBytes, digest, decode) == Whole(Concatenated(chunks), maxSizeBytes, digest, decode)
      {
        StreamedIsWhole([], chunks, maxSizeBytes, digest, decode);
        assert [] + Concatenated(chunks) == Concatenated(chunks);
      }
    } else {
      CutMatters(maxSizeBytes, digest, decode);
      var bytes := Foreign(HEADER_BYTES);
      var first, last := bytes[..HEADER_BYTES - 1], bytes[HEADER_BYTES - 1..];
      JoinedOne(bytes);
      JoinedOne(last);
      assert [first, last][1..] == [last];
      assert Concatenated([first, last]) == first + last == bytes;
    }
  }

  /** `inspectingPassThrough`: what is handed on is everything up to the chunk that was refused, and the
    * inspection is that of reading alone. */
  method PassThrough(chunks: seq<seq<Byte>>, maxSizeBytes: int, digest: Digest, decode: Decoder)
    returns (passed: seq<seq<Byte>>, inspection: Inspection)
    ensures inspection == Streamed([], chunks, maxSizeBytes, digest, decode)
    ensures passed <= chunks && (inspection.Stored? ==> passed == chunks)
    ensures |Concatenated(passed)| <= maxSizeBytes || passed == []
  {
    var reading := new Reading(maxSizeBytes);
    ghost var read: seq<Byte> := [];
    passed := [];
    for index := 0 to |chunks|
      invariant reading.Read(read) && reading.maxSizeBytes == maxSizeBytes && fresh(reading) && fresh(reading.header)
      invariant passed == chunks[..index] && read == Concatenated(passed)
      invariant |read| <= maxSizeBytes || passed == []
      invariant Streamed([], chunks, maxSizeBytes, digest, decode)
             == Streamed(read, chunks[index..], maxSizeBytes, digest, decode)
    {
      var refusal := reading.Take(chunks[index], decode, read);
      assert chunks[index..][1..] == chunks[index + 1..];
      if refusal.Some? {
        return passed, refusal.value;
      }
      JoinedWith(passed, chunks[index]);
      read := read + chunks[index];
      passed := passed + [chunks[index]];
    }
    inspection := reading.Verdict(digest, decode, read);
  }

  lemma {:induction false} JoinedWith(chunks: seq<seq<Byte>>, chunk: seq<Byte>)
    ensures Concatenated(chunks + [chunk]) == Concatenated(chunks) + chunk
  {
    if chunks == [] {
      assert [chunk][1..] == [];
    } else {
      JoinedWith(chunks[1..], chunk);
      assert (chunks + [chunk])[1..] == chunks[1..] + [chunk];
    }
  }
}
