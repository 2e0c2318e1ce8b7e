/** apps/api/src/lib/elf.ts
  *
  * Offsets and lengths are exact integers here. The source reads 64-bit ones into a double first,
  * which rounds only those beyond 2^53, and every such one is past the end of any prefix either way.
  */
module Elf {
  import opened Prelude

  /** `TextDecoder.decode`, of which nothing needs to be known. */
  type Decoder = seq<Byte> -> string

  const ELF_MAGIC: seq<Byte> := [0x7f, 'E' as int, 'L' as int, 'F' as int]
  const ELF_MAGIC_LENGTH := 4

  const ELF_CLASS_AT := 4
  const ELF_CLASS_64: Byte := 2
  const ELF_ENDIANNESS_AT := 5
  const ELF_LITTLE_ENDIAN: Byte := 1
  const ELF_HEADER_BYTES := 0x40
  const MACHINE_AT := 0x12
  const SEGMENT_TABLE_START_AT := 0x20
  const SEGMENT_ENTRY_BYTES_AT := 0x36
  const SEGMENT_COUNT_AT := 0x38
  const SEGMENT_ENTRY_MIN_BYTES := 56
  const SEGMENT_TYPE_INTERPRETER := 3
  const SEGMENT_START_AT := 8
  const SEGMENT_BYTES_AT := 32

  const GUEST_MACHINE := 62
  const GUEST_INTERPRETERS := [
    "/lib64/ld-linux-x86-64.so.2",
    "/usr/lib64/ld-linux-x86-64.so.2",
    "/lib/x86_64-linux-gnu/ld-linux-x86-64.so.2",
    "/usr/lib/x86_64-linux-gnu/ld-linux-x86-64.so.2"]

  predicate HasMagic(bytes: seq<Byte>) {
    ELF_MAGIC <= bytes
  }

  method IsElfExecutable(bytes: seq<Byte>) returns (elf: bool)
    ensures elf <==> HasMagic(bytes)
  {
    for index := 0 to |ELF_MAGIC|
      invariant ELF_MAGIC[..index] <= bytes
    {
      if index >= |bytes| || bytes[index] != ELF_MAGIC[index] {
        return false;
      }
      assert ELF_MAGIC[..index + 1] == ELF_MAGIC[..index] + [ELF_MAGIC[index]];
      assert bytes[..index + 1] == bytes[..index] + [bytes[index]];
    }
    elf := true;
  }

  /** A little-endian number of so many bytes. */
  function Number(bytes: seq<Byte>, at: nat, size: nat): nat
    requires at + size <= |bytes|
    decreases size
  {
    if size == 0 then 0 else bytes[at] as int + 256 * Number(bytes, at + 1, size - 1)
  }

  predicate HasHeader(bytes: seq<Byte>) {
    ELF_HEADER_BYTES <= |bytes| && bytes[ELF_CLASS_AT] == ELF_CLASS_64 && bytes[ELF_ENDIANNESS_AT] == ELF_LITTLE_ENDIAN
  }

  function MachineOf(bytes: seq<Byte>): Option<nat> {
    if HasHeader(bytes) then Some(Number(bytes, MACHINE_AT, 2)) else None
  }

  /** The text up to its first NUL. */
  function UpToNul(text: string): string {
    if text == [] || text[0] == '\0' then [] else [text[0]] + UpToNul(text[1..])
  }

  function EntryAt(start: nat, entryBytes: nat, index: nat): nat {
    start + index * entryBytes
  }

  /** What one segment's entry says: it is past the prefix, it is of another type, or it is of the
    * interpreter's type, and its path is within the prefix or not. */
  datatype Segment = PastEnd | OtherType | Interpreter(path: Option<string>)

  function SegmentAt(bytes: seq<Byte>, decode: Decoder, entry: nat, entryBytes: nat): Segment
    requires entryBytes >= SEGMENT_ENTRY_MIN_BYTES
  {
    if entry + entryBytes > |bytes| then PastEnd
    else if Number(bytes, entry, 4) != SEGMENT_TYPE_INTERPRETER then OtherType
    else
      var from := Number(bytes, entry + SEGMENT_START_AT, 8);
      var length := Number(bytes, entry + SEGMENT_BYTES_AT, 8);
      Interpreter(if from + length > |bytes| then None else Some(UpToNul(decode(bytes[from..from + length]))))
  }

  /** What segments from `index` on say: the first of the interpreter's type is the one that counts. */
  function InterpreterFrom(bytes: seq<Byte>, decode: Decoder, start: nat, entryBytes: nat, count: nat, index: nat)
    : Option<string>
    requires entryBytes >= SEGMENT_ENTRY_MIN_BYTES
    decreases count - index
  {
    if index >= count then None
    else
      match SegmentAt(bytes, decode, EntryAt(start, entryBytes, index), entryBytes)
      case PastEnd => None
      case OtherType => InterpreterFrom(bytes, decode, start, entryBytes, count, index + 1)
      case Interpreter(path) => path
  }

  function InterpreterOf(bytes: seq<Byte>, decode: Decoder): Option<string> {
    if !HasHeader(bytes) || Number(bytes, SEGMENT_ENTRY_BYTES_AT, 2) < SEGMENT_ENTRY_MIN_BYTES then None
    else
      InterpreterFrom(bytes, decode, Number(bytes, SEGMENT_TABLE_START_AT, 8), Number(bytes, SEGMENT_ENTRY_BYTES_AT, 2),
                      Number(bytes, SEGMENT_COUNT_AT, 2), 0)
  }

  /** The body of the loop in `interpreterOf`. */
  method ReadSegment(bytes: seq<Byte>, decode: Decoder, entry: nat, entryBytes: nat) returns (segment: Segment)
    requires entryBytes >= SEGMENT_ENTRY_MIN_BYTES
    ensures segment == SegmentAt(bytes, decode, entry, entryBytes)
  {
    if entry + entryBytes > |bytes| {
      return PastEnd;
    }
    if Number(bytes, entry, 4) != SEGMENT_TYPE_INTERPRETER {
      return OtherType;
    }
    var start := Number(bytes, entry + SEGMENT_START_AT, 8);
    var length := Number(bytes, entry + SEGMENT_BYTES_AT, 8);
    if start + length > |bytes| {
      return Interpreter(None);
    }
    segment := Interpreter(Some(UpToNul(decode(bytes[start..start + length]))));
  }

  method ReadInterpreter(bytes: seq<Byte>, decode: Decoder) returns (interpreter: Option<string>)
    ensures interpreter == InterpreterOf(bytes, decode)
  {
    if !HasHeader(bytes) {
      return None;
    }
    var tableStart := Number(bytes, SEGMENT_TABLE_START_AT, 8);
    var entryBytes := Number(bytes, SEGMENT_ENTRY_BYTES_AT, 2);
    var entryCount := Number(bytes, SEGMENT_COUNT_AT, 2);
    if entryBytes < SEGMENT_ENTRY_MIN_BYTES {
      return None;
    }
    var index := 0;
    ghost var answer := InterpreterFrom(bytes, decode, tableStart, entryBytes, entryCount, 0);
    assert answer == InterpreterOf(bytes, decode);
    while index < entryCount
      invariant answer == InterpreterFrom(bytes, decode, tableStart, entryBytes, entryCount, index)
    {
      var segment := ReadSegment(bytes, decode, EntryAt(tableStart, entryBytes, index), entryBytes);
      match segment
      case PastEnd => return None;
      case OtherType => index := index + 1;
      case Interpreter(path) => return path;
    }
    interpreter := None;
  }

  // ----- What was read from a prefix stands

  lemma {:induction false} NumberStands(bytes: seq<Byte>, rest: seq<Byte>, at: nat, size: nat)
    requires at + size <= |bytes|
    ensures Number(bytes + rest, at, size) == Number(bytes, at, size)
    decreases size
  {
    if size > 0 {
      NumberStands(bytes, rest, at + 1, size - 1);
    }
  }

  lemma MachineStands(bytes: seq<Byte>, rest: seq<Byte>)
    ensures MachineOf(bytes).Some? ==> MachineOf(bytes + rest) == MachineOf(bytes)
  {
    if MachineOf(bytes).Some? {
      NumberStands(bytes, rest, MACHINE_AT, 2);
    }
  }

  /** Whatever an entry says beyond "past the end" it goes on saying. */
  lemma SegmentStands(bytes: seq<Byte>, rest: seq<Byte>, decode: Decoder, entry: nat, entryBytes: nat)
    requires entryBytes >= SEGMENT_ENTRY_MIN_BYTES
    ensures var segment := SegmentAt(bytes, decode, entry, entryBytes);
            segment == OtherType || (segment.Interpreter? && segment.path.Some?) ==>
              SegmentAt(bytes + rest, decode, entry, entryBytes) == segment
  {
    if entry + entryBytes <= |bytes| {
      NumberStands(bytes, rest, entry, 4);
      NumberStands(bytes, rest, entry + SEGMENT_START_AT, 8);
      NumberStands(bytes, rest, entry + SEGMENT_BYTES_AT, 8);
      var from := Number(bytes, entry + SEGMENT_START_AT, 8);
      var length := Number(bytes, entry + SEGMENT_BYTES_AT, 8);
      if from + length <= |bytes| {
        assert (bytes + rest)[from..from + length] == bytes[from..from + length];
      }
    }
  }

  lemma {:induction false} InterpreterFromStands(
    bytes: seq<Byte>, rest: seq<Byte>, decode: Decoder, start: nat, entryBytes: nat, count: nat, index: nat)
    requires entryBytes >= SEGMENT_ENTRY_MIN_BYTES
    requires InterpreterFrom(bytes, decode, start, entryBytes, count, index).Some?
    ensures InterpreterFrom(bytes + rest, decode, start, entryBytes, count, index)
         == InterpreterFrom(bytes, decode, start, entryBytes, count, index)
    decreases count - index
  {
    var entry := EntryAt(start, entryBytes, index);
    SegmentStands(bytes, rest, decode, entry, entryBytes);
    if SegmentAt(bytes, decode, entry, entryBytes) == OtherType {
      InterpreterFromStands(bytes, rest, decode, start, entryBytes, count, index + 1);
    }
  }

  lemma InterpreterStands(bytes: seq<Byte>, rest: seq<Byte>, decode: Decoder)
    ensures InterpreterOf(bytes, decode).Some? ==> InterpreterOf(bytes + rest, decode) == InterpreterOf(bytes, decode)
  {
    if InterpreterOf(bytes, decode).Some? {
      NumberStands(bytes, rest, SEGMENT_TABLE_START_AT, 8);
      NumberStands(bytes, rest, SEGMENT_ENTRY_BYTES_AT, 2);
      NumberStands(bytes, rest, SEGMENT_COUNT_AT, 2);
      InterpreterFromStands(bytes, rest, decode, Number(bytes, SEGMENT_TABLE_START_AT, 8),
                            Number(bytes, SEGMENT_ENTRY_BYTES_AT, 2), Number(bytes, SEGMENT_COUNT_AT, 2), 0);
    }
  }
}
