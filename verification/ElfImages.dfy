/** What is read of an executable, against a writer of executables. */
module ElfImages {
  import opened Prelude
  import opened Elf
  import opened ArtifactDigest

  // ----- The writer: the file header and the program header of a 64-bit ELF file

  function LittleEndian(value: nat, size: nat): (bytes: seq<Byte>)
    ensures |bytes| == size
  {
    if size == 0 then [] else [value % 256] + LittleEndian(value / 256, size - 1)
  }

  /** One program header; the fields nobody reads may hold anything. */
  datatype Entry = Entry(kind: nat, flags: seq<Byte>, start: nat, addresses: seq<Byte>, length: nat, others: seq<Byte>)

  predicate ValidEntry(e: Entry) {
    && e.kind < Power256(4) && e.start < Power256(8) && e.length < Power256(8)
    && |e.flags| == 4 && |e.addresses| == 16 && |e.others| == 16
  }

  function EntryBytes(e: Entry): seq<Byte> {
    LittleEndian(e.kind, 4) + e.flags + LittleEndian(e.start, 8) + e.addresses + LittleEndian(e.length, 8) + e.others
  }

  datatype FileHeader = FileHeader(
    ident: seq<Byte>, kind: seq<Byte>, machine: nat, version: seq<Byte>, tableStart: nat, sections: seq<Byte>,
    entryBytes: nat, entryCount: nat, others: seq<Byte>)

  predicate ValidHeader(h: FileHeader) {
    && h.machine < Power256(2) && h.tableStart < Power256(8) && h.entryBytes < Power256(2) && h.entryCount < Power256(2)
    && |h.ident| == 10 && |h.kind| == 2 && |h.version| == 12 && |h.sections| == 14 && |h.others| == 6
  }

  /** The header of a 64-bit little-endian file. */
  function HeaderBytes(h: FileHeader): seq<Byte> {
    ELF_MAGIC + [2, 1] + h.ident + h.kind + LittleEndian(h.machine, 2) + h.version + LittleEndian(h.tableStart, 8)
    + h.sections + LittleEndian(h.entryBytes, 2) + LittleEndian(h.entryCount, 2) + h.others
  }

  /** The part stands at that place. */
  predicate Lays(bytes: seq<Byte>, at: nat, part: seq<Byte>) {
    at + |part| <= |bytes| && bytes[at..at + |part|] == part
  }

  // ----- Numbers

  /** Little-endian bytes read back as the number, wherever they stand and however many they are. */
  lemma {:induction false} NumberReadsBack(bytes: seq<Byte>, at: nat, value: nat, size: nat)
    requires value < Power256(size) && Lays(bytes, at, LittleEndian(value, size))
    ensures Number(bytes, at, size) == value
    decreases size
  {
    if size > 0 {
      var written := LittleEndian(value, size);
      assert bytes[at] == bytes[at..at + size][0] == value % 256;
      assert bytes[at + 1..at + size] == bytes[at..at + size][1..] == LittleEndian(value / 256, size - 1);
      NumberReadsBack(bytes, at + 1, value / 256, size - 1);
    }
  }

  lemma LaysWithin(bytes: seq<Byte>, at: nat, part: seq<Byte>, before: seq<Byte>, middle: seq<Byte>, after: seq<Byte>)
    requires Lays(bytes, at, part) && part == before + middle + after
    ensures Lays(bytes, at + |before|, middle)
  {
    var from := at + |before|;
    forall k | 0 <= k < |middle|
      ensures bytes[from + k] == middle[k]
    {
      assert bytes[at..at + |part|][|before| + k] == part[|before| + k] == middle[k];
    }
    assert bytes[from..from + |middle|] == middle;
  }

  // ----- One program header

  lemma EntryReadsBack(bytes: seq<Byte>, at: nat, e: Entry)
    requires ValidEntry(e) && Lays(bytes, at, EntryBytes(e))
    ensures at + SEGMENT_ENTRY_MIN_BYTES <= |bytes|
    ensures Number(bytes, at, 4) == e.kind
    ensures Number(bytes, at + SEGMENT_START_AT, 8) == e.start
    ensures Number(bytes, at + SEGMENT_BYTES_AT, 8) == e.length
  {
    var kind, start, length := LittleEndian(e.kind, 4), LittleEndian(e.start, 8), LittleEndian(e.length, 8);
    var part := EntryBytes(e);
    assert part == [] + kind + (e.flags + start + e.addresses + length + e.others);
    LaysWithin(bytes, at, part, [], kind, e.flags + start + e.addresses + length + e.others);
    assert part == (kind + e.flags) + start + (e.addresses + length + e.others);
    LaysWithin(bytes, at, part, kind + e.flags, start, e.addresses + length + e.others);
    assert part == (kind + e.flags + start + e.addresses) + length + e.others;
    LaysWithin(bytes, at, part, kind + e.flags + start + e.addresses, length, e.others);
    NumberReadsBack(bytes, at, e.kind, 4);
    NumberReadsBack(bytes, at + 8, e.start, 8);
    NumberReadsBack(bytes, at + 32, e.length, 8);
  }

  /** The table has an entry of the interpreter's type exactly when its kind is 3, and its path is what stands at
    * the place it names. */
  lemma SegmentReadsBack(bytes: seq<Byte>, decode: Decoder, at: nat, entryBytes: nat, e: Entry)
    requires ValidEntry(e) && Lays(bytes, at, EntryBytes(e))
    requires SEGMENT_ENTRY_MIN_BYTES <= entryBytes && at + entryBytes <= |bytes|
    ensures SegmentAt(bytes, decode, at, entryBytes) ==
      if e.kind != 3 then OtherType
      else if e.start + e.length > |bytes| then Interpreter(None)
      else Interpreter(Some(UpToNul(decode(bytes[e.start..e.start + e.length]))))
  {
    EntryReadsBack(bytes, at, e);
  }

  // ----- The file's header

  lemma FieldReadsBack(bytes: seq<Byte>, part: seq<Byte>, before: seq<Byte>, value: nat, size: nat, after: seq<Byte>)
    requires Lays(bytes, 0, part) && value < Power256(size)
    requires part == before + LittleEndian(value, size) + after
    ensures |before| + size <= |bytes| && Number(bytes, |before|, size) == value
  {
    LaysWithin(bytes, 0, part, before, LittleEndian(value, size), after);
    NumberReadsBack(bytes, |before|, value, size);
  }

  lemma HeaderReadsBack(bytes: seq<Byte>, h: FileHeader)
    requires ValidHeader(h) && Lays(bytes, 0, HeaderBytes(h))
    ensures HasMagic(bytes) && HasHeader(bytes)
    ensures Number(bytes, MACHINE_AT, 2) == h.machine
    ensures Number(bytes, SEGMENT_TABLE_START_AT, 8) == h.tableStart
    ensures Number(bytes, SEGMENT_ENTRY_BYTES_AT, 2) == h.entryBytes
    ensures Number(bytes, SEGMENT_COUNT_AT, 2) == h.entryCount
  {
    var part := HeaderBytes(h);
    var machine, table := LittleEndian(h.machine, 2), LittleEndian(h.tableStart, 8);
    var size, count := LittleEndian(h.entryBytes, 2), LittleEndian(h.entryCount, 2);
    var first := ELF_MAGIC + [2, 1] + h.ident + h.kind;
    var second := first + machine + h.version;
    var third := second + table + h.sections;
    HeaderSplits(first, machine, h.version, table, h.sections, size, count, h.others);
    FieldReadsBack(bytes, part, first, h.machine, 2, h.version + table + h.sections + size + count + h.others);
    FieldReadsBack(bytes, part, second, h.tableStart, 8, h.sections + size + count + h.others);
    FieldReadsBack(bytes, part, third, h.entryBytes, 2, count + h.others);
    FieldReadsBack(bytes, part, third + size, h.entryCount, 2, h.others);
    HeaderMarks(h);
    MarksStand(bytes, part);
  }

  lemma HeaderSplits(
    a: seq<Byte>, b: seq<Byte>, c: seq<Byte>, d: seq<Byte>, e: seq<Byte>, f: seq<Byte>, g: seq<Byte>, z: seq<Byte>)
    ensures var part := a + b + c + d + e + f + g + z;
            && part == a + b + (c + d + e + f + g + z)
            && part == (a + b + c) + d + (e + f + g + z)
            && part == (a + b + c + d + e) + f + (g + z)
  {
  }

  lemma HeaderMarks(h: FileHeader)
    requires ValidHeader(h)
    ensures |HeaderBytes(h)| == 64
    ensures HeaderBytes(h)[..4] == ELF_MAGIC && HeaderBytes(h)[4] == 2 && HeaderBytes(h)[5] == 1
  {
    var front := ELF_MAGIC + [2, 1];
    assert front[..4] == ELF_MAGIC;
  }

  lemma MarksStand(bytes: seq<Byte>, part: seq<Byte>)
    requires Lays(bytes, 0, part) && |part| == ELF_HEADER_BYTES && part[..4] == ELF_MAGIC && part[4] == 2 && part[5] == 1
    ensures HasMagic(bytes) && HasHeader(bytes)
  {
    assert bytes[..|part|] == part;
    assert bytes[..4] == bytes[..|part|][..4];
    assert bytes[4] == bytes[..|part|][4] && bytes[5] == bytes[..|part|][5];
  }

  /** The machine is the one the header was written for. */
  lemma MachineReadsBack(bytes: seq<Byte>, h: FileHeader)
    requires ValidHeader(h) && Lays(bytes, 0, HeaderBytes(h))
    ensures MachineOf(bytes) == Some(h.machine)
  {
    HeaderReadsBack(bytes, h);
  }

  // ----- Files

  /** A header, and the table it names, wherever that stands. */
  predicate IsImage(bytes: seq<Byte>, h: FileHeader, table: seq<Entry>) {
    && ValidHeader(h) && Lays(bytes, 0, HeaderBytes(h))
    && h.entryBytes >= SEGMENT_ENTRY_MIN_BYTES && h.entryCount == |table|
    && forall i | 0 <= i < |table| ::
         && ValidEntry(table[i]) && Lays(bytes, EntryAt(h.tableStart, h.entryBytes, i), EntryBytes(table[i]))
         && EntryAt(h.tableStart, h.entryBytes, i) + h.entryBytes <= |bytes|
  }

  /** The path of the first entry of the interpreter's type from `index` on. */
  function FirstPath(bytes: seq<Byte>, decode: Decoder, table: seq<Entry>, index: nat): Option<string>
    requires index <= |table|
    decreases |table| - index
  {
    if index == |table| then None
    else if table[index].kind != 3 then FirstPath(bytes, decode, table, index + 1)
    else if table[index].start + table[index].length > |bytes| then None
    else Some(UpToNul(decode(bytes[table[index].start..table[index].start + table[index].length])))
  }

  lemma {:induction false} TableReadsBack(bytes: seq<Byte>, decode: Decoder, h: FileHeader, table: seq<Entry>, index: nat)
    requires IsImage(bytes, h, table) && index <= |table|
    ensures InterpreterFrom(bytes, decode, h.tableStart, h.entryBytes, h.entryCount, index) == FirstPath(bytes, decode, table, index)
    decreases |table| - index
  {
    if index < |table| {
      SegmentReadsBack(bytes, decode, EntryAt(h.tableStart, h.entryBytes, index), h.entryBytes, table[index]);
      if table[index].kind != 3 {
        TableReadsBack(bytes, decode, h, table, index + 1);
      }
    }
  }

  lemma {:induction false} FirstPathIs(bytes: seq<Byte>, decode: Decoder, table: seq<Entry>, index: nat, k: nat)
    requires index <= k < |table| && table[k].kind == 3 && forall i | index <= i < k :: table[i].kind != 3
    requires table[k].start + table[k].length <= |bytes|
    ensures FirstPath(bytes, decode, table, index)
         == Some(UpToNul(decode(bytes[table[k].start..table[k].start + table[k].length])))
    decreases k - index
  {
    if index < k {
      FirstPathIs(bytes, decode, table, index + 1, k);
    }
  }

  lemma {:induction false} NoPath(bytes: seq<Byte>, decode: Decoder, table: seq<Entry>, index: nat)
    requires index <= |table| && forall i | index <= i < |table| :: table[i].kind != 3
    ensures FirstPath(bytes, decode, table, index) == None
    decreases |table| - index
  {
    if index < |table| {
      NoPath(bytes, decode, table, index + 1);
    }
  }

  lemma {:induction false} NulEnds(name: string, rest: string)
    requires '\0' !in name && (rest == "" || rest[0] == '\0')
    ensures UpToNul(name + rest) == name
  {
    if name == [] {
      assert name + rest == rest;
    } else {
      assert (name + rest)[1..] == name[1..] + rest;
      NulEnds(name[1..], rest);
    }
  }

  /** The interpreter of a file is the name that its first entry of that type points to, up to its NUL. */
  lemma InterpreterReadsBack(
    bytes: seq<Byte>, decode: Decoder, h: FileHeader, table: seq<Entry>, k: nat, path: seq<Byte>, name: string, rest: string)
    requires IsImage(bytes, h, table)
    requires k < |table| && table[k].kind == 3 && forall i | 0 <= i < k :: table[i].kind != 3
    requires Lays(bytes, table[k].start, path) && |path| == table[k].length
    requires decode(path) == name + rest && '\0' !in name && (rest == "" || rest[0] == '\0')
    ensures InterpreterOf(bytes, decode) == Some(name)
  {
    HeaderReadsBack(bytes, h);
    TableReadsBack(bytes, decode, h, table, 0);
    FirstPathIs(bytes, decode, table, 0, k);
    NulEnds(name, rest);
  }

  /** A file none of whose entries is of that type names none. */
  lemma StaticReadsBack(bytes: seq<Byte>, decode: Decoder, h: FileHeader, table: seq<Entry>)
    requires IsImage(bytes, h, table) && forall i | 0 <= i < |table| :: table[i].kind != 3
    ensures InterpreterOf(bytes, decode) == None
  {
    HeaderReadsBack(bytes, h);
    TableReadsBack(bytes, decode, h, table, 0);
    NoPath(bytes, decode, table, 0);
  }

  /** A header, its table right behind it, a path and whatever else. */
  function Table(table: seq<Entry>): seq<Byte> {
    if table == [] then [] else Table(table[..|table| - 1]) + EntryBytes(table[|table| - 1])
  }

  function Image(h: FileHeader, table: seq<Entry>, path: seq<Byte>, rest: seq<Byte>): seq<Byte> {
    HeaderBytes(h) + Table(table) + path + rest
  }

  lemma {:induction false} TableLays(table: seq<Entry>, i: nat)
    requires i < |table| && forall j | 0 <= j < |table| :: ValidEntry(table[j])
    ensures |Table(table)| == 56 * |table| && Lays(Table(table), 56 * i, EntryBytes(table[i]))
  {
    var last := |table| - 1;
    var front := Table(table[..last]);
    TableSize(table[..last]);
    if i < last {
      TableLays(table[..last], i);
      assert Table(table)[56 * i..56 * i + 56] == front[56 * i..56 * i + 56];
    }
  }

  lemma {:induction false} TableSize(table: seq<Entry>)
    requires forall j | 0 <= j < |table| :: ValidEntry(table[j])
    ensures |Table(table)| == 56 * |table|
  {
    if table != [] {
      TableSize(table[..|table| - 1]);
    }
  }

  /** What is written so is an image. */
  lemma ImageIsOne(h: FileHeader, table: seq<Entry>, path: seq<Byte>, rest: seq<Byte>)
    requires ValidHeader(h) && h.tableStart == 64 && h.entryBytes == 56 && h.entryCount == |table|
    requires forall j | 0 <= j < |table| :: ValidEntry(table[j])
    ensures IsImage(Image(h, table, path, rest), h, table)
    ensures Lays(Image(h, table, path, rest), 64 + 56 * |table|, path)
  {
    var bytes, header, entries := Image(h, table, path, rest), HeaderBytes(h), Table(table);
    TableSize(table);
    HeaderMarks(h);
    ImageParts(bytes, header, entries, path, rest);
    forall i | 0 <= i < |table|
      ensures Lays(bytes, EntryAt(64, 56, i), EntryBytes(table[i])) && EntryAt(64, 56, i) + 56 <= |bytes|
    {
      TableLays(table, i);
      LaysInside(bytes, 64, entries, 56 * i, EntryBytes(table[i]));
    }
  }

  lemma ImageParts(bytes: seq<Byte>, header: seq<Byte>, entries: seq<Byte>, path: seq<Byte>, rest: seq<Byte>)
    requires bytes == header + entries + path + rest
    ensures Lays(bytes, 0, header) && Lays(bytes, |header|, entries) && Lays(bytes, |header| + |entries|, path)
  {
  }

  lemma LaysInside(bytes: seq<Byte>, at: nat, part: seq<Byte>, inner: nat, piece: seq<Byte>)
    requires Lays(bytes, at, part) && Lays(part, inner, piece)
    ensures Lays(bytes, at + inner, piece)
  {
    assert part == part[..inner] + piece + part[inner + |piece|..];
    LaysWithin(bytes, at, part, part[..inner], piece, part[inner + |piece|..]);
  }

  // ----- The verdict on such a file

  /** An upload whose first 64 KiB hold its header, its table and its interpreter's path is judged by what it was
    * written with: the machine first, then the interpreter, then its size. */
  lemma DynamicVerdict(
    bytes: seq<Byte>, maxSizeBytes: int, digest: Digest, decode: Decoder, h: FileHeader, table: seq<Entry>, k: nat,
    path: seq<Byte>, name: string, rest: string)
    requires IsImage(Header(bytes), h, table)
    requires k < |table| && table[k].kind == 3 && forall i | 0 <= i < k :: table[i].kind != 3
    requires Lays(Header(bytes), table[k].start, path) && |path| == table[k].length
    requires decode(path) == name + rest && '\0' !in name && (rest == "" || rest[0] == '\0')
    ensures Whole(bytes, maxSizeBytes, digest, decode) ==
      if h.machine != 62 then UnsupportedMachine(h.machine)
      else if name !in ["/lib64/ld-linux-x86-64.so.2", "/usr/lib64/ld-linux-x86-64.so.2",
                        "/lib/x86_64-linux-gnu/ld-linux-x86-64.so.2", "/usr/lib/x86_64-linux-gnu/ld-linux-x86-64.so.2"]
      then UnsupportedInterpreter(name)
      else if |bytes| > maxSizeBytes then TooLarge
      else Stored(digest(bytes), |bytes|)
  {
    MachineReadsBack(Header(bytes), h);
    InterpreterReadsBack(Header(bytes), decode, h, table, k, path, name, rest);
    MagicOfWhole(bytes, h);
  }

  /** A static one is judged by its machine and its size. */
  lemma StaticVerdict(bytes: seq<Byte>, maxSizeBytes: int, digest: Digest, decode: Decoder, h: FileHeader, table: seq<Entry>)
    requires IsImage(Header(bytes), h, table) && forall i | 0 <= i < |table| :: table[i].kind != 3
    ensures Whole(bytes, maxSizeBytes, digest, decode) ==
      if h.machine != 62 then UnsupportedMachine(h.machine)
      else if |bytes| > maxSizeBytes then TooLarge
      else Stored(digest(bytes), |bytes|)
  {
    MachineReadsBack(Header(bytes), h);
    StaticReadsBack(Header(bytes), decode, h, table);
    MagicOfWhole(bytes, h);
  }

  lemma MagicOfWhole(bytes: seq<Byte>, h: FileHeader)
    requires ValidHeader(h) && Lays(Header(bytes), 0, HeaderBytes(h))
    ensures HasMagic(bytes)
  {
    HeaderReadsBack(Header(bytes), h);
    assert Header(bytes)[..4] == bytes[..4];
  }

  /** And an upload is no executable at all exactly if it does not begin with 7F 45 4C 46. */
  lemma NotExecutableVerdict(bytes: seq<Byte>, maxSizeBytes: int, digest: Digest, decode: Decoder)
    ensures Whole(bytes, maxSizeBytes, digest, decode) == NotExecutable <==> !([0x7f, 0x45, 0x4c, 0x46] <= bytes)
  {
    assert ELF_MAGIC == [0x7f, 0x45, 0x4c, 0x46];
  }
}
