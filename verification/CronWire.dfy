/** The body of a RUN frame: apps/runtime/src/guest-cron.h, and its encoder in
  * apps/agent/src/lib/cron/execution-protocol.ts.
  */
module CronWire {
  import opened Prelude

  const CRON_MAX_COMMAND_BYTES := 16_384
  const CRON_MAX_ENVIRONMENT_VARIABLES := 256
  const CRONTAB_MAX_BYTES := 65_536
  const GUEST_CRON_REQUEST_MAX_BYTES := CRONTAB_MAX_BYTES + (CRON_MAX_ENVIRONMENT_VARIABLES + 2) * 4
  const UINT32 := 0x1_0000_0000

  datatype Request = Request(command: seq<Byte>, environment: seq<seq<Byte>>)

  // ----- Numbers

  /** `read_u32`. */
  function ReadU32(bytes: seq<Byte>, at: nat): (value: nat)
    requires at + 4 <= |bytes|
    ensures value < UINT32
  {
    bytes[at] as int * 0x100_0000 + bytes[at + 1] as int * 0x1_0000 + bytes[at + 2] as int * 0x100 + bytes[at + 3]
  }

  /** `write_u32`. */
  function U32(value: nat): (bytes: seq<Byte>)
    requires value < UINT32
    ensures |bytes| == 4
  {
    [value / 0x100_0000, value / 0x1_0000 % 0x100, value / 0x100 % 0x100, value % 0x100]
  }

  lemma DigitsOfSum(a: Byte, b: Byte, c: Byte, d: Byte)
    ensures var value := a as int * 0x100_0000 + b as int * 0x1_0000 + c as int * 0x100 + d;
            value / 0x100_0000 == a && value / 0x1_0000 % 0x100 == b && value / 0x100 % 0x100 == c && value % 0x100 == d
  {
    var upper := a as int * 0x100 + b;
    var value := upper * 0x1_0000 + c as int * 0x100 + d;
    assert value / 0x1_0000 == upper;
    assert value / 0x100 == upper * 0x100 + c;
  }

  lemma SumOfDigits(value: nat)
    requires value < UINT32
    ensures value / 0x100_0000 * 0x100_0000 + value / 0x1_0000 % 0x100 * 0x1_0000 + value / 0x100 % 0x100 * 0x100
            + value % 0x100 == value
  {
    assert value / 0x1_0000 / 0x100 == value / 0x100_0000;
    assert value / 0x100 / 0x100 == value / 0x1_0000;
  }

  lemma NumbersRoundTrip(bytes: seq<Byte>, at: nat, value: nat)
    requires at + 4 <= |bytes| && value < UINT32
    ensures bytes[at..at + 4] == U32(value) <==> ReadU32(bytes, at) == value
  {
    var four := bytes[at..at + 4];
    assert four == [bytes[at], bytes[at + 1], bytes[at + 2], bytes[at + 3]];
    DigitsOfSum(bytes[at], bytes[at + 1], bytes[at + 2], bytes[at + 3]);
    SumOfDigits(value);
  }

  /** The byte order of the frame is that of the network. */
  lemma NumbersAreBigEndian(bytes: seq<Byte>, at: nat)
    requires at + 4 <= |bytes|
    ensures ReadU32(bytes, at) == BigEndian(bytes[at..at + 4])
  {
    var four := bytes[at..at + 4];
    assert four[..1][..0] == [] && four[..2][..1] == four[..1] && four[..3][..2] == four[..2];
    assert BigEndian(four[..1]) == four[0];
    assert BigEndian(four[..2]) == 256 * four[0] as int + four[1];
    assert BigEndian(four[..3]) == 256 * (256 * four[0] as int + four[1]) + four[2];
  }

  // ----- What is a request

  predicate NameByte(b: Byte, first: bool) {
    'a' as int <= b <= 'z' as int || 'A' as int <= b <= 'Z' as int || b == '_' as int
    || (!first && '0' as int <= b <= '9' as int)
  }

  const EQUALS: Byte := '=' as int

  /** NAME=value, with a name of letters, digits and underscores that does not start with a digit. */
  ghost predicate IsEntry(entry: seq<Byte>) {
    exists n :: 0 < n < |entry| && entry[n] == EQUALS && forall k | 0 <= k < n :: NameByte(entry[k], k == 0)
  }

  ghost predicate ValidEntry(entry: seq<Byte>) {
    0 !in entry && IsEntry(entry)
  }

  ghost predicate ValidRequest(request: Request) {
    && 0 < |request.command| <= CRON_MAX_COMMAND_BYTES && 0 !in request.command
    && |request.environment| <= CRON_MAX_ENVIRONMENT_VARIABLES
    && forall k | 0 <= k < |request.environment| :: ValidEntry(request.environment[k])
  }

  // ----- The encoding

  predicate Encodable(request: Request) {
    |request.command| < UINT32 && |request.environment| < UINT32
    && forall k | 0 <= k < |request.environment| :: |request.environment[k]| < UINT32
  }

  function Field(bytes: seq<Byte>): seq<Byte>
    requires |bytes| < UINT32
  {
    U32(|bytes|) + bytes
  }

  function WireFields(fields: seq<seq<Byte>>): seq<Byte>
    requires forall k | 0 <= k < |fields| :: |fields[k]| < UINT32
  {
    if fields == [] then [] else Field(fields[0]) + WireFields(fields[1..])
  }

  function Wire(request: Request): seq<Byte>
    requires Encodable(request)
  {
    Field(request.command) + U32(|request.environment|) + WireFields(request.environment)
  }

  // ----- The decoding

  /** The field at `position`: its length is stated, not zero, within the bytes, and it has no NUL. */
  predicate FieldAt(bytes: seq<Byte>, position: nat) {
    && position + 4 <= |bytes|
    && var length := ReadU32(bytes, position);
       0 < length <= |bytes| - position - 4 && 0 !in bytes[position + 4..position + 4 + length]
  }

  function FieldEnd(bytes: seq<Byte>, position: nat): (end: nat)
    requires FieldAt(bytes, position)
    ensures position + 4 < end <= |bytes|
  {
    position + 4 + ReadU32(bytes, position)
  }

  function FieldBytes(bytes: seq<Byte>, position: nat): seq<Byte>
    requires FieldAt(bytes, position)
  {
    bytes[position + 4..FieldEnd(bytes, position)]
  }

  /** The last `n` entries, which have to end where the bytes do. */
  ghost function Entries(bytes: seq<Byte>, position: nat, n: nat): Option<seq<seq<Byte>>>
    requires position <= |bytes|
    decreases n
  {
    if n == 0 then if position == |bytes| then Some([]) else None
    else if !FieldAt(bytes, position) || !IsEntry(FieldBytes(bytes, position)) then None
    else
      match Entries(bytes, FieldEnd(bytes, position), n - 1)
      case None => None
      case Some(rest) => Some([FieldBytes(bytes, position)] + rest)
  }

  /** The command and the number of entries. */
  predicate HeadAt(bytes: seq<Byte>) {
    && FieldAt(bytes, 0) && |FieldBytes(bytes, 0)| <= CRON_MAX_COMMAND_BYTES
    && FieldEnd(bytes, 0) + 4 <= |bytes|
    && ReadU32(bytes, FieldEnd(bytes, 0)) <= CRON_MAX_ENVIRONMENT_VARIABLES
  }

  ghost function Decoded(bytes: seq<Byte>): Option<Request> {
    if !HeadAt(bytes) then None
    else
      var end := FieldEnd(bytes, 0);
      match Entries(bytes, end + 4, ReadU32(bytes, end))
      case None => None
      case Some(environment) => Some(Request(FieldBytes(bytes, 0), environment))
  }

  // ----- Decoding inverts the encoding

  lemma FieldRoundTrip(bytes: seq<Byte>, position: nat, field: seq<Byte>, rest: seq<Byte>)
    requires position <= |bytes| && |field| < UINT32 && 0 < |field| && 0 !in field
    ensures bytes[position..] == Field(field) + rest <==>
      FieldAt(bytes, position) && FieldBytes(bytes, position) == field && bytes[FieldEnd(bytes, position)..] == rest
  {
    if bytes[position..] == Field(field) + rest {
      var tail := Field(field) + rest;
      var start, end := position + 4, position + 4 + |field|;
      assert |tail| == 4 + |field| + |rest|;
      assert bytes[position..start] == tail[..4] == U32(|field|);
      NumbersRoundTrip(bytes, position, |field|);
      assert bytes[start..end] == tail[4..4 + |field|] == field;
      assert bytes[end..] == tail[4 + |field|..] == rest;
    }
    if FieldAt(bytes, position) && FieldBytes(bytes, position) == field && bytes[FieldEnd(bytes, position)..] == rest {
      NumbersRoundTrip(bytes, position, |field|);
      var start, end := position + 4, FieldEnd(bytes, position);
      assert bytes[position..] == bytes[position..start] + bytes[start..end] + bytes[end..];
    }
  }

  lemma {:induction false} EntriesRoundTrip(bytes: seq<Byte>, position: nat, fields: seq<seq<Byte>>)
    requires position <= |bytes| && forall k | 0 <= k < |fields| :: |fields[k]| < UINT32
    ensures Entries(bytes, position, |fields|) == Some(fields) <==>
      (forall k | 0 <= k < |fields| :: ValidEntry(fields[k])) && bytes[position..] == WireFields(fields)
    decreases |fields|
  {
    if fields == [] {
      assert bytes[position..] == [] <==> position == |bytes|;
    } else {
      var field, rest := fields[0], fields[1..];
      assert fields == [field] + rest;
      if FieldAt(bytes, position) && FieldBytes(bytes, position) == field {
        EntriesRoundTrip(bytes, FieldEnd(bytes, position), rest);
      }
      if ValidEntry(field) {
        FieldRoundTrip(bytes, position, field, WireFields(rest));
      }
      assert (forall k | 0 <= k < |fields| :: ValidEntry(fields[k])) <==>
             ValidEntry(field) && forall k | 0 <= k < |rest| :: ValidEntry(rest[k]);
    }
  }

  lemma {:induction false} EntriesEncodable(bytes: seq<Byte>, position: nat, n: nat)
    requires position <= |bytes| && Entries(bytes, position, n).Some?
    ensures |Entries(bytes, position, n).value| == n
    ensures forall k | 0 <= k < n :: |Entries(bytes, position, n).value[k]| < UINT32
    decreases n
  {
    if n > 0 {
      EntriesEncodable(bytes, FieldEnd(bytes, position), n - 1);
    }
  }

  lemma DecodedIsEncoding(bytes: seq<Byte>, request: Request)
    requires Decoded(bytes) == Some(request)
    ensures ValidRequest(request) && Encodable(request) && bytes == Wire(request)
  {
    var end := FieldEnd(bytes, 0);
    var n := ReadU32(bytes, end);
    EntriesEncodable(bytes, end + 4, n);
    EntriesRoundTrip(bytes, end + 4, request.environment);
    DecodedParts(bytes, end, n, request.command, WireFields(request.environment));
    WireParts(request);
  }

  lemma DecodedParts(bytes: seq<Byte>, end: nat, n: nat, command: seq<Byte>, fields: seq<Byte>)
    requires FieldAt(bytes, 0) && FieldBytes(bytes, 0) == command && FieldEnd(bytes, 0) == end && |command| < UINT32
    requires end + 4 <= |bytes| && ReadU32(bytes, end) == n < UINT32 && bytes[end + 4..] == fields
    ensures bytes == Field(command) + (U32(n) + fields)
  {
    NumbersRoundTrip(bytes, end, n);
    HeadAndTail(bytes, end);
    FieldRoundTrip(bytes, 0, command, bytes[end..]);
  }

  lemma HeadAndTail(bytes: seq<Byte>, end: nat)
    requires end + 4 <= |bytes|
    ensures bytes[0..] == bytes && bytes[end..] == bytes[end..end + 4] + bytes[end + 4..]
  {
  }

  lemma WireParts(request: Request)
    requires Encodable(request)
    ensures Wire(request) == Field(request.command) + (U32(|request.environment|) + WireFields(request.environment))
  {
    var a, b, c := Field(request.command), U32(|request.environment|), WireFields(request.environment);
    assert a + b + c == a + (b + c);
  }

  lemma EncodingIsDecoded(bytes: seq<Byte>, request: Request)
    requires ValidRequest(request) && Encodable(request) && bytes == Wire(request)
    ensures Decoded(bytes) == Some(request)
  {
    var n := |request.environment|;
    var fields := WireFields(request.environment);
    WireParts(request);
    assert bytes[0..] == bytes;
    FieldRoundTrip(bytes, 0, request.command, U32(n) + fields);
    CountAndFields(bytes, FieldEnd(bytes, 0), U32(n), fields);
    NumbersRoundTrip(bytes, FieldEnd(bytes, 0), n);
    EntriesRoundTrip(bytes, FieldEnd(bytes, 0) + 4, request.environment);
  }

  lemma CountAndFields(bytes: seq<Byte>, end: nat, count: seq<Byte>, fields: seq<Byte>)
    requires end <= |bytes| && bytes[end..] == count + fields && |count| == 4
    ensures end + 4 <= |bytes| && bytes[end..end + 4] == count && bytes[end + 4..] == fields
  {
    assert bytes[end..end + 4] == bytes[end..][..4];
    assert bytes[end + 4..] == bytes[end..][4..];
  }

  /** Exactly the encodings of requests within the bounds are decoded, and each to the request it encodes. */
  lemma DecodesEncodings(bytes: seq<Byte>, request: Request)
    ensures Decoded(bytes) == Some(request) <==>
      ValidRequest(request) && Encodable(request) && bytes == Wire(request)
  {
    if Decoded(bytes) == Some(request) {
      DecodedIsEncoding(bytes, request);
    }
    if ValidRequest(request) && Encodable(request) && bytes == Wire(request) {
      EncodingIsDecoded(bytes, request);
    }
  }
}
