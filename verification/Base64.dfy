/** apps/runtime/src/sqlite-values.c, `base64_encode` and the decoder in `bind_blob`
  *
  * The encoding of sections 4 and 3.5 of RFC 4648: padded, and canonical, which is to say that the bits
  * that pad the last group are zero.
  */
module Base64 {
  import opened Prelude

  const BLOB_MAX_CHARACTERS := 87_384
  const PAD := '='

  // ----- Digits

  type Digit = x: int | 0 <= x < 64

  /** The alphabet of section 4. */
  function CharacterOf(digit: Digit): char {
    if digit < 26 then ('A' as int + digit) as char
    else if digit < 52 then ('a' as int + digit - 26) as char
    else if digit < 62 then ('0' as int + digit - 52) as char
    else if digit == 62 then '+'
    else '/'
  }

  /** `base64_digit`. */
  function DigitOf(c: char): Option<Digit> {
    if 'A' <= c <= 'Z' then Some(c as int - 'A' as int)
    else if 'a' <= c <= 'z' then Some(c as int - 'a' as int + 26)
    else if '0' <= c <= '9' then Some(c as int - '0' as int + 52)
    else if c == '+' then Some(62)
    else if c == '/' then Some(63)
    else None
  }

  lemma DigitsRoundTrip(c: char, digit: Digit)
    ensures DigitOf(c) == Some(digit) <==> c == CharacterOf(digit)
    ensures CharacterOf(digit) != PAD && DigitOf(PAD) == None
  {
  }

  const UPPER := "ABCDEFGHIJKLMNOPQRSTUVWXYZ"
  const LOWER := "abcdefghijklmnopqrstuvwxyz"
  const DECIMAL := "0123456789"
  /** The alphabet of section 4 of RFC 4648, in the order of its values. */
  const ALPHABET := UPPER + LOWER + DECIMAL + "+/"

  /** The digits are its characters, and nothing else is a digit. */
  lemma DigitsAreTheAlphabet(digit: Digit, c: char)
    ensures |ALPHABET| == 64 && CharacterOf(digit) == ALPHABET[digit]
    ensures DigitOf(c) == Some(digit) <==> c == ALPHABET[digit]
  {
    if digit < 26 {
      assert ALPHABET[digit] == UPPER[digit];
    } else if digit < 52 {
      assert ALPHABET[digit] == LOWER[digit - 26];
    } else if digit < 62 {
      assert ALPHABET[digit] == DECIMAL[digit - 52];
    }
    DigitsRoundTrip(c, digit);
  }

  // ----- Groups

  /** Four digits of 24 bits. */
  function Digits(a: Byte, b: Byte, c: Byte): (Digit, Digit, Digit, Digit) {
    (a / 4, a % 4 * 16 + b / 16, b % 16 * 4 + c / 64, c % 64)
  }

  function Bytes(a: Digit, b: Digit, c: Digit, d: Digit): (Byte, Byte, Byte) {
    (a * 4 + b / 16, b % 16 * 16 + c / 4, c % 4 * 64 + d)
  }

  lemma GroupsRoundTrip(x: Byte, y: Byte, z: Byte, a: Digit, b: Digit, c: Digit, d: Digit)
    ensures Digits(x, y, z) == (a, b, c, d) <==> Bytes(a, b, c, d) == (x, y, z)
  {
    if Digits(x, y, z) == (a, b, c, d) {
      assert b / 16 == x % 4 && b % 16 == y / 16;
      assert c / 4 == y % 16 && c % 4 == z / 64;
    }
    if Bytes(a, b, c, d) == (x, y, z) {
      assert x / 4 == a && x % 4 == b / 16;
      assert y / 16 == b % 16 && y % 16 == c / 4;
      assert z / 64 == c % 4 && z % 64 == d;
    }
  }

  /** The group of up to three bytes. */
  function EncodedGroup(bytes: seq<Byte>): (group: string)
    requires 0 < |bytes| <= 3
    ensures |group| == 4
  {
    var y, z := if |bytes| > 1 then bytes[1] else 0, if |bytes| > 2 then bytes[2] else 0;
    var (a, b, c, d) := Digits(bytes[0], y, z);
    [CharacterOf(a), CharacterOf(b), if |bytes| > 1 then CharacterOf(c) else PAD, if |bytes| > 2 then CharacterOf(d) else PAD]
  }

  /** The bits of a group, the highest first; missing bytes count as zero. */
  function Bits(bytes: seq<Byte>): (bits: int)
    requires 0 < |bytes| <= 3
    ensures 0 <= bits < 16_777_216
  {
    var x: int, y: int, z: int := bytes[0], if |bytes| > 1 then bytes[1] else 0, if |bytes| > 2 then bytes[2] else 0;
    65_536 * x + 256 * y + z
  }

  /** A character spells six of them, and where only missing bytes would decide it, it is padding. */
  lemma GroupSpelled(bytes: seq<Byte>)
    requires 0 < |bytes| <= 3
    ensures var bits, group := Bits(bytes), EncodedGroup(bytes);
            && bits / 262_144 < 64
            && group[0] == CharacterOf(bits / 262_144)
            && group[1] == CharacterOf(bits / 4_096 % 64)
            && group[2] == (if |bytes| > 1 then CharacterOf(bits / 64 % 64) else PAD)
            && group[3] == (if |bytes| > 2 then CharacterOf(bits % 64) else PAD)
  {
    BitsInOrder(bytes[0], if |bytes| > 1 then bytes[1] else 0, if |bytes| > 2 then bytes[2] else 0);
  }

  lemma BitsInOrder(x: Byte, y: Byte, z: Byte)
    ensures var bits, (a, b, c, d) := 65_536 * x + 256 * y + z, Digits(x, y, z);
            bits / 262_144 == a && bits / 4_096 % 64 == b && bits / 64 % 64 == c && bits % 64 == d
  {
    var (a, b, c, d) := Digits(x, y, z);
    var bits := 65_536 * x + 256 * y + z;
    BitsAreDigits(x, y, z);
    LowDigit(bits, 4_096 * a + 64 * b + c, d);
    LowDigit(4_096 * a + 64 * b + c, 64 * a + b, c);
    LowDigit(64 * a + b, a, b);
    assert bits / 4_096 == bits / 64 / 64 && bits / 262_144 == bits / 64 / 64 / 64;
  }

  lemma BitsAreDigits(x: Byte, y: Byte, z: Byte)
    ensures var (a, b, c, d) := Digits(x, y, z); 65_536 * x + 256 * y + z == 262_144 * a + 4_096 * b + 64 * c + d
  {
    assert x == 4 * (x / 4) + x % 4 && y == 16 * (y / 16) + y % 16 && z == 64 * (z / 64) + z % 64;
  }

  lemma LowDigit(n: int, high: int, low: Digit)
    requires n == 64 * high + low
    ensures n / 64 == high && n % 64 == low
  {
  }

  function DecodedGroup(group: string, last: bool): (bytes: Option<seq<Byte>>)
    requires |group| == 4
    ensures bytes.Some? ==> 0 < |bytes.value| <= 3 && (!last ==> |bytes.value| == 3)
  {
    var a, b := DigitOf(group[0]), DigitOf(group[1]);
    var c := if group[2] == PAD then Some(0) else DigitOf(group[2]);
    var d := if group[3] == PAD then Some(0) else DigitOf(group[3]);
    if a.None? || b.None? || c.None? || d.None? || ((group[2] == PAD || group[3] == PAD) && !last)
       || (group[2] == PAD && (group[3] != PAD || b.value % 16 != 0))
       || (group[3] == PAD && group[2] != PAD && c.value % 4 != 0) then None
    else
      var (x, y, z) := Bytes(a.value, b.value, c.value, d.value);
      Some([x] + (if group[2] != PAD then [y] else []) + (if group[3] != PAD then [z] else []))
  }

  lemma FullGroupDecodes(x: Byte, y: Byte, z: Byte, last: bool)
    ensures DecodedGroup(EncodedGroup([x, y, z]), last) == Some([x, y, z])
  {
    var (a, b, c, d) := Digits(x, y, z);
    GroupsRoundTrip(x, y, z, a, b, c, d);
    DigitsRoundTrip(CharacterOf(a), a);
    DigitsRoundTrip(CharacterOf(b), b);
    DigitsRoundTrip(CharacterOf(c), c);
    DigitsRoundTrip(CharacterOf(d), d);
    assert EncodedGroup([x, y, z]) == [CharacterOf(a), CharacterOf(b), CharacterOf(c), CharacterOf(d)];
    assert [x] + [y] + [z] == [x, y, z];
  }

  lemma TwoDecode(x: Byte, y: Byte)
    ensures DecodedGroup(EncodedGroup([x, y]), true) == Some([x, y])
  {
    var (a, b, c, d) := Digits(x, y, 0);
    GroupsRoundTrip(x, y, 0, a, b, c, 0);
    DigitsRoundTrip(CharacterOf(a), a);
    DigitsRoundTrip(CharacterOf(b), b);
    DigitsRoundTrip(CharacterOf(c), c);
    assert EncodedGroup([x, y]) == [CharacterOf(a), CharacterOf(b), CharacterOf(c), PAD];
    assert [x] + [y] + [] == [x, y];
  }

  lemma OneDecodes(x: Byte)
    ensures DecodedGroup(EncodedGroup([x]), true) == Some([x])
  {
    var (a, b, c, d) := Digits(x, 0, 0);
    GroupsRoundTrip(x, 0, 0, a, b, 0, 0);
    DigitsRoundTrip(CharacterOf(a), a);
    DigitsRoundTrip(CharacterOf(b), b);
    assert EncodedGroup([x]) == [CharacterOf(a), CharacterOf(b), PAD, PAD];
    assert [x] + [] + [] == [x];
  }

  lemma GroupDecodes(bytes: seq<Byte>, last: bool)
    requires 0 < |bytes| <= 3 && (last || |bytes| == 3)
    ensures DecodedGroup(EncodedGroup(bytes), last) == Some(bytes)
  {
    if |bytes| == 3 {
      FullGroupDecodes(bytes[0], bytes[1], bytes[2], last);
      assert bytes == [bytes[0], bytes[1], bytes[2]];
    } else if |bytes| == 2 {
      TwoDecode(bytes[0], bytes[1]);
      assert bytes == [bytes[0], bytes[1]];
    } else {
      OneDecodes(bytes[0]);
      assert bytes == [bytes[0]];
    }
  }

  lemma GroupEncodes(group: string, last: bool)
    requires |group| == 4 && DecodedGroup(group, last).Some?
    ensures EncodedGroup(DecodedGroup(group, last).value) == group
  {
    var bytes := DecodedGroup(group, last).value;
    var a, b := DigitOf(group[0]).value, DigitOf(group[1]).value;
    var c: Digit := if group[2] == PAD then 0 else DigitOf(group[2]).value;
    var d: Digit := if group[3] == PAD then 0 else DigitOf(group[3]).value;
    var (x, y, z) := Bytes(a, b, c, d);
    GroupsRoundTrip(x, y, z, a, b, c, d);
    DigitsRoundTrip(group[0], a);
    DigitsRoundTrip(group[1], b);
    DigitsRoundTrip(group[2], c);
    DigitsRoundTrip(group[3], d);
  }

  // ----- Texts

  function Encoded(bytes: seq<Byte>): (text: string)
    ensures |text| == (|bytes| + 2) / 3 * 4
  {
    if bytes == [] then ""
    else if |bytes| <= 3 then EncodedGroup(bytes)
    else EncodedGroup(bytes[..3]) + Encoded(bytes[3..])
  }

  function Decoded(text: string): Option<seq<Byte>> {
    if text == "" then Some([])
    else if |text| < 4 then None
    else
      match DecodedGroup(text[..4], |text| == 4)
      case None => None
      case Some(group) =>
        match Decoded(text[4..])
        case None => None
        case Some(rest) => Some(group + rest)
  }

  lemma {:induction false} EncodingDecodes(bytes: seq<Byte>)
    ensures Decoded(Encoded(bytes)) == Some(bytes)
  {
    if bytes != [] {
      var text := Encoded(bytes);
      if |bytes| <= 3 {
        GroupDecodes(bytes, true);
        assert text[..4] == text && text[4..] == "";
        assert bytes + [] == bytes;
      } else {
        GroupDecodes(bytes[..3], false);
        EncodingDecodes(bytes[3..]);
        assert text[..4] == EncodedGroup(bytes[..3]) && text[4..] == Encoded(bytes[3..]);
        assert bytes == bytes[..3] + bytes[3..];
      }
    }
  }

  lemma {:induction false} DecodingEncodes(text: string)
    ensures Decoded(text).Some? ==> Encoded(Decoded(text).value) == text
  {
    if text != "" && Decoded(text).Some? {
      var bytes := Decoded(text).value;
      var group, rest := DecodedGroup(text[..4], |text| == 4).value, Decoded(text[4..]).value;
      GroupEncodes(text[..4], |text| == 4);
      DecodingEncodes(text[4..]);
      assert text == text[..4] + text[4..];
      if |text| == 4 {
        assert text[4..] == "" && rest == [] && bytes == group;
      } else {
        assert |text[4..]| > 0 && rest != [];
        assert bytes[..3] == group && bytes[3..] == rest;
      }
    }
  }

  /** Each inverts the other: a text is accepted exactly when it is the encoding of some bytes, and those
    * are the bytes it is decoded to. */
  lemma MutualInverses(text: string, bytes: seq<Byte>)
    ensures Decoded(text) == Some(bytes) <==> text == Encoded(bytes)
  {
    EncodingDecodes(bytes);
    DecodingEncodes(text);
  }

  // ----- The loops

  function Value(x: Byte, y: Byte, z: Byte): nat {
    x as int * 0x1_0000 + y as int * 0x100 + z
  }

  lemma SplitValue(value: nat, x: Byte, y: Byte, z: Byte)
    requires value == Value(x, y, z)
    ensures value / 0x4_0000 % 64 == x / 4
    ensures value / 0x1000 % 64 == x % 4 * 16 + y / 16
    ensures value / 64 % 64 == y % 16 * 4 + z / 64
    ensures value % 64 == z % 64
  {
    SplitFirst(x, y, z);
    SplitSecond(x, y, z);
    SplitThird(x, y, z);
  }

  lemma SplitFirst(x: Byte, y: Byte, z: Byte)
    ensures Value(x, y, z) / 0x4_0000 % 64 == x / 4
  {
    Divides(Value(x, y, z), 0x4_0000, x / 4, x % 4 * 0x1_0000 + y as int * 0x100 + z);
  }

  lemma Divides(value: nat, d: nat, quotient: nat, rest: nat)
    requires rest < d && value == d * quotient + rest
    ensures value / d == quotient && value % d == rest
  {
    var off := value / d - quotient;
    assert value == d * (value / d) + value % d;
    assert d * off == rest - value % d;
    assert off >= 1 ==> d * off >= d;
    assert off <= -1 ==> d * off <= d * -1;
  }

  lemma SplitSecond(x: Byte, y: Byte, z: Byte)
    ensures Value(x, y, z) / 0x1000 % 64 == x % 4 * 16 + y / 16
  {
    Divides(Value(x, y, z), 0x1000, x as int * 16 + y / 16, y % 16 * 0x100 + z);
    SplitMiddle(x, y);
  }

  lemma SplitThird(x: Byte, y: Byte, z: Byte)
    ensures Value(x, y, z) / 64 % 64 == y % 16 * 4 + z / 64 && Value(x, y, z) % 64 == z % 64
  {
    var lower := y as int * 4 + z / 64;
    var upper := x as int * 1024 + lower;
    Divides(Value(x, y, z), 64, upper, z % 64);
    SplitMiddle(y, z);
    assert upper == 64 * (x as int * 16) + lower;
  }

  lemma SplitMiddle(x: Byte, y: Byte)
    ensures (x as int * 16 + y / 16) % 64 == x % 4 * 16 + y / 16
    ensures (x as int * 4 + y / 64) % 64 == x % 16 * 4 + y / 64
  {
    Divides(x as int * 16 + y / 16, 64, x / 4, x % 4 * 16 + y / 16);
    Divides(x as int * 4 + y / 64, 64, x / 16, x % 16 * 4 + y / 64);
  }

  function ByteAt(group: seq<Byte>, i: nat): Byte {
    if i < |group| then group[i] else 0
  }

  lemma GroupFromValue(group: seq<Byte>, value: nat)
    requires 0 < |group| <= 3 && value == Value(group[0], ByteAt(group, 1), ByteAt(group, 2))
    ensures EncodedGroup(group) == [
      CharacterOf(value / 0x4_0000 % 64), CharacterOf(value / 0x1000 % 64),
      if |group| > 1 then CharacterOf(value / 64 % 64) else PAD, if |group| > 2 then CharacterOf(value % 64) else PAD]
  {
    SplitValue(value, group[0], ByteAt(group, 1), ByteAt(group, 2));
  }

  /** The body of the loop in `base64_encode`. */
  method EncodeGroup(bytes: seq<Byte>, index: nat, text: array<char>, position: nat)
    requires index < |bytes| && position + 4 <= text.Length
    modifies text
    ensures text[..position + 4] == old(text[..position]) + EncodedGroup(bytes[index..Min(index + 3, |bytes|)])
  {
    var value := bytes[index] as int * 0x1_0000;
    if index + 1 < |bytes| {
      value := value + bytes[index + 1] as int * 0x100;
    }
    if index + 2 < |bytes| {
      value := value + bytes[index + 2];
    }
    ghost var group := bytes[index..Min(index + 3, |bytes|)];
    GroupFromValue(group, value);
    ghost var encoded := EncodedGroup(group);
    text[position] := CharacterOf(value / 0x4_0000 % 64);
    text[position + 1] := CharacterOf(value / 0x1000 % 64);
    text[position + 2] := if index + 1 < |bytes| then CharacterOf(value / 64 % 64) else PAD;
    text[position + 3] := if index + 2 < |bytes| then CharacterOf(value % 64) else PAD;
    assert text[position] == encoded[0] && text[position + 1] == encoded[1];
    assert text[position + 2] == encoded[2] && text[position + 3] == encoded[3];
    assert text[..position + 4] == text[..position] + encoded;
  }

  ghost predicate EncodedUpTo(bytes: seq<Byte>, text: string, index: nat) {
    text + Encoded(bytes[Min(index, |bytes|)..]) == Encoded(bytes)
  }

  lemma EncodedNext(bytes: seq<Byte>, text: string, index: nat)
    requires index < |bytes| && EncodedUpTo(bytes, text, index)
    ensures EncodedUpTo(bytes, text + EncodedGroup(bytes[index..Min(index + 3, |bytes|)]), index + 3)
  {
    var next := Min(index + 3, |bytes|);
    var group, rest := EncodedGroup(bytes[index..next]), Encoded(bytes[next..]);
    assert text + (group + rest) == text + group + rest;
  }

  method Encode(bytes: seq<Byte>) returns (text: array<char>)
    ensures fresh(text) && text.Length == |Encoded(bytes)| + 1
    ensures text[..|Encoded(bytes)|] == Encoded(bytes) && text[|Encoded(bytes)|] == '\0'
  {
    ghost var encoded := Encoded(bytes);
    var total := (|bytes| + 2) / 3;
    var size := total * 4;
    assert |bytes| <= 3 * total < |bytes| + 3 && |encoded| == size;
    text := new char[size + 1];
    var position, index := 0, 0;
    ghost var groups := 0;
    while index < |bytes|
      invariant position == 4 * groups && index == 3 * groups && groups <= total
      invariant text.Length == 4 * total + 1
      invariant EncodedUpTo(bytes, text[..position], index)
    {
      assert groups < total;
      ghost var before := text[..position];
      EncodeGroup(bytes, index, text, position);
      EncodedNext(bytes, before, index);
      position := position + 4;
      index := index + 3;
      groups := groups + 1;
    }
    assert text[..position] == encoded;
    text[position] := '\0';
    assert text[..position] == encoded;
  }

  /** The body of the loop in `bind_blob`; none stands for a mismatch. */
  method DecodeGroup(text: string, offset: nat, bytes: array<Byte>, position: nat) returns (next: Option<nat>)
    requires offset + 4 <= |text| && position + 3 <= bytes.Length
    modifies bytes
    ensures var group := DecodedGroup(text[offset..offset + 4], offset + 4 == |text|);
            && (next.Some? <==> group.Some?)
            && (next.Some? ==>
                  next.value == position + |group.value| && bytes[..next.value] == old(bytes[..position]) + group.value)
  {
    ghost var group := text[offset..offset + 4];
    var a, b := DigitOf(text[offset]), DigitOf(text[offset + 1]);
    var c := if text[offset + 2] == PAD then Some(0) else DigitOf(text[offset + 2]);
    var d := if text[offset + 3] == PAD then Some(0) else DigitOf(text[offset + 3]);
    var padded := text[offset + 2] == PAD || text[offset + 3] == PAD;
    if a.None? || b.None? || c.None? || d.None? || (padded && offset + 4 != |text|)
       || (text[offset + 2] == PAD && (text[offset + 3] != PAD || b.value % 16 != 0))
       || (text[offset + 3] == PAD && text[offset + 2] != PAD && c.value % 4 != 0) {
      return None;
    }
    var value := GroupValue(a.value, b.value, c.value, d.value);
    JoinValue(a.value, b.value, c.value, d.value);
    ghost var (x, y, z) := Bytes(a.value, b.value, c.value, d.value);
    ghost var decoded := [x] + (if group[2] != PAD then [y] else []) + (if group[3] != PAD then [z] else []);
    assert DecodedGroup(group, offset + 4 == |text|) == Some(decoded);
    var at := position;
    bytes[at] := value / 0x1_0000;
    at := at + 1;
    if text[offset + 2] != PAD {
      bytes[at] := value / 0x100 % 0x100;
      at := at + 1;
    }
    if text[offset + 3] != PAD {
      bytes[at] := value % 0x100;
      at := at + 1;
    }
    assert bytes[..at] == old(bytes[..position]) + decoded;
    next := Some(at);
  }

  function GroupValue(a: Digit, b: Digit, c: Digit, d: Digit): nat {
    a as int * 0x4_0000 + b as int * 0x1000 + c as int * 64 + d
  }

  lemma JoinValue(a: Digit, b: Digit, c: Digit, d: Digit)
    ensures var value := GroupValue(a, b, c, d);
            Bytes(a, b, c, d) == (value / 0x1_0000, value / 0x100 % 0x100, value % 0x100)
  {
    var (x, y, z) := Bytes(a, b, c, d);
    assert b as int == 16 * (b / 16) + b % 16 && c as int == 4 * (c / 4) + c % 4;
    JoinBytes(GroupValue(a, b, c, d), x, y, z);
  }

  lemma JoinBytes(value: nat, x: Byte, y: Byte, z: Byte)
    requires value == x as int * 0x1_0000 + y as int * 0x100 + z
    ensures value / 0x1_0000 == x && value / 0x100 % 0x100 == y && value % 0x100 == z
  {
    assert value / 0x100 == x as int * 0x100 + y;
  }

  lemma {:induction false} DecodedLength(text: string)
    ensures Decoded(text).Some? ==> |text| % 4 == 0 && |Decoded(text).value| <= |text| / 4 * 3
  {
    if |text| >= 4 {
      DecodedLength(text[4..]);
    }
  }

  ghost predicate DecodedUpTo(text: string, bytes: seq<Byte>, offset: nat)
    requires offset <= |text|
  {
    match Decoded(text[offset..])
    case None => Decoded(text).None?
    case Some(rest) => Decoded(text) == Some(bytes + rest)
  }

  lemma DecodedNext(text: string, bytes: seq<Byte>, offset: nat, group: Option<seq<Byte>>)
    requires offset + 4 <= |text| && DecodedUpTo(text, bytes, offset)
    requires group == DecodedGroup(text[offset..offset + 4], offset + 4 == |text|)
    ensures group.None? ==> Decoded(text).None?
    ensures group.Some? ==> DecodedUpTo(text, bytes + group.value, offset + 4)
  {
    var rest := Decoded(text[offset + 4..]);
    if group.Some? && rest.Some? {
      assert bytes + (group.value + rest.value) == bytes + group.value + rest.value;
    }
  }

  lemma DecodedAll(text: string, bytes: seq<Byte>, offset: nat)
    requires offset <= |text|
    ensures offset == 0 && bytes == [] ==> DecodedUpTo(text, bytes, offset)
    ensures offset == |text| && DecodedUpTo(text, bytes, offset) ==> Decoded(text) == Some(bytes)
  {
    assert text[0..] == text && text[|text|..] == "";
    assert bytes + [] == bytes;
    assert Decoded(text).Some? ==> [] + Decoded(text).value == Decoded(text).value;
  }

  /** The decoder: it takes exactly the canonical texts within the bound, and fills the buffer with what
    * they encode. */
  method Decode(text: string) returns (bytes: array<Byte>, length: Option<nat>)
    ensures length.Some? <==> |text| <= BLOB_MAX_CHARACTERS && Decoded(text).Some?
    ensures length.Some? ==> length.value <= bytes.Length && bytes[..length.value] == Decoded(text).value
  {
    DecodedLength(text);
    if |text| % 4 != 0 || |text| > BLOB_MAX_CHARACTERS {
      bytes := new Byte[0];
      return bytes, None;
    }
    bytes := new Byte[|text| / 4 * 3 + 1];
    var position: nat, offset: nat := 0, 0;
    ghost var groups := 0;
    DecodedAll(text, bytes[..0], 0);
    while offset < |text|
      invariant offset == 4 * groups && groups <= |text| / 4 && position <= 3 * groups
      invariant bytes.Length == |text| / 4 * 3 + 1
      invariant DecodedUpTo(text, bytes[..position], offset)
    {
      DecodedNext(text, bytes[..position], offset, DecodedGroup(text[offset..offset + 4], offset + 4 == |text|));
      var next := DecodeGroup(text, offset, bytes, position);
      if next.None? {
        return bytes, None;
      }
      position := next.value;
      offset := offset + 4;
      groups := groups + 1;
    }
    DecodedAll(text, bytes[..position], offset);
    length := Some(position);
  }
}
