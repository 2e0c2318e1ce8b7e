/** apps/runtime/src/guest-cron.c, `decode_command`
  *
  * A received body is decoded where it lies: the fields stay in the buffer, as C strings whose
  * terminators are written over bytes that have been decoded already.
  */
module GuestCron {
  import opened Prelude
  import opened CronWire

  /** A C string in memory. */
  ghost predicate ReadsAs(memory: seq<Byte>, at: nat, text: seq<Byte>) {
    at + |text| < |memory| && memory[at..at + |text|] == text && 0 !in text && memory[at + |text|] == 0
  }

  datatype Span = Span(start: nat, end: nat)

  /** Where the fields lie: one behind the other, with at least one byte between. */
  ghost predicate Laid(bytes: seq<Byte>, spans: seq<Span>, fields: seq<seq<Byte>>) {
    && |spans| == |fields|
    && (forall i {:trigger spans[i]} | 0 <= i < |spans| ::
          spans[i].start < spans[i].end <= |bytes| && bytes[spans[i].start..spans[i].end] == fields[i] && 0 !in fields[i])
    && (forall i, j {:trigger spans[i], spans[j]} | 0 <= i < j < |spans| :: spans[i].end < spans[j].start)
  }

  lemma LaidWith(bytes: seq<Byte>, spans: seq<Span>, fields: seq<seq<Byte>>, position: nat)
    requires Laid(bytes, spans, fields) && FieldAt(bytes, position)
    requires forall i | 0 <= i < |spans| :: spans[i].end <= position
    ensures Laid(bytes, spans + [Span(position + 4, FieldEnd(bytes, position))], fields + [FieldBytes(bytes, position)])
  {
  }

  /** Terminators at the ends of the fields leave every field's bytes alone. */
  lemma TerminatorsSpareFields(before: seq<Byte>, after: seq<Byte>, length: nat, spans: seq<Span>, fields: seq<seq<Byte>>, k: nat)
    requires length < |before| == |after| && Laid(before[..length], spans, fields) && k < |spans|
    requires forall i | 0 <= i < |spans| :: after[spans[i].end] == 0
    requires forall p | 0 <= p < |before| && (forall i | 0 <= i < |spans| :: spans[i].end != p) :: after[p] == before[p]
    ensures ReadsAs(after, spans[k].start, fields[k])
  {
    var start, end := spans[k].start, spans[k].end;
    forall p | start <= p < end
      ensures after[p] == before[p]
    {
      forall i | 0 <= i < |spans|
        ensures spans[i].end != p
      {
      }
    }
    assert after[start..end] == before[..length][start..end];
  }

  lemma AllRead(before: seq<Byte>, after: seq<Byte>, length: nat, spans: seq<Span>, fields: seq<seq<Byte>>)
    requires length < |before| == |after| && Laid(before[..length], spans, fields)
    requires forall i | 0 <= i < |spans| :: after[spans[i].end] == 0
    requires forall p | 0 <= p < |before| && (forall i | 0 <= i < |spans| :: spans[i].end != p) :: after[p] == before[p]
    ensures forall k | 0 <= k < |spans| :: ReadsAs(after, spans[k].start, fields[k])
  {
    forall k | 0 <= k < |spans|
      ensures ReadsAs(after, spans[k].start, fields[k])
    {
      TerminatorsSpareFields(before, after, length, spans, fields, k);
    }
  }

  lemma PointersRead(memory: seq<Byte>, spans: seq<Span>, fields: seq<seq<Byte>>, environment: seq<nat>)
    requires |spans| == |fields| == |environment| + 1
    requires forall k | 0 <= k < |spans| :: ReadsAs(memory, spans[k].start, fields[k])
    requires forall k | 1 <= k < |spans| :: environment[k - 1] == spans[k].start
    ensures ReadsAs(memory, spans[0].start, fields[0])
    ensures forall k | 0 <= k < |environment| :: ReadsAs(memory, environment[k], fields[k + 1])
  {
    forall k | 0 <= k < |environment|
      ensures ReadsAs(memory, environment[k], fields[k + 1])
    {
      assert ReadsAs(memory, spans[k + 1].start, fields[k + 1]);
    }
  }

  /** `environment_name`. */
  method EnvironmentName(field: seq<Byte>) returns (named: bool)
    ensures named <==> IsEntry(field)
  {
    for index := 0 to |field|
      invariant forall k | 0 <= k < index :: field[k] != EQUALS && NameByte(field[k], k == 0)
    {
      if field[index] == EQUALS {
        return index > 0;
      }
      if !NameByte(field[index], index == 0) {
        return false;
      }
    }
    named := false;
  }

  class DecodedCommand {
    const bytes: array<Byte>
    const length: nat
    const environment: array<nat>
    var command: nat
    var environmentCount: nat

    predicate Valid()
      reads this
    {
      && bytes.Length == GUEST_CRON_REQUEST_MAX_BYTES + 1 && length <= GUEST_CRON_REQUEST_MAX_BYTES
      && environment.Length == CRON_MAX_ENVIRONMENT_VARIABLES
    }

    ghost function Received(): seq<Byte>
      requires Valid()
      reads this, bytes
    {
      bytes[..length]
    }

    method FieldLength(position: nat) returns (found: Option<nat>)
      requires Valid() && position <= length
      ensures found.Some? <==> FieldAt(Received(), position)
      ensures found.Some? ==> position + 4 + found.value == FieldEnd(Received(), position)
    {
      if length - position < 4 {
        return None;
      }
      var fieldLength := ReadU32(bytes[..length], position);
      if fieldLength == 0 || fieldLength > length - position - 4
         || 0 in bytes[..length][position + 4..position + 4 + fieldLength] {
        return None;
      }
      found := Some(fieldLength);
    }

    /** The turn of the loop that reads the command. */
    method DecodeHead() returns (found: bool, end: nat)
      requires Valid()
      modifies this
      ensures found <==> HeadAt(Received())
      ensures found ==> end == FieldEnd(Received(), 0) && command == 4 && environmentCount == ReadU32(Received(), end)
    {
      end := 0;
      var fieldLength := FieldLength(0);
      if fieldLength.None? {
        return false, end;
      }
      if fieldLength.value > CRON_MAX_COMMAND_BYTES || length - 4 - fieldLength.value < 4 {
        return false, end;
      }
      command := 4;
      end := 4 + fieldLength.value;
      environmentCount := ReadU32(bytes[..length], end);
      found := environmentCount <= CRON_MAX_ENVIRONMENT_VARIABLES;
    }

    /** A turn of the loop that reads an entry. */
    method DecodeEntry(position: nat) returns (found: bool, end: nat)
      requires Valid() && position <= length
      ensures found <==> FieldAt(Received(), position) && IsEntry(FieldBytes(Received(), position))
      ensures found ==> end == FieldEnd(Received(), position)
    {
      end := position;
      var fieldLength := FieldLength(position);
      if fieldLength.None? {
        return false, end;
      }
      end := position + 4 + fieldLength.value;
      found := EnvironmentName(bytes[..length][position + 4..end]);
    }

    /** Each field's end is noted, and each entry's start is where the command points for it. */
    ghost predicate Noted(spans: seq<Span>, ends: array<nat>)
      reads this, environment, ends
    {
      && 0 < |spans| <= ends.Length && |spans| <= environment.Length + 1
      && (forall i | 0 <= i < |spans| :: ends[i] == spans[i].end)
      && (forall i | 1 <= i < |spans| :: environment[i - 1] == spans[i].start)
    }

    method Note(ends: array<nat>, start: nat, end: nat, index: nat, ghost spans: seq<Span>)
      requires Noted(spans, ends) && index == |spans| < ends.Length && index <= environment.Length && ends != environment
      modifies environment, ends
      ensures Noted(spans + [Span(start, end)], ends)
    {
      environment[index - 1] := start;
      ends[index] := end;
    }

    /** The remaining turns: every entry, up to the end of the body. */
    method DecodeEntries(from: nat, ends: array<nat>, ghost head: Span, ghost first: seq<Byte>)
      returns (found: bool, ghost spans: seq<Span>, ghost fields: seq<seq<Byte>>)
      requires Valid() && from <= length && environmentCount <= CRON_MAX_ENVIRONMENT_VARIABLES
      requires ends.Length == CRON_MAX_ENVIRONMENT_VARIABLES + 1 && ends != environment && ends[0] == head.end
      requires Laid(Received(), [head], [first]) && head.end <= from
      modifies environment, ends
      ensures found <==> Entries(Received(), from, environmentCount).Some?
      ensures found ==>
        && fields == [first] + Entries(Received(), from, environmentCount).value
        && |fields| == environmentCount + 1 && Laid(Received(), spans, fields) && spans[0] == head
        && Noted(spans, ends)
    {
      ghost var b := Received();
      var position: nat, index: nat := from, 1;
      spans, fields := [head], [first];
      NoEntryYet(b, from, environmentCount, first);
      while index < environmentCount + 1
        invariant 1 <= index == |spans| <= environmentCount + 1 && position <= length && b == Received()
        invariant Progress(b, from, environmentCount, head, first, spans, fields, position, index)
        invariant Noted(spans, ends)
      {
        var decoded, end := DecodeEntry(position);
        Progresses(b, from, environmentCount, head, first, spans, fields, position, index);
        if !decoded {
          return false, spans, fields;
        }
        Note(ends, position + 4, end, index, spans);
        spans := spans + [Span(position + 4, end)];
        fields := fields + [FieldBytes(b, position)];
        position := end;
        index := index + 1;
      }
      AllEntries(b, from, environmentCount, fields, position);
      found := position == length;
    }

    method Terminate(ends: array<nat>, count: nat, ghost spans: seq<Span>)
      requires Valid() && count == |spans| <= ends.Length
      requires forall i | 0 <= i < |spans| :: ends[i] == spans[i].end <= length
      modifies bytes
      ensures forall i | 0 <= i < |spans| :: bytes[spans[i].end] == 0
      ensures forall p | 0 <= p < bytes.Length && (forall i | 0 <= i < |spans| :: spans[i].end != p) ::
        bytes[p] == old(bytes[p])
    {
      for index := 0 to count
        invariant forall i | 0 <= i < index :: bytes[spans[i].end] == 0
        invariant forall p | 0 <= p < bytes.Length && (forall i | 0 <= i < |spans| :: spans[i].end != p) ::
          bytes[p] == old(bytes[p])
        invariant forall i | 0 <= i < |spans| :: ends[i] == spans[i].end <= length
      {
        bytes[ends[index]] := 0;
      }
    }

    /** Both kinds of turns; nothing is written into the body yet. */
    method Parse(ends: array<nat>) returns (found: bool, ghost spans: seq<Span>, ghost fields: seq<seq<Byte>>)
      requires Valid() && ends.Length == CRON_MAX_ENVIRONMENT_VARIABLES + 1 && ends != environment
      modifies this, environment, ends
      ensures found <==> Decoded(Received()).Some?
      ensures found ==>
        && fields == [Decoded(Received()).value.command] + Decoded(Received()).value.environment
        && |fields| == environmentCount + 1 <= ends.Length && Laid(Received(), spans, fields)
        && Noted(spans, ends) && command == spans[0].start
    {
      spans, fields := [], [];
      var end;
      found, end := DecodeHead();
      if !found {
        return;
      }
      ends[0] := end;
      found, spans, fields := DecodeEntries(end + 4, ends, Span(4, end), FieldBytes(Received(), 0));
    }

    /** `decode_command`: it accepts exactly the encodings, and then every field reads as it was encoded. */
    method Decode() returns (accepted: bool)
      requires Valid()
      modifies this, bytes, environment
      ensures Valid()
      ensures accepted <==> Decoded(old(Received())).Some?
      ensures !accepted ==> bytes[..] == old(bytes[..])
      ensures accepted ==>
        var request := Decoded(old(Received())).value;
        && environmentCount == |request.environment| <= environment.Length
        && ReadsAs(bytes[..], command, request.command)
        && forall k | 0 <= k < environmentCount :: ReadsAs(bytes[..], environment[k], request.environment[k])
    {
      ghost var before := bytes[..];
      assert before[..length] == Received();
      var ends := new nat[CRON_MAX_ENVIRONMENT_VARIABLES + 1];
      ghost var spans, fields;
      accepted, spans, fields := Parse(ends);
      if !accepted {
        return;
      }
      Terminate(ends, environmentCount + 1, spans);
      AllRead(before, bytes[..], length, spans, fields);
      PointersRead(bytes[..], spans, fields, environment[..environmentCount]);
    }
  }

  /** With the fields so far, what is left to decode decides the whole. */
  ghost predicate Remaining(bytes: seq<Byte>, from: nat, count: nat, fields: seq<seq<Byte>>, position: nat, index: nat) {
    && from <= |bytes| && position <= |bytes| && 1 <= index == |fields| <= count + 1
    && match Entries(bytes, position, count + 1 - index)
       case None => Entries(bytes, from, count) == None
       case Some(rest) => Entries(bytes, from, count) == Some(fields[1..] + rest)
  }

  /** Half-way through the entries. */
  ghost predicate Progress(bytes: seq<Byte>, from: nat, count: nat, head: Span, first: seq<Byte>,
                           spans: seq<Span>, fields: seq<seq<Byte>>, position: nat, index: nat) {
    && Laid(bytes, spans, fields) && 0 < |spans| && spans[0] == head && fields[0] == first
    && (forall i | 0 <= i < |spans| :: spans[i].end <= position)
    && Remaining(bytes, from, count, fields, position, index)
  }

  lemma Progresses(bytes: seq<Byte>, from: nat, count: nat, head: Span, first: seq<Byte>,
                   spans: seq<Span>, fields: seq<seq<Byte>>, position: nat, index: nat)
    requires Progress(bytes, from, count, head, first, spans, fields, position, index) && index <= count
    ensures !(FieldAt(bytes, position) && IsEntry(FieldBytes(bytes, position))) ==> Entries(bytes, from, count).None?
    ensures FieldAt(bytes, position) && IsEntry(FieldBytes(bytes, position)) ==>
      Progress(bytes, from, count, head, first, spans + [Span(position + 4, FieldEnd(bytes, position))],
               fields + [FieldBytes(bytes, position)], FieldEnd(bytes, position), index + 1)
  {
    if FieldAt(bytes, position) && IsEntry(FieldBytes(bytes, position)) {
      OneMoreEntry(bytes, from, count, fields, position, index);
      LaidWith(bytes, spans, fields, position);
    }
  }

  lemma NoEntryYet(bytes: seq<Byte>, from: nat, count: nat, first: seq<Byte>)
    requires from <= |bytes|
    ensures Remaining(bytes, from, count, [first], from, 1)
  {
    var result := Entries(bytes, from, count);
    assert result.Some? ==> [first][1..] + result.value == result.value;
  }

  lemma AllEntries(bytes: seq<Byte>, from: nat, count: nat, fields: seq<seq<Byte>>, position: nat)
    requires Remaining(bytes, from, count, fields, position, count + 1)
    ensures position == |bytes| <==> Entries(bytes, from, count).Some?
    ensures position == |bytes| ==> fields == [fields[0]] + Entries(bytes, from, count).value
  {
    assert position == |bytes| ==> Entries(bytes, position, 0) == Some([]);
    assert fields[1..] + [] == fields[1..];
  }

  lemma OneMoreEntry(bytes: seq<Byte>, from: nat, count: nat, fields: seq<seq<Byte>>, position: nat, index: nat)
    requires Remaining(bytes, from, count, fields, position, index) && index <= count
    requires FieldAt(bytes, position) && IsEntry(FieldBytes(bytes, position))
    ensures Remaining(bytes, from, count, fields + [FieldBytes(bytes, position)], FieldEnd(bytes, position), index + 1)
  {
    var field := FieldBytes(bytes, position);
    assert (fields + [field])[1..] == fields[1..] + [field];
    match Entries(bytes, FieldEnd(bytes, position), count - index)
    case None =>
    case Some(rest) => assert fields[1..] + ([field] + rest) == fields[1..] + [field] + rest;
  }
}
