/** Printing variables into a `.env` file and reading them back: packages/app-operations/src/env-file.ts */
module EnvFileRoundTrip {
  import opened Prelude
  import opened EnvFile

  // ----- The printer

  /** A character inside double quotes. Line feeds and tabs may also be left as they are. */
  function Escape(c: char, breaks: bool): string {
    if c == ESCAPE then [ESCAPE, ESCAPE]
    else if c == DOUBLE_QUOTE then [ESCAPE, DOUBLE_QUOTE]
    else if c == '\r' then [ESCAPE, 'r']
    else if c == '\n' && !breaks then [ESCAPE, 'n']
    else if c == '\t' && !breaks then [ESCAPE, 't']
    else [c]
  }

  function Escaped(value: string, breaks: bool): string {
    if value == [] then [] else Escape(value[0], breaks) + Escaped(value[1..], breaks)
  }

  function Printed(entry: Assignment, breaks: bool): string {
    entry.name + [ASSIGNMENT, DOUBLE_QUOTE] + Escaped(entry.value, breaks) + [DOUBLE_QUOTE]
  }

  function PrintedFile(entries: seq<Assignment>, breaks: bool): string {
    if entries == [] then ""
    else if |entries| == 1 then Printed(entries[0], breaks)
    else Printed(entries[0], breaks) + "\n" + PrintedFile(entries[1..], breaks)
  }

  predicate NameCharacter(c: char) {
    'A' <= c <= 'Z' || 'a' <= c <= 'z' || '0' <= c <= '9' || c == '_'
  }

  predicate ValidName(name: string) {
    name != [] && !('0' <= name[0] <= '9') && forall k | 0 <= k < |name| :: NameCharacter(name[k])
  }

  // ----- Values

  /** How a character can be written inside double quotes: as it is, or escaped. */
  predicate IsToken(token: string, c: char) {
    || (token == [c] && c != ESCAPE && c != DOUBLE_QUOTE)
    || (|token| == 2 && token[0] == ESCAPE && Meaning(token[1]) == Some(c))
  }

  lemma {:induction false} EscapedRoundTrip(value: string, breaks: bool)
    ensures Unescaped(Escaped(value, breaks)) == value
  {
    if value != [] {
      EscapedRoundTrip(value[1..], breaks);
    }
  }

  /** Looking for the closing quote steps over a token. */
  lemma StepsOver(token: string, c: char, rest: string, body: string, at: nat)
    requires IsToken(token, c) && at < |body|
    requires body[at..] <= token + rest || token + rest <= body[at..]
    ensures ClosesFrom(body, DOUBLE_QUOTE, true, at) == ClosesFrom(body, DOUBLE_QUOTE, true, at + |token|)
  {
    assert body[at] == body[at..][0] == (token + rest)[0] == token[0];
  }

  /** A value that has been read only in part is not closed yet. */
  lemma {:induction false} StaysOpen(value: string, breaks: bool, body: string, at: nat)
    requires at <= |body| && body[at..] <= Escaped(value, breaks)
    ensures ClosesFrom(body, DOUBLE_QUOTE, true, at) == None
    decreases |value|
  {
    if at < |body| {
      var token, rest := Escape(value[0], breaks), Escaped(value[1..], breaks);
      StepsOver(token, value[0], rest, body, at);
      if at + |token| <= |body| {
        StaysOpen(value[1..], breaks, body, at + |token|);
      }
    }
  }

  /** The whole value is closed by the quote behind it. */
  lemma {:induction false} ClosesBehind(value: string, breaks: bool, body: string, at: nat)
    requires at <= |body| && body[at..] == Escaped(value, breaks) + [DOUBLE_QUOTE]
    ensures ClosesFrom(body, DOUBLE_QUOTE, true, at) == Some(at + |Escaped(value, breaks)|)
    decreases |value|
  {
    if value == [] {
      assert body[at] == body[at..][0];
    } else {
      var token, rest := Escape(value[0], breaks), Escaped(value[1..], breaks) + [DOUBLE_QUOTE];
      assert body[at..] == token + rest;
      StepsOver(token, value[0], rest, body, at);
      ClosesBehind(value[1..], breaks, body, at + |token|);
    }
  }

  // ----- Lines

  /** Lines put behind a line they continue. */
  function Glued(lines: seq<string>): string {
    if lines == [] then "" else "\n" + lines[0] + Glued(lines[1..])
  }

  lemma IndexIs(text: string, c: char, i: nat)
    requires i <= |text| && c !in text[..i] && (i < |text| ==> text[i] == c)
    ensures IndexOf(text, c, 0) == i
  {
    var j := IndexOf(text, c, 0);
    assert forall k | 0 <= k < i :: text[k] == text[..i][k];
    assert forall k | 0 <= k < j :: text[k] == text[..j][k];
  }

  /** A first line without a carriage return, and what is behind its line feed. */
  lemma LinesCut(line: string, rest: string)
    requires '\n' !in line && '\r' !in line
    ensures Lines(line + "\n" + rest) == [line] + Lines(rest)
  {
    var text := line + "\n" + rest;
    assert text[..|line|] == line && text[|line| + 1..] == rest;
    IndexIs(text, '\n', |line|);
  }

  /** A text without carriage returns is one line, or a line and the lines behind it. */
  lemma FirstLineOf(text: string) returns (line: string, rest: Option<string>)
    requires '\r' !in text
    ensures '\n' !in line && '\r' !in line
    ensures rest.None? ==> text == line && Lines(text) == [line]
    ensures rest.Some? ==>
      text == line + "\n" + rest.value && '\r' !in rest.value && Lines(text) == [line] + Lines(rest.value)
  {
    var i := IndexOf(text, '\n', 0);
    line := text[..i];
    if i == |text| {
      assert line == text;
      rest := None;
    } else {
      rest := Some(text[i + 1..]);
      assert text == line + "\n" + rest.value;
      LinesCut(line, rest.value);
    }
  }

  /** A text without carriage returns is its lines again. */
  lemma GluedBehind(line: string, rest: string, lines: seq<string>)
    requires lines != [] && rest == lines[0] + Glued(lines[1..])
    ensures line + "\n" + rest == line + Glued(lines)
  {
    assert Glued(lines) == "\n" + lines[0] + Glued(lines[1..]);
  }

  lemma {:induction false} LinesJoin(text: string)
    requires '\r' !in text
    ensures text == Lines(text)[0] + Glued(Lines(text)[1..])
    decreases |text|
  {
    var line, rest := FirstLineOf(text);
    if rest.None? {
      assert Lines(text)[1..] == [];
    } else {
      LinesJoin(rest.value);
      GluedBehind(line, rest.value, Lines(rest.value));
      assert Lines(text)[1..] == Lines(rest.value);
    }
  }

  lemma LineBefore(line: string, rest: string, more: string)
    requires '\n' !in line && '\r' !in line && Lines(rest + "\n" + more) == Lines(rest) + Lines(more)
    ensures Lines(line + "\n" + rest + "\n" + more) == [line] + Lines(rest) + Lines(more)
  {
    var behind := rest + "\n" + more;
    assert line + "\n" + rest + "\n" + more == line + "\n" + behind;
    LinesCut(line, behind);
  }

  lemma {:induction false} LinesAfter(text: string, more: string)
    requires '\r' !in text
    ensures Lines(text + "\n" + more) == Lines(text) + Lines(more)
    decreases |text|
  {
    var line, rest := FirstLineOf(text);
    if rest.None? {
      LinesCut(line, more);
    } else {
      LinesAfter(rest.value, more);
      LineBefore(line, rest.value, more);
    }
  }

  /** A beginning without line feeds is part of the first line. */
  lemma StartIsInFirst(start: string, text: string)
    requires '\n' !in start && '\r' !in start && '\r' !in text
    ensures Lines(start + text) == [start + Lines(text)[0]] + Lines(text)[1..]
  {
    var line, rest := FirstLineOf(text);
    if rest.None? {
      assert Lines(text)[1..] == [];
    } else {
      assert start + text == (start + line) + "\n" + rest.value;
      LinesCut(start + line, rest.value);
      assert Lines(text)[1..] == Lines(rest.value);
    }
  }

  lemma {:induction false} EscapedHasNoReturn(value: string, breaks: bool)
    ensures '\r' !in Escaped(value, breaks)
  {
    if value != [] {
      EscapedHasNoReturn(value[1..], breaks);
    }
  }

  // ----- One variable

  lemma {:induction false} GathersAll(lines: seq<string>, from: nat, tail: seq<string>, start: string, value: string, breaks: bool)
    requires from + |tail| <= |lines| && lines[from..from + |tail|] == tail
    requires start + Glued(tail) == Escaped(value, breaks) + [DOUBLE_QUOTE]
    ensures Gather(lines, from, start, DOUBLE_QUOTE) == Some(Gathered(value, from + |tail|))
    decreases |tail|
  {
    var whole := Escaped(value, breaks) + [DOUBLE_QUOTE];
    assert start[0..] == start;
    if tail == [] {
      assert start == whole;
      ClosesBehind(value, breaks, start, 0);
      assert start[..|Escaped(value, breaks)|] == Escaped(value, breaks);
      EscapedRoundTrip(value, breaks);
    } else {
      assert start == whole[..|start|] <= Escaped(value, breaks);
      StaysOpen(value, breaks, start, 0);
      assert tail[0] == lines[from] && lines[from + 1..from + |tail|] == tail[1..];
      GathersAll(lines, from + 1, tail[1..], start + "\n" + lines[from], value, breaks);
    }
  }

  lemma TrimKeepsStart(line: string, start: string)
    requires start <= line && start != [] && !IsSpace(start[0]) && !IsSpace(start[|start| - 1])
    ensures start <= Trim(line)
  {
    assert TrimStart(line) == line;
    TrimEndKeeps(line, start);
  }

  lemma {:induction false} TrimEndKeeps(line: string, start: string)
    requires start <= line && start != [] && !IsSpace(start[|start| - 1])
    ensures start <= TrimEnd(line)
    decreases |line|
  {
    if IsSpace(line[|line| - 1]) {
      assert |start| < |line|;
      TrimEndKeeps(line[..|line| - 1], start);
    }
  }

  /** A line that starts like a printed variable is read as that name and an opened double quote. */
  lemma ReadsName(name: string, line: string)
    requires ValidName(name) && name + [ASSIGNMENT, DOUBLE_QUOTE] <= line
    ensures !Skipped(line) && Assigns(line) && NameOn(line) == name
    ensures WrittenOn(line) == line[|name| + 1..]
  {
    var start := name + [ASSIGNMENT, DOUBLE_QUOTE];
    TrimKeepsStart(line, start);
    var trimmed := Trim(line);
    assert trimmed[0] == start[0] == name[0];
    assert trimmed[|name|] == start[|name|] == ASSIGNMENT && line[|name|] == start[|name|];
    assert ASSIGNMENT !in name;
    assert trimmed[..|name|] == start[..|name|] == name;
    assert line[..|name|] == start[..|name|] == name;
    IndexIs(trimmed, ASSIGNMENT, |name|);
    IndexIs(line, ASSIGNMENT, |name|);
    NotExported(name, trimmed);
    assert line[|name| + 1] == start[|name| + 1] == DOUBLE_QUOTE;
    assert line[|name| + 1..][0] == DOUBLE_QUOTE;
  }

  lemma NotExported(name: string, trimmed: string)
    requires ValidName(name) && name + [ASSIGNMENT] <= trimmed
    ensures !(EXPORT <= trimmed)
  {
    var start := name + [ASSIGNMENT];
    assert forall k | 0 <= k < |start| :: trimmed[k] == start[k];
    assert EXPORT[|EXPORT| - 1] == ' ';
    assert trimmed[|name|] == ASSIGNMENT;
    if |name| < |EXPORT| {
      assert EXPORT[|name|] != ASSIGNMENT;
    } else {
      assert NameCharacter(trimmed[|EXPORT| - 1]);
    }
  }

  lemma ReadsOpened(entry: Assignment, breaks: bool, lines: seq<string>, index: nat, first: string, more: seq<string>)
    requires ValidName(entry.name) && index + 1 + |more| <= |lines|
    requires lines[index] == entry.name + [ASSIGNMENT, DOUBLE_QUOTE] + first
    requires lines[index + 1..index + 1 + |more|] == more
    requires first + Glued(more) == Escaped(entry.value, breaks) + [DOUBLE_QUOTE]
    ensures Read(lines, index) == Sets(entry, index + 1 + |more|)
  {
    GathersAll(lines, index + 1, more, first, entry.value, breaks);
    ReadsAssigned(lines, index, entry.name, first, Gathered(entry.value, index + 1 + |more|));
  }

  lemma ReadsAssigned(lines: seq<string>, index: nat, name: string, first: string, quoted: Gathered)
    requires ValidName(name) && index < |lines| && lines[index] == name + [ASSIGNMENT, DOUBLE_QUOTE] + first
    requires Gather(lines, index + 1, first, DOUBLE_QUOTE) == Some(quoted)
    ensures Read(lines, index) == Sets(Assignment(name, quoted.value), quoted.index)
  {
    var written := [DOUBLE_QUOTE] + first;
    ReadsHead(name, lines[index], first);
    assert written[1..] == first;
  }

  lemma ReadsHead(name: string, line: string, first: string)
    requires ValidName(name) && line == name + [ASSIGNMENT, DOUBLE_QUOTE] + first
    ensures !Skipped(line) && Assigns(line) && NameOn(line) == name && WrittenOn(line) == [DOUBLE_QUOTE] + first
  {
    ReadsName(name, line);
    assert line[|name| + 1..] == [DOUBLE_QUOTE] + first;
  }

  lemma PrintedLines(entry: Assignment, breaks: bool) returns (first: string, more: seq<string>)
    requires ValidName(entry.name)
    ensures Lines(Printed(entry, breaks)) == [entry.name + [ASSIGNMENT, DOUBLE_QUOTE] + first] + more
    ensures first + Glued(more) == Escaped(entry.value, breaks) + [DOUBLE_QUOTE]
  {
    var start := entry.name + [ASSIGNMENT, DOUBLE_QUOTE];
    var whole := Escaped(entry.value, breaks) + [DOUBLE_QUOTE];
    EscapedHasNoReturn(entry.value, breaks);
    LinesJoin(whole);
    first, more := Lines(whole)[0], Lines(whole)[1..];
    StartIsInFirst(start, whole);
    assert Printed(entry, breaks) == start + whole;
  }

  /** One printed variable at the head of the lines is read back, and all its lines with it. */
  lemma ReadsPrinted(entry: Assignment, breaks: bool, lines: seq<string>, index: nat, own: seq<string>, rest: seq<string>)
    requires ValidName(entry.name) && own == Lines(Printed(entry, breaks))
    requires index <= |lines| && lines[index..] == own + rest
    ensures index < index + |own| <= |lines| && Read(lines, index) == Sets(entry, index + |own|)
    ensures lines[index + |own|..] == rest
  {
    var first, more := PrintedLines(entry, breaks);
    ReadsOwn(entry, breaks, lines, index, first, more, rest);
  }

  lemma ReadsOwn(entry: Assignment, breaks: bool, lines: seq<string>, index: nat, first: string, more: seq<string>, rest: seq<string>)
    requires ValidName(entry.name) && first + Glued(more) == Escaped(entry.value, breaks) + [DOUBLE_QUOTE]
    requires index <= |lines| && lines[index..] == [entry.name + [ASSIGNMENT, DOUBLE_QUOTE] + first] + more + rest
    ensures index + 1 + |more| <= |lines| && Read(lines, index) == Sets(entry, index + 1 + |more|)
    ensures lines[index + 1 + |more|..] == rest
  {
    OwnLines(lines, index, entry.name + [ASSIGNMENT, DOUBLE_QUOTE] + first, more, rest);
    ReadsOpened(entry, breaks, lines, index, first, more);
  }

  lemma OwnLines(lines: seq<string>, index: nat, head: string, more: seq<string>, rest: seq<string>)
    requires index <= |lines| && lines[index..] == [head] + more + rest
    ensures index + 1 + |more| <= |lines| && lines[index] == head
    ensures lines[index + 1..index + 1 + |more|] == more && lines[index + 1 + |more|..] == rest
  {
    var own := [head] + more;
    assert own[1..] == more;
  }

  predicate ReadsAt(lines: seq<string>, readings: seq<Reading>, index: nat) {
    index < |lines| == |readings| ==> readings[index] == Read(lines, index)
  }

  lemma PrintedFileLines(entries: seq<Assignment>, breaks: bool)
    requires |entries| > 1 && ValidName(entries[0].name)
    ensures Lines(PrintedFile(entries, breaks)) == Lines(Printed(entries[0], breaks)) + Lines(PrintedFile(entries[1..], breaks))
  {
    PrintedHasNoReturn(entries[0], breaks);
    LinesAfter(Printed(entries[0], breaks), PrintedFile(entries[1..], breaks));
  }

  ghost predicate ReadsAll(lines: seq<string>, readings: seq<Reading>) {
    && |lines| == |readings| && Forward(readings)
    && forall i: nat {:trigger ReadsAt(lines, readings, i)} :: ReadsAt(lines, readings, i)
  }

  lemma ReadingIs(entry: Assignment, breaks: bool, lines: seq<string>, readings: seq<Reading>, index: nat,
                  own: seq<string>, rest: seq<string>)
    requires ValidName(entry.name) && own == Lines(Printed(entry, breaks)) && ReadsAll(lines, readings)
    requires index <= |lines| && lines[index..] == own + rest
    ensures index < index + |own| <= |lines| && readings[index] == Sets(entry, index + |own|)
  {
    ReadsPrinted(entry, breaks, lines, index, own, rest);
    assert ReadsAt(lines, readings, index);
  }

  /** The lines of each variable, one behind the other. */
  function Flat(blocks: seq<seq<string>>): seq<string> {
    if blocks == [] then [] else blocks[0] + Flat(blocks[1..])
  }

  ghost predicate PrintedAs(entries: seq<Assignment>, breaks: bool, blocks: seq<seq<string>>) {
    && |blocks| == |entries|
    && forall k | 0 <= k < |entries| :: ValidName(entries[k].name) && blocks[k] == Lines(Printed(entries[k], breaks))
  }

  lemma {:induction false} PrintedFileBlocks(entries: seq<Assignment>, breaks: bool, blocks: seq<seq<string>>)
    requires entries != [] && PrintedAs(entries, breaks, blocks)
    ensures Lines(PrintedFile(entries, breaks)) == Flat(blocks)
    decreases |entries|
  {
    if |entries| == 1 {
      assert Flat(blocks[1..]) == [];
      assert blocks[0] + [] == blocks[0];
    } else {
      PrintedFileLines(entries, breaks);
      PrintedFileBlocks(entries[1..], breaks, blocks[1..]);
    }
  }

  function Offset(blocks: seq<seq<string>>, k: nat): nat
    requires k <= |blocks|
  {
    if k == 0 then 0 else Offset(blocks, k - 1) + |blocks[k - 1]|
  }

  lemma {:induction false} FlatFrom(blocks: seq<seq<string>>, k: nat)
    requires k <= |blocks|
    ensures Offset(blocks, k) <= |Flat(blocks)| && Flat(blocks)[Offset(blocks, k)..] == Flat(blocks[k..])
  {
    if k == 0 {
      assert blocks[0..] == blocks;
    } else {
      FlatFrom(blocks, k - 1);
      assert blocks[k - 1..][0] == blocks[k - 1] && blocks[k - 1..][1..] == blocks[k..];
      var tail := Flat(blocks[k - 1..]);
      assert Flat(blocks)[Offset(blocks, k)..] == tail[|blocks[k - 1]|..] == Flat(blocks[k..]);
    }
  }

  /** The reading of each variable leads to that of the next one, and the last to the end. */
  ghost predicate Leads(readings: seq<Reading>, from: nat, entry: Assignment, next: nat) {
    from < next <= |readings| && readings[from] == Sets(entry, next)
  }

  ghost predicate Chained(entries: seq<Assignment>, readings: seq<Reading>, offsets: seq<nat>) {
    && |offsets| == |entries| + 1 && offsets[|entries|] == |readings|
    && forall k {:trigger entries[k]} | 0 <= k < |entries| :: Leads(readings, offsets[k], entries[k], offsets[k + 1])
  }

  lemma {:induction false} ParsesChain(entries: seq<Assignment>, readings: seq<Reading>, offsets: seq<nat>)
    requires Forward(readings) && Chained(entries, readings, offsets)
    ensures offsets[0] <= |readings| && ParseFrom(readings, offsets[0]) == Ok(entries)
    decreases |entries|
  {
    if entries != [] {
      ParsesChain(entries[1..], readings, offsets[1..]);
      assert entries == [entries[0]] + entries[1..];
    }
  }

  lemma ReadsBlock(entries: seq<Assignment>, breaks: bool, blocks: seq<seq<string>>, lines: seq<string>,
                   readings: seq<Reading>, k: nat)
    requires PrintedAs(entries, breaks, blocks) && lines == Flat(blocks) && ReadsAll(lines, readings) && k < |entries|
    ensures Leads(readings, Offset(blocks, k), entries[k], Offset(blocks, k + 1))
  {
    BlockAt(blocks, k);
    ReadingIs(entries[k], breaks, lines, readings, Offset(blocks, k), blocks[k], Flat(blocks[k + 1..]));
  }

  lemma BlockAt(blocks: seq<seq<string>>, k: nat)
    requires k < |blocks|
    ensures Offset(blocks, k) <= |Flat(blocks)|
    ensures Flat(blocks)[Offset(blocks, k)..] == blocks[k] + Flat(blocks[k + 1..])
  {
    FlatFrom(blocks, k);
    assert blocks[k..][1..] == blocks[k + 1..];
  }

  lemma BlocksChain(entries: seq<Assignment>, breaks: bool, blocks: seq<seq<string>>,
                    lines: seq<string>, readings: seq<Reading>) returns (offsets: seq<nat>)
    requires PrintedAs(entries, breaks, blocks) && lines == Flat(blocks) && ReadsAll(lines, readings)
    ensures Chained(entries, readings, offsets) && offsets[0] == 0
  {
    offsets := seq(|entries| + 1, k requires 0 <= k <= |entries| => Offset(blocks, k));
    forall k {:trigger entries[k]} | 0 <= k < |entries|
      ensures Leads(readings, offsets[k], entries[k], offsets[k + 1])
    {
      ReadsBlock(entries, breaks, blocks, lines, readings, k);
    }
    FlatFrom(blocks, |blocks|);
    assert blocks[|blocks|..] == [];
  }

  lemma PrintedHasNoReturn(entry: Assignment, breaks: bool)
    requires ValidName(entry.name)
    ensures '\r' !in Printed(entry, breaks)
  {
    EscapedHasNoReturn(entry.value, breaks);
  }

  /** Whatever the values hold, reading a printed file gives back the variables it was printed from. */
  lemma PrintedRoundTrip(entries: seq<Assignment>, breaks: bool)
    requires forall k | 0 <= k < |entries| :: ValidName(entries[k].name)
    ensures Parsed(PrintedFile(entries, breaks)) == Ok(entries)
  {
    var lines := Lines(PrintedFile(entries, breaks));
    var readings := Readings(lines);
    assert lines[0..] == lines;
    if entries == [] {
      assert readings[0] == Skips;
      assert ParseFrom(readings, 1) == Ok([]);
    } else {
      forall i: nat
        ensures ReadsAt(lines, readings, i)
      {
      }
      var blocks := seq(|entries|, k requires 0 <= k < |entries| => Lines(Printed(entries[k], breaks)));
      PrintedFileBlocks(entries, breaks, blocks);
      var offsets := BlocksChain(entries, breaks, blocks, lines, readings);
      ParsesChain(entries, readings, offsets);
    }
  }
}
