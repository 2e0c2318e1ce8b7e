/** packages/app-operations/src/env-file.ts
  *
  * A string is a sequence of Unicode scalar values where the source has UTF-16 code units, and white space
  * is what `trim` and `\s` of ECMAScript take for it.
  */
module EnvFile {
  import opened Prelude

  datatype Assignment = Assignment(name: string, value: string)

  datatype Failure = NotAssignment(line: nat) | NeverClosed(name: string)

  const COMMENT := '#'
  const EXPORT := "export "
  const ASSIGNMENT := '='
  const ESCAPE := '\\'
  const DOUBLE_QUOTE := '"'
  const SINGLE_QUOTE := '\''

  predicate IsSpace(c: char) {
    '\t' <= c <= '\r' || c == ' ' || c == '\U{a0}' || c == '\U{1680}' || '\U{2000}' <= c <= '\U{200a}'
    || c == '\U{2028}' || c == '\U{2029}' || c == '\U{202f}' || c == '\U{205f}' || c == '\U{3000}' || c == '\U{feff}'
  }

  /** The characters an escape stands for, by the letter behind the backslash. */
  function Meaning(letter: char): Option<char> {
    if letter == 'n' then Some('\n')
    else if letter == 'r' then Some('\r')
    else if letter == 't' then Some('\t')
    else if letter == ESCAPE then Some(ESCAPE)
    else if letter == DOUBLE_QUOTE then Some(DOUBLE_QUOTE)
    else None
  }

  // ----- Strings

  function TrimStart(text: string): (trimmed: string)
    ensures |trimmed| <= |text|
  {
    if text != [] && IsSpace(text[0]) then TrimStart(text[1..]) else text
  }

  function TrimEnd(text: string): (trimmed: string)
    ensures trimmed <= text
  {
    if text != [] && IsSpace(text[|text| - 1]) then TrimEnd(text[..|text| - 1]) else text
  }

  function Trim(text: string): string {
    TrimEnd(TrimStart(text))
  }

  function WithoutReturn(line: string): string {
    if line != [] && line[|line| - 1] == '\r' then line[..|line| - 1] else line
  }

  /** `split(/\r?\n/)`. */
  function Lines(text: string): (lines: seq<string>)
    ensures |lines| > 0
  {
    var i := IndexOf(text, '\n', 0);
    if i == |text| then [text] else [WithoutReturn(text[..i])] + Lines(text[i + 1..])
  }

  // ----- Values

  function ClosesFrom(body: string, quote: char, escapes: bool, at: nat): (close: Option<nat>)
    ensures close.Some? ==> at <= close.value < |body| && body[close.value] == quote
    decreases |body| - at
  {
    if at >= |body| then None
    else if escapes && body[at] == ESCAPE then ClosesFrom(body, quote, escapes, at + 2)
    else if body[at] == quote then Some(at)
    else ClosesFrom(body, quote, escapes, at + 1)
  }

  function Unescaped(value: string): string {
    if value == [] then []
    else if value[0] == ESCAPE && |value| > 1 && Meaning(value[1]).Some? then
      [Meaning(value[1]).value] + Unescaped(value[2..])
    else [value[0]] + Unescaped(value[1..])
  }

  function InlineComment(written: string): (at: nat)
    ensures at <= |written|
  {
    if |written| < 2 then |written|
    else if IsSpace(written[0]) && written[1] == COMMENT then 0
    else 1 + InlineComment(written[1..])
  }

  function Unquoted(written: string): string {
    Trim(written[..InlineComment(written)])
  }

  datatype Gathered = Gathered(value: string, index: nat)

  function Gather(lines: seq<string>, from: nat, start: string, quote: char): (gathered: Option<Gathered>)
    requires from <= |lines|
    ensures gathered.Some? ==> from <= gathered.value.index <= |lines|
    decreases |lines| - from
  {
    var escapes := quote == DOUBLE_QUOTE;
    match ClosesFrom(start, quote, escapes, 0)
    case Some(at) => Some(Gathered(if escapes then Unescaped(start[..at]) else start[..at], from))
    case None =>
      if from == |lines| then None else Gather(lines, from + 1, start + "\n" + lines[from], quote)
  }

  // ----- The file

  /** The line without `export`. */
  function AssignmentOf(trimmed: string): string {
    if EXPORT <= trimmed then trimmed[|EXPORT|..] else trimmed
  }

  predicate Skipped(line: string) {
    Trim(line) == "" || Trim(line)[0] == COMMENT
  }

  predicate Assigns(line: string) {
    0 < IndexOf(AssignmentOf(Trim(line)), ASSIGNMENT, 0) < |AssignmentOf(Trim(line))|
  }

  function NameOn(line: string): string {
    Trim(AssignmentOf(Trim(line))[..IndexOf(AssignmentOf(Trim(line)), ASSIGNMENT, 0)])
  }

  /** What is written behind the line's '='. */
  function WrittenOn(line: string): string {
    var i := IndexOf(line, ASSIGNMENT, 0);
    TrimStart(if i < |line| then line[i + 1..] else line)
  }

  function Quoted(written: string): bool {
    written != [] && (written[0] == DOUBLE_QUOTE || written[0] == SINGLE_QUOTE)
  }

  datatype Reading = Skips | Sets(entry: Assignment, next: nat) | Fails(failure: Failure)

  /** What the line at `index`, and the lines its value goes on over, say. */
  function Read(lines: seq<string>, index: nat): (reading: Reading)
    requires index < |lines|
    ensures reading.Sets? ==> index < reading.next <= |lines|
  {
    var line := lines[index];
    if Skipped(line) then Skips
    else if !Assigns(line) then Fails(NotAssignment(index + 1))
    else
      var written := WrittenOn(line);
      if !Quoted(written) then Sets(Assignment(NameOn(line), Unquoted(written)), index + 1)
      else
        match Gather(lines, index + 1, written[1..], written[0])
        case None => Fails(NeverClosed(NameOn(line)))
        case Some(quoted) => Sets(Assignment(NameOn(line), quoted.value), quoted.index)
  }

  /** A value ends on its own line or a later one. */
  predicate Forward(readings: seq<Reading>) {
    forall i | 0 <= i < |readings| && readings[i].Sets? :: i < readings[i].next <= |readings|
  }

  function Readings(lines: seq<string>): (readings: seq<Reading>)
    ensures |readings| == |lines| && Forward(readings)
    ensures forall i | 0 <= i < |lines| :: readings[i] == Read(lines, i)
  {
    seq(|lines|, i requires 0 <= i < |lines| => Read(lines, i))
  }

  /** The variables set from a line on. */
  function ParseFrom(readings: seq<Reading>, index: nat): Result<seq<Assignment>, Failure>
    requires Forward(readings) && index <= |readings|
    decreases |readings| - index
  {
    if index == |readings| then Ok([])
    else
      match readings[index]
      case Skips => ParseFrom(readings, index + 1)
      case Fails(failure) => Err(failure)
      case Sets(entry, next) => Before(entry, ParseFrom(readings, next))
  }

  function Before(first: Assignment, rest: Result<seq<Assignment>, Failure>): Result<seq<Assignment>, Failure> {
    match rest
    case Ok(entries) => Ok([first] + entries)
    case Err(failure) => Err(failure)
  }

  function Parsed(text: string): Result<seq<Assignment>, Failure> {
    ParseFrom(Readings(Lines(text)), 0)
  }

  // ----- The loops

  method ClosesAt(body: string, quote: char, escapes: bool) returns (close: Option<nat>)
    ensures close == ClosesFrom(body, quote, escapes, 0)
  {
    var at := 0;
    while at < |body|
      invariant ClosesFrom(body, quote, escapes, 0) == ClosesFrom(body, quote, escapes, at)
      decreases |body| - at
    {
      if escapes && body[at] == ESCAPE {
        at := at + 2;
        continue;
      }
      if body[at] == quote {
        return Some(at);
      }
      at := at + 1;
    }
    close := None;
  }

  method Unescape(value: string) returns (plain: string)
    ensures plain == Unescaped(value)
  {
    plain := "";
    var at := 0;
    while at < |value|
      invariant at <= |value| && plain + Unescaped(value[at..]) == Unescaped(value)
    {
      var rest := value[at..];
      assert rest[1..] == value[at + 1..];
      if value[at] == ESCAPE && at + 1 < |value| && Meaning(value[at + 1]).Some? {
        assert rest[2..] == value[at + 2..];
        plain := plain + [Meaning(value[at + 1]).value];
        at := at + 2;
      } else {
        plain := plain + [value[at]];
        at := at + 1;
      }
    }
  }

  method GatherLines(lines: seq<string>, from: nat, start: string, quote: char) returns (gathered: Option<Gathered>)
    requires from <= |lines|
    ensures gathered == Gather(lines, from, start, quote)
  {
    var escapes := quote == DOUBLE_QUOTE;
    var body, index := start, from;
    var close := ClosesAt(body, quote, escapes);
    while close.None?
      invariant index <= |lines| && close == ClosesFrom(body, quote, escapes, 0)
      invariant Gather(lines, from, start, quote) == Gather(lines, index, body, quote)
      decreases |lines| - index, close.None?
    {
      if index >= |lines| {
        return None;
      }
      body := body + "\n" + lines[index];
      index := index + 1;
      close := ClosesAt(body, quote, escapes);
    }
    var closed := body[..close.value];
    if escapes {
      closed := Unescape(closed);
    }
    gathered := Some(Gathered(closed, index));
  }

  function Behind(entries: seq<Assignment>, rest: Result<seq<Assignment>, Failure>): Result<seq<Assignment>, Failure> {
    match rest
    case Ok(more) => Ok(entries + more)
    case Err(failure) => Err(failure)
  }

  lemma BehindNothing(rest: Result<seq<Assignment>, Failure>)
    ensures Behind([], rest) == rest
  {
    if rest.Ok? {
      assert [] + rest.value == rest.value;
    }
  }

  lemma BehindOne(entries: seq<Assignment>, entry: Assignment, rest: Result<seq<Assignment>, Failure>)
    ensures Behind(entries, Before(entry, rest)) == Behind(entries + [entry], rest)
  {
    if rest.Ok? {
      assert entries + ([entry] + rest.value) == entries + [entry] + rest.value;
    }
  }

  method ParseEnvFile(text: string) returns (parsed: Result<seq<Assignment>, Failure>)
    ensures parsed == Parsed(text)
  {
    var lines := Lines(text);
    var entries: seq<Assignment> := [];
    var index := 0;
    ghost var readings := Readings(lines);
    BehindNothing(ParseFrom(readings, 0));
    while index < |lines|
      invariant index <= |lines| && Parsed(text) == Behind(entries, ParseFrom(readings, index))
      decreases |lines| - index
    {
      var line := lines[index];
      var trimmed := Trim(line);
      index := index + 1;
      if trimmed == "" || trimmed[0] == COMMENT {
        continue;
      }
      var assignment := AssignmentOf(trimmed);
      var at := IndexOf(assignment, ASSIGNMENT, 0);
      if at == 0 || at == |assignment| {
        return Err(NotAssignment(index));
      }
      var name := Trim(assignment[..at]);
      var written := WrittenOn(line);
      if !Quoted(written) {
        BehindOne(entries, Assignment(name, Unquoted(written)), ParseFrom(readings, index));
        entries := entries + [Assignment(name, Unquoted(written))];
        continue;
      }
      var quoted := GatherLines(lines, index, written[1..], written[0]);
      if quoted.None? {
        return Err(NeverClosed(name));
      }
      BehindOne(entries, Assignment(name, quoted.value.value), ParseFrom(readings, quoted.value.index));
      entries := entries + [Assignment(name, quoted.value.value)];
      index := quoted.value.index;
    }
    assert entries + [] == entries;
    parsed := Ok(entries);
  }

  // ----- Where a quoted value ends

  /** How many backslashes stand right before a place. */
  function EscapesBefore(body: string, at: nat): nat
    requires at <= |body|
  {
    if at == 0 || body[at - 1] != ESCAPE then 0 else 1 + EscapesBefore(body, at - 1)
  }

  /** A quote that no backslash escapes. */
  predicate Closing(body: string, quote: char, escapes: bool, at: nat) {
    at < |body| && body[at] == quote && (escapes ==> EscapesBefore(body, at) % 2 == 0)
  }

  predicate FirstClosing(body: string, quote: char, escapes: bool, at: nat) {
    Closing(body, quote, escapes, at) && forall k: nat | k < at :: !Closing(body, quote, escapes, k)
  }

  lemma {:induction false} ClosesBehind(body: string, quote: char, escapes: bool, at: nat)
    requires quote != ESCAPE && (escapes && at <= |body| ==> EscapesBefore(body, at) % 2 == 0)
    requires forall k: nat | k < at :: !Closing(body, quote, escapes, k)
    ensures match ClosesFrom(body, quote, escapes, at)
            case Some(close) => FirstClosing(body, quote, escapes, close)
            case None => forall k: nat :: !Closing(body, quote, escapes, k)
    decreases |body| - at
  {
    if at < |body| {
      if escapes && body[at] == ESCAPE {
        assert EscapesBefore(body, at + 1) == 1 + EscapesBefore(body, at);
        ClosesBehind(body, quote, escapes, at + 2);
      } else if body[at] != quote {
        ClosesBehind(body, quote, escapes, at + 1);
      }
    }
  }

  /** The scan finds the first quote with an even number of backslashes before it, or the first quote at all
    * where backslashes mean nothing. */
  lemma ClosesAtFirst(body: string, quote: char, escapes: bool)
    requires quote != ESCAPE
    ensures forall at: nat :: ClosesFrom(body, quote, escapes, 0) == Some(at) <==> FirstClosing(body, quote, escapes, at)
  {
    ClosesBehind(body, quote, escapes, 0);
    forall at: nat
      ensures ClosesFrom(body, quote, escapes, 0) == Some(at) <==> FirstClosing(body, quote, escapes, at)
    {
    }
  }

  /** What is behind the opening quote, with all lines before `to` taken in. */
  function Body(lines: seq<string>, from: nat, to: nat, start: string): string
    requires from <= to <= |lines|
  {
    if from == to then start else Body(lines, from, to - 1, start) + "\n" + lines[to - 1]
  }

  predicate ClosedBy(lines: seq<string>, from: nat, to: nat, start: string, quote: char)
    requires from <= to <= |lines|
  {
    ClosesFrom(Body(lines, from, to, start), quote, quote == DOUBLE_QUOTE, 0).Some?
  }

  lemma {:induction false} BodyBehind(lines: seq<string>, from: nat, to: nat, start: string)
    requires from < to <= |lines|
    ensures Body(lines, from, to, start) == Body(lines, from + 1, to, start + "\n" + lines[from])
  {
    if from + 1 < to {
      BodyBehind(lines, from, to - 1, start);
    }
  }

  /** A quoted value goes on over exactly as many lines as it takes to close it, and is what then stands
    * before the first closing quote; there is none exactly if not even all lines close it. */
  lemma {:induction false} GatherTells(lines: seq<string>, from: nat, start: string, quote: char)
    requires from <= |lines|
    ensures match Gather(lines, from, start, quote)
            case None => forall to | from <= to <= |lines| :: !ClosedBy(lines, from, to, start, quote)
            case Some(gathered) =>
              && (forall to | from <= to < gathered.index :: !ClosedBy(lines, from, to, start, quote))
              && ClosedBy(lines, from, gathered.index, start, quote)
              && var body, escapes := Body(lines, from, gathered.index, start), quote == DOUBLE_QUOTE;
                 var before := body[..ClosesFrom(body, quote, escapes, 0).value];
                 gathered.value == if escapes then Unescaped(before) else before
    decreases |lines| - from
  {
    if !ClosedBy(lines, from, from, start, quote) && from < |lines| {
      var more := start + "\n" + lines[from];
      GatherTells(lines, from + 1, more, quote);
      forall to | from < to <= |lines|
        ensures ClosedBy(lines, from, to, start, quote) <==> ClosedBy(lines, from + 1, to, more, quote)
        ensures Body(lines, from, to, start) == Body(lines, from + 1, to, more)
      {
        BodyBehind(lines, from, to, start);
      }
    }
  }

  // ----- Which lines are read

  /** The line after those a reading takes in. */
  function LineAfter(readings: seq<Reading>, index: nat): nat
    requires index < |readings|
  {
    if readings[index].Sets? then readings[index].next else index + 1
  }

  /** The lines from `from` up to `to`, cut into blocks that are read one after another; each block is a line
    * that is skipped, or a variable's. */
  ghost predicate Cut(readings: seq<Reading>, from: nat, to: nat, offsets: seq<nat>) {
    && |offsets| > 0 && offsets[0] == from && offsets[|offsets| - 1] == to <= |readings|
    && forall k | 0 <= k < |offsets| - 1 ::
         offsets[k] < |readings| && !readings[offsets[k]].Fails? && offsets[k + 1] == LineAfter(readings, offsets[k])
  }

  /** The variables of the blocks, in order. */
  function SetBy(readings: seq<Reading>, offsets: seq<nat>): seq<Assignment> {
    if |offsets| <= 1 then []
    else
      (if offsets[0] < |readings| && readings[offsets[0]].Sets? then [readings[offsets[0]].entry] else [])
      + SetBy(readings, offsets[1..])
  }

  /** Every line is in one block only. */
  lemma {:induction false} BlocksApart(readings: seq<Reading>, from: nat, to: nat, offsets: seq<nat>, j: nat, k: nat)
    requires Forward(readings) && Cut(readings, from, to, offsets) && j < k < |offsets|
    ensures offsets[j] < offsets[k]
  {
    if j < k - 1 {
      BlocksApart(readings, from, to, offsets, j, k - 1);
    }
  }

  lemma BeforeBehind(entry: Assignment, entries: seq<Assignment>, rest: Result<seq<Assignment>, Failure>)
    ensures Before(entry, Behind(entries, rest)) == Behind([entry] + entries, rest)
  {
    if rest.Ok? {
      assert [entry] + (entries + rest.value) == [entry] + entries + rest.value;
    }
  }

  lemma CutBehindFirst(readings: seq<Reading>, from: nat, to: nat, offsets: seq<nat>)
    requires Forward(readings) && Cut(readings, from, to, offsets) && |offsets| > 1
    ensures from < |readings| && !readings[from].Fails?
    ensures offsets[1] <= |readings| && Cut(readings, LineAfter(readings, from), to, offsets[1..])
  {
  }

  /** What a cut of the lines read so far leads to. */
  lemma {:induction false} ParsedAlong(readings: seq<Reading>, from: nat, to: nat, offsets: seq<nat>)
    requires Forward(readings) && Cut(readings, from, to, offsets) && from <= |readings|
    ensures ParseFrom(readings, from) == Behind(SetBy(readings, offsets), ParseFrom(readings, to))
    decreases |offsets|
  {
    if |offsets| == 1 {
      BehindNothing(ParseFrom(readings, to));
    } else {
      CutBehindFirst(readings, from, to, offsets);
      ParsedAlong(readings, LineAfter(readings, from), to, offsets[1..]);
      var rest := SetBy(readings, offsets[1..]);
      if readings[from].Sets? {
        BeforeBehind(readings[from].entry, rest, ParseFrom(readings, to));
      } else {
        assert [] + rest == rest;
      }
    }
  }

  lemma {:induction false} CutFound(readings: seq<Reading>, from: nat) returns (offsets: seq<nat>, to: nat)
    requires Forward(readings) && from <= |readings|
    ensures Cut(readings, from, to, offsets) && (to < |readings| ==> readings[to].Fails?)
    decreases |readings| - from
  {
    if from == |readings| || readings[from].Fails? {
      offsets, to := [from], from;
    } else {
      offsets, to := CutFound(readings, LineAfter(readings, from));
      offsets := [from] + offsets;
    }
  }

  /** A file is read in blocks of lines, each line in one block only. It sets the variables of its blocks, in
    * order, exactly if they go up to its end; and it is refused exactly for the line the blocks stop at. */
  lemma LinesReadOnce(text: string)
    ensures var readings := Readings(Lines(text));
            && (forall entries :: Parsed(text) == Ok(entries) <==>
                  exists offsets :: Cut(readings, 0, |readings|, offsets) && SetBy(readings, offsets) == entries)
            && (forall failure :: Parsed(text) == Err(failure) <==>
                  exists offsets, to: nat {:trigger Cut(readings, 0, to, offsets)} ::
                    Cut(readings, 0, to, offsets) && to < |readings| && readings[to] == Fails(failure))
            && (forall offsets, to: nat, j, k | Cut(readings, 0, to, offsets) && 0 <= j < k < |offsets| ::
                  offsets[j] < offsets[k])
  {
    var readings := Readings(Lines(text));
    forall offsets, to: nat | Cut(readings, 0, to, offsets)
      ensures Parsed(text) == Behind(SetBy(readings, offsets), ParseFrom(readings, to))
      ensures to == |readings| ==> Parsed(text) == Ok(SetBy(readings, offsets))
      ensures forall j, k | 0 <= j < k < |offsets| :: offsets[j] < offsets[k]
    {
      ParsedAlong(readings, 0, to, offsets);
      assert SetBy(readings, offsets) + [] == SetBy(readings, offsets);
      forall j, k | 0 <= j < k < |offsets|
        ensures offsets[j] < offsets[k]
      {
        BlocksApart(readings, 0, to, offsets, j, k);
      }
    }
    var offsets, to := CutFound(readings, 0);
    if to < |readings| {
      assert ParseFrom(readings, to) == Err(readings[to].failure);
    } else {
      assert Cut(readings, 0, |readings|, offsets);
    }
  }
}
