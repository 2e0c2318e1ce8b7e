/** What single lines of a `.env` file say: packages/app-operations/src/env-file.ts */
module EnvFileLines {
  import opened Prelude
  import opened EnvFile
  import opened EnvFileRoundTrip

  predicate AllSpace(text: string) {
    forall k | 0 <= k < |text| :: IsSpace(text[k])
  }

  /** Neither begins nor ends with white space. */
  predicate Bare(text: string) {
    text != [] ==> !IsSpace(text[0]) && !IsSpace(text[|text| - 1])
  }

  // ----- Trimming

  lemma {:induction false} TrimStartIs(before: string, text: string)
    requires AllSpace(before) && (text != [] ==> !IsSpace(text[0]))
    ensures TrimStart(before + text) == text
  {
    if before == [] {
      assert before + text == text;
    } else {
      assert (before + text)[1..] == before[1..] + text;
      TrimStartIs(before[1..], text);
    }
  }

  lemma {:induction false} TrimEndIs(text: string, after: string)
    requires AllSpace(after) && (text != [] ==> !IsSpace(text[|text| - 1]))
    ensures TrimEnd(text + after) == text
  {
    if after == [] {
      assert text + after == text;
    } else {
      var last := |after| - 1;
      assert (text + after)[..|text + after| - 1] == text + after[..last];
      TrimEndIs(text, after[..last]);
    }
  }

  /** Trimming takes the white space around a bare text away. */
  lemma TrimIs(before: string, text: string, after: string)
    requires AllSpace(before) && AllSpace(after) && Bare(text)
    ensures Trim(before + text + after) == text
  {
    if text == [] {
      assert before + text + after == (before + after) + [];
      TrimStartIs(before + after, []);
    } else {
      assert before + text + after == before + (text + after);
      TrimStartIs(before, text + after);
      TrimEndIs(text, after);
    }
  }

  lemma {:induction false} SpaceBefore(text: string) returns (before: string)
    ensures text == before + TrimStart(text) && AllSpace(before)
    ensures TrimStart(text) != [] ==> !IsSpace(TrimStart(text)[0])
  {
    if text != [] && IsSpace(text[0]) {
      var more := SpaceBefore(text[1..]);
      before := [text[0]] + more;
    } else {
      before := [];
    }
  }

  lemma {:induction false} SpaceAfter(text: string) returns (after: string)
    ensures text == TrimEnd(text) + after && AllSpace(after)
    ensures TrimEnd(text) != [] ==> !IsSpace(TrimEnd(text)[|TrimEnd(text)| - 1])
  {
    if text != [] && IsSpace(text[|text| - 1]) {
      var more := SpaceAfter(text[..|text| - 1]);
      after := more + [text[|text| - 1]];
    } else {
      after := [];
    }
  }

  /** Every text is its trimmed text with white space around it. */
  lemma TrimTells(text: string) returns (before: string, after: string)
    ensures text == before + Trim(text) + after && AllSpace(before) && AllSpace(after) && Bare(Trim(text))
  {
    before := SpaceBefore(text);
    after := SpaceAfter(TrimStart(text));
    assert TrimEnd(TrimStart(text)) <= TrimStart(text);
    assert before + (Trim(text) + after) == before + Trim(text) + after;
  }

  // ----- Values without quotes

  predicate CommentAt(written: string, at: nat) {
    at + 1 < |written| && IsSpace(written[at]) && written[at + 1] == COMMENT
  }

  predicate FirstComment(written: string, at: nat) {
    && at <= |written| && (at < |written| ==> CommentAt(written, at))
    && forall k: nat | k < at :: !CommentAt(written, k)
  }

  lemma {:induction false} CommentIsFirst(written: string)
    ensures FirstComment(written, InlineComment(written))
  {
    if |written| >= 2 && !(IsSpace(written[0]) && written[1] == COMMENT) {
      CommentIsFirst(written[1..]);
      forall k: nat | k < InlineComment(written)
        ensures !CommentAt(written, k)
      {
        assert k > 0 ==> (CommentAt(written, k) <==> CommentAt(written[1..], k - 1));
      }
    }
  }

  /** An unquoted value is what is written up to the first white space with a '#' behind it, without the white
    * space around. */
  lemma UnquotedTells(written: string) returns (at: nat, before: string, after: string)
    ensures FirstComment(written, at) && AllSpace(before) && AllSpace(after) && Bare(Unquoted(written))
    ensures written[..at] == before + Unquoted(written) + after
  {
    CommentIsFirst(written);
    at := InlineComment(written);
    before, after := TrimTells(written[..at]);
  }

  lemma FirstIs(written: string, at: nat)
    requires FirstComment(written, at)
    ensures InlineComment(written) == at
  {
    CommentIsFirst(written);
    var i: nat := InlineComment(written);
    assert i < at ==> !CommentAt(written, i);
    assert at < i ==> !CommentAt(written, at);
  }

  // ----- Lines

  /** A line says nothing exactly if it is blank or its first character that is no white space is '#'. */
  lemma SkippedTells(line: string)
    ensures Skipped(line) <==>
      AllSpace(line) || exists k: nat :: k < |line| && AllSpace(line[..k]) && line[k] == COMMENT
  {
    var before, after := TrimTells(line);
    var text := Trim(line);
    if text == [] {
      assert line == before + after;
    } else {
      assert line[|before|] == text[0];
      assert line[..|before|] == before;
      assert forall k: nat | k < |before| :: line[k] == before[k];
      assert forall k: nat | |before| < k <= |line| :: line[..k][|before|] == text[0];
    }
  }

  /** The white space behind an unquoted value, or white space and a comment. */
  predicate IsTail(tail: string) {
    AllSpace(tail) || exists k: nat :: 0 < k < |tail| && AllSpace(tail[..k]) && tail[k] == COMMENT
  }

  predicate IsPlain(value: string) {
    && value != [] && Bare(value) && !Quoted(value)
    && forall k | 0 <= k < |value| :: !CommentAt(value, k)
  }

  lemma PlainTail(value: string, tail: string)
    requires IsPlain(value) && IsTail(tail)
    ensures Unquoted(value + tail) == value
  {
    if AllSpace(tail) {
      PlainSpace(value, tail, |tail|, value + tail);
    } else {
      var k: nat :| 0 < k < |tail| && AllSpace(tail[..k]) && tail[k] == COMMENT;
      PlainComment(value, tail, k);
    }
  }

  lemma PlainSpace(value: string, tail: string, k: nat, written: string)
    requires IsPlain(value) && k == |tail| && AllSpace(tail) && written == value + tail
    ensures Unquoted(written) == value
  {
    assert tail[..k] == tail;
    NoCommentBefore(value, tail, k);
    FirstIs(written, |written|);
    assert written[..|written|] == [] + value + tail;
    TrimIs([], value, tail);
  }

  lemma PlainComment(value: string, tail: string, k: nat)
    requires IsPlain(value) && 0 < k < |tail| && AllSpace(tail[..k]) && tail[k] == COMMENT
    ensures Unquoted(value + tail) == value
  {
    var written, at, space := value + tail, |value| + k - 1, tail[..k - 1];
    NoCommentBefore(value, tail, k);
    assert written[at] == tail[..k][k - 1] && written[at + 1] == tail[k];
    FirstIs(written, at);
    assert forall i | 0 <= i < k - 1 :: space[i] == tail[..k][i];
    assert written[..at] == [] + value + space;
    TrimIs([], value, space);
  }

  lemma NoCommentBefore(value: string, tail: string, k: nat)
    requires IsPlain(value) && k <= |tail| && AllSpace(tail[..k])
    ensures forall at: nat | at + 1 < |value| + k :: !CommentAt(value + tail, at)
  {
    var written := value + tail;
    forall at: nat | at + 1 < |value| + k
      ensures !CommentAt(written, at)
    {
      if at + 1 < |value| {
        assert !CommentAt(value, at);
        assert written[at] == value[at] && written[at + 1] == value[at + 1];
      } else {
        assert written[at + 1] == tail[..k][at + 1 - |value|];
        assert !IsSpace(COMMENT);
      }
    }
  }

  /** The line's front: white space, perhaps `export`, the name and '='. */
  function Front(lead: string, exported: bool, name: string): string {
    lead + (if exported then EXPORT else "") + name + [ASSIGNMENT]
  }

  lemma FrontReads(lead: string, exported: bool, name: string, rest: string)
    requires AllSpace(lead) && ValidName(name)
    ensures var line := Front(lead, exported, name) + rest;
            !Skipped(line) && Assigns(line) && NameOn(line) == name && WrittenOn(line) == TrimStart(rest)
  {
    var word := if exported then EXPORT else "";
    var start := name + [ASSIGNMENT];
    var line := Front(lead, exported, name) + rest;
    var text := word + start + rest;
    assert line == lead + text;
    assert NameCharacter(name[0]);
    assert text[0] == (word + start)[0];
    TrimStartIs(lead, text);
    TrimEndKeeps(text, word + start);
    var trimmed := Trim(line);
    assert trimmed[..|word + start|] == word + start;
    NameRead(trimmed, exported, name);
    EqualsSign(lead, word, name, rest);
  }

  lemma NameRead(trimmed: string, exported: bool, name: string)
    requires ValidName(name) && (if exported then EXPORT else "") + (name + [ASSIGNMENT]) <= trimmed
    ensures trimmed != "" && trimmed[0] != COMMENT
    ensures var assignment := AssignmentOf(trimmed);
            && IndexOf(assignment, ASSIGNMENT, 0) == |name| < |assignment|
            && Trim(assignment[..|name|]) == name
  {
    var start := name + [ASSIGNMENT];
    assert NameCharacter(name[0]);
    if exported {
      assert trimmed[..|EXPORT|] == (EXPORT + start)[..|EXPORT|] == EXPORT;
      assert trimmed[|EXPORT|..|EXPORT| + |start|] == (EXPORT + start)[|EXPORT|..] == start;
    } else {
      assert "" + start == start;
      NotExported(name, trimmed);
    }
    assert trimmed[0] == if exported then EXPORT[0] else name[0];
    NameBeforeEquals(AssignmentOf(trimmed), name);
  }

  lemma NameBeforeEquals(assignment: string, name: string)
    requires ValidName(name) && name + [ASSIGNMENT] <= assignment
    ensures IndexOf(assignment, ASSIGNMENT, 0) == |name| < |assignment|
    ensures Trim(assignment[..|name|]) == name
  {
    var start := name + [ASSIGNMENT];
    assert NameCharacter(name[0]) && NameCharacter(name[|name| - 1]);
    assert assignment[..|start|] == start;
    assert assignment[..|name|] == start[..|name|] == name && assignment[|name|] == start[|name|];
    IndexIs(assignment, ASSIGNMENT, |name|);
    assert [] + name + [] == name;
    TrimIs([], name, []);
  }

  lemma EqualsSign(lead: string, word: string, name: string, rest: string)
    requires AllSpace(lead) && ValidName(name) && (word == EXPORT || word == "")
    ensures var line := lead + word + name + [ASSIGNMENT] + rest;
            var i := IndexOf(line, ASSIGNMENT, 0); i < |line| && line[i + 1..] == rest
  {
    var front := lead + word + name;
    var line := front + [ASSIGNMENT] + rest;
    assert ASSIGNMENT !in lead && ASSIGNMENT !in word && ASSIGNMENT !in name;
    assert line[..|front|] == front;
    IndexIs(line, ASSIGNMENT, |front|);
  }

  lemma ReadsPlain(lines: seq<string>, index: nat, name: string, written: string, value: string)
    requires index < |lines| && !Skipped(lines[index]) && Assigns(lines[index])
    requires NameOn(lines[index]) == name && WrittenOn(lines[index]) == written
    requires !Quoted(written) && Unquoted(written) == value
    ensures Read(lines, index) == Sets(Assignment(name, value), index + 1)
  {
  }

  lemma PlainWritten(gap: string, value: string, tail: string)
    requires AllSpace(gap) && IsPlain(value)
    ensures TrimStart(gap + value + tail) == value + tail && !Quoted(value + tail)
  {
    assert gap + value + tail == gap + (value + tail);
    assert (value + tail)[0] == value[0];
    TrimStartIs(gap, value + tail);
  }

  /** A line NAME=value, with or without `export`, white space around it and a comment behind it, sets the name
    * to the value, if that is not quoted and holds no white space with a '#' behind it. */
  lemma PlainLineReads(
    lines: seq<string>, index: nat, lead: string, exported: bool, name: string, gap: string, value: string, tail: string)
    requires index < |lines| && lines[index] == Front(lead, exported, name) + (gap + value + tail)
    requires AllSpace(lead) && ValidName(name) && AllSpace(gap) && IsPlain(value) && IsTail(tail)
    ensures Read(lines, index) == Sets(Assignment(name, value), index + 1)
  {
    FrontReads(lead, exported, name, gap + value + tail);
    PlainWritten(gap, value, tail);
    PlainTail(value, tail);
    ReadsPlain(lines, index, name, value + tail, value);
  }
}
