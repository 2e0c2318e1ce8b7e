/** apps/runtime/src/config.c, `expand_tenant_values`
  *
  * Tenant values that name runtime values are written out, one after another, into one arena.
  */
module ConfigExpansion {
  import opened Prelude
  import opened ConfigReferences

  const CONFIG_MAX_EXPANDED_BYTES := 131_072
  const DATA_DIR := "/app/data"

  /** The parts of the instance's configuration a tenant is handed. No port is written as zero. */
  datatype Config = Config(
    port: nat,
    hostname: Option<string>,
    publicIpv4: Option<string>,
    extraPublicPort: nat)

  /** `reference_value`. */
  function ReferenceValue(config: Config, key: string): Option<Option<string>> {
    if key == "HTTP_PORT" then Some(Some(Decimal(config.port)))
    else if key == "HOSTNAME" then Some(config.hostname)
    else if key == "DATA_DIR" then Some(Some(DATA_DIR))
    else if key == "PUBLIC_IPV4" then Some(config.publicIpv4)
    else if key == "EXTRA_PUBLIC_PORT" then
      Some(if config.extraPublicPort == 0 then None else Some(Decimal(config.extraPublicPort)))
    else None
  }

  function Offered(config: Config): Offer {
    key => ReferenceValue(config, key)
  }

  // ----- One entry

  /** Where the value of NAME=value starts. */
  function ValueStart(entry: string): (i: nat)
    requires '=' in entry
    ensures 0 < i <= |entry|
  {
    var i := IndexOf(entry, '=', 0);
    i + 1
  }

  function ValueOf(entry: string): string
    requires '=' in entry
  {
    entry[ValueStart(entry)..]
  }

  ghost predicate EntryResolves(config: Config, entry: string)
    requires '=' in entry
  {
    Resolves(Offered(config), ValueOf(entry))
  }

  ghost function Expanded(config: Config, entry: string): string
    requires '=' in entry && EntryResolves(config, entry)
  {
    entry[..ValueStart(entry)] + Expansion(Offered(config), ValueOf(entry))
  }

  /** What lands in the arena for an entry: nothing when its value names nothing. */
  ghost function Block(config: Config, entry: string): string
    requires '=' in entry
  {
    if Literal(ValueOf(entry)) || !EntryResolves(config, entry) then "" else Expanded(config, entry) + [TERMINATOR]
  }

  ghost function Taken(config: Config, entry: string): nat
    requires '=' in entry
  {
    |Block(config, entry)|
  }

  /** Half-way through a value: what is written so far behind `head`, and what is still to be read. */
  ghost predicate Underway(offer: Offer, value: string, head: string, written: string, remaining: string) {
    && (Resolves(offer, value) <==> Resolves(offer, remaining))
    && (Resolves(offer, value) ==> written + Expansion(offer, remaining) == head + Expansion(offer, value))
  }

  lemma GoesOn(offer: Offer, value: string, head: string, written: string, remaining: string, at: nat)
    requires Underway(offer, value, head, written, remaining) && at == FirstReference(remaining, 0) < |remaining|
    ensures Given(offer, Key(remaining, at)) ==>
      Underway(offer, value, head, written + remaining[..at] + offer(Key(remaining, at)).value.value,
               remaining[After(remaining, at)..])
    ensures !Given(offer, Key(remaining, at)) ==> !Resolves(offer, value)
  {
    var key, rest := Key(remaining, at), remaining[After(remaining, at)..];
  }

  /** Where an entry is read from: still in the file, or an offset in the arena. */
  datatype Pointer = InFile(text: string) | InArena(start: nat)

  // ----- All of them

  ghost predicate AreEntries(entries: seq<string>) {
    forall k | 0 <= k < |entries| :: '=' in entries[k]
  }

  ghost predicate ResolveUpTo(config: Config, entries: seq<string>, n: nat)
    requires AreEntries(entries) && n <= |entries|
  {
    forall k {:trigger entries[k]} | 0 <= k < n :: EntryResolves(config, entries[k])
  }

  ghost function Blocks(config: Config, entries: seq<string>): (blocks: seq<string>)
    requires AreEntries(entries)
    ensures |blocks| == |entries|
    ensures forall k | 0 <= k < |entries| :: blocks[k] == Block(config, entries[k])
  {
    seq(|entries|, k requires 0 <= k < |entries| => Block(config, entries[k]))
  }

  /** The first `n` pieces, one behind the other. */
  function Joined(pieces: seq<string>, n: nat): string
    requires n <= |pieces|
  {
    if n == 0 then "" else Joined(pieces, n - 1) + pieces[n - 1]
  }

  lemma {:induction false} JoinedGrows(pieces: seq<string>, j: nat, k: nat)
    requires j <= k <= |pieces|
    ensures Joined(pieces, j) <= Joined(pieces, k)
  {
    if j < k {
      JoinedGrows(pieces, j, k - 1);
    }
  }

  /** Each piece has bytes of its own, before those of every later piece. */
  lemma JoinedAt(pieces: seq<string>, k: nat)
    requires k < |pieces|
    ensures var all, start := Joined(pieces, |pieces|), |Joined(pieces, k)|;
            && start + |pieces[k]| <= |all| && all[start..start + |pieces[k]|] == pieces[k]
    ensures forall j | k < j <= |pieces| :: |Joined(pieces, k)| + |pieces[k]| <= |Joined(pieces, j)|
  {
    JoinedGrows(pieces, k + 1, |pieces|);
    forall j | k < j <= |pieces|
      ensures |Joined(pieces, k)| + |pieces[k]| <= |Joined(pieces, j)|
    {
      JoinedGrows(pieces, k + 1, j);
    }
  }

  ghost function Offset(config: Config, entries: seq<string>, k: nat): nat
    requires AreEntries(entries) && k <= |entries|
  {
    |Joined(Blocks(config, entries), k)|
  }

  ghost function PointerOf(config: Config, entries: seq<string>, k: nat): Pointer
    requires AreEntries(entries) && k < |entries|
  {
    if Literal(ValueOf(entries[k])) then InFile(entries[k]) else InArena(Offset(config, entries, k))
  }

  /** The first `n` entries point to their expansions, the others still into the file. */
  ghost predicate Redirected(config: Config, entries: seq<string>, environment: seq<Pointer>, n: nat)
    requires AreEntries(entries)
  {
    && |environment| == |entries| && n <= |entries|
    && (forall k | n <= k < |entries| :: environment[k] == InFile(entries[k]))
    && (forall k | 0 <= k < n :: environment[k] == PointerOf(config, entries, k))
  }

  lemma RedirectedNext(config: Config, entries: seq<string>, environment: seq<Pointer>, n: nat)
    requires AreEntries(entries) && n < |entries| && Redirected(config, entries, environment, n)
    ensures Redirected(config, entries, environment[n :=
      if Literal(ValueOf(entries[n])) then environment[n] else InArena(Offset(config, entries, n))], n + 1)
  {
  }

  class Arena {
    const buffer: array<char>
    var cursor: nat
    var overflowed: bool

    ghost predicate Valid()
      reads this
    {
      cursor <= buffer.Length
    }

    constructor (size: nat)
      ensures Valid() && fresh(buffer) && buffer.Length == size && cursor == 0 && !overflowed
    {
      buffer := new char[size];
      cursor, overflowed := 0, false;
    }

    /** What was asked for since `start` is in the arena, and nothing else changed, unless it was more than
      * there is room for. */
    ghost predicate Wrote(before: seq<char>, start: nat, written: string)
      reads this, buffer
    {
      && |before| == buffer.Length && start <= |before| && Valid()
      && if overflowed then start + |written| > |before|
         else cursor == start + |written| && buffer[..] == before[..start] + written + before[cursor..]
    }

    method Append(text: string)
      requires Valid()
      modifies this, buffer
      ensures Valid()
      ensures overflowed <==> old(overflowed) || buffer.Length - old(cursor) < |text|
      ensures cursor == if overflowed then old(cursor) else old(cursor) + |text|
      ensures buffer[..] ==
        if overflowed then old(buffer[..]) else old(buffer[..cursor]) + text + old(buffer[..])[cursor..]
    {
      if overflowed || buffer.Length - cursor < |text| {
        overflowed := true;
        return;
      }
      forall i | 0 <= i < |text| {
        buffer[cursor + i] := text[i];
      }
      cursor := cursor + |text|;
    }

    method AppendTo(text: string, ghost before: seq<char>, ghost start: nat, ghost written: string)
      requires Wrote(before, start, written)
      modifies this, buffer
      ensures Wrote(before, start, written + text)
    {
      Append(text);
    }

    /** The loop of `expand_entry`, for a value that names something. */
    method Substitute(config: Config, value: string, ghost before: seq<char>, ghost start: nat, ghost head: string)
      returns (resolved: bool)
      requires Wrote(before, start, head)
      modifies this, buffer
      ensures Valid()
      ensures resolved <==> Resolves(Offered(config), value)
      ensures resolved ==> Wrote(before, start, head + Expansion(Offered(config), value) + [TERMINATOR])
    {
      ghost var offer := Offered(config);
      var remaining := value;
      ghost var written := head;
      var found := FindReference(remaining);
      while found.Some?
        invariant found == if FirstReference(remaining, 0) == |remaining| then None else Some(FirstReference(remaining, 0))
        invariant Underway(offer, value, head, written, remaining)
        invariant Wrote(before, start, written)
        decreases |remaining|
      {
        var at := found.value;
        GoesOn(offer, value, head, written, remaining, at);
        AppendTo(remaining[..at], before, start, written);
        var substitution := ReferenceValue(config, Key(remaining, at));
        if substitution.None? || substitution.value.None? {
          return false;
        }
        AppendTo(substitution.value.value, before, start, written + remaining[..at]);
        written := written + remaining[..at] + substitution.value.value;
        remaining := remaining[After(remaining, at)..];
        found := FindReference(remaining);
      }
      AppendTo(remaining + [TERMINATOR], before, start, written);
      resolved := true;
    }

    /** `expand_entry`: it fails on a name that is not offered or not given, and when the arena is too small. */
    method ExpandEntry(config: Config, entry: string) returns (pointer: Option<Pointer>)
      requires '=' in entry && Valid() && !overflowed
      modifies this, buffer
      ensures Valid()
      ensures pointer.Some? <==>
        EntryResolves(config, entry) && old(cursor) + Taken(config, entry) <= buffer.Length
      ensures pointer.Some? ==>
        && pointer.value == (if Literal(ValueOf(entry)) then InFile(entry) else InArena(old(cursor)))
        && Wrote(old(buffer[..]), old(cursor), Block(config, entry)) && !overflowed
    {
      ghost var before, start := buffer[..], cursor;
      assert before == before[..start] + "" + before[start..];
      var value := ValueOf(entry);
      var found := FindReference(value);
      if found.None? {
        return Some(InFile(entry));
      }
      var expansion := cursor;
      var head := entry[..ValueStart(entry)];
      AppendTo(head, before, start, "");
      assert "" + head == head;
      var resolved := Substitute(config, value, before, start, head);
      if !resolved || overflowed {
        return None;
      }
      pointer := Some(InArena(expansion));
    }

    /** One round of the loop in `expand_tenant_values`. */
    method ExpandNext(config: Config, environment: array<Pointer>, index: nat, ghost blocks: seq<string>)
      returns (expanded: bool)
      requires Valid() && !overflowed && index < environment.Length && index < |blocks|
      requires environment[index].InFile? && '=' in environment[index].text
      requires blocks[index] == Block(config, environment[index].text)
      requires buffer[..cursor] == Joined(blocks, index)
      modifies this, buffer, environment
      ensures Valid()
      ensures expanded <==>
        EntryResolves(config, old(environment[index].text)) && |Joined(blocks, index + 1)| <= buffer.Length
      ensures expanded ==> !overflowed && buffer[..cursor] == Joined(blocks, index + 1)
      ensures expanded ==> environment[..] == old(environment[..])[index :=
        if Literal(ValueOf(old(environment[index].text))) then old(environment[index])
        else InArena(|Joined(blocks, index)|)]
    {
      ghost var before, start := buffer[..], cursor;
      var pointer := ExpandEntry(config, environment[index].text);
      if pointer.None? {
        return false;
      }
      environment[index] := pointer.value;
      assert buffer[..cursor] == before[..start] + blocks[index];
      expanded := true;
    }

    /** The loop of `expand_tenant_values`: the entries are redirected in place. */
    method ExpandAll(config: Config, environment: array<Pointer>, ghost entries: seq<string>)
      returns (expanded: bool)
      requires Valid() && cursor == 0 && !overflowed
      requires AreEntries(entries) && Redirected(config, entries, environment[..], 0)
      modifies this, buffer, environment
      ensures expanded <==>
        ResolveUpTo(config, entries, |entries|) && Offset(config, entries, |entries|) <= buffer.Length
      ensures expanded ==>
        && buffer[..Offset(config, entries, |entries|)] == Joined(Blocks(config, entries), |entries|)
        && Redirected(config, entries, environment[..], |entries|)
    {
      ghost var blocks := Blocks(config, entries);
      for index := 0 to environment.Length
        invariant Valid() && !overflowed && environment.Length == |entries|
        invariant ResolveUpTo(config, entries, index)
        invariant buffer[..cursor] == Joined(blocks, index)
        invariant Redirected(config, entries, environment[..], index)
      {
        ghost var was := environment[..];
        assert environment[index] == was[index] && was[index] == InFile(entries[index]);
        expanded := ExpandNext(config, environment, index, blocks);
        JoinedGrows(blocks, index + 1, |entries|);
        if !expanded {
          return;
        }
        RedirectedNext(config, entries, was, index);
      }
      expanded := true;
    }
  }

  /** `expand_tenant_values`, with the arena it declares. */
  method ExpandTenantValues(config: Config, environment: array<Pointer>, ghost entries: seq<string>)
    returns (expanded: bool, buffer: array<char>)
    requires AreEntries(entries) && Redirected(config, entries, environment[..], 0)
    modifies environment
    ensures fresh(buffer) && buffer.Length == CONFIG_MAX_EXPANDED_BYTES
    ensures expanded <==>
      ResolveUpTo(config, entries, |entries|) && Offset(config, entries, |entries|) <= CONFIG_MAX_EXPANDED_BYTES
    ensures expanded ==>
      && buffer[..Offset(config, entries, |entries|)] == Joined(Blocks(config, entries), |entries|)
      && Redirected(config, entries, environment[..], |entries|)
  {
    var arena := new Arena(CONFIG_MAX_EXPANDED_BYTES);
    expanded := arena.ExpandAll(config, environment, entries);
    buffer := arena.buffer;
  }

  // ----- What the entries read as afterwards

  /** Expansions lie behind one another, each with bytes of its own. */
  lemma BlocksApart(config: Config, entries: seq<string>, j: nat, k: nat)
    requires AreEntries(entries) && j < k < |entries|
    ensures Offset(config, entries, j) + Taken(config, entries[j]) <= Offset(config, entries, k)
    ensures Offset(config, entries, k) + Taken(config, entries[k]) <= Offset(config, entries, |entries|)
  {
    JoinedAt(Blocks(config, entries), j);
    JoinedAt(Blocks(config, entries), k);
  }

  /** The C string at an offset. */
  function StringAt(memory: seq<char>, start: nat): string
    requires start <= |memory|
  {
    memory[start..IndexOf(memory, TERMINATOR, start)]
  }

  predicate Clean(text: string) {
    TERMINATOR !in text
  }

  predicate CleanConfig(config: Config) {
    && (config.hostname.Some? ==> Clean(config.hostname.value))
    && (config.publicIpv4.Some? ==> Clean(config.publicIpv4.value))
  }

  lemma {:induction false} DecimalClean(n: nat)
    ensures Clean(Decimal(n))
  {
    if n >= 10 {
      DecimalClean(n / 10);
    }
  }

  lemma ValuesClean(config: Config, key: string)
    requires CleanConfig(config) && Given(Offered(config), key)
    ensures Clean(Offered(config)(key).value.value)
  {
    DecimalClean(config.port);
    DecimalClean(config.extraPublicPort);
  }

  lemma {:induction false} ExpansionClean(config: Config, text: string)
    requires CleanConfig(config) && Clean(text) && Resolves(Offered(config), text)
    ensures Clean(Expansion(Offered(config), text))
    decreases |text|
  {
    var i := FirstReference(text, 0);
    if i < |text| {
      ValuesClean(config, Key(text, i));
      ExpansionClean(config, text[After(text, i)..]);
    }
  }

  lemma StringEnds(memory: seq<char>, start: nat, text: string)
    requires Clean(text) && start + |text| < |memory| && memory[start..start + |text| + 1] == text + [TERMINATOR]
    ensures StringAt(memory, start) == text
  {
    var end := start + |text|;
    assert forall k | start <= k < end :: memory[k] == memory[start..end + 1][k - start];
    assert memory[end] == memory[start..end + 1][|text|];
    var i := IndexOf(memory, TERMINATOR, start);
    assert i == end;
    assert memory[start..end] == memory[start..end + 1][..|text|];
  }

  /** Afterwards every entry's pointer reads as its own expansion. */
  lemma EntriesReadBack(config: Config, entries: seq<string>, memory: seq<char>, k: nat)
    requires AreEntries(entries) && k < |entries| && EntryResolves(config, entries[k])
    requires CleanConfig(config) && Clean(entries[k])
    requires Offset(config, entries, |entries|) <= |memory|
    requires memory[..Offset(config, entries, |entries|)] == Joined(Blocks(config, entries), |entries|)
    ensures match PointerOf(config, entries, k)
            case InFile(text) => text == Expanded(config, entries[k])
            case InArena(start) => start <= |memory| && StringAt(memory, start) == Expanded(config, entries[k])
  {
    if Literal(ValueOf(entries[k])) {
      LiteralReads(config, entries[k]);
    } else {
      ArenaReads(config, entries[k], Blocks(config, entries), memory, k);
    }
  }

  lemma ArenaReads(config: Config, entry: string, blocks: seq<string>, memory: seq<char>, k: nat)
    requires '=' in entry && EntryResolves(config, entry) && CleanConfig(config) && Clean(entry)
    requires !Literal(ValueOf(entry)) && k < |blocks| && blocks[k] == Block(config, entry)
    requires Joined(blocks, |blocks|) <= memory
    ensures |Joined(blocks, k)| <= |memory| && StringAt(memory, |Joined(blocks, k)|) == Expanded(config, entry)
  {
    BlockAt(blocks, memory, k);
    ExpansionReads(config, entry, memory, |Joined(blocks, k)|);
  }

  lemma LiteralReads(config: Config, entry: string)
    requires '=' in entry && Literal(ValueOf(entry))
    ensures EntryResolves(config, entry) && Expanded(config, entry) == entry
  {
    assert entry == entry[..ValueStart(entry)] + ValueOf(entry);
  }

  lemma ExpansionReads(config: Config, entry: string, memory: seq<char>, start: nat)
    requires '=' in entry && EntryResolves(config, entry) && CleanConfig(config) && Clean(entry)
    requires !Literal(ValueOf(entry)) && start + |Block(config, entry)| <= |memory|
    requires memory[start..start + |Block(config, entry)|] == Block(config, entry)
    ensures StringAt(memory, start) == Expanded(config, entry)
  {
    ExpansionClean(config, ValueOf(entry));
    StringEnds(memory, start, Expanded(config, entry));
  }

  lemma BlockAt(pieces: seq<string>, memory: seq<char>, k: nat)
    requires k < |pieces| && Joined(pieces, |pieces|) <= memory
    ensures var start := |Joined(pieces, k)|;
            start + |pieces[k]| <= |memory| && memory[start..start + |pieces[k]|] == pieces[k]
  {
    JoinedAt(pieces, k);
    var start, all := |Joined(pieces, k)|, Joined(pieces, |pieces|);
    assert memory[..|all|][start..start + |pieces[k]|] == memory[start..start + |pieces[k]|];
  }
}
