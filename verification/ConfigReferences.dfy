/** apps/runtime/src/config.c, references in tenant values
  *
  * A C string is the text before its terminator; the byte at its end reads as the terminator. A
  * pointer into a string is the text from there on.
  */
module ConfigReferences {
  import opened Prelude

  const SIGIL := '$'
  const OPEN := '{'
  const CLOSE := '}'
  const RUNTIME_PREFIX := "NIBRUN_"
  const TERMINATOR := '\0'

  predicate IsDigit(c: char) {
    '0' <= c <= '9'
  }

  predicate IsNameCharacter(c: char) {
    'A' <= c <= 'Z' || 'a' <= c <= 'z' || c == '_' || IsDigit(c)
  }

  function At(text: string, i: nat): char {
    if i < |text| then text[i] else TERMINATOR
  }

  /** Where the name characters from `from` on end. */
  function NameEnd(text: string, from: nat): (end: nat)
    requires from <= |text|
    ensures from <= end <= |text|
    ensures forall k | from <= k < end :: IsNameCharacter(text[k])
    ensures !IsNameCharacter(At(text, end))
    decreases |text| - from
  {
    if from < |text| && IsNameCharacter(text[from]) then NameEnd(text, from + 1) else from
  }

  predicate PrefixAt(text: string, i: nat) {
    i + |RUNTIME_PREFIX| <= |text| && text[i..i + |RUNTIME_PREFIX|] == RUNTIME_PREFIX
  }

  /** A complete reference: sigil, brace, a name of the runtime's, brace. */
  predicate ReferenceAt(text: string, i: nat) {
    && i + 2 <= |text| && text[i] == SIGIL && text[i + 1] == OPEN && PrefixAt(text, i + 2)
    && At(text, NameEnd(text, i + 2)) == CLOSE
  }

  lemma NameCoversPrefix(text: string, from: nat)
    requires PrefixAt(text, from)
    ensures NameEnd(text, from) >= from + |RUNTIME_PREFIX|
  {
    assert forall k | 0 <= k < |RUNTIME_PREFIX| :: IsNameCharacter(RUNTIME_PREFIX[k]);
    assert forall k | 0 <= k < |RUNTIME_PREFIX| ::
      RUNTIME_PREFIX[k] == text[from..from + |RUNTIME_PREFIX|][k] == text[from + k];
    assert forall k | from <= k < from + |RUNTIME_PREFIX| :: text[k] == RUNTIME_PREFIX[k - from];
  }

  function After(text: string, i: nat): (after: nat)
    requires ReferenceAt(text, i)
    ensures i + 3 + |RUNTIME_PREFIX| <= after <= |text|
  {
    NameCoversPrefix(text, i + 2);
    NameEnd(text, i + 2) + 1
  }

  /** The name without the runtime's prefix. */
  function Key(text: string, i: nat): string
    requires ReferenceAt(text, i)
  {
    NameCoversPrefix(text, i + 2);
    text[i + 2 + |RUNTIME_PREFIX|..NameEnd(text, i + 2)]
  }

  /** The first reference from `from` on, or the end of the text. */
  function FirstReference(text: string, from: nat): (i: nat)
    requires from <= |text|
    ensures from <= i <= |text|
    ensures i < |text| ==> ReferenceAt(text, i)
    ensures forall k | from <= k < i :: !ReferenceAt(text, k)
    decreases |text| - from
  {
    if from == |text| || ReferenceAt(text, from) then from else FirstReference(text, from + 1)
  }

  lemma {:induction false} SkipsTo(text: string, from: nat, upTo: nat)
    requires from <= upTo <= |text| && forall k | from <= k < upTo :: !ReferenceAt(text, k)
    ensures FirstReference(text, from) == FirstReference(text, upTo)
    decreases upTo - from
  {
    if from < upTo {
      SkipsTo(text, from + 1, upTo);
    }
  }

  method FindReference(value: string) returns (found: Option<nat>)
    ensures found == if FirstReference(value, 0) == |value| then None else Some(FirstReference(value, 0))
  {
    var cursor := IndexOf(value, SIGIL, 0);
    SkipsTo(value, 0, cursor);
    while cursor < |value|
      invariant cursor <= |value|
      invariant cursor < |value| ==> value[cursor] == SIGIL
      invariant FirstReference(value, 0) == FirstReference(value, cursor)
      decreases |value| - cursor
    {
      if At(value, cursor + 1) == OPEN && PrefixAt(value, cursor + 2) {
        var end := cursor + 2;
        while IsNameCharacter(At(value, end))
          invariant cursor + 2 <= end <= |value|
          invariant NameEnd(value, cursor + 2) == NameEnd(value, end)
          decreases |value| - end
        {
          end := end + 1;
        }
        if At(value, end) == CLOSE {
          return Some(cursor);
        }
      }
      var next := IndexOf(value, SIGIL, cursor + 1);
      SkipsTo(value, cursor, next);
      cursor := next;
    }
    found := None;
  }

  // ----- What a value expands to

  /** What the runtime offers a tenant: none for a name it does not offer, and an empty option for one
    * it offers and this instance was not given. */
  type Offer = string -> Option<Option<string>>

  predicate Given(offer: Offer, key: string) {
    offer(key).Some? && offer(key).value.Some?
  }

  ghost predicate Resolves(offer: Offer, text: string)
    decreases |text|
  {
    var i := FirstReference(text, 0);
    i == |text| || (Given(offer, Key(text, i)) && Resolves(offer, text[After(text, i)..]))
  }

  ghost function Expansion(offer: Offer, text: string): string
    requires Resolves(offer, text)
    decreases |text|
  {
    var i := FirstReference(text, 0);
    if i == |text| then text
    else text[..i] + offer(Key(text, i)).value.value + Expansion(offer, text[After(text, i)..])
  }

  // ----- The same said without scanning: a value is literal text and references, in one way only

  datatype Template = Template(parts: seq<(string, string)>, tail: string)

  predicate Literal(text: string) {
    FirstReference(text, 0) == |text|
  }

  predicate IsName(key: string) {
    forall k | 0 <= k < |key| :: IsNameCharacter(key[k])
  }

  function Reference(key: string): string {
    [SIGIL, OPEN] + RUNTIME_PREFIX + key + [CLOSE]
  }

  predicate WellFormed(t: Template) {
    && Literal(t.tail)
    && forall k | 0 <= k < |t.parts| :: Literal(t.parts[k].0) && IsName(t.parts[k].1)
  }

  function Text(t: Template): string
    decreases |t.parts|
  {
    if t.parts == [] then t.tail
    else t.parts[0].0 + Reference(t.parts[0].1) + Text(Template(t.parts[1..], t.tail))
  }

  predicate AllGiven(offer: Offer, t: Template) {
    forall k | 0 <= k < |t.parts| :: Given(offer, t.parts[k].1)
  }

  function Substituted(offer: Offer, t: Template): string
    requires AllGiven(offer, t)
    decreases |t.parts|
  {
    if t.parts == [] then t.tail
    else t.parts[0].0 + offer(t.parts[0].1).value.value + Substituted(offer, Template(t.parts[1..], t.tail))
  }

  lemma LiteralHasNone(text: string, k: nat)
    requires Literal(text)
    ensures !ReferenceAt(text, k)
  {
  }

  /** A literal followed by a reference: the first reference in there is that one. */
  lemma FirstAfterLiteral(literal: string, key: string, rest: string)
    requires Literal(literal) && IsName(key)
    ensures var text := literal + Reference(key) + rest;
            && FirstReference(text, 0) == |literal|
            && Key(text, |literal|) == key
            && text[After(text, |literal|)..] == rest
  {
    var text := literal + Reference(key) + rest;
    var n := |literal|;
    var end := n + 2 + |RUNTIME_PREFIX| + |key|;
    assert text[n + 2..n + 2 + |RUNTIME_PREFIX|] == RUNTIME_PREFIX;
    forall k | n + 2 <= k < end
      ensures IsNameCharacter(text[k])
    {
      if k < n + 2 + |RUNTIME_PREFIX| {
        assert text[k] == RUNTIME_PREFIX[k - n - 2];
      } else {
        assert text[k] == key[k - n - 2 - |RUNTIME_PREFIX|];
      }
    }
    assert text[end] == CLOSE;
    forall k | 0 <= k < n
      ensures !ReferenceAt(text, k)
    {
      NotWithin(literal, key, rest, k);
    }
    SkipsTo(text, 0, n);
    assert text[n + 2 + |RUNTIME_PREFIX|..end] == key;
    assert text[end + 1..] == rest;
  }

  /** References do not overlap: none starts in a literal and runs into what follows it. */
  lemma NotWithin(literal: string, key: string, rest: string, k: nat)
    requires Literal(literal) && k < |literal|
    ensures !ReferenceAt(literal + Reference(key) + rest, k)
  {
    var text := literal + Reference(key) + rest;
    var n := |literal|;
    assert text[n] == SIGIL;
    if ReferenceAt(text, k) {
      NameCoversPrefix(text, k + 2);
      var end := NameEnd(text, k + 2);
      assert k + 2 <= n;
      assert end > n ==> IsNameCharacter(text[n]);
      assert end < n;
      assert text[..n] == literal;
      assert forall i | 0 <= i < n :: text[i] == literal[i];
      assert literal[k + 2..k + 2 + |RUNTIME_PREFIX|] == text[k + 2..k + 2 + |RUNTIME_PREFIX|];
      LiteralHasNone(literal, k);
    }
  }

  /** The scan is one substitution from left to right: whatever literal text and references a value is
    * made of, every reference becomes its value, all else is copied as it is, and nothing that was
    * substituted is looked at again. It resolves exactly when every name is offered and given. */
  lemma {:induction false} ExpansionSubstitutes(offer: Offer, t: Template)
    requires WellFormed(t)
    ensures Resolves(offer, Text(t)) <==> AllGiven(offer, t)
    ensures AllGiven(offer, t) ==> Expansion(offer, Text(t)) == Substituted(offer, t)
    decreases |t.parts|
  {
    if t.parts != [] {
      var (literal, key) := t.parts[0];
      var rest := Template(t.parts[1..], t.tail);
      FirstAfterLiteral(literal, key, Text(rest));
      ExpansionSubstitutes(offer, rest);
      var text := Text(t);
      assert text == literal + Reference(key) + Text(rest);
      assert text[..|literal|] == literal;
      assert AllGiven(offer, t) <==> Given(offer, key) && AllGiven(offer, rest) by {
        assert forall k | 1 <= k < |t.parts| :: t.parts[k] == rest.parts[k - 1];
      }
    }
  }

  /** Every value is made of literal text and references. */
  function Parsed(text: string): Template
    decreases |text|
  {
    var i := FirstReference(text, 0);
    if i == |text| then Template([], text)
    else
      var rest := Parsed(text[After(text, i)..]);
      Template([(text[..i], Key(text, i))] + rest.parts, rest.tail)
  }

  lemma LiteralPrefix(text: string, i: nat)
    requires i <= |text| && forall k | 0 <= k < i :: !ReferenceAt(text, k)
    ensures Literal(text[..i])
  {
    var part := text[..i];
    forall k | 0 <= k < i
      ensures !ReferenceAt(part, k)
    {
      if ReferenceAt(part, k) {
        var end := NameEnd(part, k + 2);
        assert part[k + 2..k + 2 + |RUNTIME_PREFIX|] == text[k + 2..k + 2 + |RUNTIME_PREFIX|];
        assert ReferenceAt(text, k);
      }
    }
    SkipsTo(part, 0, i);
  }

  lemma ReferenceText(text: string, i: nat)
    requires ReferenceAt(text, i)
    ensures Reference(Key(text, i)) == text[i..After(text, i)] && IsName(Key(text, i))
  {
    NameCoversPrefix(text, i + 2);
    var name := text[i + 2..i + 2 + |RUNTIME_PREFIX|];
    assert text[i..After(text, i)] == [SIGIL, OPEN] + name + Key(text, i) + [CLOSE];
  }

  lemma AroundReference(text: string, i: nat)
    requires ReferenceAt(text, i)
    ensures text == text[..i] + Reference(Key(text, i)) + text[After(text, i)..] && IsName(Key(text, i))
  {
    var after := After(text, i);
    ReferenceText(text, i);
    assert text == text[..i] + text[i..after] + text[after..];
  }

  lemma TextOfParts(part: (string, string), rest: Template)
    requires WellFormed(rest) && Literal(part.0) && IsName(part.1)
    ensures var t := Template([part] + rest.parts, rest.tail);
            WellFormed(t) && Text(t) == part.0 + Reference(part.1) + Text(rest)
  {
    assert ([part] + rest.parts)[1..] == rest.parts;
  }

  lemma {:induction false} ParsedTells(text: string)
    ensures WellFormed(Parsed(text)) && Text(Parsed(text)) == text
    decreases |text|
  {
    var i := FirstReference(text, 0);
    if i < |text| {
      var after := After(text, i);
      ParsedTells(text[after..]);
      LiteralPrefix(text, i);
      AroundReference(text, i);
      TextOfParts((text[..i], Key(text, i)), Parsed(text[after..]));
    }
  }

  /** And in one way only. */
  lemma {:induction false} OneTemplate(t: Template)
    requires WellFormed(t)
    ensures Parsed(Text(t)) == t
    decreases |t.parts|
  {
    if t.parts != [] {
      var (literal, key) := t.parts[0];
      var rest := Template(t.parts[1..], t.tail);
      FirstAfterLiteral(literal, key, Text(rest));
      OneTemplate(rest);
      assert Text(t)[..|literal|] == literal;
      assert t.parts == [(literal, key)] + rest.parts;
    }
  }
}
