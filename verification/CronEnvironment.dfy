/** apps/runtime/src/cron-command.c, `build_cron_environment`
  *
  * A cron run's own variables over the instance's environment, in one fixed array.
  */
module CronEnvironment {
  import opened Prelude
  import opened ConfigReferences
  import opened TenantEnvironment

  const CRON_MAX_ENVIRONMENT_VARIABLES := 256

  /** Where the entry of this name is, or the end. */
  function Position(entries: seq<string>, name: string): (p: nat)
    requires Named(entries)
    ensures p <= |entries|
    ensures p < |entries| ==> NameOf(entries[p]) == name
    ensures forall k | 0 <= k < p :: NameOf(entries[k]) != name
  {
    PositionFrom(entries, name, 0)
  }

  function PositionFrom(entries: seq<string>, name: string, from: nat): (p: nat)
    requires Named(entries) && from <= |entries|
    ensures from <= p <= |entries|
    ensures p < |entries| ==> NameOf(entries[p]) == name
    ensures forall k | from <= k < p :: NameOf(entries[k]) != name
    decreases |entries| - from
  {
    if from == |entries| || NameOf(entries[from]) == name then from else PositionFrom(entries, name, from + 1)
  }

  function Overridden(entries: seq<string>, override: string): seq<string>
    requires Named(entries) && '=' in override
  {
    var p := Position(entries, NameOf(override));
    if p == |entries| then entries + [override] else entries[p := override]
  }

  /** The overrides one after another. */
  function Merged(base: seq<string>, overrides: seq<string>): (merged: seq<string>)
    requires Named(base) && Named(overrides)
    ensures Named(merged) && |base| <= |merged| <= |base| + |overrides|
  {
    if overrides == [] then base
    else Overridden(Merged(base, overrides[..|overrides| - 1]), overrides[|overrides| - 1])
  }

  // ----- As a map

  function Value(entry: string): string
    requires '=' in entry
  {
    entry[|NameOf(entry)| + 1..]
  }

  /** The value under each name; the last entry's, where a name comes twice. */
  function AsMap(entries: seq<string>): map<string, string>
    requires Named(entries)
  {
    if entries == [] then map[]
    else
      var last := entries[|entries| - 1];
      AsMap(entries[..|entries| - 1])[NameOf(last) := Value(last)]
  }

  lemma {:induction false} MapWith(entries: seq<string>, p: nat, override: string)
    requires Named(entries) && DistinctNames(entries) && '=' in override && p < |entries|
    requires NameOf(entries[p]) == NameOf(override)
    ensures AsMap(entries[p := override]) == AsMap(entries)[NameOf(override) := Value(override)]
  {
    var last := |entries| - 1;
    var updated := entries[p := override];
    if p < last {
      MapWith(entries[..last], p, override);
      assert updated[..last] == entries[..last][p := override];
      assert NameOf(entries[last]) != NameOf(override);
    } else {
      assert updated[..last] == entries[..last];
    }
  }

  lemma OverriddenTells(entries: seq<string>, override: string)
    requires Named(entries) && DistinctNames(entries) && '=' in override
    ensures var after := Overridden(entries, override);
            && Named(after) && DistinctNames(after)
            && AsMap(after) == AsMap(entries)[NameOf(override) := Value(override)]
  {
    var p := Position(entries, NameOf(override));
    if p < |entries| {
      MapWith(entries, p, override);
    } else {
      assert (entries + [override])[..|entries|] == entries;
    }
  }

  lemma PlusWith(a: map<string, string>, b: map<string, string>, name: string, value: string)
    ensures (a + b)[name := value] == a + b[name := value]
  {
  }

  /** The merge takes the right side's value for every name either side has, and has each name once. */
  lemma {:induction false} MergeIsRightBiased(base: seq<string>, overrides: seq<string>)
    requires Named(base) && DistinctNames(base) && Named(overrides)
    ensures DistinctNames(Merged(base, overrides))
    ensures AsMap(Merged(base, overrides)) == AsMap(base) + AsMap(overrides)
  {
    if overrides == [] {
      assert AsMap(base) + AsMap(overrides) == AsMap(base);
    } else {
      var last := |overrides| - 1;
      MergeIsRightBiased(base, overrides[..last]);
      OverriddenTells(Merged(base, overrides[..last]), overrides[last]);
      PlusWith(AsMap(base), AsMap(overrides[..last]), NameOf(overrides[last]), Value(overrides[last]));
    }
  }

  function NamesOf(entries: seq<string>): (names: seq<string>)
    requires Named(entries)
    ensures |names| == |entries|
    ensures forall k | 0 <= k < |entries| :: names[k] == NameOf(entries[k])
  {
    seq(|entries|, k requires 0 <= k < |entries| => NameOf(entries[k]))
  }

  /** Each name of a list once, where it first appears, behind those already there. */
  function Appended(names: seq<string>, more: seq<string>): seq<string> {
    if more == [] then names
    else
      var before := Appended(names, more[..|more| - 1]);
      if more[|more| - 1] in before then before else before + [more[|more| - 1]]
  }

  /** The base's names stay where they were; new ones come behind, in the order they first appear. */
  lemma {:induction false} MergeKeepsOrder(base: seq<string>, overrides: seq<string>)
    requires Named(base) && Named(overrides)
    ensures NamesOf(Merged(base, overrides)) == Appended(NamesOf(base), NamesOf(overrides))
  {
    if overrides != [] {
      var last := |overrides| - 1;
      MergeKeepsOrder(base, overrides[..last]);
      assert NamesOf(overrides)[..last] == NamesOf(overrides[..last]);
      assert [NameOf(overrides[last])][..0] == [];
    }
  }

  // ----- In the array

  /** `strncmp` up to and with the '='. */
  predicate SameStart(entry: string, override: string, length: nat)
    requires length <= |override|
  {
    override[..length] <= entry
  }

  lemma SameStartIsSameName(entry: string, override: string)
    requires '=' in entry && '=' in override
    ensures |NameOf(override)| + 1 <= |override|
    ensures SameStart(entry, override, |NameOf(override)| + 1) <==> NameOf(entry) == NameOf(override)
  {
    var name := NameOf(override);
    if name + "=" <= entry {
      assert At(entry, |name|) == (name + "=")[|name|];
      assert name == (name + "=")[..|name|] <= entry;
      IsNamedIsName(entry, name);
    }
  }

  method BuildCronEnvironment(base: array<Option<string>>, ghost entries: seq<string>, overrides: seq<string>)
    returns (into: array<Option<string>>)
    requires IsList(base, entries) && Named(entries) && |entries| <= CONFIG_MAX_ENVIRONMENT_VARIABLES
    requires Named(overrides) && |overrides| <= CRON_MAX_ENVIRONMENT_VARIABLES
    ensures fresh(into) && into.Length == CONFIG_MAX_ENVIRONMENT_VARIABLES + CRON_MAX_ENVIRONMENT_VARIABLES + 1
    ensures IsList(into, Merged(entries, overrides))
  {
    into := new Option<string>[CONFIG_MAX_ENVIRONMENT_VARIABLES + CRON_MAX_ENVIRONMENT_VARIABLES + 1](_ => None);
    var count := 0;
    while base[count].Some?
      invariant count <= |entries| && Starts(into, entries[..count])
      decreases |entries| - count
    {
      into[count] := base[count];
      count := count + 1;
    }
    assert entries[..count] == entries;
    for index := 0 to |overrides|
      invariant count == |Merged(entries, overrides[..index])| && Starts(into, Merged(entries, overrides[..index]))
    {
      assert overrides[..index + 1][..index] == overrides[..index];
      count := Override(into, count, Merged(entries, overrides[..index]), overrides[index]);
    }
    assert overrides[..|overrides|] == overrides;
    into[count] := None;
  }

  method Override(into: array<Option<string>>, count: nat, ghost entries: seq<string>, override: string) returns (more: nat)
    requires count == |entries| < into.Length && Starts(into, entries) && Named(entries) && '=' in override
    modifies into
    ensures more == |Overridden(entries, override)| && Starts(into, Overridden(entries, override))
  {
    var nameLength := IndexOf(override, '=', 0) + 1;
    var position := 0;
    while position < count
      invariant position <= count && Starts(into, entries)
      invariant Position(entries, NameOf(override)) == PositionFrom(entries, NameOf(override), position)
    {
      assert into[position] == Some(entries[position]);
      SameStartIsSameName(entries[position], override);
      if SameStart(into[position].value, override, nameLength) {
        break;
      }
      position := position + 1;
    }
    into[position] := Some(override);
    more := if position == count then count + 1 else count;
  }
}
