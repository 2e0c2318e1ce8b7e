/** apps/runtime/src/config.c, `parse_argument` and the check for gaps
  *
  * Arguments arrive as numbered lines in any order. A line's index is what `strtoul` made of its
  * digits, or none when that failed.
  */
module ConfigArguments {
  import opened Prelude

  const CONFIG_MAX_ARGUMENTS := 64

  datatype Line = Line(index: Option<nat>, value: string)

  /** The lines fill the slots from zero without a gap and without a repetition. */
  ghost predicate Complete(lines: seq<Line>) {
    && |lines| <= CONFIG_MAX_ARGUMENTS
    && (forall i | 0 <= i < |lines| :: lines[i].index.Some? && lines[i].index.value < |lines|)
    && IndicesDiffer(lines)
  }

  ghost predicate IndicesDiffer(lines: seq<Line>) {
    forall i, j | 0 <= i < j < |lines| :: lines[i].index != lines[j].index
  }

  predicate Fits(line: Line) {
    line.index.Some? && line.index.value < CONFIG_MAX_ARGUMENTS
  }

  ghost function Indices(lines: seq<Line>): set<int> {
    set i | 0 <= i < |lines| && lines[i].index.Some? :: lines[i].index.value
  }

  lemma {:induction false} IndicesSize(lines: seq<Line>)
    requires IndicesDiffer(lines) && forall i | 0 <= i < |lines| :: lines[i].index.Some?
    ensures |Indices(lines)| == |lines|
  {
    if lines == [] {
      assert Indices(lines) == {};
    } else {
      var last := |lines| - 1;
      var before := lines[..last];
      IndicesSize(before);
      assert lines[last].index.value !in Indices(before);
      assert Indices(lines) == Indices(before) + {lines[last].index.value} by {
        forall k | k in Indices(lines)
          ensures k in Indices(before) + {lines[last].index.value}
        {
          var i :| 0 <= i < |lines| && lines[i].index == Some(k);
          assert i < last ==> before[i] == lines[i];
        }
        forall k | k in Indices(before)
          ensures k in Indices(lines)
        {
          var i :| 0 <= i < last && before[i].index == Some(k);
          assert lines[i] == before[i];
        }
      }
    }
  }

  /** As many distinct indices as lines, and none missing below their number: so none is above it. */
  lemma NoneAbove(lines: seq<Line>)
    requires IndicesDiffer(lines) && forall i | 0 <= i < |lines| :: lines[i].index.Some?
    requires Below(|lines|) <= Indices(lines)
    ensures forall i | 0 <= i < |lines| :: lines[i].index.value < |lines|
  {
    IndicesSize(lines);
    var extra := Indices(lines) - Below(|lines|);
    assert Indices(lines) == Below(|lines|) + extra;
    assert extra == {};
    forall i | 0 <= i < |lines|
      ensures lines[i].index.value < |lines|
    {
      assert lines[i].index.value in Indices(lines);
      assert lines[i].index.value !in extra;
    }
  }

  lemma NoneMissing(lines: seq<Line>)
    requires Complete(lines)
    ensures Indices(lines) == Below(|lines|)
  {
    IndicesSize(lines);
    assert Indices(lines) <= Below(|lines|);
    var missing := Below(|lines|) - Indices(lines);
    assert Below(|lines|) == Indices(lines) + missing;
    assert missing == {};
  }

  class Arguments {
    const slots: array<Option<string>>
    var count: nat

    constructor ()
      ensures fresh(slots) && slots.Length == CONFIG_MAX_ARGUMENTS && count == 0
      ensures forall k | 0 <= k < slots.Length :: slots[k] == None
    {
      slots := new Option<string>[CONFIG_MAX_ARGUMENTS](_ => None);
      count := 0;
    }

    /** Every line so far has its slot, and no other slot is filled. */
    ghost predicate Has(lines: seq<Line>)
      reads this, slots
    {
      && slots.Length == CONFIG_MAX_ARGUMENTS && count == |lines| && IndicesDiffer(lines)
      && (forall i | 0 <= i < |lines| :: Fits(lines[i]) && slots[lines[i].index.value] == Some(lines[i].value))
      && (forall k | 0 <= k < slots.Length :: slots[k].Some? <==> k in Indices(lines))
    }

    method Parse(line: Line, ghost lines: seq<Line>) returns (accepted: bool)
      requires Has(lines)
      modifies this, slots
      ensures accepted <==> Fits(line) && line.index.value !in Indices(lines)
      ensures accepted ==> Has(lines + [line])
    {
      if line.index.None? || line.index.value >= CONFIG_MAX_ARGUMENTS {
        return false;
      }
      var index := line.index.value;
      if slots[index].Some? {
        return false;
      }
      ghost var more := lines + [line];
      forall i | 0 <= i < |lines|
        ensures lines[i].index.value in Indices(lines) && more[i] == lines[i]
      {
      }
      slots[index] := Some(line.value);
      count := count + 1;
      assert Indices(more) == Indices(lines) + {index} by {
        forall k | k in Indices(lines)
          ensures k in Indices(more)
        {
          var i :| 0 <= i < |lines| && lines[i].index == Some(k);
          assert more[i] == lines[i];
        }
        assert more[|lines|] == line;
      }
      accepted := true;
    }

    method ParseEach(lines: seq<Line>) returns (accepted: bool)
      requires Has([])
      modifies this, slots
      ensures accepted <==> IndicesDiffer(lines) && forall i | 0 <= i < |lines| :: Fits(lines[i])
      ensures accepted ==> Has(lines)
    {
      for position := 0 to |lines|
        invariant Has(lines[..position])
      {
        assert lines[..position + 1] == lines[..position] + [lines[position]];
        var parsed := Parse(lines[position], lines[..position]);
        if !parsed {
          return false;
        }
      }
      assert lines[..|lines|] == lines;
      accepted := true;
    }

    method CheckGaps(ghost lines: seq<Line>) returns (gapless: bool)
      requires Has(lines) && count <= slots.Length
      ensures gapless <==> Below(|lines|) <= Indices(lines)
    {
      for index := 0 to count
        invariant forall k: nat | k < index :: k in Indices(lines)
      {
        if slots[index].None? {
          assert index in Below(|lines|) && index !in Indices(lines);
          return false;
        }
      }
      gapless := true;
    }

    /** All argument lines of a file, and then the check: it takes exactly the complete numberings, and
      * each argument ends up in the slot it was numbered for. */
    method ParseAll(lines: seq<Line>) returns (accepted: bool)
      requires slots.Length == CONFIG_MAX_ARGUMENTS && count == 0
      requires forall k | 0 <= k < slots.Length :: slots[k] == None
      modifies this, slots
      ensures accepted <==> Complete(lines)
      ensures accepted ==> count == |lines|
      ensures accepted ==> forall i | 0 <= i < |lines| :: slots[lines[i].index.value] == Some(lines[i].value)
      ensures accepted ==> forall k | 0 <= k < slots.Length :: slots[k].Some? <==> k < count
    {
      assert Indices([]) == {};
      var parsed := ParseEach(lines);
      if !parsed {
        return false;
      }
      FewEnough(lines);
      accepted := CheckGaps(lines);
      CompleteWhen(lines);
    }
  }

  lemma FewEnough(lines: seq<Line>)
    requires IndicesDiffer(lines) && forall i | 0 <= i < |lines| :: Fits(lines[i])
    ensures |lines| <= CONFIG_MAX_ARGUMENTS
  {
    IndicesSize(lines);
    SubsetSize(Indices(lines), Below(CONFIG_MAX_ARGUMENTS));
  }

  lemma CompleteWhen(lines: seq<Line>)
    requires IndicesDiffer(lines) && forall i | 0 <= i < |lines| :: Fits(lines[i])
    ensures Complete(lines) <==> Below(|lines|) <= Indices(lines)
    ensures Complete(lines) ==> Indices(lines) == Below(|lines|)
  {
    FewEnough(lines);
    if Below(|lines|) <= Indices(lines) {
      NoneAbove(lines);
    }
    if Complete(lines) {
      NoneMissing(lines);
    }
  }
}
