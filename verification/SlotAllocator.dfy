/** apps/agent/src/services/slot-allocator.service.ts, with `assignmentsFrom` of
  * apps/agent/src/lib/network/allocator.ts
  */
module SlotAllocator {
  import opened Prelude

  // Host slots, handed out by a cyclic scan from a cursor. The cursor is read off disk, where it may
  // be any integer a JavaScript number can be, so the scan's addition is the rounded one of the
  // binary64 format of IEEE 754.

  type AppId = string

  const FIRST_SLOT := 0
  const SLOT_COUNT := 127
  const SLOT_SPAN := SLOT_COUNT - FIRST_SLOT

  // ----- JavaScript's arithmetic on integers

  const EXACT := 0x20_0000_0000_0000

  /** The distance of the numbers next to one of this size. */
  function Spacing(size: nat): (u: nat)
    ensures u >= 1
  {
    if size < EXACT then 1 else 2 * Spacing(size / 2)
  }

  /** The nearest number, and of two as near the even one. */
  function RoundedSize(size: nat): int {
    var u := Spacing(size);
    var q, rest := size / u, size % u;
    if 2 * rest < u || (2 * rest == u && q % 2 == 0) then q * u else (q + 1) * u
  }

  function Rounded(x: int): int {
    if x >= 0 then RoundedSize(x) else -RoundedSize(-x)
  }

  predicate IsNumber(x: int) {
    Rounded(x) == x
  }

  /** `%`, which keeps the dividend's sign. */
  function Remainder(x: int, m: nat): int
    requires m > 0
  {
    if x >= 0 then x % m else -(-x % m)
  }

  function Wrapped(offset: int): int {
    FIRST_SLOT + Remainder(Remainder(offset, SLOT_SPAN) + SLOT_SPAN, SLOT_SPAN)
  }

  /** The slot looked at in one step of a scan. */
  function Scanned(from: int, step: nat): int {
    Wrapped(Rounded(from - FIRST_SLOT + step))
  }

  // ----- The scan

  /** A slot nothing holds, whose NBD device exists if it needs one. */
  predicate Usable(taken: set<int>, devices: Option<set<int>>, slot: int) {
    slot !in taken && (devices.Some? ==> slot in devices.value)
  }

  /** The first step from `step` on that looks at a usable slot. */
  function ScanFrom(taken: set<int>, devices: Option<set<int>>, from: int, step: nat): (found: nat)
    requires step <= SLOT_SPAN
    ensures step <= found <= SLOT_SPAN
    ensures forall k | step <= k < found :: !Usable(taken, devices, Scanned(from, k))
    ensures found < SLOT_SPAN ==> Usable(taken, devices, Scanned(from, found))
    decreases SLOT_SPAN - step
  {
    if step == SLOT_SPAN || Usable(taken, devices, Scanned(from, step)) then step
    else ScanFrom(taken, devices, from, step + 1)
  }

  function NextFree(taken: set<int>, devices: Option<set<int>>, from: int): Option<int> {
    var found := ScanFrom(taken, devices, from, 0);
    if found < SLOT_SPAN then Some(Scanned(from, found)) else None
  }

  lemma WrappedIsModulo(offset: int)
    ensures Wrapped(offset) == offset % SLOT_SPAN
    ensures FIRST_SLOT <= Wrapped(offset) < SLOT_COUNT
  {
  }

  lemma ExactBelow(x: int)
    requires -EXACT <= x <= EXACT
    ensures Rounded(x) == x
  {
  }

  // ----- Which cursors the scan works from

  predicate Scannable(from: int) {
    -EXACT <= from <= EXACT - (SLOT_SPAN - 1)
  }

  /** From a scannable cursor every slot is looked at, in order around the ring. */
  lemma ScanIsCyclic(from: int, step: nat)
    requires Scannable(from) && step < SLOT_SPAN
    ensures Scanned(from, step) == (from + step) % SLOT_SPAN
  {
    ExactBelow(from + step);
    WrappedIsModulo(from + step);
  }

  function StepTo(from: int, slot: int): nat {
    (slot - from) % SLOT_SPAN
  }

  lemma AroundTheRing(a: int, b: int)
    ensures (a + (b - a) % SLOT_SPAN) % SLOT_SPAN == b % SLOT_SPAN
  {
    var turns := (b - a) / SLOT_SPAN;
    Remains(a + (b - a) % SLOT_SPAN, b / SLOT_SPAN - turns, b % SLOT_SPAN);
  }

  lemma Remains(x: int, turns: int, rest: int)
    requires x == SLOT_SPAN * turns + rest && 0 <= rest < SLOT_SPAN
    ensures x % SLOT_SPAN == rest
  {
    var off := x / SLOT_SPAN - turns;
    assert SLOT_SPAN * off == rest - x % SLOT_SPAN;
  }

  lemma ScanReaches(from: int, slot: int)
    requires Scannable(from) && FIRST_SLOT <= slot < SLOT_COUNT
    ensures StepTo(from, slot) < SLOT_SPAN && Scanned(from, StepTo(from, slot)) == slot
  {
    var step := StepTo(from, slot);
    ScanIsCyclic(from, step);
    AroundTheRing(from, slot);
    Remains(slot, 0, slot);
  }

  // Beyond the exact numbers two steps of a scan round to the same number, so it misses a slot.

  lemma Quotient(q: nat, u: nat, rest: nat)
    requires rest < u
    ensures (q * u + rest) / u == q && (q * u + rest) % u == rest
  {
    var n := q * u + rest;
    var d := n / u - q;
    assert n == u * (n / u) + n % u;
    assert d * u == rest - n % u;
    assert d >= 1 ==> d * u >= u;
    assert d <= -1 ==> d * u <= -1 * u;
  }

  lemma NumberIsMultiple(size: nat)
    requires RoundedSize(size) == size
    ensures exists q: nat :: size == q * Spacing(size)
  {
    var u := Spacing(size);
    var q := size / u;
    assert size == q * u || size == (q + 1) * u;
  }

  lemma MultipleIsNumber(q: nat, size: nat)
    requires size == q * Spacing(size)
    ensures RoundedSize(size) == size
  {
    Quotient(q, Spacing(size), 0);
  }

  lemma EvenMultiple(q: nat, u: nat)
    requires u % 2 == 0
    ensures q * u % 2 == 0 && q * u == 2 * (q * (u / 2))
  {
    assert q * u == 2 * (q * (u / 2));
  }

  lemma SpacingHalves(size: nat)
    requires size >= EXACT
    ensures Spacing(size) == 2 * Spacing(size / 2)
  {
  }

  lemma SpacingBeyond(size: nat)
    requires size >= EXACT
    ensures Spacing(size) == 2 * Spacing(size / 2) && Spacing(size) % 2 == 0
  {
    SpacingHalves(size);
  }

  lemma SpacingTwo(size: nat)
    requires EXACT <= size < 2 * EXACT
    ensures Spacing(size) == 2
  {
    var half := size / 2;
    assert half < EXACT;
    assert Spacing(half) == 1;
  }

  lemma SpacingMore(size: nat)
    requires size >= 2 * EXACT
    ensures Spacing(size) >= 4
  {
    var half := size / 2;
    assert half >= EXACT;
    SpacingHalves(size);
    SpacingHalves(half);
  }

  lemma EvenIsNumber(size: nat)
    requires size % 2 == 0 && size <= 2 * EXACT
    ensures RoundedSize(size) == size
  {
    if size < EXACT {
      ExactBelow(size);
    } else if size < 2 * EXACT {
      SpacingTwo(size);
      MultipleIsNumber(size / 2, size);
    } else {
      SpacingTwo(EXACT);
      SpacingHalves(size);
      MultipleIsNumber(EXACT / 2, size);
    }
  }

  /** An odd size rounds to one of its neighbours, or further away. */
  lemma OddRounds(size: nat)
    requires EXACT < size < 2 * EXACT && size % 2 == 1
    ensures RoundedSize(size) == size - 1 || RoundedSize(size) == size + 1
  {
    SpacingTwo(size);
  }

  lemma RepeatsAbove(from: nat)
    requires from > EXACT && IsNumber(from)
    ensures Rounded(from + 1) == Rounded(from) || Rounded(from + 1) == Rounded(from + 2)
  {
    NumberIsMultiple(from);
    var u := Spacing(from);
    var q: nat :| from == q * u;
    SpacingBeyond(from);
    EvenMultiple(q, u);
    if from < 2 * EXACT {
      OddRounds(from + 1);
      EvenIsNumber(from + 2);
    } else {
      SpacingMore(from);
      assert (from + 1) / 2 == from / 2;
      SpacingBeyond(from + 1);
      assert Spacing(from + 1) == u;
      Quotient(q, u, 1);
    }
  }

  lemma Doubled(p: nat, u: nat)
    ensures 2 * (p * u) == p * (2 * u)
  {
  }

  /** The spacing below a number divides it. */
  lemma {:induction false} SpacingBelow(size: nat, q: nat) returns (p: nat)
    requires size > 0 && size == q * Spacing(size)
    ensures size == p * Spacing(size - 1)
  {
    if size - 1 < EXACT {
      p := size;
    } else {
      SpacingBeyond(size);
      SpacingBeyond(size - 1);
      EvenMultiple(q, Spacing(size));
      assert (size - 1) / 2 == size / 2 - 1;
      p := SpacingBelow(size / 2, q);
      Doubled(p, Spacing(size / 2 - 1));
    }
  }

  lemma RoundsUp(size: nat, q: int)
    requires Spacing(size) >= 4 && q >= 0 && size + 1 == (q + 1) * Spacing(size)
    ensures RoundedSize(size) == size + 1
  {
    var u := Spacing(size);
    assert size == q * u + (u - 1);
    Quotient(q, u, u - 1);
  }

  lemma RepeatsBelow(size: nat)
    requires size > EXACT && RoundedSize(size) == size
    ensures RoundedSize(size - 1) == size || RoundedSize(size - 1) == RoundedSize(size - 2)
  {
    NumberIsMultiple(size);
    var q: nat :| size == q * Spacing(size);
    SpacingBeyond(size);
    EvenMultiple(q, Spacing(size));
    var p := SpacingBelow(size, q);
    var u := Spacing(size - 1);
    if size - 1 < 2 * EXACT {
      OddRounds(size - 1);
      EvenIsNumber(size - 2);
    } else {
      SpacingMore(size - 1);
      RoundsUp(size - 1, p - 1);
    }
  }

  lemma FirstRepeat()
    ensures Rounded(EXACT) == EXACT && Rounded(EXACT + 1) == EXACT
  {
    SpacingTwo(EXACT + 1);
    ExactBelow(EXACT);
  }

  lemma ScanRepeats(from: int) returns (i: nat, j: nat)
    requires IsNumber(from) && !Scannable(from)
    ensures i < j < SLOT_SPAN && Scanned(from, i) == Scanned(from, j)
  {
    if from > EXACT {
      RepeatsAbove(from);
      i, j := if Rounded(from + 1) == Rounded(from) then 0 else 1, if Rounded(from + 1) == Rounded(from) then 1 else 2;
    } else if from < -EXACT {
      RepeatsBelow(-from);
      i, j := if Rounded(from + 1) == Rounded(from) then 0 else 1, if Rounded(from + 1) == Rounded(from) then 1 else 2;
    } else {
      i, j := EXACT - from, EXACT - from + 1;
      FirstRepeat();
    }
  }

  function Looked(from: int, steps: set<int>): set<int> {
    set k | k in steps && k >= 0 :: Scanned(from, k)
  }

  lemma {:induction false} LookedSize(from: int, steps: set<int>)
    ensures |Looked(from, steps)| <= |steps|
  {
    if steps != {} {
      var k := Member(steps);
      LookedSize(from, steps - {k});
      if k >= 0 {
        assert Looked(from, steps) == Looked(from, steps - {k}) + {Scanned(from, k)};
      } else {
        assert Looked(from, steps) == Looked(from, steps - {k});
      }
    }
  }

  lemma MissesOne(from: int, i: nat, j: nat, slots: set<int>) returns (missed: int)
    requires i < j < SLOT_SPAN && Scanned(from, i) == Scanned(from, j)
    requires |slots| == SLOT_SPAN && forall k: int :: k in slots <==> 0 <= k < SLOT_SPAN
    ensures missed in slots
    ensures forall k: nat | k < SLOT_SPAN :: Scanned(from, k) != missed
  {
    var steps := slots - {j};
    LookedSize(from, steps);
    missed := Pigeonhole(slots, Looked(from, steps));
    forall k: nat | k < SLOT_SPAN
      ensures Scanned(from, k) != missed
    {
      assert i in steps && Scanned(from, i) in Looked(from, steps);
      assert k == j || (k in steps && Scanned(from, k) in Looked(from, steps));
    }
  }

  lemma MissesASlot(from: int) returns (missed: int)
    requires IsNumber(from) && !Scannable(from)
    ensures FIRST_SLOT <= missed < SLOT_COUNT
    ensures forall k: nat | k < SLOT_SPAN :: Scanned(from, k) != missed
  {
    var i, j := ScanRepeats(from);
    missed := MissesOne(from, i, j, Below(SLOT_SPAN));
  }

  /** The scan fails only when no slot is usable, whatever is held and whichever devices exist, exactly
    * from the scannable cursors. */
  lemma ScanFindsUsableSlots(from: int)
    requires IsNumber(from)
    ensures Scannable(from) <==>
      forall taken, devices, slot | FIRST_SLOT <= slot < SLOT_COUNT && Usable(taken, devices, slot) ::
        NextFree(taken, devices, from).Some?
  {
    if Scannable(from) {
      forall taken, devices, slot | FIRST_SLOT <= slot < SLOT_COUNT && Usable(taken, devices, slot)
        ensures NextFree(taken, devices, from).Some?
      {
        ScanReaches(from, slot);
      }
    } else {
      var missed := MissesASlot(from);
      AllButOneTaken(from, missed, Below(SLOT_SPAN));
    }
  }

  lemma AllButOneTaken(from: int, missed: int, slots: set<int>)
    requires FIRST_SLOT <= missed < SLOT_COUNT && forall k: nat | k < SLOT_SPAN :: Scanned(from, k) != missed
    requires forall k: int :: k in slots <==> FIRST_SLOT <= k < SLOT_COUNT
    ensures Usable(slots - {missed}, None, missed) && NextFree(slots - {missed}, None, from) == None
  {
    forall k: nat | k < SLOT_SPAN
      ensures !Usable(slots - {missed}, None, Scanned(from, k))
    {
      WrappedIsModulo(Rounded(from - FIRST_SLOT + k));
    }
  }

  lemma ScannedStep(from: int, step: nat)
    requires Scannable(from) && step < SLOT_SPAN
    ensures FIRST_SLOT <= Scanned(from, step) < SLOT_COUNT && StepTo(from, Scanned(from, step)) == step
  {
    ScanIsCyclic(from, step);
    Remains((from + step) % SLOT_SPAN - from, -((from + step) / SLOT_SPAN), step);
  }

  lemma FoundIsFirst(taken: set<int>, devices: Option<set<int>>, from: int, slot: int)
    requires Scannable(from) && FIRST_SLOT <= slot < SLOT_COUNT && Usable(taken, devices, slot)
    ensures ScanFrom(taken, devices, from, 0) <= StepTo(from, slot) < SLOT_SPAN
  {
    ScanReaches(from, slot);
  }

  /** The scan gives out the usable slot nearest after the cursor around the ring. */
  lemma NextFreeIsNearest(taken: set<int>, devices: Option<set<int>>, from: int, slot: int)
    requires Scannable(from)
    ensures NextFree(taken, devices, from) == Some(slot) <==>
      && FIRST_SLOT <= slot < SLOT_COUNT && Usable(taken, devices, slot)
      && forall t | FIRST_SLOT <= t < SLOT_COUNT && Usable(taken, devices, t) :: StepTo(from, slot) <= StepTo(from, t)
  {
    var found := ScanFrom(taken, devices, from, 0);
    forall t | FIRST_SLOT <= t < SLOT_COUNT && Usable(taken, devices, t)
      ensures found <= StepTo(from, t) < SLOT_SPAN
    {
      FoundIsFirst(taken, devices, from, t);
    }
    if found < SLOT_SPAN {
      ScannedStep(from, found);
    }
    if FIRST_SLOT <= slot < SLOT_COUNT {
      ScanReaches(from, slot);
    }
  }

  // ----- Assignments

  datatype Allocation = Allocation(slot: int, given: bool)

  datatype Failure = SlotExhausted | NbdAttachmentUnavailable

  /** No two apps have a slot in common, and every slot is one of the host's. */
  ghost predicate Apart(assignments: map<AppId, int>) {
    && (forall app {:trigger assignments[app]} | app in assignments :: FIRST_SLOT <= assignments[app] < SLOT_COUNT)
    && (forall a, b {:trigger assignments[a], assignments[b]} |
          a in assignments && b in assignments && assignments[a] == assignments[b] :: a == b)
  }

  /** `assignmentsFrom`: the first record of a slot counts. */
  function Loaded(records: seq<(AppId, int)>): map<AppId, int> {
    if records == [] then map[]
    else
      var before := Loaded(records[..|records| - 1]);
      var (app, slot) := records[|records| - 1];
      if slot < FIRST_SLOT || slot >= SLOT_COUNT || slot in before.Values then before else before[app := slot]
  }

  ghost predicate DistinctApps(records: seq<(AppId, int)>) {
    forall i, j | 0 <= i < j < |records| :: records[i].0 != records[j].0
  }

  predicate Names(records: seq<(AppId, int)>, slot: int) {
    FIRST_SLOT <= slot < SLOT_COUNT && exists i :: 0 <= i < |records| && records[i].1 == slot
  }

  predicate FirstOfSlot(records: seq<(AppId, int)>, i: nat)
    requires i < |records|
  {
    FIRST_SLOT <= records[i].1 < SLOT_COUNT && forall j | 0 <= j < i :: records[j].1 != records[i].1
  }

  lemma ValuesWith(m: map<AppId, int>, app: AppId, slot: int)
    requires app !in m
    ensures m[app := slot].Values == m.Values + {slot}
  {
    forall s | s in m.Values + {slot}
      ensures s in m[app := slot].Values
    {
      if s in m.Values {
        var a :| a in m && m[a] == s;
        assert m[app := slot][a] == s;
      } else {
        assert m[app := slot][app] == s;
      }
    }
  }

  /** Whatever the records say, what is loaded is apart, and holds exactly the slots they name. */
  lemma {:induction false} LoadedApart(records: seq<(AppId, int)>)
    requires DistinctApps(records)
    ensures Apart(Loaded(records))
    ensures forall app | app in Loaded(records) :: exists i :: 0 <= i < |records| && records[i].0 == app
    ensures forall slot :: slot in Loaded(records).Values <==> Names(records, slot)
  {
    if records != [] {
      var last := |records| - 1;
      var before := records[..last];
      LoadedApart(before);
      var (app, slot) := records[last];
      assert app !in Loaded(before);
      forall s
        ensures Names(records, s) <==> Names(before, s) || (s == slot && FIRST_SLOT <= s < SLOT_COUNT)
      {
        if Names(before, s) {
          var i :| 0 <= i < last && before[i].1 == s;
          assert records[i].1 == s;
        }
      }
      assert Names(before, slot) <==> slot in Loaded(before).Values;
      forall a | a in Loaded(records)
        ensures exists i :: 0 <= i < |records| && records[i].0 == a
      {
        if a in Loaded(before) {
          var i :| 0 <= i < last && before[i].0 == a;
          assert records[i].0 == a;
        } else {
          assert records[last].0 == a;
        }
      }
      ValuesWith(Loaded(before), app, slot);
    }
  }

  /** Each slot goes to the first app whose record names it. */
  lemma {:induction false} LoadedFirst(records: seq<(AppId, int)>, i: nat)
    requires DistinctApps(records) && i < |records|
    ensures records[i].0 in Loaded(records) <==> FirstOfSlot(records, i)
    ensures FirstOfSlot(records, i) ==> Loaded(records)[records[i].0] == records[i].1
  {
    var last := |records| - 1;
    var before := records[..last];
    LoadedApart(before);
    if i < last {
      LoadedFirst(before, i);
      assert before[i] == records[i];
      assert FirstOfSlot(before, i) <==> FirstOfSlot(records, i) by {
        assert forall j | 0 <= j < i :: before[j] == records[j];
      }
    } else {
      var (app, slot) := records[last];
      assert app !in Loaded(before);
      assert Names(before, slot) <==> slot in Loaded(before).Values;
      if Names(before, slot) {
        var j :| 0 <= j < last && before[j].1 == slot;
        assert records[j].1 == slot;
      } else {
        forall j | 0 <= j < last
          ensures slot < FIRST_SLOT || slot >= SLOT_COUNT || records[j].1 != slot
        {
          assert before[j].1 == records[j].1;
        }
      }
    }
  }

  /** What one `Ref.modify` of `allocate` answers, for a scan from `from`. */
  function Outcome(assignments: map<AppId, int>, app: AppId, devices: Option<set<int>>, from: int)
    : Result<Allocation, Failure>
  {
    if app in assignments then
      if devices.None? || assignments[app] in devices.value then Ok(Allocation(assignments[app], false))
      else Err(NbdAttachmentUnavailable)
    else
      match NextFree(assignments.Values, devices, from)
      case Some(slot) => Ok(Allocation(slot, true))
      case None => Err(if devices.None? then SlotExhausted else NbdAttachmentUnavailable)
  }

  predicate Gives(outcome: Result<Allocation, Failure>) {
    outcome.Ok? && outcome.value.given
  }

  function Assigned(assignments: map<AppId, int>, app: AppId, outcome: Result<Allocation, Failure>): map<AppId, int> {
    if Gives(outcome) then assignments[app := outcome.value.slot] else assignments
  }

  lemma NextFreeUsable(taken: set<int>, devices: Option<set<int>>, from: int)
    ensures var free := NextFree(taken, devices, from);
            free.Some? ==> FIRST_SLOT <= free.value < SLOT_COUNT && Usable(taken, devices, free.value)
  {
    var found := ScanFrom(taken, devices, from, 0);
    WrappedIsModulo(Rounded(from - FIRST_SLOT + found));
  }

  /** From any cursor at all, what is answered keeps the apps apart and has the device it needs. */
  lemma AssignedApart(assignments: map<AppId, int>, app: AppId, devices: Option<set<int>>, from: int)
    requires Apart(assignments)
    ensures var outcome := Outcome(assignments, app, devices, from);
            && Apart(Assigned(assignments, app, outcome))
            && (outcome.Ok? ==>
                  && app in Assigned(assignments, app, outcome)
                  && Assigned(assignments, app, outcome)[app] == outcome.value.slot
                  && (devices.Some? ==> outcome.value.slot in devices.value))
  {
    NextFreeUsable(assignments.Values, devices, from);
    var outcome := Outcome(assignments, app, devices, from);
    if Gives(outcome) {
      forall other | other in assignments
        ensures assignments[other] != outcome.value.slot
      {
        assert assignments[other] in assignments.Values;
      }
    }
  }

  predicate HasDevice(devices: Option<set<int>>, slot: int) {
    devices.None? || slot in devices.value
  }

  predicate Vacant(assignments: map<AppId, int>, devices: Option<set<int>>, slot: int) {
    FIRST_SLOT <= slot < SLOT_COUNT && slot !in assignments.Values && HasDevice(devices, slot)
  }

  /** From any cursor at all, an app that has a slot is answered that slot, not given anew, exactly if no device
    * is needed or the slot's exists; and it is never told that the slots are exhausted. */
  lemma KeepsItsSlot(assignments: map<AppId, int>, app: AppId, devices: Option<set<int>>, from: int)
    ensures var outcome := Outcome(assignments, app, devices, from);
            && (forall slot :: outcome == Ok(Allocation(slot, false)) <==>
                  app in assignments && assignments[app] == slot && HasDevice(devices, slot))
            && (app in assignments ==>
                  && !Gives(outcome) && outcome != Err(SlotExhausted)
                  && (outcome == Err(NbdAttachmentUnavailable) <==> !HasDevice(devices, assignments[app])))
  {
  }

  /** From a scannable cursor, an app without a slot is given one exactly if some slot of the host's is vacant and
    * has the device, and then the nearest of them; otherwise it is told that the slots are exhausted if it asked
    * for no device, and that no device can be attached if it did. */
  lemma GivesAVacantSlot(assignments: map<AppId, int>, app: AppId, devices: Option<set<int>>, from: int)
    requires Scannable(from) && app !in assignments
    ensures var outcome := Outcome(assignments, app, devices, from);
            && (Gives(outcome) <==> exists slot :: Vacant(assignments, devices, slot))
            && (Gives(outcome) ==>
                  && Vacant(assignments, devices, outcome.value.slot)
                  && forall t | Vacant(assignments, devices, t) :: StepTo(from, outcome.value.slot) <= StepTo(from, t))
            && (outcome == Err(SlotExhausted) <==>
                  devices == None && forall slot | FIRST_SLOT <= slot < SLOT_COUNT :: slot in assignments.Values)
            && (outcome == Err(NbdAttachmentUnavailable) <==>
                  devices.Some? && forall slot | FIRST_SLOT <= slot < SLOT_COUNT ::
                    slot in assignments.Values || slot !in devices.value)
  {
    var taken := assignments.Values;
    var free := NextFree(taken, devices, from);
    if free.Some? {
      NextFreeIsNearest(taken, devices, from, free.value);
      assert Vacant(assignments, devices, free.value);
    } else {
      forall slot
        ensures !Vacant(assignments, devices, slot)
      {
        if Vacant(assignments, devices, slot) {
          FoundIsFirst(taken, devices, from, slot);
        }
      }
      forall slot | FIRST_SLOT <= slot < SLOT_COUNT
        ensures slot in taken || !HasDevice(devices, slot)
      {
        assert !Vacant(assignments, devices, slot);
      }
    }
  }

  class Slots {
    var assignments: map<AppId, int>
    var cursor: int

    constructor (records: seq<(AppId, int)>, stored: Option<int>)
      requires DistinctApps(records)
      ensures assignments == Loaded(records) && cursor == if stored.Some? then stored.value else FIRST_SLOT
    {
      cursor := if stored.Some? then stored.value else FIRST_SLOT;
      new;
      assignments := map[];
      var taken := {};
      for index := 0 to |records|
        invariant assignments == Loaded(records[..index])
        invariant taken == assignments.Values
        invariant cursor == if stored.Some? then stored.value else FIRST_SLOT
      {
        assert records[..index + 1][..index] == records[..index];
        LoadedApart(records[..index]);
        var (app, slot) := records[index];
        if FIRST_SLOT <= slot < SLOT_COUNT && slot !in taken {
          assert app !in assignments;
          ValuesWith(assignments, app, slot);
          assignments := assignments[app := slot];
          taken := taken + {slot};
        }
      }
      assert records[..|records|] == records;
    }

    static method FindFree(taken: set<int>, devices: Option<set<int>>, from: int) returns (slot: Option<int>)
      ensures slot == NextFree(taken, devices, from)
    {
      for step := 0 to SLOT_SPAN
        invariant ScanFrom(taken, devices, from, 0) == ScanFrom(taken, devices, from, step)
      {
        var candidate := Scanned(from, step);
        if candidate !in taken && (devices.None? || candidate in devices.value) {
          return Some(candidate);
        }
      }
      slot := None;
    }

    /** The block inside `Ref.modify`. */
    method Take(app: AppId, devices: Option<set<int>>, from: int) returns (outcome: Result<Allocation, Failure>)
      modifies this`assignments
      ensures outcome == Outcome(old(assignments), app, devices, from)
      ensures assignments == Assigned(old(assignments), app, outcome)
    {
      if app in assignments {
        var slot := assignments[app];
        return if devices.None? || slot in devices.value then Ok(Allocation(slot, false))
               else Err(NbdAttachmentUnavailable);
      }
      var free := FindFree(assignments.Values, devices, from);
      if free.None? {
        return Err(if devices.None? then SlotExhausted else NbdAttachmentUnavailable);
      }
      assignments := assignments[app := free.value];
      outcome := Ok(Allocation(free.value, true));
    }

    method Allocate(app: AppId, devices: Option<set<int>>) returns (outcome: Result<Allocation, Failure>)
      modifies this
      ensures outcome == Outcome(old(assignments), app, devices, old(cursor))
      ensures assignments == Assigned(old(assignments), app, outcome)
      ensures cursor == if Gives(outcome) then outcome.value.slot + 1 else old(cursor)
    {
      var from := cursor;
      outcome := Take(app, devices, from);
      if outcome.Ok? && outcome.value.given {
        cursor := outcome.value.slot + 1;
      }
    }

    method Release(app: AppId)
      modifies this`assignments
      ensures assignments == old(assignments) - {app}
    {
      assignments := assignments - {app};
    }
  }
}
