/** Runs of the slot allocator: whole `allocate` and `release` calls one after another, and the
  * blocks of many `allocate` calls in any order.
  */
module SlotRuns {
  import opened Prelude
  import opened SlotAllocator

  datatype Pool = Pool(assignments: map<AppId, int>, cursor: int)

  datatype Call = Allocate(app: AppId, devices: Option<set<int>>) | Release(app: AppId)

  function Answer(p: Pool, call: Call): Result<Allocation, Failure>
    requires call.Allocate?
  {
    Outcome(p.assignments, call.app, call.devices, p.cursor)
  }

  function After(p: Pool, call: Call): Pool {
    match call
    case Allocate(app, _) =>
      var outcome := Answer(p, call);
      Pool(Assigned(p.assignments, app, outcome), if Gives(outcome) then outcome.value.slot + 1 else p.cursor)
    case Release(app) => p.(assignments := p.assignments - {app})
  }

  /** Any stored assignments that are apart, and any stored cursor. */
  ghost predicate IsRun(run: seq<Pool>, calls: seq<Call>) {
    && |run| == |calls| + 1
    && Apart(run[0].assignments)
    && forall i {:trigger calls[i]} | 0 <= i < |calls| :: run[i + 1] == After(run[i], calls[i])
  }

  lemma {:induction false} StaysApart(run: seq<Pool>, calls: seq<Call>, i: nat)
    requires IsRun(run, calls) && i < |run|
    ensures Apart(run[i].assignments)
  {
    if i > 0 {
      StaysApart(run, calls, i - 1);
      if calls[i - 1].Allocate? {
        AssignedApart(run[i - 1].assignments, calls[i - 1].app, calls[i - 1].devices, run[i - 1].cursor);
      }
    }
  }

  /** The call gives `slot` to an app that had none. */
  predicate GivenAt(run: seq<Pool>, calls: seq<Call>, i: nat, slot: int)
    requires i < |calls| && i < |run|
  {
    calls[i].Allocate? && Answer(run[i], calls[i]) == Ok(Allocation(slot, true))
  }

  /** When the call was made the slot was held, or lacked the device the call needed. */
  predicate PassedAt(run: seq<Pool>, calls: seq<Call>, i: nat, slot: int)
    requires i < |calls| && i < |run|
  {
    slot in run[i].assignments.Values || (calls[i].Allocate? && !Usable({}, calls[i].devices, slot))
  }

  ghost predicate PassedBetween(run: seq<Pool>, calls: seq<Call>, i: nat, j: nat, slot: int)
    requires j <= |calls| < |run|
  {
    exists k {:trigger PassedAt(run, calls, k, slot)} :: i < k < j && PassedAt(run, calls, k, slot)
  }

  // ----- How far the cursor has come round since a slot was given

  /** Distance of a slot, or of the cursor, from the one after `slot`. */
  function Offset(slot: int, x: int): nat {
    StepTo(slot + 1, x)
  }

  lemma Offsets(slot: int, from: int, x: int)
    requires FIRST_SLOT <= slot < SLOT_COUNT && FIRST_SLOT <= x < SLOT_COUNT
    ensures Offset(slot, from) < SLOT_SPAN && Offset(slot, x) < SLOT_SPAN
    ensures Offset(slot, x) == SLOT_SPAN - 1 <==> x == slot
    ensures Offset(slot, x) < SLOT_SPAN - 1 ==> Offset(slot, x + 1) == Offset(slot, x) + 1
    ensures Offset(slot, x) >= Offset(slot, from) ==> StepTo(from, x) == Offset(slot, x) - Offset(slot, from)
    ensures Offset(slot, x) < Offset(slot, from) ==> StepTo(from, x) == Offset(slot, x) - Offset(slot, from) + SLOT_SPAN
  {
    var a, b := (from - slot - 1) / SLOT_SPAN, (x - slot - 1) / SLOT_SPAN;
    assert from == slot + 1 + SLOT_SPAN * a + Offset(slot, from);
    assert x == slot + 1 + SLOT_SPAN * b + Offset(slot, x);
    assert x - from == SLOT_SPAN * (b - a) + Offset(slot, x) - Offset(slot, from);
  }

  /** Since `slot` was given at `i`, this other slot was passed over, or is held now. */
  ghost predicate Seen(run: seq<Pool>, calls: seq<Call>, i: nat, k: nat, slot: int)
    requires k <= |calls| < |run|
  {
    PassedBetween(run, calls, i, k, slot) || slot in run[k].assignments.Values
  }

  predicate Other(slot: int, t: int) {
    FIRST_SLOT <= t < SLOT_COUNT && t != slot
  }

  ghost predicate SeenUpToCursor(run: seq<Pool>, calls: seq<Call>, i: nat, k: nat, slot: int)
    requires k <= |calls| < |run|
  {
    forall t {:trigger Other(slot, t)} | Other(slot, t) && Offset(slot, t) < Offset(slot, run[k].cursor) ::
      Seen(run, calls, i, k, t)
  }

  ghost predicate SeenAll(run: seq<Pool>, calls: seq<Call>, i: nat, k: nat, slot: int)
    requires k <= |calls| < |run|
  {
    forall t {:trigger Other(slot, t)} | Other(slot, t) :: Seen(run, calls, i, k, t)
  }

  lemma SeenStays(run: seq<Pool>, calls: seq<Call>, i: nat, k: nat, slot: int)
    requires i < k < |calls| < |run| && Seen(run, calls, i, k, slot)
    ensures PassedBetween(run, calls, i, k + 1, slot)
  {
    if slot in run[k].assignments.Values {
      assert PassedAt(run, calls, k, slot);
    } else {
      var m :| i < m < k && PassedAt(run, calls, m, slot);
    }
  }

  /** A call that gives `z` looked at everything from the cursor to `z` and passed it over. */
  lemma LookedAt(run: seq<Pool>, calls: seq<Call>, i: nat, k: nat, z: int, t: int)
    requires i < k < |calls| < |run| && GivenAt(run, calls, k, z) && Scannable(run[k].cursor)
    requires FIRST_SLOT <= t < SLOT_COUNT && StepTo(run[k].cursor, t) < StepTo(run[k].cursor, z)
    ensures PassedBetween(run, calls, i, k + 1, t)
  {
    NextFreeIsNearest(run[k].assignments.Values, calls[k].devices, run[k].cursor, z);
    assert PassedAt(run, calls, k, t);
  }

  lemma GivenIsASlot(run: seq<Pool>, calls: seq<Call>, k: nat, z: int)
    requires IsRun(run, calls) && k < |calls| && GivenAt(run, calls, k, z)
    ensures FIRST_SLOT <= z < SLOT_COUNT
    ensures run[k + 1].cursor == z + 1 && z in run[k + 1].assignments.Values
  {
    assert run[k + 1].assignments[calls[k].app] == z;
  }

  /** A scan from `from` to `z` either comes past `slot`, and has then looked at every other slot, or
    * ends before it, and has then looked at those up to the new cursor. */
  lemma Sweeps(slot: int, from: int, z: int, t: int)
    requires FIRST_SLOT <= slot < SLOT_COUNT && FIRST_SLOT <= z < SLOT_COUNT && Other(slot, t)
    requires Offset(slot, from) <= Offset(slot, t) && StepTo(from, z) <= StepTo(from, t)
    ensures StepTo(from, z) + Offset(slot, from) < SLOT_SPAN - 1
    ensures Offset(slot, t) < Offset(slot, z + 1) ==> t == z
  {
    Offsets(slot, from, t);
    Offsets(slot, from, z);
  }

  lemma PassesOver(run: seq<Pool>, calls: seq<Call>, i: nat, k: nat, slot: int, z: int, t: int)
    requires i < k < |calls| < |run| && GivenAt(run, calls, k, z) && Scannable(run[k].cursor)
    requires SeenUpToCursor(run, calls, i, k, slot) && Other(slot, t)
    requires Offset(slot, t) < Offset(slot, run[k].cursor) || StepTo(run[k].cursor, t) < StepTo(run[k].cursor, z)
    ensures PassedBetween(run, calls, i, k + 1, t)
  {
    if Offset(slot, t) < Offset(slot, run[k].cursor) {
      SeenStays(run, calls, i, k, t);
    } else {
      LookedAt(run, calls, i, k, z, t);
    }
  }

  predicate ComesPast(slot: int, from: int, z: int) {
    StepTo(from, z) + Offset(slot, from) >= SLOT_SPAN - 1
  }

  lemma PassesAll(run: seq<Pool>, calls: seq<Call>, i: nat, k: nat, slot: int, z: int)
    requires IsRun(run, calls) && i < k < |calls| && FIRST_SLOT <= slot < SLOT_COUNT
    requires GivenAt(run, calls, k, z) && Scannable(run[k].cursor)
    requires SeenUpToCursor(run, calls, i, k, slot)
    requires ComesPast(slot, run[k].cursor, z)
    ensures forall t {:trigger Other(slot, t)} | Other(slot, t) :: PassedBetween(run, calls, i, k + 1, t)
  {
    GivenIsASlot(run, calls, k, z);
    forall t | Other(slot, t)
      ensures PassedBetween(run, calls, i, k + 1, t)
    {
      var from := run[k].cursor;
      if Offset(slot, from) <= Offset(slot, t) && StepTo(from, z) <= StepTo(from, t) {
        Sweeps(slot, from, z, t);
      } else {
        PassesOver(run, calls, i, k, slot, z, t);
      }
    }
  }

  lemma PassesSome(run: seq<Pool>, calls: seq<Call>, i: nat, k: nat, slot: int, z: int)
    requires IsRun(run, calls) && i < k < |calls| && FIRST_SLOT <= slot < SLOT_COUNT
    requires GivenAt(run, calls, k, z) && Scannable(run[k].cursor)
    requires SeenUpToCursor(run, calls, i, k, slot)
    requires !ComesPast(slot, run[k].cursor, z)
    ensures SeenUpToCursor(run, calls, i, k + 1, slot)
  {
    GivenIsASlot(run, calls, k, z);
    forall t | Other(slot, t) && Offset(slot, t) < Offset(slot, run[k + 1].cursor)
      ensures Seen(run, calls, i, k + 1, t)
    {
      var from := run[k].cursor;
      if Offset(slot, from) <= Offset(slot, t) && StepTo(from, z) <= StepTo(from, t) {
        Sweeps(slot, from, z, t);
      } else {
        PassesOver(run, calls, i, k, slot, z, t);
      }
    }
  }

  lemma SeenOn(run: seq<Pool>, calls: seq<Call>, i: nat, k: nat, slot: int)
    requires IsRun(run, calls) && i < k < |calls|
    ensures SeenAll(run, calls, i, k, slot) ==>
      forall t {:trigger Other(slot, t)} | Other(slot, t) :: PassedBetween(run, calls, i, k + 1, t)
    ensures SeenAll(run, calls, i, k, slot) ==> SeenAll(run, calls, i, k + 1, slot)
    ensures run[k + 1].cursor == run[k].cursor && SeenUpToCursor(run, calls, i, k, slot) ==>
      SeenUpToCursor(run, calls, i, k + 1, slot)
  {
    forall t | Other(slot, t) && Seen(run, calls, i, k, t)
      ensures PassedBetween(run, calls, i, k + 1, t)
    {
      SeenStays(run, calls, i, k, t);
    }
  }

  lemma ComesRoundOn(run: seq<Pool>, calls: seq<Call>, i: nat, k: nat, slot: int)
    requires IsRun(run, calls) && i < k < |calls| && FIRST_SLOT <= slot < SLOT_COUNT && Scannable(run[k].cursor)
    requires SeenUpToCursor(run, calls, i, k, slot)
    ensures Scannable(run[k + 1].cursor)
    ensures SeenUpToCursor(run, calls, i, k + 1, slot) || SeenAll(run, calls, i, k + 1, slot)
  {
    if calls[k].Allocate? && Gives(Answer(run[k], calls[k])) {
      var z := Answer(run[k], calls[k]).value.slot;
      assert GivenAt(run, calls, k, z);
      GivenIsASlot(run, calls, k, z);
      if ComesPast(slot, run[k].cursor, z) {
        PassesAll(run, calls, i, k, slot, z);
        assert forall t {:trigger Other(slot, t)} | Other(slot, t) :: Seen(run, calls, i, k + 1, t);
      } else {
        PassesSome(run, calls, i, k, slot, z);
      }
    } else {
      SeenOn(run, calls, i, k, slot);
    }
  }

  lemma StaysScannable(run: seq<Pool>, calls: seq<Call>, k: nat)
    requires IsRun(run, calls) && k < |calls| && Scannable(run[k].cursor)
    ensures Scannable(run[k + 1].cursor)
  {
    if calls[k].Allocate? && Gives(Answer(run[k], calls[k])) {
      GivenIsASlot(run, calls, k, Answer(run[k], calls[k]).value.slot);
    }
  }

  /** From the moment a slot was given, either the cursor has not come past it yet, and everything it
    * did come past was held or unusable meanwhile, or that holds of every other slot. */
  lemma {:induction false} CursorComesRound(run: seq<Pool>, calls: seq<Call>, i: nat, k: nat, slot: int)
    requires IsRun(run, calls) && i < k <= |calls| && GivenAt(run, calls, i, slot)
    ensures FIRST_SLOT <= slot < SLOT_COUNT && Scannable(run[k].cursor)
    ensures SeenUpToCursor(run, calls, i, k, slot) || SeenAll(run, calls, i, k, slot)
  {
    GivenIsASlot(run, calls, i, slot);
    if k == i + 1 {
    } else {
      CursorComesRound(run, calls, i, k - 1, slot);
      StaysScannable(run, calls, k - 1);
      if SeenUpToCursor(run, calls, i, k - 1, slot) {
        ComesRoundOn(run, calls, i, k - 1, slot);
      } else {
        SeenOn(run, calls, i, k - 1, slot);
      }
    }
  }

  /** A slot given twice: in between, every other slot was held, or lacked the device the call needed,
    * at some call. From any stored assignments and any stored cursor. */
  lemma EveryOtherSlotFirst(run: seq<Pool>, calls: seq<Call>, i: nat, j: nat, slot: int, t: int)
    requires IsRun(run, calls) && i < j < |calls|
    requires GivenAt(run, calls, i, slot) && GivenAt(run, calls, j, slot)
    requires FIRST_SLOT <= t < SLOT_COUNT && t != slot
    ensures exists k :: i < k <= j && PassedAt(run, calls, k, t)
  {
    CursorComesRound(run, calls, i, j, slot);
    SeenOn(run, calls, i, j, slot);
    assert Other(slot, t);
    if SeenUpToCursor(run, calls, i, j, slot) {
      Offsets(slot, run[j].cursor, slot);
      PassesAll(run, calls, i, j, slot, slot);
    }
    assert PassedBetween(run, calls, i, j + 1, t);
  }

  // ----- Blocks of many calls, in any order

  type ClientId = nat

  datatype Phase =
    | Scanning(app: AppId, devices: Option<set<int>>, from: int)
    | Advancing(app: AppId, slot: int)
    | Finished(app: AppId, outcome: Result<Allocation, Failure>)

  datatype Host = Host(pool: Pool, clients: map<ClientId, Phase>)

  datatype Block =
    | ReadCursor(client: ClientId, app: AppId, devices: Option<set<int>>)
    | TakeSlot(client: ClientId)
    | SetCursor(client: ClientId)
    | Interrupt(client: ClientId)
    | ReleaseSlot(app: AppId)

  predicate Enabled(h: Host, block: Block) {
    match block
    case ReadCursor(c, _, _) => c !in h.clients
    case TakeSlot(c) => c in h.clients && h.clients[c].Scanning?
    case SetCursor(c) => c in h.clients && h.clients[c].Advancing?
    case Interrupt(c) => c in h.clients
    case ReleaseSlot(_) => true
  }

  function Apply(h: Host, block: Block): Host
    requires Enabled(h, block)
  {
    match block
    case ReadCursor(c, app, devices) => h.(clients := h.clients[c := Scanning(app, devices, h.pool.cursor)])
    case TakeSlot(c) =>
      var Scanning(app, devices, from) := h.clients[c];
      var outcome := Outcome(h.pool.assignments, app, devices, from);
      Host(h.pool.(assignments := Assigned(h.pool.assignments, app, outcome)),
           h.clients[c := if Gives(outcome) then Advancing(app, outcome.value.slot) else Finished(app, outcome)])
    case SetCursor(c) =>
      var Advancing(app, slot) := h.clients[c];
      Host(h.pool.(cursor := slot + 1), h.clients[c := Finished(app, Ok(Allocation(slot, true)))])
    case Interrupt(c) => h.(clients := h.clients - {c})
    case ReleaseSlot(app) => h.(pool := h.pool.(assignments := h.pool.assignments - {app}))
  }

  ghost predicate IsInterleaving(hosts: seq<Host>, blocks: seq<Block>) {
    && |hosts| == |blocks| + 1
    && Apart(hosts[0].pool.assignments) && hosts[0].clients == map[]
    && forall i {:trigger blocks[i]} | 0 <= i < |blocks| ::
         Enabled(hosts[i], blocks[i]) && hosts[i + 1] == Apply(hosts[i], blocks[i])
  }

  lemma BlockKeeps(h: Host, block: Block)
    requires Enabled(h, block) && Apart(h.pool.assignments)
    ensures Apart(Apply(h, block).pool.assignments)
  {
    if block.TakeSlot? {
      var Scanning(app, devices, from) := h.clients[block.client];
      AssignedApart(h.pool.assignments, app, devices, from);
    }
  }

  /** Stale cursors or not, no two apps ever share a slot. */
  lemma {:induction false} InterleavedStaysApart(hosts: seq<Host>, blocks: seq<Block>, i: nat)
    requires IsInterleaving(hosts, blocks) && i < |hosts|
    ensures Apart(hosts[i].pool.assignments)
  {
    if i > 0 {
      InterleavedStaysApart(hosts, blocks, i - 1);
      BlockKeeps(hosts[i - 1], blocks[i - 1]);
    }
  }

  /** A call that gives a slot out gives one that no app had at that moment. */
  lemma GivenWasFree(h: Host, c: ClientId)
    requires Enabled(h, TakeSlot(c)) && Apply(h, TakeSlot(c)).clients[c].Advancing?
    ensures var Advancing(app, slot) := Apply(h, TakeSlot(c)).clients[c];
            && FIRST_SLOT <= slot < SLOT_COUNT && slot !in h.pool.assignments.Values
            && Apply(h, TakeSlot(c)).pool.assignments == h.pool.assignments[app := slot]
  {
    var Scanning(app, devices, from) := h.clients[c];
  }
}
