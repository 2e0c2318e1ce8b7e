/** Every interleaving of `run`, `whenIdle` and `exclusively` calls. */
module ActivityProtocol {
  import opened Prelude
  import opened GuestActivity

  // A step is one atomic action of one call. A call may be interrupted wherever it waits and while
  // its body runs; what it acquired is then given back by the same steps as after a normal end.

  datatype Kind = Run | WhenIdle | Exclusive

  datatype Phase =
    | Queued                      // registered, wants the gate's permit
    | Entering                    // has the permit, has not looked at the counter yet
    | Counted                     // run: counted, still holding the permit
    | Awaiting(cell: Cell)        // exclusively: holds the permit until the busy period ends
    | Body
    | Yielding                    // done with the permit, which is still to be given back
    | Ending                      // run: its finalizer is still to lower the counter
    | Signalling(owed: Cell)      // run: ended the busy period, its cell is still to be completed
    | Leaving                     // still registered
    | Left

  datatype Client = Client(kind: Kind, app: AppId, room: RoomId, phase: Phase)

  datatype Room = Room(permits: int, running: Count)

  datatype State = State(
    activities: Activities,
    rooms: map<RoomId, Room>,
    done: set<Cell>,
    clients: map<ClientId, Client>)

  const INITIAL := State(map[], map[], {}, map[])

  datatype Action =
    | Register(kind: Kind, target: AppId)
    | Take
    | Look
    | Drained
    | Yield
    | EndBody
    | Uncount
    | Signal
    | Unregister
    | Interrupt

  predicate HasPermit(client: Client) {
    match client.phase
    case Entering => true
    case Counted => true
    case Awaiting(_) => true
    case Yielding => true
    case Body => client.kind != Run
    case _ => false
  }

  predicate IsCounted(client: Client) {
    client.kind == Run && (client.phase == Counted || client.phase == Body || client.phase == Ending)
  }

  /** Whether the call can take the action now. `Take` waits for the permit and `Drained` for the
    * cell; nothing else waits for anybody. */
  predicate Enabled(s: State, c: ClientId, action: Action) {
    if action.Register? then c !in s.clients
    else
      && c in s.clients && s.clients[c].room in s.rooms
      && var Client(kind, app, room, phase) := s.clients[c];
         match action
         case Take => phase == Queued && s.rooms[room].permits > 0
         case Look => phase == Entering
         case Drained => phase.Awaiting? && phase.cell in s.done
         case Yield => phase == Counted || phase == Yielding
         case EndBody => phase == Body
         case Uncount => phase == Ending
         case Signal => phase.Signalling?
         case Unregister => phase == Leaving
         case Interrupt => phase == Queued || phase == Entering || phase.Awaiting?
         case Register(_, _) => true
  }

  function Moved(s: State, c: ClientId, phase: Phase): map<ClientId, Client>
    requires c in s.clients
  {
    s.clients[c := s.clients[c].(phase := phase)]
  }

  function Apply(s: State, c: ClientId, action: Action): State
    requires Enabled(s, c, action)
  {
    if action.Register? then
      var activity := ActivityFor(s.activities, action.target, c);
      State(
        Join(s.activities, action.target, c),
        if action.target in s.activities then s.rooms else s.rooms[c := Room(1, Count(0, Initial(c)))],
        s.done,
        s.clients[c := Client(action.kind, action.target, activity.room, Queued)])
    else
      var Client(kind, app, room, phase) := s.clients[c];
      var Room(permits, running) := s.rooms[room];
      match action
      case Take =>
        s.(rooms := s.rooms[room := Room(permits - 1, running)], clients := Moved(s, c, Entering))
      case Look =>
        if kind == Run then
          s.(rooms := s.rooms[room := Room(permits, Enter(running, Period(c)))], clients := Moved(s, c, Counted))
        else if running.count == 0 then s.(clients := Moved(s, c, Body))
        else if kind == WhenIdle then s.(clients := Moved(s, c, Yielding))
        else s.(clients := Moved(s, c, Awaiting(running.drained)))
      case Drained => s.(clients := Moved(s, c, Body))
      case Yield =>
        s.(rooms := s.rooms[room := Room(permits + 1, running)],
           clients := Moved(s, c, if phase == Counted then Body else Leaving))
      case EndBody => s.(clients := Moved(s, c, if kind == Run then Ending else Yielding))
      case Uncount =>
        var next := match Ended(running) case Some(cell) => Signalling(cell) case None => Leaving;
        s.(rooms := s.rooms[room := Room(permits, Leave(running))], clients := Moved(s, c, next))
      case Signal => s.(done := s.done + {phase.owed}, clients := Moved(s, c, Leaving))
      case Unregister => s.(activities := Part(s.activities, app), clients := Moved(s, c, Left))
      case Interrupt => s.(clients := Moved(s, c, if phase == Queued then Leaving else Yielding))
      case Register(_, _) => s
  }

  ghost predicate Next(s: State, s': State) {
    exists c, action :: Enabled(s, c, action) && s' == Apply(s, c, action)
  }

  ghost predicate IsRun(run: seq<State>) {
    |run| > 0 && run[0] == INITIAL && forall i | 0 <= i < |run| - 1 :: Next(run[i], run[i + 1])
  }

  // ----- The invariant

  function Users(s: State, a: AppId): set<ClientId> {
    set c | c in s.clients && s.clients[c].app == a && s.clients[c].phase != Left
  }

  function Permitted(s: State, r: RoomId): set<ClientId> {
    set c | c in s.clients && s.clients[c].room == r && HasPermit(s.clients[c])
  }

  function Inside(s: State, r: RoomId): set<ClientId> {
    set c | c in s.clients && s.clients[c].room == r && IsCounted(s.clients[c])
  }

  ghost predicate Owed(s: State, cell: Cell) {
    exists c :: c in s.clients && s.clients[c].phase == Signalling(cell)
  }

  /** The registry counts an app's callers, and they all use the room it names. */
  ghost predicate AppOk(s: State, a: AppId) {
    if a in s.activities then
      && s.activities[a].users == |Users(s, a)| > 0
      && s.activities[a].room in s.rooms
      && forall c | c in Users(s, a) :: s.clients[c].room == s.activities[a].room
    else Users(s, a) == {}
  }

  /** One permit, one counter that counts; a busy period's cell is untouched until it ends. */
  ghost predicate RoomOk(s: State, r: RoomId)
    requires r in s.rooms
  {
    var Room(permits, running) := s.rooms[r];
    && permits >= 0 && permits + |Permitted(s, r)| == 1
    && running.count == |Inside(s, r)|
    && CellOk(s, running.drained, r)
    && (running.count > 0 ==> running.drained !in s.done && !Owed(s, running.drained))
  }

  /** A cell belongs to one room, and a run's own cell is not used before it counts itself in. */
  ghost predicate CellOk(s: State, cell: Cell, r: RoomId) {
    && cell.maker in s.clients
    && s.clients[cell.maker].room == r
    && (cell.Initial? ==> cell.maker == r)
    && (cell.Period? ==> s.clients[cell.maker].phase != Queued && s.clients[cell.maker].phase != Entering)
  }

  ghost predicate ClientOk(s: State, c: ClientId)
    requires c in s.clients
  {
    var Client(kind, app, room, phase) := s.clients[c];
    && room in s.rooms && room in s.clients && s.clients[room].app == app
    && var running := s.rooms[room].running;
       match phase
       case Counted => kind == Run
       case Ending => kind == Run
       case Signalling(cell) => kind == Run && CellOk(s, cell, room)
       case Awaiting(cell) =>
         && kind == Exclusive && running.drained == cell
         && (running.count > 0 || Owed(s, cell) || cell in s.done)
       case Body => kind != Run ==> running.count == 0
       case _ => true
  }

  ghost predicate DoneOk(s: State) {
    && (forall cell {:trigger cell in s.done} | cell in s.done :: 
          cell.maker in s.clients && CellOk(s, cell, s.clients[cell.maker].room))
    && s.rooms.Keys <= s.clients.Keys
  }

  ghost predicate Inv(s: State) {
    && (forall a: AppId :: AppOk(s, a))
    && (forall r {:trigger RoomOk(s, r)} | r in s.rooms :: RoomOk(s, r))
    && (forall c {:trigger ClientOk(s, c)} | c in s.clients :: ClientOk(s, c))
    && DoneOk(s)
  }

  // ----- Every step keeps it

  lemma UsersMoved(s: State, s': State, c: ClientId, now: Client, a: AppId)
    requires s'.clients == s.clients[c := now]
    ensures Users(s', a) == if now.app == a && now.phase != Left then Users(s, a) + {c} else Users(s, a) - {c}
    ensures c in Users(s, a) <==> c in s.clients && s.clients[c].app == a && s.clients[c].phase != Left
  {
  }

  lemma PermittedMoved(s: State, s': State, c: ClientId, now: Client, r: RoomId)
    requires s'.clients == s.clients[c := now]
    ensures Permitted(s', r)
            == if now.room == r && HasPermit(now) then Permitted(s, r) + {c} else Permitted(s, r) - {c}
    ensures c in Permitted(s, r) <==> c in s.clients && s.clients[c].room == r && HasPermit(s.clients[c])
  {
    assert forall d | d in s.clients && d != c :: d in s'.clients && s'.clients[d] == s.clients[d];
  }

  lemma InsideMoved(s: State, s': State, c: ClientId, now: Client, r: RoomId)
    requires s'.clients == s.clients[c := now]
    ensures Inside(s', r)
            == if now.room == r && IsCounted(now) then Inside(s, r) + {c} else Inside(s, r) - {c}
    ensures c in Inside(s, r) <==> c in s.clients && s.clients[c].room == r && IsCounted(s.clients[c])
  {
    assert forall d | d in s.clients && d != c :: d in s'.clients && s'.clients[d] == s.clients[d];
  }

  lemma OwedMoved(s: State, s': State, c: ClientId, now: Client, cell: Cell)
    requires s'.clients == s.clients[c := now]
    ensures Owed(s', cell) ==> Owed(s, cell) || now.phase == Signalling(cell)
    ensures now.phase == Signalling(cell) ==> Owed(s', cell)
    ensures Owed(s, cell) && !(c in s.clients && s.clients[c].phase == Signalling(cell)) ==> Owed(s', cell)
  {
    assert forall d | d in s.clients && d != c :: d in s'.clients && s'.clients[d] == s.clients[d];
    assert c in s'.clients && s'.clients[c] == now;
  }

  /** `s'` has `c` one phase further on, in the same app and room. */
  ghost predicate Moves(s: State, s': State, c: ClientId, phase: Phase) {
    && c in s.clients && s'.clients == Moved(s, c, phase)
    && phase != Queued && (phase == Entering ==> s.clients[c].phase == Queued)
  }

  lemma AppStays(s: State, s': State, c: ClientId, phase: Phase, a: AppId)
    requires AppOk(s, a) && Moves(s, s', c, phase)
    requires s.clients[c].phase != Left && phase != Left
    requires s'.activities == s.activities && s'.rooms.Keys == s.rooms.Keys
    ensures AppOk(s', a)
  {
    UsersMoved(s, s', c, s'.clients[c], a);
    assert Users(s', a) == Users(s, a);
  }

  lemma SetsSame(s: State, s': State, c: ClientId, now: Client, r: RoomId)
    requires s'.clients == s.clients[c := now]
    requires (now.room == r && HasPermit(now)) <==> (c in s.clients && s.clients[c].room == r && HasPermit(s.clients[c]))
    requires (now.room == r && IsCounted(now)) <==> (c in s.clients && s.clients[c].room == r && IsCounted(s.clients[c]))
    ensures Permitted(s', r) == Permitted(s, r) && Inside(s', r) == Inside(s, r)
  {
    PermittedMoved(s, s', c, now, r);
    InsideMoved(s, s', c, now, r);
  }

  lemma RoomStays(s: State, s': State, c: ClientId, phase: Phase, r: RoomId)
    requires r in s.rooms && RoomOk(s, r) && Moves(s, s', c, phase)
    requires r in s'.rooms && s'.rooms[r] == s.rooms[r]
    requires s.clients[c].room == r ==>
               && (HasPermit(s.clients[c]) <==> HasPermit(s'.clients[c]))
               && (IsCounted(s.clients[c]) <==> IsCounted(s'.clients[c]))
    requires var cell := s.rooms[r].running.drained;
             s.rooms[r].running.count > 0 && (cell in s'.done || Owed(s', cell)) ==> cell in s.done || Owed(s, cell)
    ensures RoomOk(s', r)
  {
    SetsSame(s, s', c, s'.clients[c], r);
  }

  lemma ClientStays(s: State, s': State, c: ClientId, phase: Phase, d: ClientId)
    requires d in s.clients && d != c && ClientOk(s, d) && Moves(s, s', c, phase)
    requires var r := s.clients[d].room; r in s'.rooms && s'.rooms[r].running == s.rooms[r].running
    requires s.clients[d].phase.Awaiting? && Owed(s, s.clients[d].phase.cell) ==>
               Owed(s', s.clients[d].phase.cell) || s.clients[d].phase.cell in s'.done
    requires s.done <= s'.done
    ensures ClientOk(s', d)
  {
  }

  lemma DoneStays(s: State, s': State, c: ClientId, phase: Phase)
    requires DoneOk(s) && Moves(s, s', c, phase) && s'.done == s.done && s'.rooms.Keys == s.rooms.Keys
    ensures DoneOk(s')
  {
    forall cell | cell in s'.done
      ensures cell.maker in s'.clients && CellOk(s', cell, s'.clients[cell.maker].room)
    {
    }
  }

  /** Steps that only move the call on: nothing shared is rewritten. */
  lemma PhaseOnlyKeeps(s: State, s': State, c: ClientId, phase: Phase)
    requires Inv(s) && Moves(s, s', c, phase) && s' == s.(clients := s'.clients)
    requires s.clients[c].phase != Left && phase != Left
    requires !s.clients[c].phase.Signalling? && !phase.Signalling?
    requires HasPermit(s.clients[c]) <==> HasPermit(s'.clients[c])
    requires IsCounted(s.clients[c]) <==> IsCounted(s'.clients[c])
    requires ClientOk(s', c)
    ensures Inv(s')
  {
    forall cell
      ensures Owed(s', cell) <==> Owed(s, cell)
    {
      OwedMoved(s, s', c, s'.clients[c], cell);
    }
    forall a: AppId
      ensures AppOk(s', a)
    {
      assert AppOk(s, a);
      AppStays(s, s', c, phase, a);
    }
    forall r | r in s'.rooms
      ensures RoomOk(s', r)
    {
      RoomStays(s, s', c, phase, r);
    }
    forall d | d in s'.clients
      ensures ClientOk(s', d)
    {
      if d != c {
        ClientStays(s, s', c, phase, d);
      }
    }
    DoneStays(s, s', c, phase);
  }

  /** In a room whose permit `c` holds, nobody else is looking, awaiting or alone in a body. */
  lemma OnlyPermit(s: State, c: ClientId, d: ClientId)
    requires c in s.clients && d in s.clients && s.clients[c].room == s.clients[d].room
    requires HasPermit(s.clients[c]) && HasPermit(s.clients[d])
    requires s.clients[c].room in s.rooms && RoomOk(s, s.clients[c].room)
    ensures c == d
  {
    var held := Permitted(s, s.clients[c].room);
    assert c in held && d in held;
    assert |held - {c}| == |held| - 1;
    assert |held| == 1 && |held - {c}| == 0;
    assert d !in held - {c};
  }

  /** What every step that rewrites only the caller's own room leaves right elsewhere. */
  lemma ElsewhereStays(s: State, s': State, c: ClientId, phase: Phase, room: Room)
    requires Inv(s) && Moves(s, s', c, phase)
    requires s.clients[c].phase != Left && phase != Left
    requires var r := s.clients[c].room; r in s.rooms && s' == s.(rooms := s.rooms[r := room], clients := s'.clients)
    requires !s.clients[c].phase.Signalling?
    requires phase.Signalling? ==> phase.owed == s.rooms[s.clients[c].room].running.drained
    ensures forall cell :: Owed(s', cell) ==> Owed(s, cell) || phase == Signalling(cell)
    ensures forall cell :: Owed(s, cell) ==> Owed(s', cell)
    ensures forall a: AppId :: AppOk(s', a)
    ensures forall r {:trigger RoomOk(s', r)} | r in s'.rooms && r != s.clients[c].room :: RoomOk(s', r)
    ensures forall d {:trigger ClientOk(s', d)} | d in s'.clients && s'.clients[d].room != s.clients[c].room ::
              ClientOk(s', d)
    ensures DoneOk(s')
  {
    assert ClientOk(s, c) && RoomOk(s, s.clients[c].room);
    forall cell
      ensures Owed(s', cell) ==> Owed(s, cell) || phase == Signalling(cell)
      ensures Owed(s, cell) ==> Owed(s', cell)
    {
      OwedMoved(s, s', c, s'.clients[c], cell);
    }
    forall a: AppId
      ensures AppOk(s', a)
    {
      assert AppOk(s, a);
      AppStays(s, s', c, phase, a);
    }
    forall r | r in s'.rooms && r != s.clients[c].room
      ensures RoomOk(s', r)
    {
      assert RoomOk(s, r);
      RoomStays(s, s', c, phase, r);
    }
    forall d | d in s'.clients && s'.clients[d].room != s.clients[c].room
      ensures ClientOk(s', d)
    {
      assert ClientOk(s, d);
      ClientStays(s, s', c, phase, d);
    }
    DoneStays(s, s', c, phase);
  }

  lemma PermitInRoom(s: State, s': State, c: ClientId, phase: Phase, r: RoomId)
    requires Moves(s, s', c, phase) && r == s.clients[c].room
    requires r in s.rooms && r in s'.rooms && RoomOk(s, r)
    requires s'.rooms[r].running == s.rooms[r].running && s'.done == s.done
    requires forall cell :: Owed(s', cell) ==> Owed(s, cell)
    requires var before := s.rooms[r].permits;
             if HasPermit(s.clients[c]) then !HasPermit(s'.clients[c]) && s'.rooms[r].permits == before + 1
             else HasPermit(s'.clients[c]) && s'.rooms[r].permits == before - 1 >= 0
    requires IsCounted(s.clients[c]) <==> IsCounted(s'.clients[c])
    ensures RoomOk(s', r)
  {
    PermitSets(s, s', c, phase, r);
  }

  lemma PermitSets(s: State, s': State, c: ClientId, phase: Phase, r: RoomId)
    requires Moves(s, s', c, phase) && r == s.clients[c].room
    requires HasPermit(s.clients[c]) != HasPermit(s'.clients[c])
    requires IsCounted(s.clients[c]) <==> IsCounted(s'.clients[c])
    ensures Inside(s', r) == Inside(s, r)
    ensures |Permitted(s', r)| == |Permitted(s, r)| + if HasPermit(s'.clients[c]) then 1 else -1
  {
    PermittedMoved(s, s', c, s'.clients[c], r);
    InsideMoved(s, s', c, s'.clients[c], r);
  }

  /** Taking the permit or giving it back. */
  lemma PermitKeeps(s: State, s': State, c: ClientId, phase: Phase, permits: int)
    requires Inv(s) && Moves(s, s', c, phase)
    requires s.clients[c].phase != Left && phase != Left
    requires !s.clients[c].phase.Signalling? && !phase.Signalling?
    requires var r := s.clients[c].room;
             r in s.rooms && s' == s.(rooms := s.rooms[r := s.rooms[r].(permits := permits)], clients := s'.clients)
    requires var before := s.rooms[s.clients[c].room].permits;
             if HasPermit(s.clients[c]) then !HasPermit(s'.clients[c]) && permits == before + 1
             else HasPermit(s'.clients[c]) && permits == before - 1 >= 0
    requires IsCounted(s.clients[c]) <==> IsCounted(s'.clients[c])
    requires ClientOk(s', c)
    ensures Inv(s')
  {
    var r := s.clients[c].room;
    ElsewhereStays(s, s', c, phase, s'.rooms[r]);
    assert RoomOk(s, r);
    PermitInRoom(s, s', c, phase, r);
    forall d | d in s'.clients && d != c
      ensures ClientOk(s', d)
    {
      assert ClientOk(s, d);
      ClientStays(s, s', c, phase, d);
    }
  }

  /** A call about to look at the counter has not used the cell it brought. */
  lemma OwnCellUnused(s: State, c: ClientId)
    requires Inv(s) && c in s.clients && s.clients[c].phase == Entering
    ensures Period(c) !in s.done && !Owed(s, Period(c))
  {
    forall d | d in s.clients
      ensures s.clients[d].phase != Signalling(Period(c))
    {
      assert ClientOk(s, d);
    }
  }

  lemma CountSets(s: State, s': State, c: ClientId, r: RoomId)
    requires Moves(s, s', c, Counted) && r == s.clients[c].room
    requires s.clients[c].kind == Run && s.clients[c].phase == Entering
    ensures Permitted(s', r) == Permitted(s, r)
    ensures Inside(s', r) == Inside(s, r) + {c} && c !in Inside(s, r)
  {
    PermittedMoved(s, s', c, s'.clients[c], r);
    InsideMoved(s, s', c, s'.clients[c], r);
  }

  lemma CountInRoom(s: State, s': State, c: ClientId, r: RoomId)
    requires Moves(s, s', c, Counted) && r == s.clients[c].room
    requires s.clients[c].kind == Run && s.clients[c].phase == Entering
    requires r in s.rooms && r in s'.rooms && RoomOk(s, r)
    requires s'.rooms[r] == s.rooms[r].(running := Enter(s.rooms[r].running, Period(c))) && s'.done == s.done
    requires forall cell :: Owed(s', cell) ==> Owed(s, cell)
    requires Period(c) !in s.done && !Owed(s, Period(c))
    ensures RoomOk(s', r)
  {
    CountSets(s, s', c, r);
  }

  lemma UncountInRoom(s: State, s': State, c: ClientId, phase: Phase, r: RoomId)
    requires Moves(s, s', c, phase) && r == s.clients[c].room
    requires s.clients[c].kind == Run && s.clients[c].phase == Ending
    requires phase.Signalling? || phase == Leaving
    requires r in s.rooms && r in s'.rooms && RoomOk(s, r)
    requires s'.rooms[r] == s.rooms[r].(running := Leave(s.rooms[r].running)) && s'.done == s.done
    requires forall cell :: Owed(s', cell) ==> Owed(s, cell) || phase == Signalling(cell)
    requires phase.Signalling? ==> s.rooms[r].running.count == 1
    ensures RoomOk(s', r)
  {
    UncountSets(s, s', c, phase, r);
  }

  lemma UncountSets(s: State, s': State, c: ClientId, phase: Phase, r: RoomId)
    requires Moves(s, s', c, phase) && r == s.clients[c].room
    requires s.clients[c].kind == Run && s.clients[c].phase == Ending
    requires phase.Signalling? || phase == Leaving
    ensures Permitted(s', r) == Permitted(s, r) && |Inside(s', r)| == |Inside(s, r)| - 1
  {
    PermittedMoved(s, s', c, s'.clients[c], r);
    InsideMoved(s, s', c, s'.clients[c], r);
  }

  /** A run counting itself in. */
  lemma CountKeeps(s: State, s': State, c: ClientId)
    requires Inv(s) && Moves(s, s', c, Counted)
    requires s.clients[c].kind == Run && s.clients[c].phase == Entering
    requires var r := s.clients[c].room;
             r in s.rooms
             && s' == s.(rooms := s.rooms[r := s.rooms[r].(running := Enter(s.rooms[r].running, Period(c)))],
                         clients := s'.clients)
    ensures Inv(s')
  {
    var r := s.clients[c].room;
    ElsewhereStays(s, s', c, Counted, s'.rooms[r]);
    assert ClientOk(s, c) && RoomOk(s, r);
    OwnCellUnused(s, c);
    CountInRoom(s, s', c, r);
    forall d | d in s'.clients && d != c && s'.clients[d].room == r
      ensures ClientOk(s', d)
    {
      assert ClientOk(s, d);
      if HasPermit(s.clients[d]) {
        OnlyPermit(s, c, d);
      }
    }
  }

  /** A run counting itself out, with the busy period's cell to complete if it was the last. */
  lemma UncountKeeps(s: State, s': State, c: ClientId, phase: Phase)
    requires Inv(s) && Moves(s, s', c, phase)
    requires s.clients[c].phase == Ending
    requires var r := s.clients[c].room;
             && r in s.rooms
             && s' == s.(rooms := s.rooms[r := s.rooms[r].(running := Leave(s.rooms[r].running))], clients := s'.clients)
             && phase == (if s.rooms[r].running.count == 1 then Signalling(s.rooms[r].running.drained) else Leaving)
    ensures Inv(s')
  {
    var r := s.clients[c].room;
    var running := s.rooms[r].running;
    ElsewhereStays(s, s', c, phase, s'.rooms[r]);
    assert ClientOk(s, c) && RoomOk(s, r);
    UncountInRoom(s, s', c, phase, r);
    assert c in Inside(s, r);
    OwedMoved(s, s', c, s'.clients[c], running.drained);
    forall d | d in s'.clients && d != c && s'.clients[d].room == r
      ensures ClientOk(s', d)
    {
      assert ClientOk(s, d);
    }
  }

  lemma SignalKeeps(s: State, s': State, c: ClientId, cell: Cell)
    requires Inv(s) && Moves(s, s', c, Leaving)
    requires s.clients[c].phase == Signalling(cell)
    requires s' == s.(done := s.done + {cell}, clients := s'.clients)
    ensures Inv(s')
  {
    assert ClientOk(s, c);
    assert Owed(s, cell);
    assert DoneOk(s');
    forall x
      ensures Owed(s', x) ==> Owed(s, x)
      ensures Owed(s, x) ==> Owed(s', x) || x == cell
    {
      OwedMoved(s, s', c, s'.clients[c], x);
    }
    forall a: AppId
      ensures AppOk(s', a)
    {
      assert AppOk(s, a);
      AppStays(s, s', c, Leaving, a);
    }
    forall r | r in s'.rooms
      ensures RoomOk(s', r)
    {
      RoomStays(s, s', c, Leaving, r);
    }
    forall d | d in s'.clients && d != c
      ensures ClientOk(s', d)
    {
      assert ClientOk(s, d);
      ClientStays(s, s', c, Leaving, d);
    }
  }

  lemma UnregisterApp(s: State, s': State, c: ClientId, a: AppId)
    requires Moves(s, s', c, Left) && s.clients[c].phase == Leaving && AppOk(s, a)
    requires s'.activities == Part(s.activities, s.clients[c].app) && s'.rooms == s.rooms
    ensures AppOk(s', a)
  {
    UsersMoved(s, s', c, s'.clients[c], a);
    if a == s.clients[c].app {
    } else {
      assert Users(s', a) == Users(s, a);
    }
  }

  lemma UnregisterApps(s: State, s': State, c: ClientId)
    requires Inv(s) && Moves(s, s', c, Left) && s.clients[c].phase == Leaving
    requires s'.activities == Part(s.activities, s.clients[c].app) && s'.rooms == s.rooms
    ensures forall a: AppId {:trigger AppOk(s', a)} :: AppOk(s', a)
  {
    forall a: AppId
      ensures AppOk(s', a)
    {
      assert AppOk(s, a);
      UnregisterApp(s, s', c, a);
    }
  }

  lemma UnregisterKeeps(s: State, s': State, c: ClientId)
    requires Inv(s) && Moves(s, s', c, Left)
    requires s.clients[c].phase == Leaving
    requires s' == s.(activities := Part(s.activities, s.clients[c].app), clients := s'.clients)
    ensures Inv(s')
  {
    assert ClientOk(s, c);
    DoneStays(s, s', c, Left);
    forall cell
      ensures Owed(s', cell) <==> Owed(s, cell)
    {
      OwedMoved(s, s', c, s'.clients[c], cell);
    }
    UnregisterApps(s, s', c);
    forall r | r in s'.rooms
      ensures RoomOk(s', r)
    {
      RoomStays(s, s', c, Left, r);
    }
    forall d | d in s'.clients && d != c
      ensures ClientOk(s', d)
    {
      assert ClientOk(s, d);
      ClientStays(s, s', c, Left, d);
    }
  }

  // A newcomer, in a room that is either the app's or its own.

  ghost predicate Arrives(s: State, s': State, c: ClientId, kind: Kind, app: AppId) {
    && c !in s.clients
    && s'.activities == Join(s.activities, app, c)
    && s'.rooms == (if app in s.activities then s.rooms else s.rooms[c := Room(1, Count(0, Initial(c)))])
    && s'.done == s.done
    && s'.clients == s.clients[c := Client(kind, app, ActivityFor(s.activities, app, c).room, Queued)]
  }

  lemma ArriveApp(s: State, s': State, c: ClientId, kind: Kind, app: AppId, a: AppId)
    requires Arrives(s, s', c, kind, app) && AppOk(s, a)
    ensures AppOk(s', a)
  {
    UsersMoved(s, s', c, s'.clients[c], a);
    if a != app {
      assert Users(s', a) == Users(s, a);
    } else if a !in s.activities {
      assert Users(s', a) == {c};
    }
  }

  lemma ArriveRoom(s: State, s': State, c: ClientId, kind: Kind, app: AppId, r: RoomId)
    requires Inv(s) && Arrives(s, s', c, kind, app) && r in s'.rooms
    ensures RoomOk(s', r)
  {
    forall cell
      ensures Owed(s', cell) ==> Owed(s, cell)
    {
      OwedMoved(s, s', c, s'.clients[c], cell);
    }
    SetsSame(s, s', c, s'.clients[c], r);
    if r in s.rooms {
      assert RoomOk(s, r);
    } else {
      forall d | d in s.clients
        ensures s.clients[d].room != c
      {
        assert ClientOk(s, d);
      }
      assert Permitted(s, c) == {} && Inside(s, c) == {};
    }
  }

  lemma ArriveClient(s: State, s': State, c: ClientId, kind: Kind, app: AppId, d: ClientId)
    requires Inv(s) && Arrives(s, s', c, kind, app) && d in s'.clients
    ensures ClientOk(s', d)
  {
    if d != c {
      assert ClientOk(s, d);
      if s.clients[d].phase.Awaiting? {
        OwedMoved(s, s', c, s'.clients[c], s.clients[d].phase.cell);
      }
    } else if app in s.activities {
      assert AppOk(s, app);
      var other :| other in Users(s, app);
      assert ClientOk(s, other);
    }
  }

  lemma ArriveDone(s: State, s': State, c: ClientId, kind: Kind, app: AppId)
    requires DoneOk(s) && Arrives(s, s', c, kind, app)
    ensures DoneOk(s')
  {
    forall cell | cell in s'.done
      ensures cell.maker in s'.clients && CellOk(s', cell, s'.clients[cell.maker].room)
    {
      assert cell.maker != c && s'.clients[cell.maker] == s.clients[cell.maker];
    }
  }

  lemma ArriveKeeps(s: State, s': State, c: ClientId, kind: Kind, app: AppId)
    requires Inv(s) && Arrives(s, s', c, kind, app)
    ensures Inv(s')
  {
    ArriveDone(s, s', c, kind, app);
    forall a: AppId
      ensures AppOk(s', a)
    {
      assert AppOk(s, a);
      ArriveApp(s, s', c, kind, app, a);
    }
    forall r | r in s'.rooms
      ensures RoomOk(s', r)
    {
      ArriveRoom(s, s', c, kind, app, r);
    }
    forall d | d in s'.clients
      ensures ClientOk(s', d)
    {
      ArriveClient(s, s', c, kind, app, d);
    }
  }

  lemma LookKeeps(s: State, c: ClientId)
    requires Inv(s) && Enabled(s, c, Look)
    ensures Inv(Apply(s, c, Look))
  {
    var s' := Apply(s, c, Look);
    assert ClientOk(s, c) && RoomOk(s, s.clients[c].room);
    if s.clients[c].kind == Run {
      CountKeeps(s, s', c);
    } else {
      PhaseOnlyKeeps(s, s', c, s'.clients[c].phase);
    }
  }

  lemma PermitStepKeeps(s: State, c: ClientId, action: Action)
    requires Inv(s) && Enabled(s, c, action) && (action.Take? || action.Yield?)
    ensures Inv(Apply(s, c, action))
  {
    var s' := Apply(s, c, action);
    var r := s.clients[c].room;
    assert ClientOk(s, c) && RoomOk(s, r);
    if action.Take? {
      PermitKeeps(s, s', c, Entering, s.rooms[r].permits - 1);
    } else {
      PermitKeeps(s, s', c, s'.clients[c].phase, s.rooms[r].permits + 1);
    }
  }

  lemma PhaseStepKeeps(s: State, c: ClientId, action: Action)
    requires Inv(s) && Enabled(s, c, action) && (action.Drained? || action.EndBody? || action.Interrupt?)
    ensures Inv(Apply(s, c, action))
  {
    assert ClientOk(s, c) && RoomOk(s, s.clients[c].room);
    PhaseOnlyKeeps(s, Apply(s, c, action), c, Apply(s, c, action).clients[c].phase);
  }

  lemma StepKeeps(s: State, c: ClientId, action: Action)
    requires Inv(s) && Enabled(s, c, action)
    ensures Inv(Apply(s, c, action))
  {
    match action
    case Register(kind, target) => ArriveKeeps(s, Apply(s, c, action), c, kind, target);
    case Take => PermitStepKeeps(s, c, action);
    case Yield => PermitStepKeeps(s, c, action);
    case Look => LookKeeps(s, c);
    case Uncount =>
      assert ClientOk(s, c);
      UncountKeeps(s, Apply(s, c, action), c, Apply(s, c, action).clients[c].phase);
    case Signal =>
      assert ClientOk(s, c);
      SignalKeeps(s, Apply(s, c, action), c, s.clients[c].phase.owed);
    case Unregister =>
      assert ClientOk(s, c);
      UnregisterKeeps(s, Apply(s, c, action), c);
    case _ => PhaseStepKeeps(s, c, action);
  }

  // ----- What holds in every state of every run

  lemma {:induction false} EveryState(run: seq<State>, i: nat)
    requires IsRun(run) && i < |run|
    ensures Inv(run[i])
  {
    if i > 0 {
      EveryState(run, i - 1);
      assert Next(run[i - 1], run[i]);
      var c, action :| Enabled(run[i - 1], c, action) && run[i] == Apply(run[i - 1], c, action);
      StepKeeps(run[i - 1], c, action);
    }
  }

  /** Everybody in an app uses one gate and one counter, until the last of them has left. */
  lemma OneRoomPerApp(run: seq<State>, i: nat, c: ClientId, d: ClientId)
    requires IsRun(run) && i < |run| && c in run[i].clients && d in run[i].clients
    requires run[i].clients[c].app == run[i].clients[d].app
    requires run[i].clients[c].phase != Left && run[i].clients[d].phase != Left
    ensures run[i].clients[c].room == run[i].clients[d].room
    ensures var app := run[i].clients[c].app;
            app in run[i].activities
            && run[i].activities[app] == Activity(run[i].clients[c].room, |Users(run[i], app)|)
  {
    EveryState(run, i);
    assert AppOk(run[i], run[i].clients[c].app);
    assert c in Users(run[i], run[i].clients[c].app) && d in Users(run[i], run[i].clients[c].app);
  }

  lemma AloneInState(s: State, c: ClientId, d: ClientId)
    requires Inv(s) && c in s.clients && d in s.clients && c != d
    requires s.clients[c].app == s.clients[d].app && s.clients[d].phase != Left
    requires s.clients[c].phase == Body && s.clients[c].kind != Run
    ensures !IsCounted(s.clients[d]) && s.clients[d].phase != Body
  {
    var app, r := s.clients[c].app, s.clients[c].room;
    assert AppOk(s, app) && ClientOk(s, c) && RoomOk(s, r);
    assert c in Users(s, app) && d in Users(s, app);
    assert Inside(s, r) == {};
    assert IsCounted(s.clients[d]) <==> d in Inside(s, r);
    if HasPermit(s.clients[d]) {
      OnlyPermit(s, c, d);
    }
  }

  /** A body of `exclusively` or `whenIdle` overlaps neither a `run` body of its app, from before it
    * starts to after its finalizer, nor another such body. */
  lemma AloneInTheGuest(run: seq<State>, i: nat, c: ClientId, d: ClientId)
    requires IsRun(run) && i < |run| && c in run[i].clients && d in run[i].clients && c != d
    requires run[i].clients[c].app == run[i].clients[d].app
    requires run[i].clients[c].phase == Body && run[i].clients[c].kind != Run
    ensures !IsCounted(run[i].clients[d])
    ensures run[i].clients[d].phase != Body
  {
    EveryState(run, i);
    if run[i].clients[d].phase != Left {
      AloneInState(run[i], c, d);
    }
  }

  /** The cell an exclusive caller awaits is the one of the busy period it saw: while anything runs
    * it is the counter's and pending, afterwards it is owed or done, and it is done only once
    * nothing runs. */
  lemma AwaitsItsBusyPeriod(run: seq<State>, i: nat, c: ClientId, cell: Cell)
    requires IsRun(run) && i < |run| && c in run[i].clients && run[i].clients[c].phase == Awaiting(cell)
    ensures var s := run[i];
            var r := s.clients[c].room;
            && r in s.rooms && s.rooms[r].running.drained == cell
            && (Inside(s, r) != {} ==> cell !in s.done && !Owed(s, cell))
            && (Inside(s, r) == {} ==> Owed(s, cell) || Enabled(s, c, Drained))
  {
    EveryState(run, i);
    assert ClientOk(run[i], c) && RoomOk(run[i], run[i].clients[c].room);
  }

  /** The only calls that cannot take a step are those queueing for a permit somebody holds and
    * those awaiting a cell that is not done; an interrupt still moves either of them. */
  lemma OnlyTwoWaits(run: seq<State>, i: nat, c: ClientId)
    requires IsRun(run) && i < |run| && c in run[i].clients && run[i].clients[c].phase != Left
    ensures exists action :: Enabled(run[i], c, action)
    ensures (forall action | action != Interrupt :: !Enabled(run[i], c, action)) ==>
              var Client(_, _, room, phase) := run[i].clients[c];
              || (phase == Queued && exists holder :: holder in Permitted(run[i], room))
              || (phase.Awaiting? && phase.cell !in run[i].done)
  {
    var s := run[i];
    EveryState(run, i);
    var Client(kind, app, room, phase) := s.clients[c];
    assert ClientOk(s, c) && RoomOk(s, room);
    match phase
    case Queued =>
      assert Enabled(s, c, Interrupt);
      if !Enabled(s, c, Take) {
        var holder :| holder in Permitted(s, room);
      }
    case Entering => assert Enabled(s, c, Look);
    case Counted => assert Enabled(s, c, Yield);
    case Awaiting(cell) =>
      assert Enabled(s, c, Interrupt);
      assert Enabled(s, c, Drained) <==> cell in s.done;
    case Body => assert Enabled(s, c, EndBody);
    case Yielding => assert Enabled(s, c, Yield);
    case Ending => assert Enabled(s, c, Uncount);
    case Signalling(_) => assert Enabled(s, c, Signal);
    case Leaving => assert Enabled(s, c, Unregister);
  }

  /** What a call that has the permit comes to, by whether a run is counted in its room: `whenIdle` runs its
    * body exactly if none is and gives up otherwise, `exclusively` runs its body exactly if none is and
    * waits otherwise, and `run` is counted in. */
  lemma LookTells(run: seq<State>, i: nat, c: ClientId)
    requires IsRun(run) && i < |run| && c in run[i].clients && run[i].clients[c].phase == Entering
    ensures Enabled(run[i], c, Look)
    ensures var s, s' := run[i], Apply(run[i], c, Look);
            var idle, phase := Inside(s, s.clients[c].room) == {}, s'.clients[c].phase;
            match s.clients[c].kind
            case WhenIdle => phase == if idle then Body else Yielding
            case Exclusive => if idle then phase == Body else phase.Awaiting?
            case Run => phase == Counted && c in Inside(s', s.clients[c].room)
  {
    EveryState(run, i);
    assert ClientOk(run[i], c) && RoomOk(run[i], run[i].clients[c].room);
  }

  datatype Step = Step(who: ClientId, what: Action)

  /** A run together with the steps taken in it. */
  ghost predicate IsTraced(run: seq<State>, steps: seq<Step>) {
    && |run| == |steps| + 1 && run[0] == INITIAL
    && forall i {:trigger steps[i]} | 0 <= i < |steps| ::
         Enabled(run[i], steps[i].who, steps[i].what) && run[i + 1] == Apply(run[i], steps[i].who, steps[i].what)
  }

  lemma TracedIsRun(run: seq<State>, steps: seq<Step>)
    requires IsTraced(run, steps)
    ensures IsRun(run)
  {
    forall i | 0 <= i < |run| - 1
      ensures Next(run[i], run[i + 1])
    {
      assert Enabled(run[i], steps[i].who, steps[i].what);
    }
  }

  /** Done with its body, or without one. */
  predicate Past(phase: Phase) {
    phase == Yielding || phase == Ending || phase.Signalling? || phase == Leaving || phase == Left
  }

  predicate InBody(s: State, c: ClientId) {
    c in s.clients && s.clients[c].phase == Body
  }

  predicate LooksAtBusy(s: State, c: ClientId, step: Step) {
    step == Step(c, Look) && c in s.clients && Inside(s, s.clients[c].room) != {}
  }

  lemma StepsPast(s: State, step: Step, c: ClientId)
    requires Inv(s) && Enabled(s, step.who, step.what) && step != Step(c, Interrupt)
    requires var s' := Apply(s, step.who, step.what); c in s'.clients && Past(s'.clients[c].phase)
    ensures c in s.clients && Apply(s, step.who, step.what).clients[c].kind == s.clients[c].kind
    ensures Past(s.clients[c].phase) || InBody(s, c) || (s.clients[c].kind == WhenIdle && LooksAtBusy(s, c, step))
  {
    if step.who == c && c in s.clients {
      assert ClientOk(s, c) && RoomOk(s, s.clients[c].room);
    }
  }

  /** A call that has gone by its body without being interrupted has run it, unless it is a `whenIdle` that
    * looked while a run was counted in. */
  lemma {:induction false} BodyUnlessInterrupted(run: seq<State>, steps: seq<Step>, j: nat, c: ClientId)
    requires IsTraced(run, steps) && j < |run| && c in run[j].clients && Past(run[j].clients[c].phase)
    requires forall k | 0 <= k < j :: steps[k] != Step(c, Interrupt)
    ensures || (exists k :: 0 <= k < j && InBody(run[k], c))
            || (run[j].clients[c].kind == WhenIdle && exists k :: 0 <= k < j && LooksAtBusy(run[k], c, steps[k]))
  {
    assert j > 0;
    TracedIsRun(run, steps);
    EveryState(run, j - 1);
    StepsPast(run[j - 1], steps[j - 1], c);
    if Past(run[j - 1].clients[c].phase) {
      BodyUnlessInterrupted(run, steps, j - 1, c);
    }
  }

  /** The registry is empty once every call has left. */
  lemma NothingLeaks(run: seq<State>, i: nat)
    requires IsRun(run) && i < |run|
    requires forall c | c in run[i].clients :: run[i].clients[c].phase == Left
    ensures run[i].activities == map[]
  {
    EveryState(run, i);
    forall a: AppId
      ensures a !in run[i].activities
    {
      assert AppOk(run[i], a);
      assert Users(run[i], a) == {};
    }
  }
}
