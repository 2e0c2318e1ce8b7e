/** Every interleaving of `access` and `during` calls over one fence map. */
module FenceProtocol {
  import opened Prelude
  import opened VolumeMigrationFences

  // A step is one atomic action of one call: an `entries` rewrite, one `Deferred.succeed`, or the
  // resumption of a waiter. A call may be interrupted while it waits or runs its body; its release
  // is not interruptible, so an interrupt shows as the release step becoming the next one.

  datatype Client =
      // Inside `use`: admitted apps are counted, and are finished when the call ends.
    | Accessing(admitted: seq<AppId>, blocked: set<AppId>)
      // `finish` has rewritten the map and still owes these cells their completion.
    | Signalling(cells: seq<Cell>)
      // The fence is held and the call awaits the cell it was told of.
    | Draining(app: AppId, cell: Cell)
      // The fence is held and the protected body runs.
    | Fencing(app: AppId)
    | Left

  datatype State = State(entries: Entries, done: set<Cell>, clients: map<ClientId, Client>)

  const INITIAL := State(map[], {}, map[])

  datatype Action =
    | Admit(appIds: seq<AppId>)
    | Finish
    | Signal
    | Acquire(target: AppId)
    | Resume
    | Release

  predicate Holds(client: Client, app: AppId) {
    (client.Draining? || client.Fencing?) && client.app == app
  }

  predicate Uses(client: Client, app: AppId) {
    client.Accessing? && app in client.admitted
  }

  function Owing(cells: seq<Cell>): Client {
    if cells == [] then Left else Signalling(cells)
  }

  /** Whether the call can take the action now. Only `Resume` ever has to wait for another call. */
  predicate Enabled(s: State, c: ClientId, action: Action) {
    match action
    case Admit(_) => c !in s.clients
    case Acquire(_) => c !in s.clients
    case Finish => c in s.clients && s.clients[c].Accessing?
    case Signal => c in s.clients && s.clients[c].Signalling? && s.clients[c].cells != []
    case Resume => c in s.clients && s.clients[c].Draining? && s.clients[c].cell in s.done
    case Release => c in s.clients && (s.clients[c].Draining? || s.clients[c].Fencing?)
  }

  function Apply(s: State, c: ClientId, action: Action): State
    requires Enabled(s, c, action)
  {
    match action
    case Admit(appIds) =>
      State(
        AdmitAll(s.entries, Elements(appIds), c),
        s.done,
        s.clients[c := Accessing(NotHeld(s.entries, FirstOccurrences(appIds)), HeldApps(s.entries))])
    case Finish =>
      var admitted := s.clients[c].admitted;
      State(
        FinishAll(s.entries, Elements(admitted)),
        s.done,
        s.clients[c := Owing(Drains(s.entries, admitted))])
    case Signal =>
      var cells := s.clients[c].cells;
      State(s.entries, s.done + {cells[0]}, s.clients[c := Owing(cells[1..])])
    case Acquire(target) =>
      var next := match HoldClaim(s.entries, target)
        case Busy => Left
        case Claimed(None) => Fencing(target)
        case Claimed(Some(cell)) => Draining(target, cell);
      State(Hold(s.entries, target, c), s.done, s.clients[c := next])
    case Resume =>
      s.(clients := s.clients[c := Fencing(s.clients[c].app)])
    case Release =>
      s.(entries := Unhold(s.entries, s.clients[c].app), clients := s.clients[c := Left])
  }

  ghost predicate Next(s: State, s': State) {
    exists c, action :: Enabled(s, c, action) && s' == Apply(s, c, action)
  }

  ghost predicate IsRun(run: seq<State>) {
    |run| > 0 && run[0] == INITIAL && forall i | 0 <= i < |run| - 1 :: Next(run[i], run[i + 1])
  }

  // ----- The invariant

  function Users(s: State, app: AppId): set<ClientId> {
    set c | c in s.clients && Uses(s.clients[c], app)
  }

  function Holders(s: State, app: AppId): set<ClientId> {
    set c | c in s.clients && Holds(s.clients[c], app)
  }

  ghost predicate Owed(s: State, cell: Cell) {
    exists c :: c in s.clients && s.clients[c].Signalling? && cell in s.clients[c].cells
  }

  /** An entry counts exactly the calls inside `use` that were admitted for it, is held exactly
    * while one call holds it, and is gone when nobody needs it. While it counts anybody, its cell
    * is neither done nor about to be. */
  ghost predicate EntryOk(s: State, a: AppId) {
    && |Holders(s, a)| == (if Held(s.entries, a) then 1 else 0)
    && (a !in s.entries ==> Users(s, a) == {})
    && (a in s.entries ==>
          var e := s.entries[a];
          && e.active == |Users(s, a)|
          && (e.active > 0 || e.held)
          && e.drained.app == a && e.drained.maker in s.clients
          && (e.active > 0 ==> e.drained !in s.done && !Owed(s, e.drained)))
  }

  /** A waiter waits on its own entry's cell, which is pending, owed or done; a protected body
    * has its app's entry to itself. */
  ghost predicate ClientOk(s: State, c: ClientId)
    requires c in s.clients
  {
    match s.clients[c]
    case Accessing(admitted, _) => Unique(admitted)
    case Signalling(cells) => cells != []
    case Draining(a, cell) =>
      && a in s.entries && s.entries[a].drained == cell
      && (s.entries[a].active > 0 || Owed(s, cell) || cell in s.done)
    case Fencing(a) => a in s.entries && s.entries[a].active == 0
    case _ => true
  }

  /** A cell only comes from a call that has started. */
  ghost predicate CellsStarted(s: State) {
    forall cell | cell in s.done || Owed(s, cell) :: cell.maker in s.clients
  }

  ghost predicate Inv(s: State) {
    && (forall a: AppId :: EntryOk(s, a))
    && (forall c | c in s.clients :: ClientOk(s, c))
    && CellsStarted(s)
  }

  // ----- Every step keeps it

  lemma {:induction false} DrainsExactly(entries: Entries, apps: seq<AppId>)
    ensures forall cell :: cell in Drains(entries, apps) <==>
              exists a :: a in apps && a in entries && entries[a].active <= 1 && entries[a].drained == cell
  {
    if |apps| > 0 {
      DrainsExactly(entries, apps[..|apps| - 1]);
      assert apps == apps[..|apps| - 1] + [apps[|apps| - 1]];
    }
  }

  function CellsOf(client: Client): seq<Cell> {
    if client.Signalling? then client.cells else []
  }

  /** What replacing one call's position does to an app's callers. */
  lemma CallersMoved(s: State, s': State, c: ClientId, now: Client, a: AppId)
    requires s'.clients == s.clients[c := now]
    ensures Users(s', a) == if Uses(now, a) then Users(s, a) + {c} else Users(s, a) - {c}
    ensures Holders(s', a) == if Holds(now, a) then Holders(s, a) + {c} else Holders(s, a) - {c}
    ensures c in Users(s, a) <==> c in s.clients && Uses(s.clients[c], a)
    ensures c in Holders(s, a) <==> c in s.clients && Holds(s.clients[c], a)
  {
    assert forall d | d in s.clients && d != c :: d in s'.clients && s'.clients[d] == s.clients[d];
  }

  lemma CallersSame(s: State, s': State, c: ClientId, now: Client, a: AppId)
    requires s'.clients == s.clients[c := now]
    requires Uses(now, a) <==> c in s.clients && Uses(s.clients[c], a)
    requires Holds(now, a) <==> c in s.clients && Holds(s.clients[c], a)
    ensures Users(s', a) == Users(s, a)
    ensures Holders(s', a) == Holders(s, a)
  {
    CallersMoved(s, s', c, now, a);
  }

  /** What it does to one cell's pending completion. */
  lemma OwedMoved(s: State, s': State, c: ClientId, now: Client, cell: Cell)
    requires s'.clients == s.clients[c := now]
    ensures Owed(s', cell) ==> Owed(s, cell) || cell in CellsOf(now)
    ensures cell in CellsOf(now) ==> Owed(s', cell)
    ensures Owed(s, cell) && (c in s.clients ==> cell !in CellsOf(s.clients[c])) ==> Owed(s', cell)
  {
    assert forall d | d in s.clients && d != c :: d in s'.clients && s'.clients[d] == s.clients[d];
    assert now == s'.clients[c];
  }

  lemma OwedUnmoved(s: State, s': State, c: ClientId, now: Client)
    requires s'.clients == s.clients[c := now]
    requires c in s.clients ==> !s.clients[c].Signalling?
    requires !now.Signalling?
    ensures forall cell :: Owed(s', cell) <==> Owed(s, cell)
  {
    forall cell
      ensures Owed(s', cell) <==> Owed(s, cell)
    {
      OwedMoved(s, s', c, now, cell);
    }
  }

  /** An entry a step neither rewrites nor changes the callers of stays right. */
  lemma EntryUntouched(s: State, s': State, c: ClientId, now: Client, a: AppId)
    requires EntryOk(s, a)
    requires s'.clients == s.clients[c := now]
    requires a in s'.entries <==> a in s.entries
    requires a in s.entries ==>
               var e := s.entries[a];
               && s'.entries[a] == e
               && (e.active > 0 && (e.drained in s'.done || Owed(s', e.drained)) ==>
                     e.drained in s.done || Owed(s, e.drained))
    requires Uses(now, a) <==> c in s.clients && Uses(s.clients[c], a)
    requires Holds(now, a) <==> c in s.clients && Holds(s.clients[c], a)
    ensures EntryOk(s', a)
  {
    CallersSame(s, s', c, now, a);
  }

  lemma OnlyHolder(s: State, c: ClientId, d: ClientId, a: AppId)
    requires EntryOk(s, a)
    requires c in s.clients && d in s.clients && Holds(s.clients[c], a) && Holds(s.clients[d], a)
    ensures c == d
  {
    assert c in Holders(s, a) && d in Holders(s, a);
    assert |Holders(s, a) - {c}| == 0;
    assert d !in Holders(s, a) - {c};
  }

  lemma AdmitKeeps(s: State, c: ClientId, appIds: seq<AppId>)
    requires Inv(s) && Enabled(s, c, Admit(appIds))
    ensures Inv(Apply(s, c, Admit(appIds)))
  {
    var s' := Apply(s, c, Admit(appIds));
    var admitted := s'.clients[c].admitted;
    FirstOccurrencesOnce(appIds);
    NotHeldOnce(s.entries, FirstOccurrences(appIds));
    OwedUnmoved(s, s', c, s'.clients[c]);
    forall a: AppId
      ensures EntryOk(s', a)
    {
      CallersMoved(s, s', c, s'.clients[c], a);
      assert EntryOk(s, a);
    }
    forall d | d in s'.clients
      ensures ClientOk(s', d)
    {
      if d != c {
        assert ClientOk(s, d);
        if s.clients[d].Fencing? || s.clients[d].Draining? {
          assert EntryOk(s, s.clients[d].app);
          assert d in Holders(s, s.clients[d].app);
        }
      }
    }
  }

  /** A cell `finish` takes on is that of an admitted app this call was the last user of. */
  lemma DrainedApp(s: State, c: ClientId, cell: Cell)
    requires Inv(s) && Enabled(s, c, Finish)
    requires cell in Drains(s.entries, s.clients[c].admitted)
    ensures cell.app in s.clients[c].admitted && cell.app in s.entries
    ensures s.entries[cell.app].active == 1 && s.entries[cell.app].drained == cell
    ensures cell.maker in s.clients
  {
    var admitted := s.clients[c].admitted;
    DrainsExactly(s.entries, admitted);
    var b :| b in admitted && b in s.entries && s.entries[b].active <= 1 && s.entries[b].drained == cell;
    assert EntryOk(s, b);
    assert c in Users(s, b);
  }

  lemma FinishOwes(s: State, c: ClientId, cell: Cell)
    requires Inv(s) && Enabled(s, c, Finish)
    ensures Owed(Apply(s, c, Finish), cell) <==> Owed(s, cell) || cell in Drains(s.entries, s.clients[c].admitted)
  {
    var cells := Drains(s.entries, s.clients[c].admitted);
    assert CellsOf(Owing(cells)) == cells;
    OwedMoved(s, Apply(s, c, Finish), c, Owing(cells), cell);
  }

  lemma FinishKeepsEntry(s: State, c: ClientId, a: AppId)
    requires Inv(s) && Enabled(s, c, Finish)
    ensures EntryOk(Apply(s, c, Finish), a)
  {
    var s' := Apply(s, c, Finish);
    var admitted := s.clients[c].admitted;
    CallersMoved(s, s', c, s'.clients[c], a);
    assert EntryOk(s, a);
    if a in s'.entries && s'.entries[a].active > 0 {
      var cell := s.entries[a].drained;
      FinishOwes(s, c, cell);
      if cell in Drains(s.entries, admitted) {
        DrainedApp(s, c, cell);
      }
    }
  }

  lemma FinishKeepsClient(s: State, c: ClientId, d: ClientId)
    requires Inv(s) && Enabled(s, c, Finish) && d in s.clients && d != c
    ensures ClientOk(Apply(s, c, Finish), d)
  {
    assert ClientOk(s, d);
    if s.clients[d].Fencing? || s.clients[d].Draining? {
      var a := s.clients[d].app;
      assert EntryOk(s, a);
      assert d in Holders(s, a);
      assert c in Users(s, a) <==> a in s.clients[c].admitted;
      FinishOwes(s, c, s.entries[a].drained);
      DrainsExactly(s.entries, s.clients[c].admitted);
    }
  }

  lemma FinishKeeps(s: State, c: ClientId)
    requires Inv(s) && Enabled(s, c, Finish)
    ensures Inv(Apply(s, c, Finish))
  {
    var s' := Apply(s, c, Finish);
    forall a: AppId
      ensures EntryOk(s', a)
    {
      FinishKeepsEntry(s, c, a);
    }
    forall d | d in s'.clients
      ensures ClientOk(s', d)
    {
      if d != c {
        FinishKeepsClient(s, c, d);
      }
    }
    forall cell | Owed(s', cell) || cell in s'.done
      ensures cell.maker in s'.clients
    {
      FinishOwes(s, c, cell);
      if cell in Drains(s.entries, s.clients[c].admitted) {
        DrainedApp(s, c, cell);
      }
    }
  }

  lemma SignalOwes(s: State, c: ClientId, cell: Cell)
    requires Enabled(s, c, Signal)
    ensures Owed(Apply(s, c, Signal), cell) ==> Owed(s, cell)
    ensures Owed(s, cell) ==> Owed(Apply(s, c, Signal), cell) || cell == s.clients[c].cells[0]
  {
    var cells := s.clients[c].cells;
    assert CellsOf(Owing(cells[1..])) == cells[1..];
    assert cells == [cells[0]] + cells[1..];
    OwedMoved(s, Apply(s, c, Signal), c, Owing(cells[1..]), cell);
  }

  lemma SignalKeepsClient(s: State, c: ClientId, d: ClientId)
    requires Enabled(s, c, Signal) && ClientOk(s, c) && d in s.clients && ClientOk(s, d)
    ensures ClientOk(Apply(s, c, Signal), d)
  {
    if d != c && s.clients[d].Draining? {
      SignalOwes(s, c, s.clients[d].cell);
    }
  }

  lemma SignalKeeps(s: State, c: ClientId)
    requires Inv(s) && Enabled(s, c, Signal)
    ensures Inv(Apply(s, c, Signal))
  {
    var s' := Apply(s, c, Signal);
    assert Owed(s, s.clients[c].cells[0]);
    forall a: AppId
      ensures EntryOk(s', a)
    {
      CallersMoved(s, s', c, s'.clients[c], a);
      assert EntryOk(s, a);
      if a in s.entries {
        SignalOwes(s, c, s.entries[a].drained);
      }
    }
    forall d | d in s'.clients
      ensures ClientOk(s', d)
    {
      SignalKeepsClient(s, c, d);
    }
    forall cell | Owed(s', cell) || cell in s'.done
      ensures cell.maker in s'.clients
    {
      SignalOwes(s, c, cell);
    }
  }

  /** Taking a free fence adds its one holder and leaves the count alone. */
  lemma AcquireHolds(s: State, c: ClientId, a: AppId)
    requires EntryOk(s, a) && Enabled(s, c, Acquire(a)) && !Held(s.entries, a)
    ensures EntryOk(Apply(s, c, Acquire(a)), a)
  {
    var s' := Apply(s, c, Acquire(a));
    var now := s'.clients[c];
    CallersMoved(s, s', c, now, a);
    OwedMoved(s, s', c, now, s'.entries[a].drained);
    assert Holds(now, a) && !Uses(now, a);
    assert Users(s', a) == Users(s, a) && Holders(s', a) == {c};
  }

  lemma AcquireKeeps(s: State, c: ClientId, target: AppId)
    requires Inv(s) && Enabled(s, c, Acquire(target))
    ensures Inv(Apply(s, c, Acquire(target)))
  {
    var s' := Apply(s, c, Acquire(target));
    OwedUnmoved(s, s', c, s'.clients[c]);
    forall a: AppId
      ensures EntryOk(s', a)
    {
      assert EntryOk(s, a);
      if a == target && !Held(s.entries, a) {
        AcquireHolds(s, c, a);
      } else {
        EntryUntouched(s, s', c, s'.clients[c], a);
      }
    }
    forall d | d in s'.clients
      ensures ClientOk(s', d)
    {
      if d == c {
        assert EntryOk(s, target);
      } else {
        assert ClientOk(s, d);
      }
    }
  }

  lemma ResumeKeeps(s: State, c: ClientId)
    requires Inv(s) && Enabled(s, c, Resume)
    ensures Inv(Apply(s, c, Resume))
  {
    var s' := Apply(s, c, Resume);
    OwedUnmoved(s, s', c, s'.clients[c]);
    forall a: AppId
      ensures EntryOk(s', a)
    {
      CallersMoved(s, s', c, s'.clients[c], a);
      assert EntryOk(s, a);
    }
    forall d | d in s'.clients
      ensures ClientOk(s', d)
    {
      assert ClientOk(s, d);
      if d == c {
        assert EntryOk(s, s.clients[c].app);
      }
    }
  }

  lemma ReleaseKeepsEntry(s: State, c: ClientId, a: AppId)
    requires Enabled(s, c, Release) && EntryOk(s, a)
    ensures EntryOk(Apply(s, c, Release), a)
  {
    var s' := Apply(s, c, Release);
    OwedUnmoved(s, s', c, Left);
    if a == s.clients[c].app {
      LetGo(s, s', c, a);
    } else {
      EntryUntouched(s, s', c, Left, a);
    }
  }

  lemma LetGo(s: State, s': State, c: ClientId, a: AppId)
    requires c in s.clients && Holds(s.clients[c], a) && EntryOk(s, a)
    requires s'.entries == Unhold(s.entries, a) && s'.done == s.done && s'.clients == s.clients[c := Left]
    requires forall cell :: Owed(s', cell) <==> Owed(s, cell)
    ensures EntryOk(s', a)
  {
    CallersMoved(s, s', c, Left, a);
    assert |Holders(s, a) - {c}| == |Holders(s, a)| - 1;
  }

  lemma ReleaseKeepsClient(s: State, c: ClientId, d: ClientId)
    requires Enabled(s, c, Release) && d in s.clients && d != c && ClientOk(s, d)
    requires EntryOk(s, s.clients[c].app)
    ensures ClientOk(Apply(s, c, Release), d)
  {
    OwedUnmoved(s, Apply(s, c, Release), c, Left);
    var app := s.clients[c].app;
    if Holds(s.clients[d], app) {
      OnlyHolder(s, c, d, app);
    }
  }

  lemma ReleaseKeeps(s: State, c: ClientId)
    requires Inv(s) && Enabled(s, c, Release)
    ensures Inv(Apply(s, c, Release))
  {
    var s' := Apply(s, c, Release);
    OwedUnmoved(s, s', c, Left);
    forall a: AppId
      ensures EntryOk(s', a)
    {
      assert EntryOk(s, a);
      ReleaseKeepsEntry(s, c, a);
    }
    forall d | d in s'.clients && d != c
      ensures ClientOk(s', d)
    {
      assert ClientOk(s, d) && EntryOk(s, s.clients[c].app);
      ReleaseKeepsClient(s, c, d);
    }
  }

  lemma StepKeeps(s: State, c: ClientId, action: Action)
    requires Inv(s) && Enabled(s, c, action)
    ensures Inv(Apply(s, c, action))
  {
    match action
    case Admit(appIds) => AdmitKeeps(s, c, appIds);
    case Finish => FinishKeeps(s, c);
    case Signal => SignalKeeps(s, c);
    case Acquire(target) => AcquireKeeps(s, c, target);
    case Resume => ResumeKeeps(s, c);
    case Release => ReleaseKeeps(s, c);
  }

  // ----- What holds in every state of every run

  lemma {:induction false} EveryState(run: seq<State>, i: nat)
    requires IsRun(run) && i < |run|
    ensures Inv(run[i])
  {
    if i > 0 {
      EveryState(run, i - 1);
      assert Next(run[i - 1], run[i]);
      var c, action :| Enabled(run[i - 1], c, action) && run[i] == Apply(run[i - 1], c, action);
      StepKeeps(run[i - 1], c, action);
    }
  }

  /** A running `during` body has its app to itself: the entry is held and drained, so
    * `requireHeld` succeeds, no admitted access is still inside `use`, and no other call holds it. */
  lemma FencedBodyIsAlone(run: seq<State>, i: nat, c: ClientId, app: AppId)
    requires IsRun(run) && i < |run|
    requires c in run[i].clients && run[i].clients[c] == Fencing(app)
    ensures RequireHeld(run[i].entries, app)
    ensures forall d | d in run[i].clients :: !Uses(run[i].clients[d], app)
    ensures forall d | d in run[i].clients && Holds(run[i].clients[d], app) :: d == c
  {
    var s := run[i];
    EveryState(run, i);
    assert ClientOk(s, c);
    assert EntryOk(s, app);
    assert c in Holders(s, app);
    forall d | d in s.clients
      ensures !Uses(s.clients[d], app)
      ensures Holds(s.clients[d], app) ==> d == c
    {
      assert d in Users(s, app) <==> Uses(s.clients[d], app);
      if Holds(s.clients[d], app) {
        OnlyHolder(s, c, d, app);
      }
    }
  }

  /** From the moment a fence is taken until it is released, an access naming its app is told it is
    * blocked and is not admitted for it, and a second fence is refused. */
  lemma HeldFenceClosesAdmission(run: seq<State>, i: nat, c: ClientId, app: AppId, newcomer: ClientId, appIds: seq<AppId>)
    requires IsRun(run) && i < |run|
    requires c in run[i].clients && Holds(run[i].clients[c], app)
    requires newcomer !in run[i].clients
    ensures var after := Apply(run[i], newcomer, Admit(appIds)).clients[newcomer];
            after.Accessing? && app !in after.admitted && app in after.blocked
    ensures Apply(run[i], newcomer, Acquire(app)) == run[i].(clients := run[i].clients[newcomer := Left])
  {
    var s := run[i];
    EveryState(run, i);
    assert EntryOk(s, app);
    assert c in Holders(s, app);
    FirstOccurrencesOnce(appIds);
    NotHeldOnce(s.entries, FirstOccurrences(appIds));
  }

  /** What an access is told: it is blocked for exactly the apps that some call holds, and admitted for exactly
    * the others it asked for, each of which then counts it. */
  lemma AdmissionTells(run: seq<State>, i: nat, newcomer: ClientId, appIds: seq<AppId>)
    requires IsRun(run) && i < |run| && newcomer !in run[i].clients
    ensures var s' := Apply(run[i], newcomer, Admit(appIds));
            && s'.clients[newcomer].Accessing?
            && forall a: AppId ::
                 && (a in s'.clients[newcomer].blocked <==> Holders(run[i], a) != {})
                 && (a in s'.clients[newcomer].admitted <==> a in appIds && Holders(run[i], a) == {})
                 && Users(s', a) == if a in s'.clients[newcomer].admitted then Users(run[i], a) + {newcomer} else Users(run[i], a)
  {
    var s := run[i];
    EveryState(run, i);
    FirstOccurrencesOnce(appIds);
    NotHeldOnce(s.entries, FirstOccurrences(appIds));
    var s' := Apply(s, newcomer, Admit(appIds));
    forall a: AppId
      ensures a in s'.clients[newcomer].blocked <==> Holders(s, a) != {}
      ensures a in s'.clients[newcomer].admitted <==> a in appIds && Holders(s, a) == {}
      ensures Users(s', a) == if a in s'.clients[newcomer].admitted then Users(s, a) + {newcomer} else Users(s, a)
    {
      assert EntryOk(s, a);
      assert Held(s.entries, a) <==> Holders(s, a) != {};
      CallersMoved(s, s', newcomer, s'.clients[newcomer], a);
    }
  }

  /** What a fence is told: it is refused exactly while some call holds the app, and otherwise runs its body at
    * once exactly if no admitted work is left, and waits if there is some. */
  lemma AcquisitionTells(run: seq<State>, i: nat, newcomer: ClientId, app: AppId)
    requires IsRun(run) && i < |run| && newcomer !in run[i].clients
    ensures var s, s' := run[i], Apply(run[i], newcomer, Acquire(app));
            && (s'.clients[newcomer] == Left <==> Holders(s, app) != {})
            && (s'.clients[newcomer] == Fencing(app) <==> Holders(s, app) == {} && Users(s, app) == {})
            && (s'.clients[newcomer].Draining? <==> Holders(s, app) == {} && Users(s, app) != {})
  {
    EveryState(run, i);
    assert EntryOk(run[i], app);
  }

  /** A waiting fence is never forgotten: either admitted work for its app is still running, or a
    * finishing call still owes it the signal, or it can go on. It can go on only when no admitted
    * work is left. */
  lemma DrainIsNeverLost(run: seq<State>, i: nat, c: ClientId, app: AppId, cell: Cell)
    requires IsRun(run) && i < |run|
    requires c in run[i].clients && run[i].clients[c] == Draining(app, cell)
    ensures || (exists d :: d in run[i].clients && Uses(run[i].clients[d], app))
            || Owed(run[i], cell)
            || Enabled(run[i], c, Resume)
    ensures Enabled(run[i], c, Resume) || Owed(run[i], cell) ==>
              forall d | d in run[i].clients :: !Uses(run[i].clients[d], app)
  {
    var s := run[i];
    EveryState(run, i);
    assert ClientOk(s, c);
    assert EntryOk(s, app);
    if s.entries[app].active > 0 {
      var d :| d in Users(s, app);
      assert d in s.clients && Uses(s.clients[d], app);
    } else {
      assert forall d | d in s.clients :: Uses(s.clients[d], app) ==> d in Users(s, app);
    }
  }

  lemma HeldStepDrains(s: State, c: ClientId, action: Action, app: AppId)
    requires Inv(s) && Enabled(s, c, action) && Held(s.entries, app)
    ensures Users(Apply(s, c, action), app) <= Users(s, app)
    ensures action == Finish && c in Users(s, app) ==> Users(Apply(s, c, action), app) == Users(s, app) - {c}
  {
    var s' := Apply(s, c, action);
    if action.Admit? {
      FirstOccurrencesOnce(action.appIds);
      NotHeldOnce(s.entries, FirstOccurrences(action.appIds));
    }
    CallersMoved(s, s', c, s'.clients[c], app);
  }

  lemma HeldBefore(s: State, s': State, c: ClientId, app: AppId)
    requires Inv(s) && Next(s, s') && c in s.clients && c in s'.clients && Holds(s'.clients[c], app)
    ensures Holds(s.clients[c], app) && Held(s.entries, app)
    ensures Users(s', app) <= Users(s, app)
  {
    var d, action :| Enabled(s, d, action) && s' == Apply(s, d, action);
    assert Holds(s.clients[c], app);
    assert EntryOk(s, app) && c in Holders(s, app);
    HeldStepDrains(s, d, action, app);
  }

  lemma {:induction false} CallsStay(run: seq<State>, i: nat, j: nat, c: ClientId)
    requires IsRun(run) && i <= j < |run| && c in run[i].clients
    ensures c in run[j].clients
  {
    if i < j {
      CallsStay(run, i, j - 1, c);
      assert Next(run[j - 1], run[j]);
    }
  }

  /** As long as a call holds its fence, drained or not, nobody joins the calls it waits for. */
  lemma {:induction false} HeldFenceOnlyDrains(run: seq<State>, i: nat, j: nat, c: ClientId, app: AppId)
    requires IsRun(run) && i <= j < |run| && c in run[i].clients
    requires c in run[j].clients && Holds(run[j].clients[c], app)
    ensures Holds(run[i].clients[c], app)
    ensures Users(run[j], app) <= Users(run[i], app)
  {
    if i < j {
      EveryState(run, j - 1);
      CallsStay(run, i, j - 1, c);
      assert Next(run[j - 1], run[j]);
      HeldBefore(run[j - 1], run[j], c, app);
      HeldFenceOnlyDrains(run, i, j - 1, c, app);
    }
  }

  /** The map holds nothing once every call has left. */
  lemma NothingLeaks(run: seq<State>, i: nat)
    requires IsRun(run) && i < |run|
    requires forall c | c in run[i].clients :: run[i].clients[c] == Left
    ensures run[i].entries == map[]
  {
    var s := run[i];
    EveryState(run, i);
    forall a: AppId
      ensures a !in s.entries
    {
      assert EntryOk(s, a);
      assert Users(s, a) == {} && Holders(s, a) == {};
    }
  }
}
