/** Fences, guest activity and wakes as the host nests them. */
module HostComposition {
  import opened Prelude
  import V = VolumeMigrationFences
  import G = GuestActivity
  import F = FenceProtocol
  import A = ActivityProtocol
  import W = WakeProtocol

  //   Migrate    fences.during(app) { activity.exclusively(app) { .. } }
  //   Cron       activity.run(app) { waker.wake(app)?; .. }      (cron-executions.service.ts:46-61)
  //   Request    waker.wake(app)                                 (app-waker.service.ts:250-259)
  //   Suspend    fences.access([app]) { activity.whenIdle(app) } (lib/reconcile/instances.ts:217-239)
  //   Reconcile  fences.access(apps) { .. }                      (lib/reconcile/migration-fences.ts:67)
  //   Inverted   activity.exclusively(app) { fences.during(app) { .. } }, which the comment on
  //              `during` forbids and nothing in the host does
  //
  // A call has one position in each of the three protocols. A step is a step of one protocol, taken
  // when the call's nesting allows it; an inner scope is always left before its outer one.

  type AppId = nat
  type ClientId = nat

  datatype Program =
    | Migrate(app: AppId)
    | Cron(app: AppId)
    | Request(app: AppId)
    | Suspend(app: AppId)
    | Reconcile(apps: seq<AppId>)
    | Inverted(app: AppId)

  datatype State = State(programs: map<ClientId, Program>, fences: F.State, activity: A.State, wakes: W.State)

  const INITIAL := State(map[], F.INITIAL, A.INITIAL, W.INITIAL)

  datatype Move =
    | Start(program: Program)
    | Fence(fence: F.Action)
    | Act(act: A.Action)
    | Wake(wake: W.Action)

  predicate FenceIdle(s: State, c: ClientId) {
    c in s.fences.clients ==> s.fences.clients[c] == F.Left
  }

  predicate ActIdle(s: State, c: ClientId) {
    c in s.activity.clients ==> s.activity.clients[c].phase == A.Left
  }

  predicate WakeIdle(s: State, c: ClientId) {
    c in s.wakes.clients ==>
      s.wakes.clients[c].phase.Left? || s.wakes.clients[c].phase.Quit? || s.wakes.clients[c].phase.Lost?
  }

  predicate InAccess(s: State, c: ClientId) {
    c in s.fences.clients && s.fences.clients[c].Accessing?
  }

  predicate InFence(s: State, c: ClientId) {
    c in s.fences.clients && s.fences.clients[c].Fencing?
  }

  predicate InBody(s: State, c: ClientId) {
    c in s.activity.clients && s.activity.clients[c].phase == A.Body
  }

  predicate Unblocked(s: State, c: ClientId, app: AppId) {
    InAccess(s, c) && app !in s.fences.clients[c].blocked
  }

  /** What a call's nesting lets it do next. */
  predicate Nesting(s: State, c: ClientId, program: Program, move: Move) {
    match move
    case Start(_) => false
    case Fence(fence) => (
      match fence
      case Admit(apps) => (
        match program
        case Cron(app) => apps == [app] && InBody(s, c)
        case Request(app) => apps == [app]
        case Suspend(app) => apps == [app]
        case Reconcile(all) => apps == all
        case _ => false)
      case Finish => WakeIdle(s, c) && (program.Cron? || ActIdle(s, c))
      case Signal => true
      case Acquire(target) =>
        || program == Migrate(target)
        || (program == Inverted(target) && InBody(s, c))
      case Resume => true
      case Release => program.Inverted? || ActIdle(s, c))
    case Act(act) => (
      match act
      case Register(kind, target) =>
        || (program == Migrate(target) && kind == A.Exclusive && InFence(s, c))
        || (program == Cron(target) && kind == A.Run)
        || (program == Suspend(target) && kind == A.WhenIdle && Unblocked(s, c, target))
        || (program == Inverted(target) && kind == A.Exclusive)
      case EndBody => (program.Cron? || program.Inverted?) ==> FenceIdle(s, c)
      case _ => true)
    case Wake(wake) => (
      match wake
      case Wake(target) => (program == Cron(target) || program == Request(target)) && Unblocked(s, c, target)
      case _ => true)
  }

  predicate Enabled(s: State, c: ClientId, move: Move) {
    if move.Start? then c !in s.programs
    else
      && c in s.programs && Nesting(s, c, s.programs[c], move)
      && match move
         case Fence(fence) => F.Enabled(s.fences, c, fence)
         case Act(act) => A.Enabled(s.activity, c, act)
         case Wake(wake) => W.Enabled(s.wakes, c, wake)
         case Start(_) => true
  }

  function Apply(s: State, c: ClientId, move: Move): State
    requires Enabled(s, c, move)
  {
    match move
    case Start(program) => s.(programs := s.programs[c := program])
    case Fence(fence) => s.(fences := F.Apply(s.fences, c, fence))
    case Act(act) => s.(activity := A.Apply(s.activity, c, act))
    case Wake(wake) => s.(wakes := W.Apply(s.wakes, c, wake))
  }

  ghost predicate Next(s: State, s': State) {
    exists c, move :: Enabled(s, c, move) && s' == Apply(s, c, move)
  }

  ghost predicate IsRun(run: seq<State>) {
    |run| > 0 && run[0] == INITIAL && forall i | 0 <= i < |run| - 1 :: Next(run[i], run[i + 1])
  }

  // ----- Where a call can be in the three protocols at once

  predicate AdmittedOrBlocked(s: State, c: ClientId, app: AppId)
    requires InAccess(s, c)
  {
    app in s.fences.clients[c].admitted || app in s.fences.clients[c].blocked
  }

  /** The apps a call has anything to do with. */
  predicate Concerns(program: Program, app: AppId) {
    if program.Reconcile? then app in program.apps else program.app == app
  }

  ghost predicate FencesOwn(client: F.Client, program: Program) {
    match client
    case Accessing(admitted, _) => forall a | a in admitted :: Concerns(program, a)
    case Signalling(cells) => forall cell | cell in cells :: Concerns(program, cell.app)
    case Draining(app, _) => Concerns(program, app)
    case Fencing(app) => Concerns(program, app)
    case Left => true
  }

  /** A wake under way is one that was admitted for its app. */
  predicate WakeNested(s: State, c: ClientId, app: AppId) {
    c in s.wakes.clients ==>
      && s.wakes.clients[c].app == app
      && (!WakeIdle(s, c) ==> InAccess(s, c) && app in s.fences.clients[c].admitted)
  }

  predicate NeverFences(s: State, c: ClientId) {
    c in s.fences.clients ==> !s.fences.clients[c].Draining? && !s.fences.clients[c].Fencing?
  }

  predicate NeverAccesses(s: State, c: ClientId) {
    c in s.fences.clients ==> !s.fences.clients[c].Accessing? && !s.fences.clients[c].Signalling?
  }

  ghost predicate Linked(s: State, c: ClientId) {
    if c !in s.programs then c !in s.fences.clients && c !in s.activity.clients && c !in s.wakes.clients
    else
      && (c in s.fences.clients ==> FencesOwn(s.fences.clients[c], s.programs[c]))
      && match s.programs[c]
      case Migrate(app) =>
        && NeverAccesses(s, c) && c !in s.wakes.clients
        && (c in s.activity.clients ==> s.activity.clients[c].app == app && s.activity.clients[c].kind == A.Exclusive)
        && (!ActIdle(s, c) ==> InFence(s, c))
      case Cron(app) =>
        && NeverFences(s, c) && WakeNested(s, c, app)
        && (c in s.activity.clients ==> s.activity.clients[c].app == app && s.activity.clients[c].kind == A.Run)
        && (!FenceIdle(s, c) ==> InBody(s, c))
        && (InAccess(s, c) ==> AdmittedOrBlocked(s, c, app))
      case Request(app) =>
        && NeverFences(s, c) && WakeNested(s, c, app)
        && c !in s.activity.clients
        && (InAccess(s, c) ==> AdmittedOrBlocked(s, c, app))
      case Suspend(app) =>
        && NeverFences(s, c) && c !in s.wakes.clients
        && (c in s.activity.clients ==> s.activity.clients[c].app == app && s.activity.clients[c].kind == A.WhenIdle)
        && (InAccess(s, c) ==> AdmittedOrBlocked(s, c, app))
        && (!ActIdle(s, c) ==> InAccess(s, c) && app in s.fences.clients[c].admitted)
      case Reconcile(_) => NeverFences(s, c) && c !in s.activity.clients && c !in s.wakes.clients
      case Inverted(app) =>
        && NeverAccesses(s, c) && c !in s.wakes.clients
        && (c in s.activity.clients ==> s.activity.clients[c].app == app && s.activity.clients[c].kind == A.Exclusive)
  }

  ghost predicate Inv(s: State) {
    && F.Inv(s.fences) && A.Inv(s.activity) && W.Inv(s.wakes)
    && forall c: ClientId {:trigger Linked(s, c)} :: Linked(s, c)
  }

  // ----- Every step keeps it

  lemma OthersStay(s: State, c: ClientId, move: Move, d: ClientId)
    requires Enabled(s, c, move) && c != d && Linked(s, d)
    ensures Linked(Apply(s, c, move), d)
  {
    var s' := Apply(s, c, move);
    assert d in s'.fences.clients <==> d in s.fences.clients;
    assert d in s.fences.clients ==> s'.fences.clients[d] == s.fences.clients[d];
    assert d in s'.activity.clients <==> d in s.activity.clients;
    assert d in s.activity.clients ==> s'.activity.clients[d] == s.activity.clients[d];
    assert d in s'.wakes.clients <==> d in s.wakes.clients;
    assert d in s.wakes.clients ==> s'.wakes.clients[d] == s.wakes.clients[d];
  }

  lemma AdmitsOrBlocks(s: State, c: ClientId, apps: seq<AppId>)
    requires F.Enabled(s.fences, c, F.Admit(apps))
    ensures var after := F.Apply(s.fences, c, F.Admit(apps)).clients[c];
            && after.Accessing?
            && (forall a | a in after.admitted :: a in apps)
            && (forall a | a in apps :: a in after.admitted || a in after.blocked)
  {
    V.FirstOccurrencesOnce(apps);
    V.NotHeldOnce(s.fences.entries, V.FirstOccurrences(apps));
  }

  /** The cells a finishing call owes are those of apps it was admitted for. */
  lemma OwesItsOwn(s: State, c: ClientId)
    requires Inv(s) && F.Enabled(s.fences, c, F.Finish) && c in s.programs
    ensures FencesOwn(F.Apply(s.fences, c, F.Finish).clients[c], s.programs[c])
  {
    assert Linked(s, c);
    forall cell | cell in V.Drains(s.fences.entries, s.fences.clients[c].admitted)
      ensures Concerns(s.programs[c], cell.app)
    {
      F.DrainedApp(s.fences, c, cell);
    }
  }

  lemma FenceStepLinks(s: State, c: ClientId, fence: F.Action)
    requires Inv(s) && Enabled(s, c, Fence(fence))
    ensures Linked(Apply(s, c, Fence(fence)), c)
  {
    assert Linked(s, c);
    if fence.Admit? {
      AdmitsOrBlocks(s, c, fence.appIds);
    } else if fence.Finish? {
      OwesItsOwn(s, c);
    }
  }

  lemma ActStepLinks(s: State, c: ClientId, act: A.Action)
    requires Inv(s) && Enabled(s, c, Act(act))
    ensures Linked(Apply(s, c, Act(act)), c)
  {
    assert Linked(s, c);
  }

  lemma WakeStepLinks(s: State, c: ClientId, wake: W.Action)
    requires Inv(s) && Enabled(s, c, Wake(wake))
    ensures Linked(Apply(s, c, Wake(wake)), c)
  {
    assert Linked(s, c);
  }

  lemma StepKeeps(s: State, c: ClientId, move: Move)
    requires Inv(s) && Enabled(s, c, move)
    ensures Inv(Apply(s, c, move))
  {
    var s' := Apply(s, c, move);
    match move {
      case Start(_) =>
      case Fence(fence) => F.StepKeeps(s.fences, c, fence);
      case Act(act) => A.StepKeeps(s.activity, c, act);
      case Wake(wake) => W.StepKeeps(s.wakes, c, wake);
    }
    forall d: ClientId
      ensures Linked(s', d)
    {
      assert Linked(s, d);
      if d != c {
        OthersStay(s, c, move, d);
      } else {
        match move
        case Start(_) =>
        case Fence(fence) => FenceStepLinks(s, c, fence);
        case Act(act) => ActStepLinks(s, c, act);
        case Wake(wake) => WakeStepLinks(s, c, wake);
      }
    }
  }

  lemma {:induction false} EveryState(run: seq<State>, i: nat)
    requires IsRun(run) && i < |run|
    ensures Inv(run[i])
  {
    if i > 0 {
      EveryState(run, i - 1);
      assert Next(run[i - 1], run[i]);
      var c, move :| Enabled(run[i - 1], c, move) && run[i] == Apply(run[i - 1], c, move);
      StepKeeps(run[i - 1], c, move);
    }
  }

  // ----- While a migration works on a guest, nothing else does

  /** Inside the body of a migration no other call has a body, or is counted, in that app's guest;
    * no admitted lifecycle work of that app is still inside its access; and no wake of it boots. */
  lemma MigrationIsAlone(run: seq<State>, i: nat, m: ClientId, app: AppId, d: ClientId)
    requires IsRun(run) && i < |run| && d != m
    requires m in run[i].programs && run[i].programs[m] == Migrate(app) && InBody(run[i], m)
    ensures InAccess(run[i], d) ==> app !in run[i].fences.clients[d].admitted
    ensures d in run[i].fences.clients ==> !F.Holds(run[i].fences.clients[d], app)
    ensures d in run[i].activity.clients && run[i].activity.clients[d].app == app ==>
              !A.IsCounted(run[i].activity.clients[d]) && !InBody(run[i], d)
    ensures d in run[i].wakes.clients && run[i].wakes.clients[d].app == app ==> WakeIdle(run[i], d)
  {
    var s := run[i];
    EveryState(run, i);
    assert Linked(s, m) && Linked(s, d);
    assert F.ClientOk(s.fences, m) && F.EntryOk(s.fences, app);
    assert m in F.Holders(s.fences, app);
    assert d in F.Users(s.fences, app) <==> d in s.fences.clients && F.Uses(s.fences.clients[d], app);
    if d in s.fences.clients && F.Holds(s.fences.clients[d], app) {
      F.OnlyHolder(s.fences, m, d, app);
    }
    if d in s.activity.clients && s.activity.clients[d].app == app && s.activity.clients[d].phase != A.Left {
      A.AloneInState(s.activity, m, d);
    }
  }

  // ----- Something can always move

  /** A step that is not a newcomer's and not an interrupt's. */
  predicate Ordinary(s: State, c: ClientId, move: Move) {
    && Enabled(s, c, move)
    && match move
       case Start(_) => false
       case Fence(fence) => fence == F.Release ==> InFence(s, c)
       case Act(act) => act != A.Interrupt
       case Wake(wake) => wake != W.Interrupt && wake != W.Abandon
  }

  ghost predicate CanMove(s: State, app: AppId) {
    exists c, move :: c in s.programs && Concerns(s.programs[c], app) && Ordinary(s, c, move)
  }

  predicate Finished(s: State, c: ClientId)
    requires c in s.programs
  {
    match s.programs[c]
    case Cron(_) => c in s.activity.clients && ActIdle(s, c)
    case Inverted(_) => c in s.activity.clients && ActIdle(s, c)
    case _ => c in s.fences.clients && FenceIdle(s, c)
  }

  ghost predicate NoneStranded(s: State, app: AppId) {
    forall c | c in s.wakes.clients && s.wakes.clients[c].app == app :: !W.Stranded(s.wakes, c)
  }

  ghost predicate NoneInverted(s: State, app: AppId) {
    forall c | c in s.programs :: s.programs[c] != Inverted(app)
  }

  lemma Moves(s: State, c: ClientId, move: Move, app: AppId)
    requires c in s.programs && Concerns(s.programs[c], app) && Ordinary(s, c, move)
    ensures CanMove(s, app)
  {
  }

  lemma WakeOwnerMoves(s: State, c: ClientId)
    requires Inv(s) && c in s.wakes.clients && s.wakes.clients[c].phase != W.Lost
    requires W.Pending(s.wakes.clients[c].phase) || s.wakes.clients[c].phase.Forgetting?
    ensures CanMove(s, s.wakes.clients[c].app)
  {
    assert Linked(s, c);
    var app := s.wakes.clients[c].app;
    match s.wakes.clients[c].phase
    case Claimed => Moves(s, c, Wake(W.Begin), app);
    case Booting => Moves(s, c, Wake(W.EndBoot(W.Woken)), app);
    case Completing(_) => Moves(s, c, Wake(W.Complete), app);
    case Forgetting(_) => Moves(s, c, Wake(W.Forget), app);
  }

  lemma WakeMoves(s: State, c: ClientId, app: AppId)
    requires Inv(s) && c in s.wakes.clients && !WakeIdle(s, c) && s.wakes.clients[c].app == app
    requires !W.Stranded(s.wakes, c)
    ensures CanMove(s, app)
  {
    assert Linked(s, c) && W.ClientOk(s.wakes, c);
    match s.wakes.clients[c].phase
    case Joining(claim) =>
      assert W.JoinedOk(s.wakes, claim);
      Moves(s, c, Wake(W.Count), app);
    case Awaiting(claim) =>
      if claim in s.wakes.done {
        Moves(s, c, Wake(W.Return), app);
      } else {
        WakeOwnerMoves(s, claim);
      }
    case _ => WakeOwnerMoves(s, c);
  }

  /** A counted run never waits for the gate: its wake, if it has one, moves. */
  lemma RunMoves(s: State, c: ClientId, app: AppId)
    requires Inv(s) && NoneStranded(s, app)
    requires c in s.activity.clients && s.activity.clients[c].app == app && A.IsCounted(s.activity.clients[c])
    ensures CanMove(s, app)
  {
    assert Linked(s, c) && A.ClientOk(s.activity, c);
    match s.activity.clients[c].phase
    case Counted => Moves(s, c, Act(A.Yield), app);
    case Ending => Moves(s, c, Act(A.Uncount), app);
    case Body =>
      if FenceIdle(s, c) {
        Moves(s, c, Act(A.EndBody), app);
      } else if InAccess(s, c) {
        if WakeIdle(s, c) {
          Moves(s, c, Fence(F.Finish), app);
        } else {
          WakeMoves(s, c, app);
        }
      } else {
        assert F.ClientOk(s.fences, c);
        Moves(s, c, Fence(F.Signal), app);
      }
  }

  /** Whoever holds the permit waits at most for runs. */
  lemma PermitHolderMoves(s: State, c: ClientId, app: AppId)
    requires Inv(s) && NoneStranded(s, app) && NoneInverted(s, app)
    requires c in s.activity.clients && s.activity.clients[c].app == app && A.HasPermit(s.activity.clients[c])
    ensures CanMove(s, app)
  {
    assert Linked(s, c) && A.ClientOk(s.activity, c);
    match s.activity.clients[c].phase
    case Entering => Moves(s, c, Act(A.Look), app);
    case Counted => RunMoves(s, c, app);
    case Yielding => Moves(s, c, Act(A.Yield), app);
    case Body => Moves(s, c, Act(A.EndBody), app);
    case Awaiting(cell) => DrainMoves(s, c, app);
  }

  lemma DrainMoves(s: State, c: ClientId, app: AppId)
    requires Inv(s) && NoneStranded(s, app)
    requires c in s.activity.clients && s.activity.clients[c].app == app && s.activity.clients[c].phase.Awaiting?
    ensures CanMove(s, app)
  {
    assert Linked(s, c) && A.ClientOk(s.activity, c);
    var room, cell := s.activity.clients[c].room, s.activity.clients[c].phase.cell;
    assert A.RoomOk(s.activity, room);
    if cell in s.activity.done {
      Moves(s, c, Act(A.Drained), app);
    } else if s.activity.rooms[room].running.count > 0 {
      var d :| d in A.Inside(s.activity, room);
      assert A.ClientOk(s.activity, d);
      RunMoves(s, d, app);
    } else {
      var d :| d in s.activity.clients && s.activity.clients[d].phase == A.Signalling(cell);
      assert Linked(s, d) && A.ClientOk(s.activity, d);
      Moves(s, d, Act(A.Signal), app);
    }
  }

  lemma ActMoves(s: State, c: ClientId, app: AppId)
    requires Inv(s) && NoneStranded(s, app) && NoneInverted(s, app)
    requires c in s.activity.clients && s.activity.clients[c].app == app && !ActIdle(s, c)
    ensures CanMove(s, app)
  {
    assert Linked(s, c) && A.ClientOk(s.activity, c);
    var room := s.activity.clients[c].room;
    match s.activity.clients[c].phase
    case Queued =>
      assert A.RoomOk(s.activity, room);
      if s.activity.rooms[room].permits > 0 {
        Moves(s, c, Act(A.Take), app);
      } else {
        var holder :| holder in A.Permitted(s.activity, room);
        assert A.ClientOk(s.activity, holder);
        PermitHolderMoves(s, holder, app);
      }
    case Signalling(_) => Moves(s, c, Act(A.Signal), app);
    case Leaving => Moves(s, c, Act(A.Unregister), app);
    case Ending => RunMoves(s, c, app);
    case Body =>
      if s.activity.clients[c].kind == A.Run {
        RunMoves(s, c, app);
      } else {
        PermitHolderMoves(s, c, app);
      }
    case _ => PermitHolderMoves(s, c, app);
  }

  lemma AccessMoves(s: State, c: ClientId, app: AppId)
    requires Inv(s) && NoneStranded(s, app) && NoneInverted(s, app)
    requires InAccess(s, c) && c in s.programs && Concerns(s.programs[c], app)
    ensures CanMove(s, app)
  {
    assert Linked(s, c);
    if !WakeIdle(s, c) {
      WakeMoves(s, c, app);
    } else if ActIdle(s, c) || s.programs[c].Cron? {
      Moves(s, c, Fence(F.Finish), app);
    } else {
      ActMoves(s, c, app);
    }
  }

  lemma FenceMoves(s: State, c: ClientId, app: AppId)
    requires Inv(s) && NoneStranded(s, app) && NoneInverted(s, app)
    requires c in s.fences.clients && !FenceIdle(s, c) && c in s.programs && Concerns(s.programs[c], app)
    ensures CanMove(s, app)
  {
    assert Linked(s, c) && F.ClientOk(s.fences, c);
    match s.fences.clients[c]
    case Accessing(_, _) => AccessMoves(s, c, app);
    case Signalling(_) => Moves(s, c, Fence(F.Signal), app);
    case Fencing(_) =>
      if ActIdle(s, c) {
        Moves(s, c, Fence(F.Release), app);
      } else {
        ActMoves(s, c, app);
      }
    case Draining(_, cell) =>
      assert F.EntryOk(s.fences, app);
      if cell in s.fences.done {
        Moves(s, c, Fence(F.Resume), app);
      } else if s.fences.entries[app].active > 0 {
        var d :| d in F.Users(s.fences, app);
        assert Linked(s, d);
        AccessMoves(s, d, app);
      } else {
        var d :| d in s.fences.clients && s.fences.clients[d].Signalling? && cell in s.fences.clients[d].cells;
        assert Linked(s, d) && F.ClientOk(s.fences, d);
        Moves(s, d, Fence(F.Signal), app);
      }
  }

  /** Nested as the host nests them, the calls concerned with an app never end up all waiting for each
    * other: while one of them is unfinished, one of them can take a step that is not an interrupt. It is
    * enough that none of this app's own calls is stranded or inverted. */
  lemma NeverStuck(run: seq<State>, i: nat, c: ClientId, app: AppId)
    requires IsRun(run) && i < |run| && NoneStranded(run[i], app) && NoneInverted(run[i], app)
    requires c in run[i].programs && Concerns(run[i].programs[c], app) && !Finished(run[i], c)
    ensures CanMove(run[i], app)
  {
    var s := run[i];
    EveryState(run, i);
    assert Linked(s, c);
    if s.programs[c].Cron? {
      if c in s.activity.clients {
        ActMoves(s, c, app);
      } else {
        Moves(s, c, Act(A.Register(A.Run, app)), app);
      }
    } else if c in s.fences.clients {
      FenceMoves(s, c, app);
    } else {
      match s.programs[c]
      case Migrate(_) => Moves(s, c, Fence(F.Acquire(app)), app);
      case Reconcile(apps) => Moves(s, c, Fence(F.Admit(apps)), app);
      case _ => Moves(s, c, Fence(F.Admit([app])), app);
    }
  }

  // ----- And a stranded call never moves again

  lemma StrandedWaits(s: State, c: ClientId)
    requires Inv(s) && W.Stranded(s.wakes, c)
    ensures c in s.programs && !Finished(s, c)
    ensures forall move :: !Ordinary(s, c, move)
  {
    assert Linked(s, c) && W.ClientOk(s.wakes, c) && W.ClientOk(s.wakes, s.wakes.clients[c].phase.claim);
  }

  lemma WakesStep(s: State, s': State)
    requires Next(s, s')
    ensures s'.wakes == s.wakes || W.Next(s.wakes, s'.wakes)
  {
  }

  lemma StrandedStays(s: State, s': State, c: ClientId)
    requires Inv(s) && Next(s, s') && W.StrandedOrQuit(s.wakes, c)
    ensures W.StrandedOrQuit(s'.wakes, c)
  {
    WakesStep(s, s');
    if s'.wakes != s.wakes {
      W.StrandedStays(s.wakes, s'.wakes, c);
    }
  }

  lemma {:induction false} StrandedInRun(run: seq<State>, i: nat, j: nat, c: ClientId)
    requires IsRun(run) && i <= j < |run| && W.StrandedOrQuit(run[i].wakes, c)
    ensures W.StrandedOrQuit(run[j].wakes, c)
  {
    if i < j {
      StrandedInRun(run, i, j - 1, c);
      assert Inv(run[j - 1]) && Next(run[j - 1], run[j]) by {
        EveryState(run, j - 1);
      }
      StrandedStays(run[j - 1], run[j], c);
    }
  }

  /** A call that waits for a lost wake waits for it in every later state until it is interrupted, unfinished
    * and without a step of its own: what `NeverStuck` asks of an app's calls is what each of them needs. */
  lemma StrandedForGood(run: seq<State>, i: nat, j: nat, c: ClientId)
    requires IsRun(run) && i <= j < |run| && W.Stranded(run[i].wakes, c)
    ensures c in run[j].wakes.clients && (run[j].wakes.clients[c].phase == W.Quit || W.Stranded(run[j].wakes, c))
    ensures W.Stranded(run[j].wakes, c) ==>
              c in run[j].programs && !Finished(run[j], c) && forall move :: !Ordinary(run[j], c, move)
  {
    StrandedInRun(run, i, j, c);
    EveryState(run, j);
    if W.Stranded(run[j].wakes, c) {
      StrandedWaits(run[j], c);
    }
  }

  // ----- Nested the other way round they can

  /** Call 0 fences app 7 inside its guest's exclusive body; call 1, admitted before that, then asks
    * for the guest to be idle. */
  const CALLS := map[0 := Inverted(7), 1 := Suspend(7)]

  function FenceStage(k: nat): F.State {
    var cell := V.Cell(1, 7);
    if k == 0 then F.INITIAL
    else if k == 1 then F.State(map[7 := V.Entry(1, false, cell)], {}, map[1 := F.Accessing([7], {})])
    else F.State(map[7 := V.Entry(1, true, cell)], {}, map[1 := F.Accessing([7], {}), 0 := F.Draining(7, cell)])
  }

  function ActivityStage(k: nat): A.State {
    var counter := G.Count(0, G.Initial(0));
    if k == 0 then A.INITIAL
    else
      A.State(
        map[7 := G.Activity(0, if k < 4 then 1 else 2)],
        map[0 := A.Room(if k == 1 then 1 else 0, counter)],
        {},
        var first := A.Client(A.Exclusive, 7, 0, if k == 1 then A.Queued else if k == 2 then A.Entering else A.Body);
        if k < 4 then map[0 := first] else map[0 := first, 1 := A.Client(A.WhenIdle, 7, 0, A.Queued)])
  }

  function InvertedRun(): seq<State> {
    [INITIAL,
     INITIAL.(programs := map[0 := Inverted(7)]),
     During(FenceStage(0), ActivityStage(0)),
     During(FenceStage(0), ActivityStage(1)),
     During(FenceStage(0), ActivityStage(2)),
     During(FenceStage(0), ActivityStage(3)),
     During(FenceStage(1), ActivityStage(3)),
     During(FenceStage(2), ActivityStage(3)),
     During(FenceStage(2), ActivityStage(4))]
  }

  function During(fences: F.State, activity: A.State): State {
    State(CALLS, fences, activity, W.INITIAL)
  }

  lemma StartNext(programs: map<ClientId, Program>, c: ClientId, program: Program)
    requires c !in programs
    ensures Next(INITIAL.(programs := programs), INITIAL.(programs := programs[c := program]))
  {
    var s := INITIAL.(programs := programs);
    assert Enabled(s, c, Start(program));
    assert Apply(s, c, Start(program)) == INITIAL.(programs := programs[c := program]);
  }

  lemma FenceNext(f: F.State, f': F.State, a: A.State, c: ClientId, fence: F.Action)
    requires c in CALLS && Nesting(During(f, a), c, CALLS[c], Fence(fence))
    requires F.Enabled(f, c, fence) && f' == F.Apply(f, c, fence)
    ensures Next(During(f, a), During(f', a))
  {
    assert Enabled(During(f, a), c, Fence(fence)) && During(f', a) == Apply(During(f, a), c, Fence(fence));
  }

  lemma ActNext(f: F.State, a: A.State, a': A.State, c: ClientId, act: A.Action)
    requires c in CALLS && Nesting(During(f, a), c, CALLS[c], Act(act))
    requires A.Enabled(a, c, act) && a' == A.Apply(a, c, act)
    ensures Next(During(f, a), During(f, a'))
  {
    assert Enabled(During(f, a), c, Act(act)) && During(f, a') == Apply(During(f, a), c, Act(act));
  }

  lemma FenceAdmits()
    ensures F.Enabled(FenceStage(0), 1, F.Admit([7])) && F.Apply(FenceStage(0), 1, F.Admit([7])) == FenceStage(1)
  {
    NobodyHeld();
  }

  lemma NobodyHeld()
    ensures V.HeldApps(map[]) == {}
    ensures V.AdmitAll(map[], {7}, 1) == map[7 := V.Entry(1, false, V.Cell(1, 7))]
  {
  }

  lemma FenceAcquires()
    ensures F.Enabled(FenceStage(1), 0, F.Acquire(7)) && F.Apply(FenceStage(1), 0, F.Acquire(7)) == FenceStage(2)
  {
  }

  lemma InvertedActs()
    ensures Next(During(FenceStage(0), ActivityStage(0)), During(FenceStage(0), ActivityStage(1)))
    ensures Next(During(FenceStage(0), ActivityStage(1)), During(FenceStage(0), ActivityStage(2)))
    ensures Next(During(FenceStage(0), ActivityStage(2)), During(FenceStage(0), ActivityStage(3)))
  {
    ActNext(FenceStage(0), ActivityStage(0), ActivityStage(1), 0, A.Register(A.Exclusive, 7));
    ActNext(FenceStage(0), ActivityStage(1), ActivityStage(2), 0, A.Take);
    ActNext(FenceStage(0), ActivityStage(2), ActivityStage(3), 0, A.Look);
  }

  lemma InvertedFences()
    ensures Next(During(FenceStage(0), ActivityStage(3)), During(FenceStage(1), ActivityStage(3)))
    ensures Next(During(FenceStage(1), ActivityStage(3)), During(FenceStage(2), ActivityStage(3)))
  {
    assert Next(During(FenceStage(0), ActivityStage(3)), During(FenceStage(1), ActivityStage(3))) by {
      FenceAdmits();
      FenceNext(FenceStage(0), FenceStage(1), ActivityStage(3), 1, F.Admit([7]));
    }
    FenceAcquires();
    FenceNext(FenceStage(1), FenceStage(2), ActivityStage(3), 0, F.Acquire(7));
  }

  lemma InvertedSuspendQueues()
    ensures Next(During(FenceStage(2), ActivityStage(3)), During(FenceStage(2), ActivityStage(4)))
  {
    ActNext(FenceStage(2), ActivityStage(3), ActivityStage(4), 1, A.Register(A.WhenIdle, 7));
  }

  lemma InvertedStarts()
    ensures Next(INITIAL, INITIAL.(programs := map[0 := Inverted(7)]))
    ensures Next(INITIAL.(programs := map[0 := Inverted(7)]), During(FenceStage(0), ActivityStage(0)))
  {
    StartNext(map[], 0, Inverted(7));
    StartNext(map[0 := Inverted(7)], 1, Suspend(7));
    assert map[][0 := Inverted(7)] == map[0 := Inverted(7)];
    assert map[0 := Inverted(7)][1 := Suspend(7)] == CALLS;
  }

  lemma InvertedStep(i: nat)
    requires i < 8
    ensures Next(InvertedRun()[i], InvertedRun()[i + 1])
  {
    if i < 2 {
      InvertedStarts();
    } else if i < 5 {
      InvertedActs();
    } else if i < 7 {
      InvertedFences();
    } else {
      InvertedSuspendQueues();
    }
  }

  lemma InvertedRunSteps()
    ensures IsRun(InvertedRun())
  {
    var run := InvertedRun();
    forall i | 0 <= i < |run| - 1
      ensures Next(run[i], run[i + 1])
    {
      InvertedStep(i);
    }
  }

  /** A run whose two calls wait for each other: neither is finished and neither can move. */
  lemma InvertedNestingDeadlocks()
    ensures IsRun(InvertedRun())
    ensures var last := InvertedRun()[8];
            && !Finished(last, 0) && !Finished(last, 1)
            && forall c, move | c in last.programs :: !Ordinary(last, c, move)
  {
    InvertedRunSteps();
    var last := InvertedRun()[8];
    forall c, move | c in last.programs
      ensures !Ordinary(last, c, move)
    {
    }
  }
}
