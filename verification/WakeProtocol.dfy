/** Every interleaving of `wake` calls over one claim map. */
module WakeProtocol {
  import opened Prelude
  import opened AppWaker

  // `boot` is an opaque step that ends in some outcome. A call may be interrupted while it boots
  // or waits. It may also be interrupted between winning the claim and starting the boot whose
  // `onExit` gives the claim up again (lines 224-236): nothing masks that gap, so `Abandon` is a
  // step, and the theorems say what it costs.

  datatype Outcome = Woken | Failed | Interrupted

  datatype Phase =
    | Claimed
    | Booting
    | Completing(outcome: Outcome)   // the boot ended, its claim is still to be completed
    | Forgetting(outcome: Outcome)   // completed, and still in the map
    | Joining(claim: ClientId)       // found a claim, not counted yet
    | Awaiting(claim: ClientId)
    | Left(outcome: Outcome)
    | Quit                           // interrupted while it was joining or waiting
    | Lost                           // interrupted in the gap; its claim stays in the map

  datatype Client = Client(app: AppId, phase: Phase, counted: Option<ClientId>)

  datatype State = State(
    inFlight: map<AppId, ClientId>,
    joined: map<ClientId, nat>,
    done: map<ClientId, Outcome>,
    clients: map<ClientId, Client>)

  const INITIAL := State(map[], map[], map[], map[])

  datatype Action =
    | Wake(target: AppId)
    | Begin
    | Abandon
    | EndBoot(how: Outcome)
    | Complete
    | Forget
    | Count
    | Return
    | Interrupt

  predicate Enabled(s: State, c: ClientId, action: Action) {
    if action.Wake? then c !in s.clients
    else
      && c in s.clients
      && var phase := s.clients[c].phase;
         match action
         case Begin => phase == Claimed
         case Abandon => phase == Claimed
         case EndBoot(_) => phase == Booting
         case Complete => phase.Completing?
         case Forget => phase.Forgetting?
         case Count => phase.Joining? && phase.claim in s.joined
         case Return => phase.Awaiting? && phase.claim in s.done
         case Interrupt => phase.Joining? || phase.Awaiting?
         case Wake(_) => true
  }

  function Moved(s: State, c: ClientId, phase: Phase): map<ClientId, Client>
    requires c in s.clients
  {
    s.clients[c := s.clients[c].(phase := phase)]
  }

  function Apply(s: State, c: ClientId, action: Action): State
    requires Enabled(s, c, action)
  {
    if action.Wake? then
      var app := action.target;
      State(
        WithClaim(s.inFlight, app, c),
        s.joined[c := 0],
        s.done,
        var phase := match ClaimFor(s.inFlight, app) case Some(claim) => Joining(claim) case None => Claimed;
        s.clients[c := Client(app, phase, None)])
    else
      var Client(app, phase, counted) := s.clients[c];
      match action
      case Begin => s.(clients := Moved(s, c, Booting))
      case Abandon => s.(clients := Moved(s, c, Lost))
      case EndBoot(how) => s.(clients := Moved(s, c, Completing(how)))
      case Complete => s.(done := s.done[c := phase.outcome], clients := Moved(s, c, Forgetting(phase.outcome)))
      case Forget => s.(inFlight := s.inFlight - {app}, clients := Moved(s, c, Left(phase.outcome)))
      case Count =>
        s.(joined := s.joined[phase.claim := s.joined[phase.claim] + 1],
           clients := s.clients[c := Client(app, Awaiting(phase.claim), Some(phase.claim))])
      case Return => s.(clients := Moved(s, c, Left(s.done[phase.claim])))
      case Interrupt => s.(clients := Moved(s, c, Quit))
      case Wake(_) => s
  }

  ghost predicate Next(s: State, s': State) {
    exists c, action :: Enabled(s, c, action) && s' == Apply(s, c, action)
  }

  ghost predicate IsRun(run: seq<State>) {
    |run| > 0 && run[0] == INITIAL && forall i | 0 <= i < |run| - 1 :: Next(run[i], run[i + 1])
  }

  // ----- The invariant

  /** Has won the claim and not completed it. */
  predicate Pending(phase: Phase) {
    phase == Claimed || phase == Booting || phase.Completing? || phase == Lost
  }

  predicate Owns(client: Client, a: AppId) {
    client.app == a && (Pending(client.phase) || client.phase.Forgetting?)
  }

  function CountedIn(s: State, claim: ClientId): set<ClientId> {
    set c | c in s.clients && s.clients[c].counted == Some(claim)
  }

  /** The map names the one call that owns the app, and nothing when none does. */
  ghost predicate AppOk(s: State, a: AppId) {
    && (a in s.inFlight ==> s.inFlight[a] in s.clients && Owns(s.clients[s.inFlight[a]], a))
    && (forall c {:trigger s.clients[c]} | c in s.clients && Owns(s.clients[c], a) :: a in s.inFlight && s.inFlight[a] == c)
  }

  /** Who has completed a claim ends with the outcome it completed it with; who has joined one ends with
    * the outcome it was completed with, if it ends uninterrupted. */
  ghost predicate ClientOk(s: State, c: ClientId)
    requires c in s.clients
  {
    var Client(app, phase, counted) := s.clients[c];
    && (c in s.done ==> counted == None && (phase == Forgetting(s.done[c]) || phase == Left(s.done[c])))
    && (phase.Forgetting? ==> c in s.done)
    && (phase.Joining? || phase.Awaiting? ==>
          && phase.claim in s.clients && s.clients[phase.claim].app == app
          && (phase.claim in s.done || Pending(s.clients[phase.claim].phase)))
    && (phase.Awaiting? ==> counted == Some(phase.claim))
    && (counted.Some? ==> phase.Awaiting? || phase.Quit? || phase.Left?)
    && (counted.Some? && phase.Left? ==> counted.value in s.done && phase == Left(s.done[counted.value]))
  }

  ghost predicate JoinedOk(s: State, claim: ClientId) {
    && (claim in s.joined <==> claim in s.clients)
    && (claim in s.joined ==> s.joined[claim] == |CountedIn(s, claim)|)
    && (claim !in s.joined ==> CountedIn(s, claim) == {})
  }

  ghost predicate Inv(s: State) {
    && (forall a: AppId :: AppOk(s, a))
    && (forall c {:trigger ClientOk(s, c)} | c in s.clients :: ClientOk(s, c))
    && (forall claim {:trigger JoinedOk(s, claim)} :: JoinedOk(s, claim))
    && s.done.Keys <= s.clients.Keys
  }

  lemma StepKeepsApps(s: State, c: ClientId, action: Action, a: AppId)
    requires Inv(s) && Enabled(s, c, action)
    ensures AppOk(Apply(s, c, action), a)
  {
    assert AppOk(s, a);
    if !action.Wake? {
      assert AppOk(s, s.clients[c].app);
    }
  }

  lemma CountedMoved(s: State, s': State, c: ClientId, now: Client, claim: ClientId)
    requires s'.clients == s.clients[c := now]
    requires c in s.clients ==> s.clients[c].counted == None || now.counted == s.clients[c].counted
    ensures CountedIn(s', claim) ==
            if now.counted == Some(claim) then CountedIn(s, claim) + {c} else CountedIn(s, claim)
    ensures c in s.clients && now.counted == s.clients[c].counted ==> CountedIn(s', claim) == CountedIn(s, claim)
    ensures c in CountedIn(s, claim) <==> c in s.clients && s.clients[c].counted == Some(claim)
  {
  }

  lemma StepKeepsClients(s: State, c: ClientId, action: Action, d: ClientId)
    requires Inv(s) && Enabled(s, c, action) && d in Apply(s, c, action).clients
    ensures ClientOk(Apply(s, c, action), d)
  {
    var s' := Apply(s, c, action);
    if c in s.clients {
      assert ClientOk(s, c);
    }
    if d in s.clients {
      assert ClientOk(s, d);
    }
    if action.Wake? {
      assert AppOk(s, action.target);
      if action.target in s.inFlight {
        assert ClientOk(s, s.inFlight[action.target]);
      }
    }
  }

  lemma StepKeepsJoined(s: State, c: ClientId, action: Action, claim: ClientId)
    requires Inv(s) && Enabled(s, c, action)
    ensures JoinedOk(Apply(s, c, action), claim)
  {
    var s' := Apply(s, c, action);
    assert JoinedOk(s, claim) && JoinedOk(s, c);
    if c in s.clients {
      assert ClientOk(s, c);
    }
    CountedMoved(s, s', c, s'.clients[c], claim);
  }

  lemma StepKeeps(s: State, c: ClientId, action: Action)
    requires Inv(s) && Enabled(s, c, action)
    ensures Inv(Apply(s, c, action))
  {
    var s' := Apply(s, c, action);
    forall a: AppId
      ensures AppOk(s', a)
    {
      StepKeepsApps(s, c, action, a);
    }
    forall d | d in s'.clients
      ensures ClientOk(s', d)
    {
      StepKeepsClients(s, c, action, d);
    }
    forall claim
      ensures JoinedOk(s', claim)
    {
      StepKeepsJoined(s, c, action, claim);
    }
  }

  // ----- What holds in every state of every run

  lemma {:induction false} EveryState(run: seq<State>, i: nat)
    requires IsRun(run) && i < |run|
    ensures Inv(run[i])
  {
    if i > 0 {
      EveryState(run, i - 1);
      assert Next(run[i - 1], run[i]);
      var c, action :| Enabled(run[i - 1], c, action) && run[i] == Apply(run[i - 1], c, action);
      StepKeeps(run[i - 1], c, action);
    }
  }

  /** An app is booted by one call at a time, and that call's claim is the one in the map. */
  lemma SingleFlight(run: seq<State>, i: nat, c: ClientId, d: ClientId)
    requires IsRun(run) && i < |run| && c in run[i].clients && d in run[i].clients
    requires run[i].clients[c].app == run[i].clients[d].app
    requires Pending(run[i].clients[c].phase) && Pending(run[i].clients[d].phase)
    ensures c == d
    ensures var app := run[i].clients[c].app; app in run[i].inFlight && run[i].inFlight[app] == c
  {
    EveryState(run, i);
    assert AppOk(run[i], run[i].clients[c].app);
  }

  /** What one boot's log line counts as coalesced is exactly how many calls joined it. */
  lemma JoinersCounted(run: seq<State>, i: nat, c: ClientId)
    requires IsRun(run) && i < |run| && c in run[i].clients
    ensures c in run[i].joined && run[i].joined[c] == |CountedIn(run[i], c)|
  {
    EveryState(run, i);
    assert JoinedOk(run[i], c);
  }

  /** A call waiting for a boot can go on, or the boot's owner can take a step towards letting it,
    * exactly when that owner was not lost in the gap. */
  lemma WaiterIsServedUnlessLost(run: seq<State>, i: nat, c: ClientId, owner: ClientId)
    requires IsRun(run) && i < |run| && c in run[i].clients && run[i].clients[c].phase == Awaiting(owner)
    ensures owner in run[i].clients && run[i].clients[owner].app == run[i].clients[c].app
    ensures (Enabled(run[i], c, Return) || Enabled(run[i], owner, Begin)
             || Enabled(run[i], owner, EndBoot(Woken)) || Enabled(run[i], owner, Complete))
            <==> run[i].clients[owner].phase != Lost
  {
    EveryState(run, i);
    assert ClientOk(run[i], c) && ClientOk(run[i], owner);
  }

  /** Has joined a claim, or is about to. */
  predicate JoinsClaim(s: State, c: ClientId, owner: ClientId) {
    c in s.clients && (s.clients[c].phase == Joining(owner) || s.clients[c].phase == Awaiting(owner))
  }

  predicate JoinsOrQuit(s: State, c: ClientId, owner: ClientId) {
    c in s.clients && (s.clients[c].phase == Quit || JoinsClaim(s, c, owner))
  }

  /** The owner of a claim was interrupted in the gap. */
  predicate IsLost(s: State, owner: ClientId) {
    owner in s.clients && s.clients[owner].phase == Lost
  }

  /** Waits for a lost claim. */
  predicate Stranded(s: State, c: ClientId) {
    c in s.clients && s.clients[c].phase.Awaiting? && IsLost(s, s.clients[c].phase.claim)
  }

  predicate StrandedOrQuit(s: State, c: ClientId) {
    c in s.clients && (s.clients[c].phase == Quit || Stranded(s, c))
  }

  lemma StrandedStays(s: State, s': State, c: ClientId)
    requires Inv(s) && Next(s, s') && StrandedOrQuit(s, c)
    ensures StrandedOrQuit(s', c)
  {
    if Stranded(s, c) {
      JoinersStay(s, s', s.clients[c].phase.claim, c);
    }
  }

  lemma LostStays(s: State, s': State, owner: ClientId)
    requires Inv(s) && Next(s, s') && IsLost(s, owner)
    ensures IsLost(s', owner) && s'.clients[owner] == s.clients[owner]
  {
  }

  lemma JoinersStay(s: State, s': State, owner: ClientId, d: ClientId)
    requires Inv(s) && Next(s, s') && IsLost(s, owner) && d in s'.clients
    requires if d in s.clients then JoinsOrQuit(s, d, owner) else s'.clients[d].app == s.clients[owner].app
    ensures JoinsOrQuit(s', d, owner)
  {
    assert AppOk(s, s.clients[owner].app) && ClientOk(s, owner);
  }

  /** Nothing ever completes a lost claim or takes it out of the map again. */
  lemma {:induction false} LostForGood(run: seq<State>, i: nat, j: nat, owner: ClientId)
    requires IsRun(run) && i <= j < |run| && IsLost(run[i], owner)
    ensures IsLost(run[j], owner) && run[j].clients[owner] == run[i].clients[owner] && owner !in run[j].done
    ensures var app := run[i].clients[owner].app; app in run[j].inFlight && run[j].inFlight[app] == owner
  {
    if i < j {
      LostForGood(run, i, j - 1, owner);
      EveryState(run, j - 1);
      assert Next(run[j - 1], run[j]);
      LostStays(run[j - 1], run[j], owner);
    }
    EveryState(run, j);
    assert AppOk(run[j], run[j].clients[owner].app) && ClientOk(run[j], owner);
  }

  /** A call that has joined a lost claim, or wakes the app after it was lost, waits for it in every later
    * state, unless it is interrupted. */
  lemma {:induction false} JoinersWaitForGood(run: seq<State>, i: nat, j: nat, owner: ClientId, c: ClientId)
    requires IsRun(run) && i <= j < |run| && IsLost(run[i], owner)
    requires c in run[j].clients && run[j].clients[c].app == run[i].clients[owner].app
    requires c in run[i].clients ==> JoinsOrQuit(run[i], c, owner)
    ensures JoinsOrQuit(run[j], c, owner)
  {
    if i < j {
      EveryState(run, j - 1);
      assert Next(run[j - 1], run[j]);
      LostForGood(run, i, j - 1, owner);
      if c in run[j - 1].clients {
        AppStays(run[j - 1], run[j], c);
        JoinersWaitForGood(run, i, j - 1, owner, c);
      }
      JoinersStay(run[j - 1], run[j], owner, c);
    }
  }

  lemma AppStays(s: State, s': State, c: ClientId)
    requires Next(s, s') && c in s.clients
    ensures c in s'.clients && s'.clients[c].app == s.clients[c].app
  {
  }

  /** Two wakes of app 7, the first interrupted in the gap. */
  function LostWake(): seq<State> {
    [INITIAL,
     State(map[7 := 0], map[0 := 0], map[], map[0 := Client(7, Claimed, None)]),
     State(map[7 := 0], map[0 := 0], map[], map[0 := Client(7, Lost, None)]),
     State(map[7 := 0], map[0 := 0, 1 := 0], map[], map[0 := Client(7, Lost, None), 1 := Client(7, Joining(0), None)]),
     State(map[7 := 0], map[0 := 1, 1 := 0], map[],
           map[0 := Client(7, Lost, None), 1 := Client(7, Awaiting(0), Some(0))])]
  }

  lemma StepExists(s: State, s': State, c: ClientId, action: Action)
    requires Enabled(s, c, action) && s' == Apply(s, c, action)
    ensures Next(s, s')
  {
  }

  /** It is a run, and in its last state the second call can only be interrupted. */
  lemma AWakeCanBeLost()
    ensures IsRun(LostWake())
    ensures var last := LostWake()[4];
            && last.clients[1].phase == Awaiting(0)
            && forall c, action :: c in last.clients && Enabled(last, c, action) ==> c == 1 && action == Interrupt
  {
    var run := LostWake();
    StepExists(run[0], run[1], 0, Wake(7));
    StepExists(run[1], run[2], 0, Abandon);
    StepExists(run[2], run[3], 1, Wake(7));
    StepExists(run[3], run[4], 1, Count);
  }

  /** A wake of an app that some call is booting, or has just booted, joins that call; any other boots the app
    * itself. */
  lemma WakeTells(run: seq<State>, i: nat, c: ClientId, app: AppId)
    requires IsRun(run) && i < |run| && c !in run[i].clients
    ensures Enabled(run[i], c, Wake(app))
    ensures var s, phase := run[i], Apply(run[i], c, Wake(app)).clients[c].phase;
            && (phase == Claimed <==> forall d | d in s.clients :: !Owns(s.clients[d], app))
            && forall d | d in s.clients && Owns(s.clients[d], app) :: phase == Joining(d)
  {
    EveryState(run, i);
    assert AppOk(run[i], app);
  }

  datatype Step = Step(who: ClientId, what: Action)

  /** A run together with the steps taken in it. */
  ghost predicate IsTraced(run: seq<State>, steps: seq<Step>) {
    && |run| == |steps| + 1 && run[0] == INITIAL
    && forall i {:trigger steps[i]} | 0 <= i < |steps| ::
         Enabled(run[i], steps[i].who, steps[i].what) && run[i + 1] == Apply(run[i], steps[i].who, steps[i].what)
  }

  /** The boot has ended and this is how. */
  predicate Ended(client: Client, how: Outcome) {
    client.counted == None
    && (client.phase == Completing(how) || client.phase == Forgetting(how) || client.phase == Left(how))
  }

  lemma TracedStateOk(run: seq<State>, steps: seq<Step>, i: nat)
    requires IsTraced(run, steps) && i < |run|
    ensures Inv(run[i])
  {
    forall k | 0 <= k < |run| - 1
      ensures Next(run[k], run[k + 1])
    {
      assert Enabled(run[k], steps[k].who, steps[k].what);
    }
    EveryState(run, i);
  }

  lemma StepEnds(s: State, step: Step, c: ClientId, how: Outcome)
    requires Inv(s) && Enabled(s, step.who, step.what)
    requires var s' := Apply(s, step.who, step.what); c in s'.clients && Ended(s'.clients[c], how)
    ensures step == Step(c, EndBoot(how)) || (c in s.clients && Ended(s.clients[c], how))
  {
    if c in s.clients {
      assert ClientOk(s, c);
    }
  }

  /** What the booting call leaves with, and with it everybody who joined it, is how its boot ended. */
  lemma {:induction false} OutcomeIsTheBoots(run: seq<State>, steps: seq<Step>, i: nat, c: ClientId, how: Outcome)
    requires IsTraced(run, steps) && i < |run| && c in run[i].clients && Ended(run[i].clients[c], how)
    ensures exists k :: 0 <= k < i && steps[k] == Step(c, EndBoot(how))
  {
    assert i > 0;
    TracedStateOk(run, steps, i - 1);
    StepEnds(run[i - 1], steps[i - 1], c, how);
    if steps[i - 1] != Step(c, EndBoot(how)) {
      OutcomeIsTheBoots(run, steps, i - 1, c, how);
    }
  }

  /** A joiner that leaves without being interrupted leaves with the outcome of the one boot it waited for:
    * its owner has left with the same, or is only still to take its claim out of the map. */
  lemma JoinersShareTheOutcome(run: seq<State>, i: nat, c: ClientId, owner: ClientId)
    requires IsRun(run) && i < |run| && c in run[i].clients
    requires run[i].clients[c].counted == Some(owner) && run[i].clients[c].phase.Left?
    ensures owner in run[i].clients && run[i].clients[owner].counted == None
    ensures var outcome := run[i].clients[c].phase.outcome;
            run[i].clients[owner].phase == Forgetting(outcome) || run[i].clients[owner].phase == Left(outcome)
  {
    EveryState(run, i);
    assert ClientOk(run[i], c);
    assert ClientOk(run[i], owner);
  }
}
