/** Many publishers and the one consumer of apps/agent/src/lib/agent/logs.ts, block by block, with
  * fibers interrupted wherever they may be.
  */
module LogQueueProtocol {
  import opened Prelude
  import opened TenantLogQueue

  /** What the consumer has in its hands. */
  datatype Consumer =
    | Idle
    | TookOwed(events: seq<Event>)
    | TookAll(events: seq<Event>)
    | Holding(events: seq<Event>)     // has its batch, and has not begun to send it
    | Sending(events: seq<Event>)     // will release or restore it, interrupted or not
    | Restoring(events: seq<Event>)   // its batch, and behind it what was on `owed`

  datatype State = State(
    pending: seq<Event>,
    owed: seq<Event>,
    bufferedBytes: int,
    admitted: seq<Event>,    // accepted, and their publishers have not offered them yet
    consumer: Consumer,
    offered: seq<Event>,     // every event offered so far, in order
    released: seq<Event>,
    abandoned: seq<Event>,   // accepted from publishers interrupted before the offer
    dropped: seq<Event>)     // in the hands of a consumer interrupted before it sent them

  const INITIAL := State([], [], 0, [], Idle, [], [], [], [])

  datatype Action =
    | Admit(event: Event)
    | Offer(publisher: nat)
    | TakeOwed
    | TakePending
    | Split(maxBytes: int)
    | Send
    | Release
    | TakeBack
    | PutBack
    | InterruptPublisher(publisher: nat)
    | InterruptConsumer

  predicate Enabled(s: State, action: Action) {
    match action
    case Admit(_) => true
    case Offer(i) => i < |s.admitted|
    case TakeOwed => s.consumer.Idle?
    case TakePending => s.consumer.TookOwed?
    case Split(_) => s.consumer.TookAll?
    case Send => s.consumer.Holding?
    case Release => s.consumer.Sending?
    case TakeBack => s.consumer.Sending?
    case PutBack => s.consumer.Restoring?
    case InterruptPublisher(i) => i < |s.admitted|
    case InterruptConsumer => s.consumer.TookOwed? || s.consumer.TookAll? || s.consumer.Holding?
  }

  function Without(events: seq<Event>, i: nat): seq<Event>
    requires i < |events|
  {
    events[..i] + events[i + 1..]
  }

  function Apply(s: State, action: Action): State
    requires Enabled(s, action)
  {
    match action
    case Admit(event) =>
      if s.bufferedBytes + SizeOf(event) > MAX_BUFFERED_BYTES then s
      else s.(bufferedBytes := s.bufferedBytes + SizeOf(event), admitted := s.admitted + [event])
    case Offer(i) =>
      s.(pending := s.pending + [s.admitted[i]],
         offered := s.offered + [s.admitted[i]],
         admitted := Without(s.admitted, i))
    case TakeOwed => s.(owed := [], consumer := TookOwed(s.owed))
    case TakePending => s.(pending := [], consumer := TookAll(s.consumer.events + s.pending))
    case Split(maxBytes) =>
      var queued := s.consumer.events;
      var n := BatchLength(queued, maxBytes);
      s.(owed := s.owed + queued[n..], consumer := Holding(queued[..n]))
    case Send => s.(consumer := Sending(s.consumer.events))
    case Release =>
      s.(bufferedBytes := s.bufferedBytes - Total(s.consumer.events),
         released := s.released + s.consumer.events,
         consumer := Idle)
    case TakeBack => s.(owed := [], consumer := Restoring(s.consumer.events + s.owed))
    case PutBack => s.(owed := s.owed + s.consumer.events, consumer := Idle)
    case InterruptPublisher(i) =>
      s.(admitted := Without(s.admitted, i), abandoned := s.abandoned + [s.admitted[i]])
    case InterruptConsumer => s.(consumer := Idle, dropped := s.dropped + s.consumer.events)
  }

  ghost predicate IsRun(run: seq<State>, actions: seq<Action>) {
    && |run| == |actions| + 1 && run[0] == INITIAL
    && forall i {:trigger actions[i]} | 0 <= i < |actions| ::
         Enabled(run[i], actions[i]) && run[i + 1] == Apply(run[i], actions[i])
  }

  // ----- The invariant

  function InHand(s: State): seq<Event> {
    if s.consumer.Idle? then [] else s.consumer.events
  }

  /** Offered and not yet released, oldest first. */
  function Waiting(s: State): seq<Event> {
    InHand(s) + s.owed + s.pending
  }

  predicate BytesOk(s: State) {
    && s.bufferedBytes == Total(Waiting(s)) + Total(s.admitted) + Total(s.abandoned) + Total(s.dropped)
    && s.bufferedBytes <= MAX_BUFFERED_BYTES
  }

  predicate OrderOk(s: State) {
    && |s.released| + |Waiting(s)| + |s.dropped| == |s.offered|
    && (s.dropped == [] ==> s.released + Waiting(s) == s.offered)
    && (s.consumer.TookOwed? || s.consumer.TookAll? || s.consumer.Restoring? ==> s.owed == [])
  }

  lemma TotalBetween(events: seq<Event>, before: seq<Event>, event: Event, after: seq<Event>)
    requires events == before + [event] + after
    ensures Total(events) == Total(before + after) + SizeOf(event)
  {
    TotalOf(before, after);
    TotalOf(before, [event]);
    TotalOf(before + [event], after);
  }

  lemma SplitAt(events: seq<Event>, i: nat)
    requires i < |events|
    ensures events == events[..i] + [events[i]] + events[i + 1..]
  {
  }

  lemma TotalWithout(events: seq<Event>, i: nat)
    requires i < |events|
    ensures Total(events) == Total(Without(events, i)) + SizeOf(events[i])
  {
    SplitAt(events, i);
    TotalBetween(events, events[..i], events[i], events[i + 1..]);
  }

  /** What is in the consumer's hands and in the two queues moves between them in order. */
  lemma WaitingMoves(s: State, action: Action)
    requires Enabled(s, action) && OrderOk(s)
    requires action.TakeOwed? || action.TakePending? || action.Split? || action.Send? || action.TakeBack? || action.PutBack?
    ensures Waiting(Apply(s, action)) == Waiting(s)
  {
    if action.Split? {
      var queued := s.consumer.events;
      var n := BatchLength(queued, action.maxBytes);
      assert queued[..n] + queued[n..] == queued;
    }
  }

  lemma OrderKeeps(s: State, action: Action)
    requires Enabled(s, action) && OrderOk(s)
    ensures OrderOk(Apply(s, action))
  {
    var s' := Apply(s, action);
    match action
    case Offer(i) =>
      assert Waiting(s') == Waiting(s) + [s.admitted[i]];
      assert s.released + (Waiting(s) + [s.admitted[i]]) == (s.released + Waiting(s)) + [s.admitted[i]];
    case Release =>
      assert s'.released + Waiting(s') == s.released + Waiting(s);
    case InterruptConsumer =>
      assert Waiting(s) == s.consumer.events + Waiting(s');
      assert s'.dropped == [] ==> s.consumer.events == [] && Waiting(s') == Waiting(s);
    case Admit(_) =>
    case InterruptPublisher(_) =>
    case _ => WaitingMoves(s, action);
  }

  lemma OfferBytes(s: State, i: nat)
    requires i < |s.admitted| && BytesOk(s)
    ensures BytesOk(Apply(s, Offer(i)))
  {
    TotalWithout(s.admitted, i);
    TotalOf(Waiting(s), [s.admitted[i]]);
    assert Waiting(Apply(s, Offer(i))) == Waiting(s) + [s.admitted[i]];
  }

  lemma InterruptPublisherBytes(s: State, i: nat)
    requires i < |s.admitted| && BytesOk(s)
    ensures BytesOk(Apply(s, InterruptPublisher(i)))
  {
    TotalWithout(s.admitted, i);
    TotalOf(s.abandoned, [s.admitted[i]]);
    assert Waiting(Apply(s, InterruptPublisher(i))) == Waiting(s);
  }

  lemma ConsumerBytes(s: State, action: Action)
    requires Enabled(s, action) && (action.Release? || action.InterruptConsumer?) && BytesOk(s)
    ensures BytesOk(Apply(s, action))
  {
    var s' := Apply(s, action);
    TotalOf(s.consumer.events, Waiting(s'));
    TotalOf(s.dropped, s.consumer.events);
    WaitingLeft(s, s');
  }

  lemma WaitingLeft(s: State, s': State)
    requires !s.consumer.Idle? && s'.consumer.Idle? && s'.owed == s.owed && s'.pending == s.pending
    ensures Waiting(s) == s.consumer.events + Waiting(s')
  {
  }

  lemma BytesKeep(s: State, action: Action)
    requires Enabled(s, action) && OrderOk(s) && BytesOk(s)
    ensures BytesOk(Apply(s, action))
  {
    match action
    case Admit(event) =>
    case Offer(i) => OfferBytes(s, i);
    case Release => ConsumerBytes(s, action);
    case InterruptPublisher(i) => InterruptPublisherBytes(s, i);
    case InterruptConsumer => ConsumerBytes(s, action);
    case _ => WaitingMoves(s, action);
  }

  lemma {:induction false} EveryState(run: seq<State>, actions: seq<Action>, i: nat)
    requires IsRun(run, actions) && i < |run|
    ensures OrderOk(run[i]) && BytesOk(run[i])
  {
    if i > 0 {
      EveryState(run, actions, i - 1);
      OrderKeeps(run[i - 1], actions[i - 1]);
      BytesKeep(run[i - 1], actions[i - 1]);
    }
  }

  // ----- Main results

  /** The consumer is interrupted with events in its hands. */
  predicate LosesEvents(s: State, action: Action) {
    action.InterruptConsumer? && InHand(s) != []
  }

  /** A fiber is interrupted with counted bytes in its hands. */
  predicate LosesBytes(s: State, action: Action) {
    action.InterruptPublisher? || LosesEvents(s, action)
  }

  lemma StepLoses(s: State, action: Action)
    requires Enabled(s, action)
    ensures Apply(s, action).dropped == [] <==> s.dropped == [] && !LosesEvents(s, action)
    ensures Apply(s, action).abandoned == [] <==> s.abandoned == [] && !action.InterruptPublisher?
  {
  }

  lemma {:induction false} DroppedByInterrupts(run: seq<State>, actions: seq<Action>, i: nat)
    requires IsRun(run, actions) && i < |run|
    ensures run[i].dropped == [] <==> forall j {:trigger actions[j]} | 0 <= j < i :: !LosesEvents(run[j], actions[j])
  {
    if i > 0 {
      DroppedByInterrupts(run, actions, i - 1);
      StepLoses(run[i - 1], actions[i - 1]);
    }
  }

  lemma {:induction false} AbandonedByInterrupts(run: seq<State>, actions: seq<Action>, i: nat)
    requires IsRun(run, actions) && i < |run|
    ensures run[i].abandoned == [] <==> forall j | 0 <= j < i :: !actions[j].InterruptPublisher?
  {
    if i > 0 {
      AbandonedByInterrupts(run, actions, i - 1);
      StepLoses(run[i - 1], actions[i - 1]);
    }
  }

  /** In every run what was released, then what is in flight, then the two queues, is every offered event
    * in order, exactly unless the consumer was once interrupted with events in its hands. */
  lemma OrderIsKept(run: seq<State>, actions: seq<Action>, i: nat)
    requires IsRun(run, actions) && i < |run|
    ensures run[i].released + InHand(run[i]) + run[i].owed + run[i].pending == run[i].offered <==>
      forall j {:trigger actions[j]} | 0 <= j < i :: !LosesEvents(run[j], actions[j])
  {
    EveryState(run, actions, i);
    DroppedByInterrupts(run, actions, i);
    var s := run[i];
    assert s.released + InHand(s) + s.owed + s.pending == s.released + Waiting(s);
  }

  /** The counter never passes the cap, and it is the bytes of what is neither released nor lost, exactly
    * unless a fiber was once interrupted with events in its hands: their bytes are never given back. */
  lemma BytesAreCounted(run: seq<State>, actions: seq<Action>, i: nat)
    requires IsRun(run, actions) && i < |run|
    ensures 0 <= run[i].bufferedBytes <= MAX_BUFFERED_BYTES
    ensures run[i].bufferedBytes == Total(InHand(run[i]) + run[i].owed + run[i].pending) + Total(run[i].admitted) <==>
      forall j {:trigger actions[j]} | 0 <= j < i :: !LosesBytes(run[j], actions[j])
  {
    EveryState(run, actions, i);
    DroppedByInterrupts(run, actions, i);
    AbandonedByInterrupts(run, actions, i);
  }

  function AcceptedBy(s: State, action: Action): seq<Event> {
    if action.Admit? && s.bufferedBytes + SizeOf(action.event) <= MAX_BUFFERED_BYTES then [action.event] else []
  }

  /** The events accepted before state `i`. */
  function Accepted(run: seq<State>, actions: seq<Action>, i: nat): seq<Event>
    requires i <= |actions| && |run| == |actions| + 1
  {
    if i == 0 then [] else Accepted(run, actions, i - 1) + AcceptedBy(run[i - 1], actions[i - 1])
  }

  function Everywhere(s: State): multiset<Event> {
    multiset(s.released) + multiset(Waiting(s)) + multiset(s.admitted) + multiset(s.abandoned) + multiset(s.dropped)
  }

  lemma TakenOut(events: seq<Event>, i: nat)
    requires i < |events|
    ensures multiset(events) == multiset(Without(events, i)) + multiset{events[i]}
  {
    SplitAt(events, i);
    assert multiset(events) == multiset(events[..i]) + multiset([events[i]]) + multiset(events[i + 1..]);
  }

  lemma OfferConserves(s: State, i: nat)
    requires i < |s.admitted|
    ensures Everywhere(Apply(s, Offer(i))) == Everywhere(s)
  {
    TakenOut(s.admitted, i);
    assert Waiting(Apply(s, Offer(i))) == Waiting(s) + [s.admitted[i]];
  }

  lemma InterruptPublisherConserves(s: State, i: nat)
    requires i < |s.admitted|
    ensures Everywhere(Apply(s, InterruptPublisher(i))) == Everywhere(s)
  {
    TakenOut(s.admitted, i);
    assert Waiting(Apply(s, InterruptPublisher(i))) == Waiting(s);
  }

  lemma LeavingConserves(s: State, action: Action)
    requires Enabled(s, action) && (action.Release? || action.InterruptConsumer?)
    ensures Everywhere(Apply(s, action)) == Everywhere(s)
  {
    WaitingLeft(s, Apply(s, action));
  }

  lemma AdmitConserves(s: State, event: Event)
    ensures Everywhere(Apply(s, Admit(event))) == Everywhere(s) + multiset(AcceptedBy(s, Admit(event)))
  {
    assert Waiting(Apply(s, Admit(event))) == Waiting(s);
  }

  lemma StepConserves(s: State, action: Action)
    requires Enabled(s, action) && OrderOk(s)
    ensures Everywhere(Apply(s, action)) == Everywhere(s) + multiset(AcceptedBy(s, action))
  {
    if action.Admit? {
      AdmitConserves(s, action.event);
    } else {
      assert Everywhere(Apply(s, action)) == Everywhere(s) by {
        match action
        case Offer(i) => OfferConserves(s, i);
        case InterruptPublisher(i) => InterruptPublisherConserves(s, i);
        case Release => LeavingConserves(s, action);
        case InterruptConsumer => LeavingConserves(s, action);
        case _ => WaitingMoves(s, action);
      }
    }
  }

  /** No event is lost from sight or doubled: each accepted one is, as often as it was accepted, still to
    * be offered, in a queue, in flight, released, or gone with an interrupted fiber. */
  lemma {:induction false} EveryEventIsSomewhere(run: seq<State>, actions: seq<Action>, i: nat)
    requires IsRun(run, actions) && i < |run|
    ensures multiset(Accepted(run, actions, i)) == Everywhere(run[i])
  {
    if i > 0 {
      EveryEventIsSomewhere(run, actions, i - 1);
      EveryState(run, actions, i - 1);
      StepConserves(run[i - 1], actions[i - 1]);
    }
  }

  /** Without interrupts nothing is lost. */
  lemma NothingLost(run: seq<State>, actions: seq<Action>, i: nat)
    requires IsRun(run, actions) && i < |run|
    requires forall j | 0 <= j < i :: !actions[j].InterruptPublisher? && !actions[j].InterruptConsumer?
    ensures run[i].abandoned == [] && run[i].dropped == []
  {
    DroppedByInterrupts(run, actions, i);
    AbandonedByInterrupts(run, actions, i);
  }

  // ----- A run in which the consumer loses an event

  const EVENT := Gap("", 0, 0)
  const LOSING := [Admit(EVENT), Offer(0), TakeOwed, TakePending, Split(0), InterruptConsumer]

  function LosingRun(): seq<State> {
    [INITIAL,
     State([], [], 256, [EVENT], Idle, [], [], [], []),
     State([EVENT], [], 256, [], Idle, [EVENT], [], [], []),
     State([EVENT], [], 256, [], TookOwed([]), [EVENT], [], [], []),
     State([], [], 256, [], TookAll([EVENT]), [EVENT], [], [], []),
     State([], [], 256, [], Holding([EVENT]), [EVENT], [], [], []),
     State([], [], 256, [], Idle, [EVENT], [], [], [EVENT])]
  }

  lemma LosingStep(i: nat)
    requires i < 6
    ensures Enabled(LosingRun()[i], LOSING[i]) && LosingRun()[i + 1] == Apply(LosingRun()[i], LOSING[i])
  {
    var one := [EVENT];
    assert [] + one == one;
    match i
    case 0 => assert SizeOf(EVENT) == 256;
    case 1 => assert Without(one, 0) == [];
    case 4 => assert BatchLength(one, 0) == 1 && one[..1] == one && one[1..] == [];
    case _ =>
  }

  /** Its one event is neither released nor queued, and its bytes are counted for ever. */
  lemma AnEventCanBeLost()
    ensures IsRun(LosingRun(), LOSING)
    ensures var last := LosingRun()[6];
            && last.released + InHand(last) + last.owed + last.pending != last.offered
            && last.bufferedBytes == SizeOf(EVENT)
  {
    forall i | 0 <= i < 6
      ensures Enabled(LosingRun()[i], LOSING[i]) && LosingRun()[i + 1] == Apply(LosingRun()[i], LOSING[i])
    {
      LosingStep(i);
    }
  }
}
