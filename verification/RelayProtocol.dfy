/** Relay, store and guests together: one request's step at a time, and what every step keeps.
  *
  * A step is one block between two awaits of one request, one pipeline served by a guest, one
  * expiring timer, or one `closeScopes` or `closeAll`. Sessions, guests and callers may fail or go
  * away wherever the code awaits them. `RelayRuns` says what follows for whole runs.
  */
module RelayProtocol {
  import opened Prelude
  import opened HranaStreams
  import opened HranaPipeline
  import opened HranaRelay

  type RequestId = nat

  datatype Phase =
    | Starting                      // awaits the new session
    | Unopening                     // the new stream was closed at once; awaits its session's close
    | Acquired(stream: StreamId)    // has a stream, has not called its guest yet
    | Calling(stream: StreamId)     // awaits the guest
    | EndingByGuest(stream: StreamId)
    | Failing(stream: StreamId)
    | Replied(baton: Option<HranaStreams.Baton>)
    | Failed

  /** A stream's guest, and how many pipelines it has served. */
  datatype Session = Session(guest: Guest, served: nat)

  /** What is under way between the relay and one guest. */
  datatype Wire = Sent(presented: Option<HranaPipeline.Baton>) | Back(reply: Reply)

  datatype State = State(
    store: Store,
    guestBatons: map<StreamId, HranaPipeline.Baton>,
    sessions: map<StreamId, Session>,
    wire: map<StreamId, Wire>,
    requests: map<RequestId, Phase>)

  function Initial(limit: nat): State {
    State(Store(limit, map[], {}, map[], false, map[], 0), map[], map[], map[], map[])
  }

  datatype Action =
    | Begin(request: RequestId, baton: Option<HranaStreams.Baton>, scope: Scope, aborted: bool)
    | SessionOpened(request: RequestId, aborted: bool)
    | SessionFailed(request: RequestId)
    | Unopened(request: RequestId)
    | Send(request: RequestId, aborted: bool)
    | Receive(request: RequestId, accepted: bool, aborted: bool)
    | GiveUp(request: RequestId)
    | GuestClosed(request: RequestId, ok: bool)
    | CleanedUp(request: RequestId)
    | Serve(id: StreamId, valid: bool, rotated: Option<HranaPipeline.Baton>, closes: bool)
    | Expire(baton': HranaStreams.Baton, id: StreamId)
    | CloseScopes(matches: Scope -> bool)
    | CloseAll

  predicate In(s: State, r: RequestId, phase: Phase) {
    r in s.requests && s.requests[r] == phase
  }

  predicate Enabled(s: State, action: Action) {
    match action
    case Begin(r, _, _, _) => r !in s.requests
    case SessionOpened(r, _) => In(s, r, Starting) && r in s.store.opening
    case SessionFailed(r) => In(s, r, Starting) && r in s.store.opening
    case Unopened(r) => In(s, r, Unopening)
    case Send(r, _) => r in s.requests && s.requests[r].Acquired? && s.requests[r].stream in s.store.streams
    case Receive(r, _, _) =>
      && r in s.requests && s.requests[r].Calling? && s.requests[r].stream in s.store.streams
      && s.requests[r].stream in s.wire && s.wire[s.requests[r].stream].Back?
    case GiveUp(r) => r in s.requests && s.requests[r].Calling? && s.requests[r].stream in s.store.streams
    case GuestClosed(r, _) => r in s.requests && s.requests[r].EndingByGuest?
    case CleanedUp(r) => r in s.requests && s.requests[r].Failing?
    case Serve(id, _, _, _) => id in s.wire && s.wire[id].Sent? && id in s.sessions
    case Expire(baton, id) => id in s.store.streams && s.store.streams[id].timer == Some(baton)
    case CloseScopes(_) => true
    case CloseAll => true
  }

  function Outgoing(s: State, id: StreamId): Option<HranaPipeline.Baton> {
    if id in s.guestBatons then Some(s.guestBatons[id]) else None
  }

  function Begun(s: State, r: RequestId, baton: Option<HranaStreams.Baton>, scope: Scope, aborted: bool): State
  {
    if aborted || s.store.disposed then s.(requests := s.requests[r := Failed])
    else if baton.Some? then
      if Acquirable(s.store, baton.value, scope)
      then s.(store := Checkout(s.store, baton.value), requests := s.requests[r := Acquired(s.store.batons[baton.value])])
      else s.(requests := s.requests[r := Failed])
    else if Full(s.store) then s.(requests := s.requests[r := Failed])
    else s.(store := BeginOpen(s.store, r, scope), requests := s.requests[r := Starting])
  }

  function Apply(s: State, action: Action): State
    requires Enabled(s, action)
  {
    match action
    case Begin(r, baton, scope, aborted) => Begun(s, r, baton, scope, aborted)
    case SessionOpened(r, aborted) =>
      var usable := !(aborted || s.store.opening[r].invalidated);
      s.(store := Opened(s.store, r, aborted),
         sessions := s.sessions[r := Session(FRESH_GUEST, 0)],
         requests := s.requests[r := if usable then Acquired(r) else Unopening])
    case SessionFailed(r) => s.(store := Settled(s.store, r), requests := s.requests[r := Failed])
    case Unopened(r) => s.(store := Settled(s.store, r), requests := s.requests[r := Failed])
    case Send(r, aborted) =>
      var id := s.requests[r].stream;
      if aborted then s.(store := Closed(s.store, id), requests := s.requests[r := Failing(id)])
      else s.(wire := s.wire[id := Sent(Outgoing(s, id))], requests := s.requests[r := Calling(id)])
    case Receive(r, accepted, aborted) =>
      var id := s.requests[r].stream;
      var reply := s.wire[id].reply;
      var conclusion := Conclude(s.store, id, reply, accepted, aborted);
      s.(store := Concluded(s.store, id, conclusion),
         guestBatons := if conclusion.Given? then s.guestBatons[id := reply.next.value] else s.guestBatons,
         wire := s.wire - {id},
         requests := s.requests[r := match conclusion
           case Given(baton) => Replied(baton)
           case ClosedByGuest => EndingByGuest(id)
           case Rejected => Failing(id)])
    case GiveUp(r) =>
      var id := s.requests[r].stream;
      s.(store := Closed(s.store, id), requests := s.requests[r := Failing(id)])
    case GuestClosed(r, ok) => s.(requests := s.requests[r := if ok then Replied(None) else Failed])
    case CleanedUp(r) => s.(requests := s.requests[r := Failed])
    case Serve(id, valid, rotated, closes) =>
      var Session(guest, served) := s.sessions[id];
      var presented := s.wire[id].presented;
      var reply := ReplyTo(guest, presented, valid, rotated, closes);
      s.(sessions := s.sessions[id := Session(Served(guest, presented, valid, rotated, closes),
                                              if reply.Answered? then served + 1 else served)],
         wire := s.wire[id := Back(reply)])
    case Expire(baton, id) => s.(store := Expired(s.store, baton, id))
    case CloseScopes(matches) => s.(store := ScopesClosed(s.store, matches))
    case CloseAll => s.(store := AllClosed(s.store))
  }

  ghost predicate Next(s: State, s': State) {
    exists action :: Enabled(s, action) && s' == Apply(s, action)
  }

  // ----- The invariant

  predicate Holds(phase: Phase, id: StreamId) {
    (phase.Acquired? || phase.Calling?) && phase.stream == id
  }

  /** What the guest will accept next. */
  function Expected(session: Session): Option<HranaPipeline.Baton> {
    if session.served == 0 then None else Some(session.guest.baton)
  }

  ghost predicate RequestOk(s: State, r: RequestId)
    requires r in s.requests
  {
    var phase := s.requests[r];
    && (r in s.store.opening <==> phase == Starting || phase == Unopening)
    && match phase
       case Starting => r !in s.store.streams
       case Unopening => r in s.store.streams && s.store.streams[r].closed
       case Acquired(id) =>
         && id in s.store.streams && s.store.streams[id].timer == None && id !in s.wire
         && id in s.sessions && Outgoing(s, id) == Expected(s.sessions[id]) && !s.sessions[id].guest.closed
       case Calling(id) => id in s.store.streams && s.store.streams[id].timer == None && id in s.wire
       case EndingByGuest(id) => id in s.store.streams && s.store.streams[id].closed
       case Failing(id) => id in s.store.streams && s.store.streams[id].closed
       case _ => true
  }

  /** One request at a time has a stream. */
  ghost predicate OneHolder(s: State, id: StreamId) {
    forall c, d {:trigger Holds(s.requests[c], id), Holds(s.requests[d], id)} |
      c in s.requests && d in s.requests && Holds(s.requests[c], id) && Holds(s.requests[d], id) :: c == d
  }

  /** Relay and guest agree on the next baton. */
  ghost predicate StreamOk(s: State, id: StreamId)
    requires id in s.store.streams
  {
    && id in s.requests && s.requests[id] != Starting && id in s.sessions
    && var Session(guest, served) := s.sessions[id];
       && guest.generation == served % GENERATIONS
       && (id !in s.wire && !s.store.streams[id].closed ==> Outgoing(s, id) == Expected(s.sessions[id]) && !guest.closed)
       && (id in s.wire ==>
             match s.wire[id]
             case Sent(presented) => presented == Expected(s.sessions[id]) && !guest.closed
             case Back(reply) =>
               reply.Answered? && reply.next.Some? ==>
                 served > 0 && reply.next.value == guest.baton && !guest.closed)
       && (id in s.wire && !s.store.streams[id].closed ==> s.store.streams[id].timer == None)
  }

  ghost predicate Inv(s: State) {
    && StoreOk(s.store)
    && (forall r {:trigger RequestOk(s, r)} | r in s.requests :: RequestOk(s, r))
    && (forall id {:trigger StreamOk(s, id)} | id in s.store.streams :: StreamOk(s, id))
    && (forall id: StreamId {:trigger OneHolder(s, id)} :: OneHolder(s, id))
    && s.store.opening.Keys <= s.requests.Keys
    && s.sessions.Keys == s.store.streams.Keys
    && s.wire.Keys <= s.store.streams.Keys
    && s.guestBatons.Keys <= s.store.streams.Keys
  }

  // ----- Every step keeps it

  /** Closing streams, and scheduling nothing new, leaves every request and stream as it should be. */
  ghost predicate OnlyCloses(s: State, s': State) {
    && s'.sessions == s.sessions && s'.guestBatons == s.guestBatons && s'.wire == s.wire
    && s'.store.opening.Keys == s.store.opening.Keys
    && s'.store.streams.Keys == s.store.streams.Keys
    && forall id {:trigger s'.store.streams[id]} | id in s.store.streams ::
         || s'.store.streams[id] == s.store.streams[id]
         || (s'.store.streams[id].closed && s'.store.streams[id].timer == None)
  }

  lemma HoldersMove(s: State, s': State, r: RequestId, phase: Phase)
    requires forall id: StreamId :: OneHolder(s, id)
    requires s'.requests == s.requests[r := phase]
    requires phase.Acquired? || phase.Calling? ==>
               || (r in s.requests && Holds(s.requests[r], phase.stream))
               || (forall c | c in s.requests :: !Holds(s.requests[c], phase.stream))
    ensures forall id: StreamId :: OneHolder(s', id)
  {
    forall id: StreamId
      ensures OneHolder(s', id)
    {
      assert OneHolder(s, id);
    }
  }

  lemma StreamsStarted(s: State)
    requires Inv(s)
    ensures s.store.streams.Keys <= s.requests.Keys
  {
    forall id | id in s.store.streams
      ensures id in s.requests
    {
      assert StreamOk(s, id);
    }
  }

  lemma ClosesKeep(s: State, s': State)
    requires Inv(s) && StoreOk(s'.store) && s'.requests == s.requests && OnlyCloses(s, s')
    ensures Inv(s')
  {
    forall r | r in s'.requests
      ensures RequestOk(s', r)
    {
      assert RequestOk(s, r);
    }
    forall id | id in s'.store.streams
      ensures StreamOk(s', id)
    {
      assert StreamOk(s, id);
    }
    forall id: StreamId
      ensures OneHolder(s', id)
    {
      assert OneHolder(s, id);
    }
  }

  lemma ExpireKeeps(s: State, baton: HranaStreams.Baton, id: StreamId)
    requires Inv(s) && Enabled(s, Expire(baton, id))
    ensures Inv(Apply(s, Expire(baton, id)))
  {
    ExpiredOk(s.store, baton, id);
    ClosesKeep(s, Apply(s, Expire(baton, id)));
  }

  lemma CloseScopesKeeps(s: State, matches: Scope -> bool)
    requires Inv(s)
    ensures Inv(Apply(s, CloseScopes(matches)))
  {
    ScopesClosedOk(s.store, matches);
    ClosesKeep(s, Apply(s, CloseScopes(matches)));
  }

  lemma CloseAllKeeps(s: State)
    requires Inv(s)
    ensures Inv(Apply(s, CloseAll))
  {
    AllClosedOk(s.store);
    ClosesKeep(s, Apply(s, CloseAll));
  }

  /** A request moving between positions without any stream. */
  lemma MovesOnKeeps(s: State, s': State, r: RequestId, phase: Phase)
    requires Inv(s) && s' == s.(requests := s.requests[r := phase])
    requires r in s.requests ==>
               s.requests[r] != Starting && s.requests[r] != Unopening
               && !s.requests[r].Acquired? && !s.requests[r].Calling?
    requires phase == Failed || phase.Replied?
    ensures Inv(s')
  {
    HoldersMove(s, s', r, phase);
    forall q | q in s'.requests
      ensures RequestOk(s', q)
    {
      if q in s.requests {
        assert RequestOk(s, q);
      }
    }
    forall i | i in s'.store.streams
      ensures StreamOk(s', i)
    {
      assert StreamOk(s, i);
    }
  }

  lemma BeginOpenKeeps(s: State, s': State, r: RequestId, scope: Scope)
    requires Inv(s) && r !in s.requests && !s.store.disposed && !Full(s.store)
    requires s' == s.(store := BeginOpen(s.store, r, scope), requests := s.requests[r := Starting])
    ensures Inv(s')
  {
    BeginOpenOk(s.store, r, scope);
    StreamsStarted(s);
    HoldersMove(s, s', r, Starting);
    forall q | q in s'.requests
      ensures RequestOk(s', q)
    {
      if q in s.requests {
        assert RequestOk(s, q);
      }
    }
    forall i | i in s'.store.streams
      ensures StreamOk(s', i)
    {
      assert StreamOk(s, i);
    }
  }

  lemma SettlesKeeps(s: State, s': State, r: RequestId)
    requires Inv(s) && r in s.requests && (s.requests[r] == Starting || s.requests[r] == Unopening)
    requires s' == s.(store := Settled(s.store, r), requests := s.requests[r := Failed])
    ensures Inv(s')
  {
    assert RequestOk(s, r);
    SettledOk(s.store, r);
    HoldersMove(s, s', r, Failed);
    forall q | q in s'.requests
      ensures RequestOk(s', q)
    {
      assert RequestOk(s, q);
    }
    forall i | i in s'.store.streams
      ensures StreamOk(s', i)
    {
      assert StreamOk(s, i);
    }
  }

  ghost predicate SameRequest(s: State, s': State, q: RequestId) {
    && (q in s'.requests <==> q in s.requests) && (q in s.requests ==> s'.requests[q] == s.requests[q])
    && (q in s'.store.opening <==> q in s.store.opening)
  }

  ghost predicate SameStream(s: State, s': State, i: StreamId) {
    && (i in s'.store.streams <==> i in s.store.streams)
    && (i in s.store.streams ==> s'.store.streams[i] == s.store.streams[i])
    && (i in s'.sessions <==> i in s.sessions) && (i in s.sessions ==> s'.sessions[i] == s.sessions[i])
    && (i in s'.wire <==> i in s.wire) && (i in s.wire ==> s'.wire[i] == s.wire[i])
    && (i in s'.guestBatons <==> i in s.guestBatons)
    && (i in s.guestBatons ==> s'.guestBatons[i] == s.guestBatons[i])
  }

  /** A step that concerns only request `r` and stream `id`. */
  ghost predicate Focus(s: State, s': State, r: RequestId, id: StreamId) {
    && (forall q: RequestId {:trigger SameRequest(s, s', q)} | q != r :: SameRequest(s, s', q))
    && (forall i: StreamId {:trigger SameStream(s, s', i)} | i != id :: SameStream(s, s', i))
    && r in s'.requests && id in s'.store.streams && id in s'.sessions
    && (id in s.store.streams && s.store.streams[id].closed ==> s'.store.streams[id].closed)
  }

  lemma FocusRequest(s: State, s': State, r: RequestId, id: StreamId, q: RequestId)
    requires Focus(s, s', r, id) && q in s.requests && q != r && RequestOk(s, q)
    requires !Holds(s.requests[q], id) && (s.requests[q] == Starting ==> q != id)
    ensures q in s'.requests && RequestOk(s', q)
  {
    assert SameRequest(s, s', q);
    if q != id {
      assert SameStream(s, s', q);
    }
    var phase := s.requests[q];
    if (phase.Acquired? || phase.Calling? || phase.EndingByGuest? || phase.Failing?) && phase.stream != id {
      assert SameStream(s, s', phase.stream);
    }
  }

  lemma FocusStream(s: State, s': State, r: RequestId, id: StreamId, i: StreamId)
    requires Focus(s, s', r, id) && i in s.store.streams && i != id && StreamOk(s, i)
    requires s'.requests[r] != Starting
    ensures i in s'.store.streams && StreamOk(s', i)
  {
    assert SameStream(s, s', i);
    if i != r {
      assert SameRequest(s, s', i);
    }
  }

  lemma FocusHolder(s: State, s': State, r: RequestId, id: StreamId, i: StreamId)
    requires Focus(s, s', r, id) && OneHolder(s, i)
    requires Holds(s'.requests[r], i) ==> i == id
    requires forall q | q in s.requests && q != r :: !Holds(s.requests[q], id)
    ensures OneHolder(s', i)
  {
    forall c, d | c in s'.requests && d in s'.requests && Holds(s'.requests[c], i) && Holds(s'.requests[d], i)
      ensures c == d
    {
      if c != r {
        assert SameRequest(s, s', c);
      }
      if d != r {
        assert SameRequest(s, s', d);
      }
    }
  }

  lemma FocusKeys(s: State, s': State, r: RequestId, id: StreamId)
    requires Focus(s, s', r, id)
    requires s.store.opening.Keys <= s.requests.Keys
    requires s.sessions.Keys == s.store.streams.Keys
    requires s.wire.Keys <= s.store.streams.Keys
    requires s.guestBatons.Keys <= s.store.streams.Keys
    ensures s'.store.opening.Keys <= s'.requests.Keys
    ensures s'.sessions.Keys == s'.store.streams.Keys
    ensures s'.wire.Keys <= s'.store.streams.Keys
    ensures s'.guestBatons.Keys <= s'.store.streams.Keys
  {
    forall q | q in s'.store.opening
      ensures q in s'.requests
    {
      if q != r {
        assert SameRequest(s, s', q);
      }
    }
    forall i: StreamId
      ensures i in s'.sessions <==> i in s'.store.streams
      ensures i in s'.wire ==> i in s'.store.streams
      ensures i in s'.guestBatons ==> i in s'.store.streams
    {
      if i != id {
        assert SameStream(s, s', i);
      }
    }
  }

  /** Everything but `r` and `id` stays as it should be. */
  lemma FocusKeeps(s: State, s': State, r: RequestId, id: StreamId)
    requires Inv(s) && StoreOk(s'.store) && Focus(s, s', r, id)
    requires s'.requests[r] != Starting
    requires forall q | q in s.requests && q != r :: !Holds(s.requests[q], id)
    requires id in s.requests && s.requests[id] == Starting ==> id == r
    requires forall i: StreamId :: Holds(s'.requests[r], i) ==> i == id
    requires RequestOk(s', r) && StreamOk(s', id)
    ensures Inv(s')
  {
    forall q | q in s'.requests
      ensures RequestOk(s', q)
    {
      if q != r {
        assert SameRequest(s, s', q);
        assert RequestOk(s, q);
        FocusRequest(s, s', r, id, q);
      }
    }
    forall i | i in s'.store.streams
      ensures StreamOk(s', i)
    {
      if i != id {
        assert SameStream(s, s', i);
        assert StreamOk(s, i);
        FocusStream(s, s', r, id, i);
      }
    }
    forall i: StreamId
      ensures OneHolder(s', i)
    {
      assert OneHolder(s, i);
      FocusHolder(s, s', r, id, i);
    }
    FocusKeys(s, s', r, id);
  }

  function AfterCheckout(s: State, r: RequestId, baton: HranaStreams.Baton): State
    requires baton in s.store.batons && s.store.batons[baton] in s.store.streams
  {
    s.(store := Checkout(s.store, baton), requests := s.requests[r := Acquired(s.store.batons[baton])])
  }

  lemma ChecksOutLocally(s: State, r: RequestId, baton: HranaStreams.Baton)
    requires r !in s.requests && r !in s.store.opening && r !in s.store.streams && baton in s.store.batons
    requires var id := s.store.batons[baton];
             && id in s.store.streams && !s.store.streams[id].closed && s.store.streams[id].timer.Some?
             && StreamOk(s, id)
    ensures var id, s' := s.store.batons[baton], AfterCheckout(s, r, baton);
            Focus(s, s', r, id) && RequestOk(s', r) && StreamOk(s', id)
  {
  }

  lemma CheckoutKeeps(s: State, r: RequestId, baton: HranaStreams.Baton)
    requires Inv(s) && r !in s.requests && baton in s.store.batons
    ensures Inv(AfterCheckout(s, r, baton))
  {
    var id := s.store.batons[baton];
    CheckoutOk(s.store, baton);
    StreamsStarted(s);
    assert StreamOk(s, id);
    forall q | q in s.requests
      ensures !Holds(s.requests[q], id)
    {
      assert RequestOk(s, q);
    }
    ChecksOutLocally(s, r, baton);
    FocusKeeps(s, AfterCheckout(s, r, baton), r, id);
  }

  lemma BeginKeeps(s: State, r: RequestId, baton: Option<HranaStreams.Baton>, scope: Scope, aborted: bool)
    requires Inv(s) && r !in s.requests
    ensures Inv(Begun(s, r, baton, scope, aborted))
  {
    var s' := Begun(s, r, baton, scope, aborted);
    if aborted || s.store.disposed || (baton.Some? && !Acquirable(s.store, baton.value, scope))
       || (baton.None? && Full(s.store)) {
      MovesOnKeeps(s, s', r, Failed);
    } else if baton.Some? {
      CheckoutKeeps(s, r, baton.value);
    } else {
      BeginOpenKeeps(s, s', r, scope);
    }
  }

  lemma UnheldNewcomer(s: State, r: RequestId)
    requires Inv(s) && r in s.requests && r !in s.store.streams
    ensures RequestOk(s, r)
    ensures forall c | c in s.requests :: !Holds(s.requests[c], r)
    ensures r !in s.sessions && r !in s.wire && r !in s.guestBatons
  {
    assert RequestOk(s, r);
    forall c | c in s.requests
      ensures !Holds(s.requests[c], r)
    {
      assert RequestOk(s, c);
    }
  }

  function AfterOpening(s: State, r: RequestId, aborted: bool): State
    requires r in s.store.opening
  {
    var usable := !(aborted || s.store.opening[r].invalidated);
    s.(store := Opened(s.store, r, aborted),
       sessions := s.sessions[r := Session(FRESH_GUEST, 0)],
       requests := s.requests[r := if usable then Acquired(r) else Unopening])
  }

  lemma OpensOnly(s: State, r: RequestId, aborted: bool)
    requires r in s.store.opening && r !in s.store.streams
    ensures Focus(s, AfterOpening(s, r, aborted), r, r)
  {
  }

  lemma OpensLocally(s: State, r: RequestId, aborted: bool)
    requires In(s, r, Starting) && r in s.store.opening && r !in s.store.streams
    requires r !in s.sessions && r !in s.wire && r !in s.guestBatons
    ensures RequestOk(AfterOpening(s, r, aborted), r) && StreamOk(AfterOpening(s, r, aborted), r)
  {
  }

  lemma OpensKeeps(s: State, r: RequestId, aborted: bool)
    requires Inv(s) && Enabled(s, SessionOpened(r, aborted))
    ensures Inv(Apply(s, SessionOpened(r, aborted)))
  {
    assert RequestOk(s, r);
    UnheldNewcomer(s, r);
    OpenedOk(s.store, r, aborted);
    OpensOnly(s, r, aborted);
    OpensLocally(s, r, aborted);
    FocusKeeps(s, AfterOpening(s, r, aborted), r, r);
  }

  /** Nobody but its holder has a stream. */
  lemma HeldAlone(s: State, r: RequestId, id: StreamId)
    requires Inv(s) && r in s.requests && Holds(s.requests[r], id)
    ensures RequestOk(s, r) && id in s.store.streams && StreamOk(s, id)
    ensures forall q | q in s.requests && q != r :: !Holds(s.requests[q], id)
    ensures id in s.requests && s.requests[id] != Starting
  {
    assert RequestOk(s, r);
    assert StreamOk(s, id);
    assert OneHolder(s, id);
  }

  function AfterSending(s: State, r: RequestId, id: StreamId): State {
    s.(wire := s.wire[id := Sent(Outgoing(s, id))], requests := s.requests[r := Calling(id)])
  }

  lemma SendsLocally(s: State, r: RequestId, id: StreamId)
    requires In(s, r, Acquired(id)) && RequestOk(s, r) && id in s.store.streams && StreamOk(s, id)
    ensures var s' := AfterSending(s, r, id);
            Focus(s, s', r, id) && RequestOk(s', r) && StreamOk(s', id)
  {
  }

  lemma SentKeeps(s: State, r: RequestId, id: StreamId)
    requires Inv(s) && In(s, r, Acquired(id))
    ensures Inv(AfterSending(s, r, id))
  {
    HeldAlone(s, r, id);
    SendsLocally(s, r, id);
    FocusKeeps(s, AfterSending(s, r, id), r, id);
  }

  function AfterGiving(s: State, r: RequestId, id: StreamId, next: HranaPipeline.Baton): State
    requires id in s.store.streams
  {
    s.(store := Released(s.store, id),
       guestBatons := s.guestBatons[id := next],
       wire := s.wire - {id},
       requests := s.requests[r := Replied(Some(s.store.issued))])
  }

  lemma GivesLocally(s: State, r: RequestId, id: StreamId, next: HranaPipeline.Baton)
    requires In(s, r, Calling(id)) && RequestOk(s, r) && id in s.store.streams && StreamOk(s, id)
    requires id in s.wire && s.wire[id] == Back(Answered(Some(next))) && !s.store.streams[id].closed
    ensures var s' := AfterGiving(s, r, id, next);
            Focus(s, s', r, id) && RequestOk(s', r) && StreamOk(s', id)
  {
  }

  /** The guest's answer is taken over and the stream waits under a new baton. */
  lemma GivenKeeps(s: State, r: RequestId, id: StreamId, next: HranaPipeline.Baton)
    requires Inv(s) && In(s, r, Calling(id)) && id in s.wire && s.wire[id] == Back(Answered(Some(next)))
    requires id in s.store.streams && !s.store.streams[id].closed
    ensures Inv(AfterGiving(s, r, id, next))
  {
    HeldAlone(s, r, id);
    ReleasedOk(s.store, id);
    GivesLocally(s, r, id, next);
    FocusKeeps(s, AfterGiving(s, r, id, next), r, id);
  }

  function AfterClosing(s: State, r: RequestId, id: StreamId, phase: Phase, wire: map<StreamId, Wire>): State
    requires id in s.store.streams
  {
    s.(store := Closed(s.store, id), wire := wire, requests := s.requests[r := phase])
  }

  lemma ClosesLocally(s: State, r: RequestId, id: StreamId, phase: Phase, wire: map<StreamId, Wire>)
    requires r in s.requests && Holds(s.requests[r], id) && RequestOk(s, r)
    requires id in s.store.streams && StreamOk(s, id)
    requires phase == EndingByGuest(id) || phase == Failing(id)
    requires wire == s.wire || wire == s.wire - {id}
    ensures var s' := AfterClosing(s, r, id, phase, wire);
            Focus(s, s', r, id) && RequestOk(s', r) && StreamOk(s', id)
  {
  }

  /** The stream is closed, whatever happened to the guest's answer. */
  lemma ClosedKeeps(s: State, r: RequestId, id: StreamId, phase: Phase, wire: map<StreamId, Wire>)
    requires Inv(s) && r in s.requests && Holds(s.requests[r], id) && id in s.store.streams
    requires phase == EndingByGuest(id) || phase == Failing(id)
    requires wire == s.wire || wire == s.wire - {id}
    ensures Inv(AfterClosing(s, r, id, phase, wire))
  {
    HeldAlone(s, r, id);
    ClosedOk(s.store, id);
    ClosesLocally(s, r, id, phase, wire);
    FocusKeeps(s, AfterClosing(s, r, id, phase, wire), r, id);
  }

  lemma ReceiveKeeps(s: State, r: RequestId, accepted: bool, aborted: bool)
    requires Inv(s) && Enabled(s, Receive(r, accepted, aborted))
    ensures Inv(Apply(s, Receive(r, accepted, aborted)))
  {
    var s' := Apply(s, Receive(r, accepted, aborted));
    var id := s.requests[r].stream;
    var reply := s.wire[id].reply;
    var conclusion := Conclude(s.store, id, reply, accepted, aborted);
    if conclusion.Given? {
      GivenKeeps(s, r, id, reply.next.value);
      assert s' == AfterGiving(s, r, id, reply.next.value);
    } else {
      ClosedKeeps(s, r, id, s'.requests[r], s'.wire);
      assert s' == AfterClosing(s, r, id, s'.requests[r], s'.wire);
    }
  }

  lemma NextGeneration(served: nat)
    ensures (served % GENERATIONS + 1) % GENERATIONS == (served + 1) % GENERATIONS
  {
  }

  lemma ServedKeeps(s: State, s': State, id: StreamId, session: Session, reply: Reply)
    requires Inv(s) && id in s.wire && s.wire[id].Sent? && id in s.sessions
    requires s' == s.(sessions := s.sessions[id := session], wire := s.wire[id := Back(reply)])
    requires session.guest.generation == session.served % GENERATIONS
    requires reply.Answered? && reply.next.Some? ==>
               session.served > 0 && reply.next.value == session.guest.baton && !session.guest.closed
    ensures Inv(s')
  {
    forall q | q in s'.requests
      ensures RequestOk(s', q)
    {
      assert RequestOk(s, q);
    }
    forall i | i in s'.store.streams
      ensures StreamOk(s', i)
    {
      assert StreamOk(s, i);
    }
    forall i: StreamId
      ensures OneHolder(s', i)
    {
      assert OneHolder(s, i);
    }
  }

  lemma ServeKeeps(s: State, id: StreamId, valid: bool, rotated: Option<HranaPipeline.Baton>, closes: bool)
    requires Inv(s) && Enabled(s, Serve(id, valid, rotated, closes))
    ensures Inv(Apply(s, Serve(id, valid, rotated, closes)))
  {
    var s' := Apply(s, Serve(id, valid, rotated, closes));
    assert StreamOk(s, id);
    NextGeneration(s.sessions[id].served);
    ServedKeeps(s, s', id, s'.sessions[id], s'.wire[id].reply);
  }

  lemma SendKeeps(s: State, r: RequestId, aborted: bool)
    requires Inv(s) && Enabled(s, Send(r, aborted))
    ensures Inv(Apply(s, Send(r, aborted)))
  {
    var s' := Apply(s, Send(r, aborted));
    if aborted {
      var id := s.requests[r].stream;
      ClosedKeeps(s, r, id, Failing(id), s.wire);
      assert s' == AfterClosing(s, r, id, Failing(id), s.wire);
    } else {
      SentKeeps(s, r, s.requests[r].stream);
    }
  }

  lemma StepKeeps(s: State, action: Action)
    requires Inv(s) && Enabled(s, action)
    ensures Inv(Apply(s, action))
  {
    match action
    case Begin(r, baton, scope, aborted) => BeginKeeps(s, r, baton, scope, aborted);
    case SessionOpened(r, aborted) => OpensKeeps(s, r, aborted);
    case SessionFailed(r) => SettlesKeeps(s, Apply(s, action), r);
    case Unopened(r) => SettlesKeeps(s, Apply(s, action), r);
    case Send(r, aborted) => SendKeeps(s, r, aborted);
    case Receive(r, accepted, aborted) => ReceiveKeeps(s, r, accepted, aborted);
    case GiveUp(r) =>
      var id := s.requests[r].stream;
      ClosedKeeps(s, r, id, Failing(id), s.wire);
      assert Apply(s, action) == AfterClosing(s, r, id, Failing(id), s.wire);
    case GuestClosed(r, ok) => MovesOnKeeps(s, Apply(s, action), r, Apply(s, action).requests[r]);
    case CleanedUp(r) => MovesOnKeeps(s, Apply(s, action), r, Failed);
    case Serve(id, valid, rotated, closes) => ServeKeeps(s, id, valid, rotated, closes);
    case Expire(baton, id) => ExpireKeeps(s, baton, id);
    case CloseScopes(matches) => CloseScopesKeeps(s, matches);
    case CloseAll => CloseAllKeeps(s);
  }

  lemma InitialOk(limit: nat)
    ensures Inv(Initial(limit))
  {
  }

  lemma LimitStays(s: State, action: Action)
    requires Enabled(s, action)
    ensures Apply(s, action).store.limit == s.store.limit
  {
  }

  lemma NextKeeps(s: State, s': State)
    requires Inv(s) && Next(s, s')
    ensures Inv(s') && s'.store.limit == s.store.limit
  {
    var action :| Enabled(s, action) && s' == Apply(s, action);
    StepKeeps(s, action);
    LimitStays(s, action);
  }
}
