/** What single steps of the relay, the store and the guests do to scopes, openings, streams and batons.
  *
  * The store's blocks come first, one stream or baton at a time, and then the steps that consist of them. Each
  * lemma says what a step leaves as it was or what it changes, for `RelayAnswers` to say what follows from the
  * steps of a whole run.
  */
module RelaySteps {
  import opened Prelude
  import opened HranaStreams
  import opened HranaPipeline
  import opened HranaRelay
  import opened RelayProtocol

  // ----- Scopes

  predicate Begins(action: Action, r: RequestId, scope: Scope) {
    action.Begin? && action.request == r && action.scope == scope
  }

  /** The request was begun with this scope before state `i`. */
  ghost predicate BegunWith(actions: seq<Action>, i: nat, r: RequestId, scope: Scope)
    requires i <= |actions|
  {
    exists k :: 0 <= k < i && Begins(actions[k], r, scope)
  }

  /** Openings and streams have the scope of the request that opened them, and requests only streams of
    * their own scope. */
  ghost predicate ScopesOk(s: State, actions: seq<Action>, i: nat)
    requires i <= |actions|
  {
    && (forall o {:trigger s.store.opening[o]} | o in s.store.opening :: BegunWith(actions, i, o, s.store.opening[o].scope))
    && (forall id {:trigger s.store.streams[id]} | id in s.store.streams ::
          BegunWith(actions, i, id, s.store.streams[id].scope))
    && (forall r, id {:trigger HoldsOk(s, actions, i, r, id)} :: HoldsOk(s, actions, i, r, id))
  }

  ghost predicate KeepsScopes(store: Store, store': Store) {
    && (forall o {:trigger store'.opening[o]} | o in store'.opening ::
          o in store.opening && store'.opening[o].scope == store.opening[o].scope)
    && (forall id {:trigger store'.streams[id]} | id in store'.streams ::
          id in store.streams && store'.streams[id].scope == store.streams[id].scope)
  }

  lemma BlocksKeepScopes(store: Store, id: StreamId, baton: HranaStreams.Baton)
    ensures KeepsScopes(store, Settled(store, id))
    ensures id in store.streams ==>
              KeepsScopes(store, Closed(store, id)) && KeepsScopes(store, Released(store, id))
              && KeepsScopes(store, Expired(store, baton, id))
    ensures baton in store.batons && store.batons[baton] in store.streams ==> KeepsScopes(store, Checkout(store, baton))
  {
  }

  lemma ScopesClosedKeepScopes(store: Store, matches: Scope -> bool)
    ensures KeepsScopes(store, ScopesClosed(store, matches))
  {
  }

  lemma StepKeepsScopes(s: State, action: Action)
    requires Enabled(s, action) && !action.Begin? && !action.SessionOpened?
    ensures KeepsScopes(s.store, Apply(s, action).store)
  {
    match action
    case SessionFailed(r) => BlocksKeepScopes(s.store, r, 0);
    case Unopened(r) => BlocksKeepScopes(s.store, r, 0);
    case Send(r, aborted) => BlocksKeepScopes(s.store, s.requests[r].stream, 0);
    case Receive(r, accepted, aborted) => BlocksKeepScopes(s.store, s.requests[r].stream, 0);
    case GiveUp(r) => BlocksKeepScopes(s.store, s.requests[r].stream, 0);
    case Expire(baton, id) => BlocksKeepScopes(s.store, id, baton);
    case CloseScopes(matches) => ScopesClosedKeepScopes(s.store, matches);
    case CloseAll => ScopesClosedKeepScopes(s.store, _ => true);
    case _ =>
  }

  lemma OpenedScopes(store: Store, id: StreamId, aborted: bool, other: StreamId)
    requires id in store.opening
    ensures var store' := Opened(store, id, aborted);
            && (other in store'.opening ==> other in store.opening && store'.opening[other] == store.opening[other])
            && id in store'.streams && store'.streams[id].scope == store.opening[id].scope
            && (other != id && other in store'.streams ==>
                  other in store.streams && store'.streams[other] == store.streams[other])
  {
  }

  lemma BegunScopes(s: State, r: RequestId, baton: Option<HranaStreams.Baton>, scope: Scope, aborted: bool, other: StreamId)
    ensures var store' := Begun(s, r, baton, scope, aborted).store;
            && (other in store'.opening ==>
                  || (other == r && store'.opening[other].scope == scope)
                  || (other in s.store.opening && store'.opening[other] == s.store.opening[other]))
            && (other in store'.streams ==>
                  other in s.store.streams && store'.streams[other].scope == s.store.streams[other].scope)
  {
  }

  lemma BegunGrows(actions: seq<Action>, i: nat, r: RequestId, scope: Scope)
    requires i < |actions|
    ensures BegunWith(actions, i + 1, r, scope) <==> BegunWith(actions, i, r, scope) || Begins(actions[i], r, scope)
  {
  }

  /** The step's openings and streams. */
  lemma StepStores(s: State, actions: seq<Action>, i: nat, other: StreamId)
    requires i < |actions| && Inv(s) && Enabled(s, actions[i]) && ScopesOk(s, actions, i)
    ensures var store' := Apply(s, actions[i]).store;
            && (other in store'.opening ==> BegunWith(actions, i + 1, other, store'.opening[other].scope))
            && (other in store'.streams ==> BegunWith(actions, i + 1, other, store'.streams[other].scope))
  {
    var store, store' := s.store, Apply(s, actions[i]).store;
    if other in store'.opening {
      BegunGrows(actions, i, other, store'.opening[other].scope);
    }
    if other in store'.streams {
      BegunGrows(actions, i, other, store'.streams[other].scope);
    }
    match actions[i]
    case Begin(r, baton, scope, aborted) => BegunScopes(s, r, baton, scope, aborted, other);
    case SessionOpened(r, aborted) => OpenedScopes(store, r, aborted, other);
    case _ => StepKeepsScopes(s, actions[i]);
  }

  lemma BegunHolds(s: State, r: RequestId, baton: Option<HranaStreams.Baton>, scope: Scope, aborted: bool)
    ensures var s' := Begun(s, r, baton, scope, aborted);
            && s'.requests == s.requests[r := s'.requests[r]]
            && forall id | Holds(s'.requests[r], id) :: id in s.store.streams && s.store.streams[id].scope == scope
  {
  }

  lemma ReceivedHolds(s: State, r: RequestId, accepted: bool, aborted: bool)
    requires Enabled(s, Receive(r, accepted, aborted))
    ensures var s' := Apply(s, Receive(r, accepted, aborted));
            s'.requests == s.requests[r := s'.requests[r]] && forall id :: !Holds(s'.requests[r], id)
  {
  }

  /** How a request comes to have a stream. */
  lemma StepHolds(s: State, action: Action, r: RequestId, id: StreamId)
    requires Enabled(s, action) && r in Apply(s, action).requests && Holds(Apply(s, action).requests[r], id)
    ensures || (r in s.requests && Holds(s.requests[r], id))
            || (r == id && action.SessionOpened? && action.request == r)
            || (id in s.store.streams && Begins(action, r, s.store.streams[id].scope))
  {
    match action
    case Begin(q, baton, scope, aborted) => BegunHolds(s, q, baton, scope, aborted);
    case Receive(q, accepted, aborted) => ReceivedHolds(s, q, accepted, aborted);
    case _ =>
  }

  lemma HoldsScope(s: State, s': State, actions: seq<Action>, i: nat, r: RequestId, id: StreamId)
    requires i < |actions| && ScopesOk(s, actions, i) && id in s'.store.streams
    requires id in s.store.streams ==> s'.store.streams[id].scope == s.store.streams[id].scope
    requires BegunWith(actions, i + 1, id, s'.store.streams[id].scope)
    requires || (r in s.requests && Holds(s.requests[r], id))
             || r == id
             || (id in s.store.streams && Begins(actions[i], r, s.store.streams[id].scope))
    ensures BegunWith(actions, i + 1, r, s'.store.streams[id].scope)
  {
    assert HoldsOk(s, actions, i, r, id);
    BegunGrows(actions, i, r, s'.store.streams[id].scope);
  }

  lemma HeldIsThere(s: State, r: RequestId, id: StreamId)
    requires Inv(s) && r in s.requests && Holds(s.requests[r], id)
    ensures id in s.store.streams
  {
    assert RequestOk(s, r);
  }

  ghost predicate HoldsOk(s: State, actions: seq<Action>, i: nat, r: RequestId, id: StreamId)
    requires i <= |actions|
  {
    r in s.requests && Holds(s.requests[r], id) ==>
      id in s.store.streams && BegunWith(actions, i, r, s.store.streams[id].scope)
  }

  lemma StepHoldsScope(s: State, actions: seq<Action>, i: nat, r: RequestId, id: StreamId)
    requires i < |actions| && Inv(s) && Enabled(s, actions[i]) && ScopesOk(s, actions, i)
    ensures HoldsOk(Apply(s, actions[i]), actions, i + 1, r, id)
  {
    var s' := Apply(s, actions[i]);
    if r in s'.requests && Holds(s'.requests[r], id) {
      assert id in s'.store.streams by {
        StepKeeps(s, actions[i]);
        HeldIsThere(s', r, id);
      }
      StepStores(s, actions, i, id);
      if id in s.store.streams {
        ScopeStays(s, actions[i], id);
      }
      StepHolds(s, actions[i], r, id);
      HoldsScope(s, s', actions, i, r, id);
    }
  }

  lemma ScopesStep(s: State, actions: seq<Action>, i: nat)
    requires i < |actions| && Inv(s) && Enabled(s, actions[i]) && ScopesOk(s, actions, i)
    ensures ScopesOk(Apply(s, actions[i]), actions, i + 1)
  {
    var s' := Apply(s, actions[i]);
    forall other
      ensures other in s'.store.opening ==> BegunWith(actions, i + 1, other, s'.store.opening[other].scope)
      ensures other in s'.store.streams ==> BegunWith(actions, i + 1, other, s'.store.streams[other].scope)
    {
      StepStores(s, actions, i, other);
    }
    forall r, id {:trigger HoldsOk(s', actions, i + 1, r, id)}
      ensures HoldsOk(s', actions, i + 1, r, id)
    {
      StepHoldsScope(s, actions, i, r, id);
    }
  }

  lemma ScopeStays(s: State, action: Action, id: StreamId)
    requires Inv(s) && Enabled(s, action) && id in s.store.streams
    ensures var s' := Apply(s, action); id in s'.store.streams ==> s'.store.streams[id].scope == s.store.streams[id].scope
  {
    match action
    case Begin(r, baton, scope, aborted) => BegunScopes(s, r, baton, scope, aborted, id);
    case SessionOpened(r, aborted) =>
      assert RequestOk(s, r);
      OpenedScopes(s.store, r, aborted, id);
    case _ => StepKeepsScopes(s, action);
  }

  // ----- Openings

  predicate Revokes(action: Action, scope: Scope) {
    action.CloseAll? || (action.CloseScopes? && action.matches(scope))
  }

  lemma StepDisposes(s: State, action: Action)
    requires Enabled(s, action)
    ensures Apply(s, action).store.disposed <==> s.store.disposed || action.CloseAll?
  {
  }

  lemma RevocationMarks(store: Store, matches: Scope -> bool, r: RequestId)
    requires r in store.opening
    ensures r in ScopesClosed(store, matches).opening
    ensures ScopesClosed(store, matches).opening[r]
         == Opening(store.opening[r].scope, store.opening[r].invalidated || matches(store.opening[r].scope))
  {
  }

  lemma StepOpening(s: State, action: Action, r: RequestId)
    requires Enabled(s, action) && r in s.requests && r in Apply(s, action).store.opening
    ensures r in s.store.opening
    ensures Apply(s, action).store.opening[r]
         == Opening(s.store.opening[r].scope, s.store.opening[r].invalidated || Revokes(action, s.store.opening[r].scope))
  {
    match action
    case CloseScopes(matches) => RevocationMarks(s.store, matches, r);
    case CloseAll => RevocationMarks(s.store, _ => true, r);
    case Begin(q, baton, scope, aborted) => BegunScopes(s, q, baton, scope, aborted, r);
    case SessionOpened(q, aborted) => OpenedScopes(s.store, q, aborted, r);
    case _ =>
  }

  lemma BegunOpening(s: State, action: Action, r: RequestId, scope: Scope)
    requires Inv(s) && Enabled(s, action) && Begins(action, r, scope) && r in Apply(s, action).store.opening
    ensures Apply(s, action).store.opening[r] == Opening(scope, false)
  {
  }

  lemma StepReplies(s: State, action: Action, r: RequestId)
    requires Enabled(s, action) && r in Apply(s, action).requests
    requires Apply(s, action).requests[r].Replied? && Apply(s, action).requests[r].baton.Some?
    ensures action == Receive(r, true, false) || (r in s.requests && s.requests[r] == Apply(s, action).requests[r])
  {
  }

  // ----- Streams the guest has closed

  /** The guest has closed the stream, whether the relay knows it yet or not. */
  ghost predicate Over(s: State, id: StreamId) {
    id in s.store.streams && (s.store.streams[id].closed || (id in s.wire && s.wire[id] == Back(Answered(None))))
  }

  predicate ClosedIn(store: Store, id: StreamId) {
    id in store.streams && store.streams[id].closed
  }

  lemma BlocksLeaveClosed(store: Store, other: StreamId, baton: HranaStreams.Baton, id: StreamId)
    requires ClosedIn(store, id)
    ensures ClosedIn(Settled(store, other), id)
    ensures other in store.streams ==>
              ClosedIn(Closed(store, other), id) && ClosedIn(Released(store, other), id)
              && ClosedIn(Expired(store, baton, other), id)
    ensures other in store.opening && other != id ==> ClosedIn(Opened(store, other, true), id) && ClosedIn(Opened(store, other, false), id)
    ensures baton in store.batons && store.batons[baton] in store.streams ==> ClosedIn(Checkout(store, baton), id)
  {
  }

  lemma ScopesClosedLeaveClosed(store: Store, matches: Scope -> bool, id: StreamId)
    requires ClosedIn(store, id)
    ensures ClosedIn(ScopesClosed(store, matches), id)
  {
  }

  lemma RequestLeavesClosed(s: State, action: Action, id: StreamId)
    requires Enabled(s, action) && ClosedIn(s.store, id)
    requires action.Send? || action.Receive? || action.GiveUp?
    ensures ClosedIn(Apply(s, action).store, id)
  {
    BlocksLeaveClosed(s.store, s.requests[action.request].stream, 0, id);
  }

  lemma BeginLeavesClosed(s: State, r: RequestId, baton: Option<HranaStreams.Baton>, scope: Scope, aborted: bool, id: StreamId)
    requires ClosedIn(s.store, id)
    ensures ClosedIn(Begun(s, r, baton, scope, aborted).store, id)
  {
    if baton.Some? {
      BlocksLeaveClosed(s.store, r, baton.value, id);
    }
  }

  lemma ClosedStays(s: State, action: Action, id: StreamId)
    requires Enabled(s, action) && ClosedIn(s.store, id)
    requires action.SessionOpened? ==> action.request != id
    ensures ClosedIn(Apply(s, action).store, id)
  {
    match action
    case Begin(r, baton, scope, aborted) => BeginLeavesClosed(s, r, baton, scope, aborted, id);
    case SessionOpened(r, aborted) => BlocksLeaveClosed(s.store, r, 0, id);
    case SessionFailed(r) => BlocksLeaveClosed(s.store, r, 0, id);
    case Unopened(r) => BlocksLeaveClosed(s.store, r, 0, id);
    case Expire(baton, other) => BlocksLeaveClosed(s.store, other, baton, id);
    case CloseScopes(matches) => ScopesClosedLeaveClosed(s.store, matches, id);
    case CloseAll => ScopesClosedLeaveClosed(s.store, _ => true, id);
    case GuestClosed(_, _) =>
    case CleanedUp(_) =>
    case Serve(_, _, _, _) =>
    case _ => RequestLeavesClosed(s, action, id);
  }

  lemma WireStays(s: State, action: Action, id: StreamId)
    requires Inv(s) && Enabled(s, action) && id in s.store.streams && id in s.wire && s.wire[id].Back?
    requires !(action.Receive? && s.requests[action.request].stream == id)
    ensures var s' := Apply(s, action); id in s'.wire && s'.wire[id] == s.wire[id]
  {
    if action.Send? {
      assert RequestOk(s, action.request);
    }
  }

  lemma OverStays(s: State, action: Action, id: StreamId)
    requires Inv(s) && Enabled(s, action) && Over(s, id)
    ensures Over(Apply(s, action), id)
  {
    if s.store.streams[id].closed {
      if action.SessionOpened? {
        assert RequestOk(s, action.request);
      }
      ClosedStays(s, action, id);
    } else if action.Receive? && s.requests[action.request].stream == id {
      OverReceived(s, action.request, action.accepted, action.aborted);
    } else {
      WireStays(s, action, id);
      StreamRemains(s, action, id);
    }
  }

  lemma OverReceived(s: State, r: RequestId, accepted: bool, aborted: bool)
    requires Enabled(s, Receive(r, accepted, aborted)) && Over(s, s.requests[r].stream)
    ensures ClosedIn(Apply(s, Receive(r, accepted, aborted)).store, s.requests[r].stream)
  {
  }

  lemma StreamRemains(s: State, action: Action, id: StreamId)
    requires Enabled(s, action) && id in s.store.streams
    ensures id in Apply(s, action).store.streams
  {
  }

  lemma OverHasNoBaton(s: State, id: StreamId)
    requires Inv(s) && Over(s, id)
    ensures id !in s.store.batons.Values
  {
    assert StreamOk(s, id);
  }

  // ----- Batons

  /** What takes a baton away: its use by a request of its scope, its expiry, and the revocation of its scope. */
  predicate Takes(action: Action, b: HranaStreams.Baton, scope: Scope) {
    match action
    case Begin(_, baton, wanted, aborted) => baton == Some(b) && wanted == scope && !aborted
    case Expire(baton, _) => baton == b
    case _ => Revokes(action, scope)
  }

  ghost predicate KeepsBaton(store: Store, store': Store, b: HranaStreams.Baton)
    requires b in store.batons
  {
    b in store'.batons && store'.batons[b] == store.batons[b]
  }

  lemma BlocksKeepBaton(store: Store, other: StreamId, baton: HranaStreams.Baton, b: HranaStreams.Baton)
    requires StoreOk(store) && b in store.batons
    ensures KeepsBaton(store, Settled(store, other), b)
    ensures other in store.streams && other != store.batons[b] ==>
              KeepsBaton(store, Closed(store, other), b) && KeepsBaton(store, Released(store, other), b)
    ensures other in store.opening && other != store.batons[b] ==>
              KeepsBaton(store, Opened(store, other, true), b) && KeepsBaton(store, Opened(store, other, false), b)
    ensures baton in store.batons && baton != b ==> KeepsBaton(store, Checkout(store, baton), b)
  {
  }

  lemma ExpiryTakes(store: Store, other: StreamId, baton: HranaStreams.Baton, b: HranaStreams.Baton)
    requires StoreOk(store) && b in store.batons && other in store.streams && store.streams[other].timer == Some(baton)
    ensures if baton == b then b !in Expired(store, baton, other).batons else KeepsBaton(store, Expired(store, baton, other), b)
  {
  }

  lemma RevocationTakes(store: Store, matches: Scope -> bool, b: HranaStreams.Baton)
    requires StoreOk(store) && b in store.batons
    ensures if matches(store.streams[store.batons[b]].scope) then b !in ScopesClosed(store, matches).batons
            else KeepsBaton(store, ScopesClosed(store, matches), b)
  {
  }

  ghost predicate Told(store: Store, store': Store, b: HranaStreams.Baton, taken: bool)
    requires b in store.batons
  {
    if taken then b !in store'.batons else KeepsBaton(store, store', b)
  }

  lemma BeginTakes(s: State, r: RequestId, baton: Option<HranaStreams.Baton>, scope: Scope, aborted: bool, b: HranaStreams.Baton)
    requires StoreOk(s.store) && b in s.store.batons
    ensures var taken := baton == Some(b) && s.store.streams[s.store.batons[b]].scope == scope && !aborted;
            Told(s.store, Begun(s, r, baton, scope, aborted).store, b, taken)
  {
    var store, store' := s.store, Begun(s, r, baton, scope, aborted).store;
    assert !store.disposed;
    if baton.None? || aborted || !Acquirable(store, baton.value, scope) {
      assert store'.batons == store.batons;
    } else {
      assert store'.batons == store.batons - {baton.value};
    }
  }

  /** A request that has another stream leaves the baton alone. */
  lemma RequestLeaves(s: State, action: Action, b: HranaStreams.Baton)
    requires StoreOk(s.store) && Enabled(s, action) && b in s.store.batons
    requires action.Send? || action.Receive? || action.GiveUp?
    requires !Holds(s.requests[action.request], s.store.batons[b])
    ensures KeepsBaton(s.store, Apply(s, action).store, b)
  {
    BlocksKeepBaton(s.store, s.requests[action.request].stream, 0, b);
  }

  lemma OpeningLeaves(s: State, action: Action, b: HranaStreams.Baton)
    requires StoreOk(s.store) && Enabled(s, action) && b in s.store.batons
    requires action.SessionOpened? || action.SessionFailed? || action.Unopened?
    requires action.SessionOpened? ==> action.request !in s.store.streams
    ensures KeepsBaton(s.store, Apply(s, action).store, b)
  {
    BlocksKeepBaton(s.store, action.request, 0, b);
  }

  lemma StepTakes(s: State, action: Action, b: HranaStreams.Baton)
    requires StoreOk(s.store) && Enabled(s, action) && b in s.store.batons
    requires forall r | r in s.requests :: !Holds(s.requests[r], s.store.batons[b])
    requires action.SessionOpened? ==> action.request !in s.store.streams
    ensures Told(s.store, Apply(s, action).store, b, Takes(action, b, s.store.streams[s.store.batons[b]].scope))
  {
    match action
    case Begin(r, baton, scope, aborted) => BeginTakes(s, r, baton, scope, aborted, b);
    case SessionOpened(_, _) => OpeningLeaves(s, action, b);
    case SessionFailed(_) => OpeningLeaves(s, action, b);
    case Unopened(_) => OpeningLeaves(s, action, b);
    case Send(_, _) => RequestLeaves(s, action, b);
    case Receive(_, _, _) => RequestLeaves(s, action, b);
    case GiveUp(_) => RequestLeaves(s, action, b);
    case Expire(baton, other) => ExpiryTakes(s.store, other, baton, b);
    case CloseScopes(matches) => RevocationTakes(s.store, matches, b);
    case CloseAll => RevocationTakes(s.store, _ => true, b);
    case _ =>
  }
}
