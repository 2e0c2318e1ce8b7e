/** What the relay's requests come to, by what was asked of it before. */
module RelayAnswers {
  import opened Prelude
  import opened HranaStreams
  import opened HranaPipeline
  import opened HranaRelay
  import opened RelayProtocol
  import opened RelayRuns
  import opened RelaySteps

  /** A run together with the steps taken in it. */
  ghost predicate IsTraced(run: seq<State>, actions: seq<Action>, limit: nat) {
    && |run| == |actions| + 1 && run[0] == Initial(limit)
    && forall i {:trigger actions[i]} | 0 <= i < |actions| ::
         Enabled(run[i], actions[i]) && run[i + 1] == Apply(run[i], actions[i])
  }

  lemma TracedIsRun(run: seq<State>, actions: seq<Action>, limit: nat)
    requires IsTraced(run, actions, limit)
    ensures IsRun(run, limit)
  {
    forall i | 0 <= i < |run| - 1
      ensures StepAt(run, i)
    {
      assert Enabled(run[i], actions[i]);
    }
  }

  lemma TracedStateOk(run: seq<State>, actions: seq<Action>, limit: nat, i: nat)
    requires IsTraced(run, actions, limit) && i < |run|
    ensures Inv(run[i]) && run[i].store.limit == limit
  {
    TracedIsRun(run, actions, limit);
    EveryState(run, limit, i);
  }

  // ----- Whose stream a request has

  lemma {:induction false} ScopesAlong(run: seq<State>, actions: seq<Action>, limit: nat, i: nat)
    requires IsTraced(run, actions, limit) && i < |run|
    ensures ScopesOk(run[i], actions, i)
  {
    if i > 0 {
      ScopesAlong(run, actions, limit, i - 1);
      TracedStateOk(run, actions, limit, i - 1);
      ScopesStep(run[i - 1], actions, i - 1);
    }
  }

  lemma {:induction false} RequestsRemain(run: seq<State>, actions: seq<Action>, limit: nat, i: nat, j: nat, r: RequestId)
    requires IsTraced(run, actions, limit) && i <= j < |run| && r in run[i].requests
    ensures r in run[j].requests
  {
    if i < j {
      RequestsRemain(run, actions, limit, i, j - 1, r);
      RequestsStay(run[j - 1], actions[j - 1]);
    }
  }

  /** A request is begun once. */
  lemma BegunOnce(run: seq<State>, actions: seq<Action>, limit: nat, j: nat, k: nat)
    requires IsTraced(run, actions, limit) && j < |actions| && k < |actions|
    requires actions[j].Begin? && actions[k].Begin? && actions[j].request == actions[k].request
    ensures j == k
  {
    if j < k {
      RequestsRemain(run, actions, limit, j + 1, k, actions[j].request);
    } else if k < j {
      RequestsRemain(run, actions, limit, k + 1, j, actions[j].request);
    }
  }

  lemma BegunInOneScope(run: seq<State>, actions: seq<Action>, limit: nat, i: nat, r: RequestId, a: Scope, b: Scope)
    requires IsTraced(run, actions, limit) && i <= |actions| && BegunWith(actions, i, r, a) && BegunWith(actions, i, r, b)
    ensures a == b
  {
    var j, k :| 0 <= j < i && 0 <= k < i && Begins(actions[j], r, a) && Begins(actions[k], r, b);
    BegunOnce(run, actions, limit, j, k);
  }

  /** A request has streams of its own scope only: the request that opened the stream was begun with it. */
  lemma StreamsStayInScope(run: seq<State>, actions: seq<Action>, limit: nat, i: nat, k: nat, r: RequestId, id: StreamId)
    requires IsTraced(run, actions, limit) && k < i < |run| && actions[k].Begin? && actions[k].request == r
    requires r in run[i].requests && Holds(run[i].requests[r], id)
    ensures BegunWith(actions, i, id, actions[k].scope)
  {
    ScopesAlong(run, actions, limit, i);
    assert HoldsOk(run[i], actions, i, r, id);
    assert Begins(actions[k], r, actions[k].scope);
    BegunInOneScope(run, actions, limit, i, r, actions[k].scope, run[i].store.streams[id].scope);
  }

  // ----- What `acquire` answers

  lemma {:induction false} DisposedByCloseAll(run: seq<State>, actions: seq<Action>, limit: nat, i: nat)
    requires IsTraced(run, actions, limit) && i < |run|
    ensures run[i].store.disposed <==> exists k :: 0 <= k < i && actions[k].CloseAll?
  {
    if i > 0 {
      DisposedByCloseAll(run, actions, limit, i - 1);
      StepDisposes(run[i - 1], actions[i - 1]);
    }
  }

  /** A baton gives its stream exactly to a caller that has not gone, of the scope the stream was opened under,
    * while the store is open; every other request with a baton fails and leaves the store as it was. */
  lemma BatonsGiveStreams(run: seq<State>, actions: seq<Action>, limit: nat, i: nat, r: RequestId, b: HranaStreams.Baton, scope: Scope, aborted: bool)
    requires IsTraced(run, actions, limit) && i < |run| && r !in run[i].requests
    ensures var s, s' := run[i], Apply(run[i], Begin(r, Some(b), scope, aborted));
            if !aborted && (forall k | 0 <= k < i :: !actions[k].CloseAll?)
               && b in s.store.batons && BegunWith(actions, i, s.store.batons[b], scope)
            then s'.requests[r] == Acquired(s.store.batons[b]) && b !in s'.store.batons
            else s'.requests[r] == Failed && s'.store == s.store
  {
    var s := run[i];
    ScopesAlong(run, actions, limit, i);
    TracedStateOk(run, actions, limit, i);
    DisposedByCloseAll(run, actions, limit, i);
    if b in s.store.batons && BegunWith(actions, i, s.store.batons[b], scope) {
      BegunInOneScope(run, actions, limit, i, s.store.batons[b], scope, s.store.streams[s.store.batons[b]].scope);
    }
  }

  /** A request without a baton begins to open a stream exactly while the store is open and has room. */
  lemma OpensWhileThereIsRoom(run: seq<State>, actions: seq<Action>, limit: nat, i: nat, r: RequestId, scope: Scope, aborted: bool)
    requires IsTraced(run, actions, limit) && i < |run| && r !in run[i].requests
    ensures var s, s' := run[i], Apply(run[i], Begin(r, None, scope, aborted));
            if !aborted && (forall k | 0 <= k < i :: !actions[k].CloseAll?) && |s.store.live| + |s.store.opening| < limit
            then s'.requests[r] == Starting && s'.store.opening.Keys == s.store.opening.Keys + {r}
            else s'.requests[r] == Failed && s'.store == s.store
  {
    TracedStateOk(run, actions, limit, i);
    DisposedByCloseAll(run, actions, limit, i);
  }

  /** Some step after the one at `k` and before state `i` revoked the scope. */
  predicate RevokedAfter(actions: seq<Action>, k: nat, i: nat, scope: Scope)
    requires k < i <= |actions|
  {
    i > k + 1 && (RevokedAfter(actions, k, i - 1, scope) || Revokes(actions[i - 1], scope))
  }

  lemma {:induction false} RevokedMeans(actions: seq<Action>, k: nat, i: nat, scope: Scope)
    requires k < i <= |actions|
    ensures RevokedAfter(actions, k, i, scope) <==> exists m :: k < m < i && Revokes(actions[m], scope)
  {
    if i > k + 1 {
      RevokedMeans(actions, k, i - 1, scope);
    }
  }

  lemma {:induction false} InvalidatedByRevocation(run: seq<State>, actions: seq<Action>, limit: nat, k: nat, i: nat, r: RequestId, scope: Scope)
    requires IsTraced(run, actions, limit) && k < i < |run| && Begins(actions[k], r, scope) && r in run[i].store.opening
    ensures run[i].store.opening[r] == Opening(scope, RevokedAfter(actions, k, i, scope))
  {
    if k == i - 1 {
      TracedStateOk(run, actions, limit, k);
      BegunOpening(run[k], actions[k], r, scope);
    } else {
      RequestsRemain(run, actions, limit, k + 1, i - 1, r);
      StepOpening(run[i - 1], actions[i - 1], r);
      InvalidatedByRevocation(run, actions, limit, k, i - 1, r, scope);
    }
  }

  /** An opened stream is handed to its request exactly if the caller has not gone and nothing has revoked its
    * scope since the request began; otherwise it is closed at once. */
  lemma OpensUnlessRevoked(run: seq<State>, actions: seq<Action>, limit: nat, k: nat, i: nat, r: RequestId, scope: Scope, aborted: bool)
    requires IsTraced(run, actions, limit) && k < i < |run| && Begins(actions[k], r, scope)
    requires Enabled(run[i], SessionOpened(r, aborted))
    ensures var s' := Apply(run[i], SessionOpened(r, aborted));
            if !aborted && forall m | k < m < i :: !Revokes(actions[m], scope)
            then s'.requests[r] == Acquired(r) && r in s'.store.live && !s'.store.streams[r].closed
            else s'.requests[r] == Unopening && r !in s'.store.live && s'.store.streams[r].closed
  {
    InvalidatedByRevocation(run, actions, limit, k, i, r, scope);
    RevokedMeans(actions, k, i, scope);
  }

  // ----- What becomes of the guest's answer

  /** A guest serves a valid pipeline unless its generation has just wrapped; it then has a new baton, and is
    * closed, and answers no baton, exactly if one of the requests closed the stream. */
  lemma GuestAnswers(run: seq<State>, limit: nat, i: nat, id: StreamId, valid: bool, rotated: Option<HranaPipeline.Baton>, closes: bool)
    requires IsRun(run, limit) && i < |run| && Enabled(run[i], Serve(id, valid, rotated, closes))
    ensures var session, s' := run[i].sessions[id], Apply(run[i], Serve(id, valid, rotated, closes));
            var guest, reply := s'.sessions[id].guest, s'.wire[id].reply;
            && s'.wire[id].Back?
            && (reply == Refused <==> !valid || (session.served > 0 && session.served % GENERATIONS == 0))
            && (reply == Broken <==> reply != Refused && rotated == None)
            && (reply.Answered? <==> guest != session.guest || s'.sessions[id].served == session.served + 1)
            && (reply.Answered? ==>
                  && guest.baton == rotated.value && guest.closed == closes
                  && reply.next == if closes then None else Some(guest.baton))
            && (!reply.Answered? ==> s'.sessions[id] == session)
  {
    GuestExpectsWhatIsSent(run, limit, i, id);
  }

  /** The client is given a baton exactly for an accepted answer that carries the guest's own next one, if it has
    * not gone and the stream was not closed meanwhile; the relay then keeps the guest's. In every other case
    * the stream is closed, and no baton names it. */
  lemma AnswersGiveBatons(run: seq<State>, limit: nat, i: nat, r: RequestId, accepted: bool, aborted: bool)
    requires IsRun(run, limit) && i < |run| && Enabled(run[i], Receive(r, accepted, aborted))
    ensures var s, s' := run[i], Apply(run[i], Receive(r, accepted, aborted));
            var id := s.requests[r].stream;
            var reply, baton := s.wire[id].reply, s.store.issued;
            if !accepted || aborted || !reply.Answered? || s.store.streams[id].closed then
              s'.requests[r] == Failing(id) && s'.store.streams[id].closed && id !in s'.store.batons.Values
            else if reply.next == None then
              s'.requests[r] == EndingByGuest(id) && s'.store.streams[id].closed && id !in s'.store.batons.Values
            else
              && s'.requests[r] == Replied(Some(baton)) && !s'.store.streams[id].closed
              && s'.store.batons == s.store.batons[baton := id] && baton !in s.store.batons
              && Outgoing(s', id) == reply.next
  {
    EveryState(run, limit, i);
    assert RequestOk(run[i], r);
  }

  /** No request ends with a baton unless its response was accepted while its caller was there. */
  lemma {:induction false} BatonsOnlyForAccepted(run: seq<State>, actions: seq<Action>, limit: nat, i: nat, r: RequestId)
    requires IsTraced(run, actions, limit) && i < |run| && r in run[i].requests
    requires run[i].requests[r].Replied? && run[i].requests[r].baton.Some?
    ensures exists k :: 0 <= k < i && actions[k] == Receive(r, true, false)
  {
    assert i > 0;
    StepReplies(run[i - 1], actions[i - 1], r);
    if actions[i - 1] != Receive(r, true, false) {
      BatonsOnlyForAccepted(run, actions, limit, i - 1, r);
    }
  }

  // ----- How long a stream and its baton last

  lemma {:induction false} OverForGood(run: seq<State>, actions: seq<Action>, limit: nat, i: nat, j: nat, id: StreamId)
    requires IsTraced(run, actions, limit) && i <= j < |run| && Over(run[i], id)
    ensures Over(run[j], id) && Inv(run[j])
  {
    if i < j {
      OverForGood(run, actions, limit, i, j - 1, id);
      OverStays(run[j - 1], actions[j - 1], id);
      StepKeeps(run[j - 1], actions[j - 1]);
    } else {
      TracedStateOk(run, actions, limit, j);
    }
  }

  lemma ClosingIsOver(run: seq<State>, limit: nat, i: nat, id: StreamId, rotated: Option<HranaPipeline.Baton>)
    requires IsRun(run, limit) && i < |run| && Enabled(run[i], Serve(id, true, rotated, true))
    ensures var s' := Apply(run[i], Serve(id, true, rotated, true));
            id in s'.wire && s'.wire[id].Back? && (s'.wire[id].reply.Answered? ==> Over(s', id))
  {
    EveryState(run, limit, i);
    GuestAnswers(run, limit, i, id, true, rotated, true);
  }

  /** A pipeline with a request that closes the stream ends it: no later state has a baton for it. */
  lemma ClosingPipelineEndsStream(run: seq<State>, actions: seq<Action>, limit: nat, i: nat, j: nat, id: StreamId, rotated: Option<HranaPipeline.Baton>)
    requires IsTraced(run, actions, limit) && i < j < |run| && actions[i] == Serve(id, true, rotated, true)
    requires id in run[i + 1].wire && run[i + 1].wire[id].Back? && run[i + 1].wire[id].reply.Answered?
    ensures id !in run[j].store.batons.Values
  {
    assert Over(run[i + 1], id) by {
      TracedIsRun(run, actions, limit);
      ClosingIsOver(run, limit, i, id, rotated);
    }
    OverForGood(run, actions, limit, i + 1, j, id);
    OverHasNoBaton(run[j], id);
  }

  /** A baton is taken away by its use in its scope, by its expiry and by the revocation of its scope, and by
    * nothing else. */
  lemma BatonsLast(run: seq<State>, limit: nat, i: nat, action: Action, b: HranaStreams.Baton)
    requires IsRun(run, limit) && i < |run| && Enabled(run[i], action) && b in run[i].store.batons
    ensures var s, s' := run[i], Apply(run[i], action);
            var id := s.store.batons[b];
            && id in s.store.streams
            && (b in s'.store.batons <==> !Takes(action, b, s.store.streams[id].scope))
            && (b in s'.store.batons ==> s'.store.batons[b] == id)
  {
    EveryState(run, limit, i);
    BatonsNameLiveStreams(run, limit, i);
    if action.SessionOpened? {
      assert RequestOk(run[i], action.request);
    }
    StepTakes(run[i], action, b);
  }
}
