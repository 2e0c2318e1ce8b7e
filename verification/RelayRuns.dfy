/** Relay, store and guests together, in every interleaving. */
module RelayRuns {
  import opened Prelude
  import opened HranaStreams
  import opened HranaPipeline
  import opened HranaRelay
  import opened RelayProtocol

  ghost predicate StepAt(run: seq<State>, i: nat)
    requires i < |run| - 1
  {
    Next(run[i], run[i + 1])
  }

  ghost predicate IsRun(run: seq<State>, limit: nat) {
    |run| > 0 && run[0] == Initial(limit)
    && forall i {:trigger StepAt(run, i)} | 0 <= i < |run| - 1 :: StepAt(run, i)
  }

  lemma {:induction false} EveryState(run: seq<State>, limit: nat, i: nat)
    requires IsRun(run, limit) && i < |run|
    ensures Inv(run[i]) && run[i].store.limit == limit
  {
    if i == 0 {
      InitialOk(limit);
    } else {
      EveryState(run, limit, i - 1);
      assert StepAt(run, i - 1);
      NextKeeps(run[i - 1], run[i]);
    }
  }

  // ----- Main results

  /** The limit holds at every await; every baton names a stream of its own, live and not closed, that
    * no request has; and every live stream was opened by a request of its own. */
  lemma BatonsNameLiveStreams(run: seq<State>, limit: nat, i: nat)
    requires IsRun(run, limit) && i < |run|
    ensures var store := run[i].store;
            && |store.live| + |store.opening| <= limit
            && (forall b | b in store.batons ::
                  store.batons[b] in store.live && store.batons[b] in store.streams
                  && !store.streams[store.batons[b]].closed)
            && (forall b, c | b in store.batons && c in store.batons && b != c :: store.batons[b] != store.batons[c])
            && (forall b, r | b in store.batons && r in run[i].requests ::
                  !Holds(run[i].requests[r], store.batons[b]))
  {
    EveryState(run, limit, i);
    var s := run[i];
    forall b, r | b in s.store.batons && r in s.requests
      ensures !Holds(s.requests[r], s.store.batons[b])
    {
      assert RequestOk(s, r);
    }
  }

  /** At most one request has a stream at a time, so at most one pipeline is on its way to its guest. */
  lemma OnePipelineAtATime(run: seq<State>, limit: nat, i: nat, r: RequestId, q: RequestId, id: StreamId)
    requires IsRun(run, limit) && i < |run|
    requires In(run[i], r, Acquired(id)) || In(run[i], r, Calling(id))
    requires In(run[i], q, Acquired(id)) || In(run[i], q, Calling(id))
    ensures r == q
  {
    EveryState(run, limit, i);
    assert OneHolder(run[i], id) && Holds(run[i].requests[r], id) && Holds(run[i].requests[q], id);
  }

  /** What the relay presents is null to a guest that has served nothing, and else the baton that the
    * guest answered last; and the guest's test takes it, except when its 64-bit generation has just
    * wrapped to zero. */
  lemma GuestExpectsWhatIsSent(run: seq<State>, limit: nat, i: nat, id: StreamId)
    requires IsRun(run, limit) && i < |run|
    requires id in run[i].wire && run[i].wire[id].Sent?
    ensures id in run[i].sessions
    ensures var session, presented := run[i].sessions[id], run[i].wire[id].presented;
            && presented == (if session.served == 0 then None else Some(session.guest.baton))
            && !session.guest.closed
            && (Matches(session.guest, presented) <==> session.served == 0 || session.served % GENERATIONS != 0)
  {
    EveryState(run, limit, i);
    assert StreamOk(run[i], id);
  }

  /** Batons come from `Released` alone, under a name never used before. */
  lemma BatonsAreNew(s: State, action: Action)
    requires Enabled(s, action)
    ensures var s' := Apply(s, action);
            && s.store.issued <= s'.store.issued
            && forall b | b in s'.store.batons :: b in s.store.batons || s.store.issued <= b < s'.store.issued
  {
    match action
    case Receive(r, accepted, aborted) =>
      var id := s.requests[r].stream;
      assert Apply(s, action).store == Concluded(s.store, id, Conclude(s.store, id, s.wire[id].reply, accepted, aborted));
    case _ =>
      assert Apply(s, action).store.issued == s.store.issued;
      assert forall b | b in Apply(s, action).store.batons :: b in s.store.batons;
  }

  lemma NextBatonsAreNew(s: State, s': State, baton: HranaStreams.Baton)
    requires Next(s, s') && baton < s.store.issued && baton !in s.store.batons
    ensures baton < s'.store.issued && baton !in s'.store.batons
  {
    var action :| Enabled(s, action) && s' == Apply(s, action);
    BatonsAreNew(s, action);
  }

  /** A baton works once: after the request that took it out, no later state has it again. */
  lemma {:induction false} BatonsWorkOnce(run: seq<State>, limit: nat, i: nat, j: nat, baton: HranaStreams.Baton)
    requires IsRun(run, limit) && i <= j < |run|
    requires baton < run[i].store.issued && baton !in run[i].store.batons
    ensures baton !in run[j].store.batons && baton < run[j].store.issued
  {
    if i < j {
      BatonsWorkOnce(run, limit, i, j - 1, baton);
      assert StepAt(run, j - 1);
      NextBatonsAreNew(run[j - 1], run[j], baton);
    }
  }

  /** A stream that can never be released again, opened already or not. */
  ghost predicate Doomed(s: State, id: StreamId) {
    && id in s.requests
    && (id in s.store.opening ==> s.store.opening[id].invalidated)
    && (id in s.store.streams ==> s.store.streams[id].closed)
  }

  /** The store's part of `Doomed`. */
  ghost predicate Dead(store: Store, id: StreamId) {
    && (id in store.opening ==> store.opening[id].invalidated)
    && (id in store.streams ==> store.streams[id].closed)
  }

  lemma BegunStaysDead(s: State, r: RequestId, baton: Option<HranaStreams.Baton>, scope: Scope, aborted: bool, id: StreamId)
    requires Dead(s.store, id) && id != r
    ensures Dead(Begun(s, r, baton, scope, aborted).store, id)
  {
  }

  lemma OpenedStaysDead(store: Store, r: RequestId, aborted: bool, id: StreamId)
    requires Dead(store, id) && r in store.opening
    ensures Dead(Opened(store, r, aborted), id)
  {
  }

  lemma StaysDead(store: Store, r: StreamId, id: StreamId)
    requires Dead(store, id)
    ensures Dead(Settled(store, r), id)
    ensures r in store.streams ==> Dead(Closed(store, r), id) && Dead(Released(store, r), id)
  {
  }

  lemma ScopesClosedStaysDead(store: Store, matches: Scope -> bool, id: StreamId)
    requires Dead(store, id)
    ensures Dead(ScopesClosed(store, matches), id)
  {
  }

  lemma RequestsStay(s: State, action: Action)
    requires Enabled(s, action)
    ensures s.requests.Keys <= Apply(s, action).requests.Keys
  {
  }

  lemma DoomedStays(s: State, action: Action, id: StreamId)
    requires Enabled(s, action) && Doomed(s, id)
    ensures Doomed(Apply(s, action), id)
  {
    RequestsStay(s, action);
    assert Dead(Apply(s, action).store, id) by {
      match action
      case Begin(r, baton, scope, aborted) => BegunStaysDead(s, r, baton, scope, aborted, id);
      case SessionOpened(r, aborted) => OpenedStaysDead(s.store, r, aborted, id);
      case SessionFailed(r) => StaysDead(s.store, r, id);
      case Unopened(r) => StaysDead(s.store, r, id);
      case Send(r, aborted) => StaysDead(s.store, s.requests[r].stream, id);
      case Receive(r, accepted, aborted) => StaysDead(s.store, s.requests[r].stream, id);
      case GiveUp(r) => StaysDead(s.store, s.requests[r].stream, id);
      case GuestClosed(r, ok) =>
      case CleanedUp(r) =>
      case Serve(i, valid, rotated, closes) =>
      case Expire(baton, i) => StaysDead(s.store.(batons := s.store.batons - {baton}), i, id);
      case CloseScopes(matches) => ScopesClosedStaysDead(s.store, matches, id);
      case CloseAll => ScopesClosedStaysDead(s.store, _ => true, id);
    }
  }

  lemma DoomedStaysNext(s: State, s': State, id: StreamId)
    requires Next(s, s') && Doomed(s, id)
    ensures Doomed(s', id)
  {
    var action :| Enabled(s, action) && s' == Apply(s, action);
    DoomedStays(s, action, id);
  }

  lemma {:induction false} DoomedForGood(run: seq<State>, limit: nat, i: nat, j: nat, id: StreamId)
    requires IsRun(run, limit) && i <= j < |run| && Doomed(run[i], id)
    ensures Doomed(run[j], id)
  {
    if i < j {
      DoomedForGood(run, limit, i, j - 1, id);
      assert StepAt(run, j - 1);
      DoomedStaysNext(run[j - 1], run[j], id);
    }
  }

  /** Revocation outruns every await: a stream that is live or still opening when `closeScopes` names
    * its scope has no baton in any later state. */
  lemma RevokedStreamsNeverReturn(run: seq<State>, limit: nat, i: nat, j: nat, matches: Scope -> bool, id: StreamId)
    requires IsRun(run, limit) && i < j < |run| && run[i + 1] == Apply(run[i], CloseScopes(matches))
    requires
      || (id in run[i].store.opening && matches(run[i].store.opening[id].scope))
      || (id in run[i].store.live && id in run[i].store.streams && matches(run[i].store.streams[id].scope))
    ensures forall b | b in run[j].store.batons :: run[j].store.batons[b] != id
  {
    var s, s' := run[i], run[i + 1];
    EveryState(run, limit, i);
    assert id in s.store.streams ==> StreamOk(s, id);
    if id in s.store.opening {
      assert RequestOk(s, id);
    }
    DoomedForGood(run, limit, i + 1, j, id);
    BatonsNameLiveStreams(run, limit, j);
  }

  lemma DisposedKept(s: State, action: Action)
    requires Enabled(s, action)
    ensures s.store.disposed ==> Apply(s, action).store.disposed
  {
  }

  lemma DisposedStays(s: State, s': State)
    requires Next(s, s') && s.store.disposed
    ensures s'.store.disposed
  {
    var action :| Enabled(s, action) && s' == Apply(s, action);
    DisposedKept(s, action);
  }

  lemma {:induction false} DisposedForGood(run: seq<State>, limit: nat, i: nat, j: nat)
    requires IsRun(run, limit) && i <= j < |run| && run[i].store.disposed
    ensures run[j].store.disposed
  {
    if i < j {
      DisposedForGood(run, limit, i, j - 1);
      assert StepAt(run, j - 1);
      DisposedStays(run[j - 1], run[j]);
    }
  }

  /** A closed store stays empty: no stream is live and no baton works, whatever was under way. */
  lemma ClosedForGood(run: seq<State>, limit: nat, i: nat, j: nat)
    requires IsRun(run, limit) && i < j < |run| && run[i + 1] == Apply(run[i], CloseAll)
    ensures run[j].store.live == {} && run[j].store.batons == map[]
  {
    DisposedForGood(run, limit, i + 1, j);
    BatonsNameLiveStreams(run, limit, j);
    EveryState(run, limit, j);
    assert forall b :: b !in run[j].store.batons;
  }
}
