/** packages/sqlite/src/hrana-streams.ts
  *
  * The store of SQLite streams. JavaScript between two awaits is one atomic block, and each block
  * of the class is one method here, proved against a function on the store's value.
  */
module HranaStreams {
  import opened Prelude

  type Scope = string
  // A stream and the opening it came from are named by the request that opened it.
  type StreamId = nat
  // `crypto.randomUUID()`: a value not issued before, which a counter stands for.
  type Baton = nat

  /** `timer` is the baton whose expiry is scheduled. */
  datatype Stream = Stream(scope: Scope, closed: bool, timer: Option<Baton>)

  datatype Opening = Opening(scope: Scope, invalidated: bool)

  datatype Store = Store(
    limit: nat,
    batons: map<Baton, StreamId>,
    live: set<StreamId>,
    opening: map<StreamId, Opening>,
    disposed: bool,
    streams: map<StreamId, Stream>,
    issued: Baton)

  datatype Refusal = StreamClosed | StreamExpired | StreamLimit

  // ----- What one block does to the store

  /** `acquire` with a baton, as far as it gives a stream out. */
  predicate Acquirable(s: Store, baton: Baton, scope: Scope) {
    baton in s.batons && s.batons[baton] in s.streams && s.streams[s.batons[baton]].scope == scope
  }

  function Checkout(s: Store, baton: Baton): Store
    requires baton in s.batons && s.batons[baton] in s.streams
  {
    var id := s.batons[baton];
    s.(batons := s.batons - {baton}, streams := s.streams[id := s.streams[id].(timer := None)])
  }

  predicate Full(s: Store) {
    |s.live| + |s.opening| >= s.limit
  }

  function BeginOpen(s: Store, id: StreamId, scope: Scope): Store {
    s.(opening := s.opening[id := Opening(scope, false)])
  }

  /** The session opened: the stream is live at once, and closed at once if it no longer may be. */
  function Opened(s: Store, id: StreamId, aborted: bool): Store
    requires id in s.opening
  {
    var added := s.(
      live := s.live + {id},
      streams := s.streams[id := Stream(s.opening[id].scope, false, None)]);
    if aborted || s.opening[id].invalidated then Closed(added, id) else Settled(added, id)
  }

  /** The `finally` of `#open`. */
  function Settled(s: Store, id: StreamId): Store {
    s.(opening := s.opening - {id})
  }

  function Released(s: Store, id: StreamId): Store
    requires id in s.streams
  {
    if s.streams[id].closed then s
    else
      s.(batons := s.batons[s.issued := id],
         streams := s.streams[id := s.streams[id].(timer := Some(s.issued))],
         issued := s.issued + 1)
  }

  /** `close`, up to the await of the session's own close. */
  function Closed(s: Store, id: StreamId): Store
    requires id in s.streams
  {
    if s.streams[id].closed then s
    else
      s.(batons := map b | b in s.batons && s.batons[b] != id :: s.batons[b],
         live := s.live - {id},
         streams := s.streams[id := s.streams[id].(closed := true, timer := None)])
  }

  function Expired(s: Store, baton: Baton, id: StreamId): Store
    requires id in s.streams
  {
    Closed(s.(batons := s.batons - {baton}), id)
  }

  function Marked(s: Store, matches: Scope -> bool): Store {
    s.(opening := map o | o in s.opening ::
         if matches(s.opening[o].scope) then s.opening[o].(invalidated := true) else s.opening[o])
  }

  function ManyClosed(s: Store, ids: set<StreamId>): Store {
    s.(batons := map b | b in s.batons && s.batons[b] !in ids :: s.batons[b],
       live := s.live - ids,
       streams := map id | id in s.streams ::
         if id in ids then s.streams[id].(closed := true, timer := None) else s.streams[id])
  }

  function Struck(s: Store, matches: Scope -> bool): set<StreamId> {
    set id | id in s.live && id in s.streams && matches(s.streams[id].scope)
  }

  /** All matching openings are marked, and all matching live streams closed, in one block. */
  function ScopesClosed(s: Store, matches: Scope -> bool): Store {
    ManyClosed(Marked(s, matches), Struck(s, matches))
  }

  function AllClosed(s: Store): Store {
    ScopesClosed(s, _ => true).(disposed := true)
  }

  // ----- What every block keeps

  /** At every await: the limit holds, a stream is live while it is not closed, every baton names a
    * live stream whose expiry is scheduled for that very baton, and a disposed store has nothing. */
  ghost predicate StoreOk(s: Store) {
    && |s.live| + |s.opening| <= s.limit
    && s.live <= s.streams.Keys
    && (forall id {:trigger s.streams[id]} | id in s.streams ::
          && (id in s.live <==> !s.streams[id].closed)
          && (s.streams[id].timer.Some? ==>
                s.streams[id].timer.value in s.batons && s.batons[s.streams[id].timer.value] == id))
    && (forall b {:trigger s.batons[b]} | b in s.batons ::
          && b < s.issued
          && s.batons[b] in s.live && s.streams[s.batons[b]].timer == Some(b))
    && (s.disposed ==> s.live == {} && forall o {:trigger s.opening[o]} | o in s.opening :: s.opening[o].invalidated)
  }

  lemma CheckoutOk(s: Store, baton: Baton)
    requires StoreOk(s) && baton in s.batons
    ensures StoreOk(Checkout(s, baton))
    ensures forall b | b in Checkout(s, baton).batons :: Checkout(s, baton).batons[b] != s.batons[baton]
  {
  }

  lemma BeginOpenOk(s: Store, id: StreamId, scope: Scope)
    requires StoreOk(s) && !s.disposed && !Full(s) && id !in s.opening
    ensures StoreOk(BeginOpen(s, id, scope))
  {
    assert |s.opening[id := Opening(scope, false)]| == |s.opening| + 1;
  }

  lemma SettledOk(s: Store, id: StreamId)
    requires StoreOk(s) && id in s.opening
    ensures StoreOk(Settled(s, id))
  {
    assert |s.opening - {id}| == |s.opening| - 1;
  }

  lemma OpenedOk(s: Store, id: StreamId, aborted: bool)
    requires StoreOk(s) && id in s.opening && id !in s.streams
    ensures StoreOk(Opened(s, id, aborted))
  {
    var added := Stream(s.opening[id].scope, false, None);
    if aborted || s.opening[id].invalidated {
      assert s.live + {id} - {id} == s.live;
    } else {
      assert |s.live + {id}| == |s.live| + 1;
      assert |s.opening - {id}| == |s.opening| - 1;
    }
  }

  lemma ReleasedOk(s: Store, id: StreamId)
    requires StoreOk(s) && id in s.streams && s.streams[id].timer == None
    ensures StoreOk(Released(s, id))
  {
  }

  lemma ClosedOk(s: Store, id: StreamId)
    requires StoreOk(s) && id in s.streams
    ensures StoreOk(Closed(s, id))
  {
    assert s.live - {id} <= s.live;
    assert |s.live - {id}| <= |s.live|;
  }

  lemma ExpiredOk(s: Store, baton: Baton, id: StreamId)
    requires StoreOk(s) && id in s.streams && s.streams[id].timer == Some(baton)
    ensures Expired(s, baton, id) == Closed(s, id)
    ensures StoreOk(Expired(s, baton, id))
  {
    ClosedOk(s, id);
    assert Expired(s, baton, id).batons == Closed(s, id).batons;
  }

  lemma ScopesClosedOk(s: Store, matches: Scope -> bool)
    requires StoreOk(s)
    ensures StoreOk(ScopesClosed(s, matches))
  {
    SubsetSize(s.live - Struck(s, matches), s.live);
    assert Marked(s, matches).opening.Keys == s.opening.Keys;
    assert |Marked(s, matches).opening| == |s.opening|;
  }

  lemma AllClosedOk(s: Store)
    requires StoreOk(s)
    ensures StoreOk(AllClosed(s))
    ensures AllClosed(s).live == {} && AllClosed(s).batons == map[]
  {
    ScopesClosedOk(s, _ => true);
    assert AllClosed(s).live == {};
  }

  /** Closing an open stream after others is closing it with them. */
  lemma OneMoreClosed(s: Store, ids: set<StreamId>, id: StreamId)
    requires id in s.streams && !s.streams[id].closed && id !in ids
    ensures Closed(ManyClosed(s, ids), id) == ManyClosed(s, ids + {id})
  {
    var one, many := Closed(ManyClosed(s, ids), id), ManyClosed(s, ids + {id});
    assert one.batons == many.batons;
    assert one.live == many.live;
    assert one.streams == many.streams;
  }

  lemma NoneClosed(s: Store)
    ensures ManyClosed(s, {}) == s
  {
    assert ManyClosed(s, {}).batons == s.batons;
    assert ManyClosed(s, {}).streams == s.streams;
  }

  // ----- The class

  class Streams {
    const limit: nat
    var batons: map<Baton, StreamId>
    var live: set<StreamId>
    var opening: map<StreamId, Opening>
    var disposed: bool
    var streams: map<StreamId, Stream>
    var issued: Baton

    function Value(): Store
      reads this
    {
      Store(limit, batons, live, opening, disposed, streams, issued)
    }

    constructor (limit: nat)
      ensures Value() == Store(limit, map[], {}, map[], false, map[], 0)
    {
      this.limit := limit;
      batons, live, opening, disposed, streams, issued := map[], {}, map[], false, map[], 0;
    }

    /** `acquire`, up to its first await: a stream, a refusal, or an opening that has begun. */
    method Acquire(baton: Option<Baton>, scope: Scope, id: StreamId) returns (given: Result<Option<StreamId>, Refusal>)
      requires forall b | b in batons :: batons[b] in streams
      modifies this
      ensures given ==
        if old(disposed) then Err(StreamClosed)
        else match baton
          case Some(b) =>
            if Acquirable(old(Value()), b, scope) then Ok(Some(old(batons)[b])) else Err(StreamExpired)
          case None => if Full(old(Value())) then Err(StreamLimit) else Ok(None)
      ensures Value() ==
        if given.Err? then old(Value())
        else match baton
          case Some(b) => Checkout(old(Value()), b)
          case None => BeginOpen(old(Value()), id, scope)
      ensures given.Ok? && baton.Some? ==>
        old(streams)[old(batons)[baton.value]].scope == scope && baton.value !in batons
      ensures given == Ok(None) ==> |old(live)| + |old(opening)| < limit && id in opening && opening[id].scope == scope
    {
      if disposed {
        return Err(StreamClosed);
      }
      if baton.Some? {
        var b := baton.value;
        if b !in batons || streams[batons[b]].scope != scope {
          return Err(StreamExpired);
        }
        var stream := batons[b];
        batons := batons - {b};
        streams := streams[stream := streams[stream].(timer := None)];
        return Ok(Some(stream));
      }
      if |live| + |opening| >= limit {
        return Err(StreamLimit);
      }
      opening := opening[id := Opening(scope, false)];
      given := Ok(None);
    }

    /** What `#open` does when the session has opened; false means the stream was closed again. */
    method FinishOpen(id: StreamId, aborted: bool) returns (usable: bool)
      requires id in opening
      modifies this
      ensures usable == !(aborted || old(opening)[id].invalidated)
      ensures Value() == Opened(old(Value()), id, aborted)
    {
      streams := streams[id := Stream(opening[id].scope, false, None)];
      live := live + {id};
      if aborted || opening[id].invalidated {
        Close(id);
        return false;
      }
      opening := opening - {id};
      usable := true;
    }

    method Release(id: StreamId) returns (baton: Option<Baton>)
      requires id in streams
      modifies this
      ensures baton == if old(streams)[id].closed then None else Some(old(issued))
      ensures Value() == Released(old(Value()), id)
    {
      if streams[id].closed {
        return None;
      }
      baton := Some(issued);
      batons := batons[issued := id];
      streams := streams[id := streams[id].(timer := Some(issued))];
      issued := issued + 1;
    }

    method Close(id: StreamId)
      requires id in streams
      modifies this
      ensures Value() == Closed(old(Value()), id)
    {
      if streams[id].closed {
        return;
      }
      streams := streams[id := streams[id].(closed := true, timer := None)];
      live := live - {id};
      var unseen := batons.Keys;
      while unseen != {}
        invariant live == old(live) - {id} && opening == old(opening) && disposed == old(disposed)
        invariant issued == old(issued)
        invariant streams == old(streams)[id := old(streams)[id].(closed := true, timer := None)]
        invariant unseen <= old(batons).Keys
        invariant batons == map b | b in old(batons) && (b in unseen || old(batons)[b] != id) :: old(batons)[b]
      {
        var baton :| baton in unseen;
        if batons[baton] == id {
          batons := batons - {baton};
        }
        unseen := unseen - {baton};
      }
    }

    method Expire(baton: Baton, id: StreamId)
      requires id in streams
      modifies this
      ensures Value() == Expired(old(Value()), baton, id)
    {
      batons := batons - {baton};
      Close(id);
    }

    method CloseScopes(matches: Scope -> bool)
      requires live <= streams.Keys
      requires forall id | id in live :: !streams[id].closed
      modifies this
      ensures Value() == ScopesClosed(old(Value()), matches)
    {
      opening := map o | o in opening ::
        if matches(opening[o].scope) then opening[o].(invalidated := true) else opening[o];
      var struck := set id | id in live && matches(streams[id].scope);
      var rest := struck;
      ghost var marked := Value();
      NoneClosed(marked);
      while rest != {}
        invariant rest <= struck
        invariant Value() == ManyClosed(marked, struck - rest)
      {
        var id :| id in rest;
        OneMoreClosed(marked, struck - rest, id);
        Close(id);
        rest := rest - {id};
        assert struck - rest == (struck - rest - {id}) + {id};
      }
      assert struck == Struck(marked, matches) && struck - rest == struck;
    }

    method CloseAll()
      requires live <= streams.Keys
      requires forall id | id in live :: !streams[id].closed
      modifies this
      ensures Value() == AllClosed(old(Value()))
    {
      disposed := true;
      CloseScopes(_ => true);
    }
  }
}
