/** packages/sqlite/src/hrana-relay.ts
  *
  * The relay between a client's pipelines and the guest's. `Relay` holds the two blocks of
  * `handle` that touch its state: what is sent to the guest, and what is made of its answer.
  */
module HranaRelay {
  import opened Prelude
  import S = HranaStreams
  import P = HranaPipeline

  type StreamId = S.StreamId

  datatype Conclusion = Given(baton: Option<S.Baton>) | ClosedByGuest | Rejected

  /** What `handle` makes of the guest's reply: `accepted` says that the body was a valid response
    * to this request, `aborted` that the caller had gone. */
  function Conclude(store: S.Store, id: StreamId, reply: P.Reply, accepted: bool, aborted: bool): Conclusion
    requires id in store.streams
  {
    if !reply.Answered? || !accepted || aborted || store.streams[id].closed then Rejected
    else if reply.next == None then ClosedByGuest
    else Given(Some(store.issued))
  }

  function Concluded(store: S.Store, id: StreamId, conclusion: Conclusion): S.Store
    requires id in store.streams
  {
    if conclusion.Given? then S.Released(store, id) else S.Closed(store, id)
  }

  class Relay {
    const streams: S.Streams
    var guestBatons: map<StreamId, P.Baton>

    constructor (streams: S.Streams)
      ensures this.streams == streams && guestBatons == map[]
    {
      this.streams := streams;
      guestBatons := map[];
    }

    method Outgoing(id: StreamId) returns (baton: Option<P.Baton>)
      ensures baton == if id in guestBatons then Some(guestBatons[id]) else None
    {
      baton := if id in guestBatons then Some(guestBatons[id]) else None;
    }

    method Incoming(id: StreamId, reply: P.Reply, accepted: bool, aborted: bool) returns (conclusion: Conclusion)
      requires id in streams.streams
      modifies this, streams
      ensures conclusion == Conclude(old(streams.Value()), id, reply, accepted, aborted)
      ensures streams.Value() == Concluded(old(streams.Value()), id, conclusion)
      ensures guestBatons ==
        if conclusion.Given? then old(guestBatons)[id := reply.next.value] else old(guestBatons)
    {
      if !reply.Answered? || !accepted || aborted || streams.streams[id].closed {
        streams.Close(id);
        return Rejected;
      }
      if reply.next == None {
        streams.Close(id);
        return ClosedByGuest;
      }
      guestBatons := guestBatons[id := reply.next.value];
      var baton := streams.Release(id);
      conclusion := Given(baton);
    }
  }
}
