/** apps/agent/src/services/app-waker.service.ts, lines 219-248
  *
  * One wake per app at a time: the first caller claims the app and boots it, everybody who finds
  * the claim counts itself in and waits for its outcome. `Claims` holds the `inFlight` Ref and the
  * `joined` counters; a claim is named by the call that made it.
  */
module AppWaker {
  import opened Prelude

  type AppId = nat
  type ClientId = nat

  function ClaimFor(inFlight: map<AppId, ClientId>, app: AppId): Option<ClientId> {
    if app in inFlight then Some(inFlight[app]) else None
  }

  function WithClaim(inFlight: map<AppId, ClientId>, app: AppId, maker: ClientId): map<AppId, ClientId> {
    if app in inFlight then inFlight else inFlight[app := maker]
  }

  class Claims {
    var inFlight: map<AppId, ClientId>
    var joined: map<ClientId, nat>

    constructor ()
      ensures inFlight == map[] && joined == map[]
    {
      inFlight, joined := map[], map[];
    }

    /** The claim already in flight, or none and the caller's own is. */
    method Claim(app: AppId, maker: ClientId) returns (held: Option<ClientId>)
      modifies this
      ensures held == ClaimFor(old(inFlight), app)
      ensures inFlight == WithClaim(old(inFlight), app, maker)
      ensures joined == old(joined)[maker := 0]
      ensures app in inFlight && inFlight[app] == if held.Some? then held.value else maker
      ensures held.Some? ==> inFlight == old(inFlight)
      ensures inFlight - {app} == old(inFlight) - {app}
    {
      joined := joined[maker := 0];
      if app in inFlight {
        return Some(inFlight[app]);
      }
      inFlight := inFlight[app := maker];
      held := None;
    }

    method Count(claim: ClientId)
      requires claim in joined
      modifies this
      ensures inFlight == old(inFlight)
      ensures joined == old(joined)[claim := old(joined)[claim] + 1]
    {
      joined := joined[claim := joined[claim] + 1];
    }

    method Forget(app: AppId)
      modifies this
      ensures inFlight == old(inFlight) - {app} && joined == old(joined)
      ensures ClaimFor(inFlight, app) == None
    {
      inFlight := inFlight - {app};
    }
  }
}
