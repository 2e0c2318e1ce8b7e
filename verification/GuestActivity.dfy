/** apps/agent/src/services/guest-activity.service.ts
  *
  * Work inside one guest, per app: a registry of who is using the app's gate and counter, a
  * one-permit gate, and a count of running work whose cell is completed when the count drops to
  * zero. `Registry` and `Running` hold the two Refs and their atomic rewrites.
  */
module GuestActivity {
  import opened Prelude

  type AppId = nat
  type ClientId = nat
  // A gate and its counter, named by the call that made them.
  type RoomId = ClientId

  /** The Deferreds: one a new counter starts with, and one each `run` offers for a busy period. */
  datatype Cell = Initial(maker: ClientId) | Period(maker: ClientId)

  datatype Activity = Activity(room: RoomId, users: int)

  type Activities = map<AppId, Activity>

  function ActivityFor(activities: Activities, app: AppId, maker: ClientId): Activity {
    if app in activities then activities[app] else Activity(maker, 0)
  }

  function Join(activities: Activities, app: AppId, maker: ClientId): Activities {
    var activity := ActivityFor(activities, app, maker);
    activities[app := activity.(users := activity.users + 1)]
  }

  function Part(activities: Activities, app: AppId): Activities {
    if app !in activities then activities
    else if activities[app].users == 1 then activities - {app}
    else activities[app := activities[app].(users := activities[app].users - 1)]
  }

  datatype Count = Count(count: int, drained: Cell)

  /** A run that finds nothing running starts a busy period, with its own cell to end it. */
  function Enter(running: Count, made: Cell): Count {
    Count(running.count + 1, if running.count == 0 then made else running.drained)
  }

  function Leave(running: Count): Count {
    running.(count := running.count - 1)
  }

  function Ended(running: Count): Option<Cell> {
    if running.count == 1 then Some(running.drained) else None
  }

  class Registry {
    var activities: Activities

    constructor ()
      ensures activities == map[]
    {
      activities := map[];
    }

    method Acquire(app: AppId, maker: ClientId) returns (activity: Activity)
      modifies this
      ensures activities == Join(old(activities), app, maker)
      ensures activity == ActivityFor(old(activities), app, maker)
      ensures activities.Keys == old(activities).Keys + {app}
      ensures activities[app].room == activity.room && activities[app].users == activity.users + 1
      ensures forall a | a in activities && a != app :: activities[a] == old(activities)[a]
    {
      activity := if app in activities then activities[app] else Activity(maker, 0);
      activities := activities[app := activity.(users := activity.users + 1)];
    }

    method Release(app: AppId)
      modifies this
      ensures activities == Part(old(activities), app)
      ensures app in activities <==> app in old(activities) && old(activities)[app].users != 1
      ensures app in activities ==>
        activities[app] == Activity(old(activities)[app].room, old(activities)[app].users - 1)
      ensures forall a | a != app ::
        (a in activities <==> a in old(activities)) && (a in activities ==> activities[a] == old(activities)[a])
    {
      if app in activities {
        if activities[app].users == 1 {
          activities := activities - {app};
        } else {
          activities := activities[app := activities[app].(users := activities[app].users - 1)];
        }
      }
    }
  }

  class Running {
    var current: Count

    constructor (initial: Cell)
      ensures current == Count(0, initial)
    {
      current := Count(0, initial);
    }

    method Begin(made: Cell)
      modifies this
      ensures current == Enter(old(current), made)
      ensures current.count == old(current.count) + 1
      ensures current.drained != old(current.drained) ==> old(current.count) == 0 && current.drained == made
    {
      current := Count(current.count + 1, if current.count == 0 then made else current.drained);
    }

    method End() returns (drained: Option<Cell>)
      modifies this
      ensures current == Leave(old(current))
      ensures drained == Ended(old(current))
      ensures current.count == old(current.count) - 1 && current.drained == old(current.drained)
      ensures drained.Some? <==> current.count == 0
      ensures drained.Some? ==> drained.value == current.drained
    {
      drained := if current.count == 1 then Some(current.drained) else None;
      current := current.(count := current.count - 1);
    }
  }
}
