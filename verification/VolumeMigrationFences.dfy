/** apps/agent/src/services/volume-migration-fences.service.ts
  *
  * `access` counts lifecycle work into an app's entry, `during` closes admission, waits for the
  * count to drain and runs alone. `Fences` holds the `entries` Ref and its four atomic rewrites.
  */
module VolumeMigrationFences {
  import opened Prelude

  // Names are only ever compared.
  type AppId = nat
  // One `access` or `during` call.
  type ClientId = nat

  /** The Deferred a client makes for one app. A client makes at most one per app, so two calls
    * never share a cell by accident. */
  datatype Cell = Cell(maker: ClientId, app: AppId)

  datatype Entry = Entry(active: nat, held: bool, drained: Cell)

  type Entries = map<AppId, Entry>

  datatype Claim = Busy | Claimed(wait: Option<Cell>)

  // ----- What one atomic rewrite of `entries` does

  predicate Held(entries: Entries, app: AppId) {
    app in entries && entries[app].held
  }

  function EntryFor(entries: Entries, app: AppId, made: Cell): Entry {
    if app in entries then entries[app] else Entry(0, false, made)
  }

  /** Every requested app that is not held gains one active access. */
  function AdmitAll(entries: Entries, apps: set<AppId>, maker: ClientId): Entries {
    map a | a in entries.Keys + apps ::
      if a in apps && !Held(entries, a)
      then var e := EntryFor(entries, a, Cell(maker, a)); e.(active := e.active + 1)
      else entries[a]
  }

  /** Every listed app loses one active access; an entry nobody holds goes with its last one. */
  function FinishAll(entries: Entries, apps: set<AppId>): Entries {
    map a | a in entries && !(a in apps && entries[a].active <= 1 && !entries[a].held) ::
      if a in apps
      then entries[a].(active := if entries[a].active > 1 then entries[a].active - 1 else 0)
      else entries[a]
  }

  /** The cells `finish` completes: one per listed app that was on its last access, in order. */
  function Drains(entries: Entries, apps: seq<AppId>): seq<Cell> {
    if |apps| == 0 then []
    else
      var last := apps[|apps| - 1];
      Drains(entries, apps[..|apps| - 1])
      + if last in entries && entries[last].active <= 1 then [entries[last].drained] else []
  }

  function Hold(entries: Entries, app: AppId, maker: ClientId): Entries {
    if Held(entries, app) then entries
    else entries[app := EntryFor(entries, app, Cell(maker, app)).(held := true)]
  }

  function HoldClaim(entries: Entries, app: AppId): Claim {
    if Held(entries, app) then Busy
    else Claimed(if app in entries && entries[app].active > 0 then Some(entries[app].drained) else None)
  }

  function Unhold(entries: Entries, app: AppId): Entries {
    if app !in entries then entries
    else if entries[app].active == 0 then entries - {app}
    else entries[app := entries[app].(held := false)]
  }

  predicate RequireHeld(entries: Entries, app: AppId) {
    app in entries && entries[app].held && entries[app].active == 0
  }

  /** A JavaScript Set's iteration order: first occurrences. */
  function FirstOccurrences(s: seq<AppId>): seq<AppId> {
    if |s| == 0 then []
    else
      var before := FirstOccurrences(s[..|s| - 1]);
      if s[|s| - 1] in before then before else before + [s[|s| - 1]]
  }

  function NotHeld(entries: Entries, apps: seq<AppId>): seq<AppId> {
    if |apps| == 0 then []
    else
      NotHeld(entries, apps[..|apps| - 1])
      + if Held(entries, apps[|apps| - 1]) then [] else [apps[|apps| - 1]]
  }

  lemma {:induction false} FirstOccurrencesOnce(s: seq<AppId>)
    ensures Unique(FirstOccurrences(s))
    ensures forall a :: a in FirstOccurrences(s) <==> a in s
  {
    if |s| > 0 {
      FirstOccurrencesOnce(s[..|s| - 1]);
      assert s == s[..|s| - 1] + [s[|s| - 1]];
    }
  }

  lemma {:induction false} NotHeldOnce(entries: Entries, apps: seq<AppId>)
    requires Unique(apps)
    ensures Unique(NotHeld(entries, apps))
    ensures forall a :: a in NotHeld(entries, apps) <==> a in apps && !Held(entries, a)
  {
    if |apps| > 0 {
      NotHeldOnce(entries, apps[..|apps| - 1]);
      assert apps == apps[..|apps| - 1] + [apps[|apps| - 1]];
    }
  }

  function Elements<T>(s: seq<T>): set<T> {
    set x | x in s
  }

  function HeldApps(entries: Entries): set<AppId> {
    set a | a in entries && entries[a].held
  }

  // The two loops, app by app, are the rewrites above.

  function AdmitOne(entries: Entries, app: AppId, maker: ClientId): Entries {
    var entry := EntryFor(entries, app, Cell(maker, app));
    if entry.held then entries else entries[app := entry.(active := entry.active + 1)]
  }

  function FinishOne(entries: Entries, app: AppId): Entries {
    if app !in entries then entries
    else if entries[app].active > 1 then entries[app := entries[app].(active := entries[app].active - 1)]
    else if entries[app].held then entries[app := entries[app].(active := 0)]
    else entries - {app}
  }

  function AdmitEach(entries: Entries, apps: seq<AppId>, maker: ClientId): Entries {
    if |apps| == 0 then entries
    else
      AdmitOne(AdmitEach(entries, apps[..|apps| - 1], maker), apps[|apps| - 1], maker)
  }

  lemma ElementsGrow(s: seq<AppId>, last: AppId)
    ensures Elements(s + [last]) == Elements(s) + {last}
  {
  }

  lemma AdmitOneMore(entries: Entries, apps: set<AppId>, app: AppId, maker: ClientId)
    requires app !in apps
    ensures AdmitAll(entries, apps + {app}, maker) == AdmitOne(AdmitAll(entries, apps, maker), app, maker)
  {
  }

  lemma {:induction false} AdmitEachIsAll(entries: Entries, apps: seq<AppId>, maker: ClientId)
    requires Unique(apps)
    ensures AdmitEach(entries, apps, maker) == AdmitAll(entries, Elements(apps), maker)
  {
    if |apps| > 0 {
      var before, app := apps[..|apps| - 1], apps[|apps| - 1];
      AdmitEachIsAll(entries, before, maker);
      ElementsGrow(before, app);
      assert apps == before + [app];
      AdmitOneMore(entries, Elements(before), app, maker);
    }
  }

  function FinishEach(entries: Entries, apps: seq<AppId>): Entries {
    if |apps| == 0 then entries
    else
      FinishOne(FinishEach(entries, apps[..|apps| - 1]), apps[|apps| - 1])
  }

  lemma FinishOneMore(entries: Entries, apps: set<AppId>, app: AppId)
    requires app !in apps
    ensures FinishAll(entries, apps + {app}) == FinishOne(FinishAll(entries, apps), app)
  {
  }

  lemma {:induction false} FinishEachIsAll(entries: Entries, apps: seq<AppId>)
    requires Unique(apps)
    ensures FinishEach(entries, apps) == FinishAll(entries, Elements(apps))
  {
    if |apps| > 0 {
      var before, app := apps[..|apps| - 1], apps[|apps| - 1];
      FinishEachIsAll(entries, before);
      ElementsGrow(before, app);
      assert apps == before + [app];
      FinishOneMore(entries, Elements(before), app);
    }
  }

  lemma {:induction false} AdmitKeepsHeld(entries: Entries, apps: seq<AppId>, maker: ClientId, app: AppId)
    ensures Held(AdmitEach(entries, apps, maker), app) == Held(entries, app)
  {
    if |apps| > 0 {
      AdmitKeepsHeld(entries, apps[..|apps| - 1], maker, app);
    }
  }

  lemma {:induction false} FinishLeavesOthers(entries: Entries, apps: seq<AppId>, app: AppId)
    requires app !in apps
    ensures
      var after := FinishEach(entries, apps);
      (app in after <==> app in entries) && (app in entries ==> after[app] == entries[app])
  {
    if |apps| > 0 {
      FinishLeavesOthers(entries, apps[..|apps| - 1], app);
    }
  }

  class Fences {
    var entries: Entries

    constructor ()
      ensures entries == map[]
    {
      entries := map[];
    }

    method Admit(appIds: seq<AppId>, maker: ClientId) returns (admitted: seq<AppId>, blocked: set<AppId>)
      modifies this
      ensures entries == AdmitAll(old(entries), Elements(appIds), maker)
      ensures admitted == NotHeld(old(entries), FirstOccurrences(appIds))
      ensures blocked == HeldApps(old(entries))
      ensures forall a: AppId :: a in blocked <==> Held(old(entries), a)
      ensures forall a: AppId :: a in admitted <==> a in appIds && a !in blocked
    {
      var wanted := FirstOccurrences(appIds);
      FirstOccurrencesOnce(appIds);
      var current := entries;
      var next := current;
      blocked := HeldApps(current);
      admitted := [];
      for i := 0 to |wanted|
        invariant entries == current
        invariant next == AdmitEach(current, wanted[..i], maker)
        invariant admitted == NotHeld(current, wanted[..i])
      {
        var app := wanted[i];
        assert wanted[..i + 1][..i] == wanted[..i];
        AdmitKeepsHeld(current, wanted[..i], maker, app);
        var entry := EntryFor(next, app, Cell(maker, app));
        if !entry.held {
          next := next[app := entry.(active := entry.active + 1)];
          admitted := admitted + [app];
        }
      }
      assert wanted[..|wanted|] == wanted;
      NotHeldOnce(current, wanted);
      AdmitEachIsAll(current, wanted, maker);
      assert Elements(wanted) == Elements(appIds);
      entries := next;
    }

    method Finish(apps: seq<AppId>) returns (drained: seq<Cell>)
      requires Unique(apps)
      modifies this
      ensures entries == FinishAll(old(entries), Elements(apps))
      ensures drained == Drains(old(entries), apps)
    {
      var current := entries;
      var next := current;
      drained := [];
      for i := 0 to |apps|
        invariant entries == current
        invariant next == FinishEach(current, apps[..i])
        invariant drained == Drains(current, apps[..i])
      {
        var app := apps[i];
        assert apps[..i + 1][..i] == apps[..i];
        FinishLeavesOthers(current, apps[..i], app);
        if app in next {
          var entry := next[app];
          if entry.active > 1 {
            next := next[app := entry.(active := entry.active - 1)];
          } else {
            if entry.held {
              next := next[app := entry.(active := 0)];
            } else {
              next := next - {app};
            }
            drained := drained + [entry.drained];
          }
        }
      }
      assert apps[..|apps|] == apps;
      FinishEachIsAll(current, apps);
      entries := next;
    }

    method Acquire(app: AppId, maker: ClientId) returns (claim: Claim)
      modifies this
      ensures entries == Hold(old(entries), app, maker)
      ensures claim == HoldClaim(old(entries), app)
      ensures Held(entries, app) && entries - {app} == old(entries) - {app}
      ensures claim == Busy <==> Held(old(entries), app)
      ensures claim == Claimed(None) ==> RequireHeld(entries, app)
      ensures claim == Busy ==> entries == old(entries)
    {
      var entry := EntryFor(entries, app, Cell(maker, app));
      if entry.held {
        return Busy;
      }
      claim := Claimed(if entry.active > 0 then Some(entry.drained) else None);
      entries := entries[app := entry.(held := true)];
    }

    method Release(app: AppId)
      modifies this
      ensures entries == Unhold(old(entries), app)
      ensures !Held(entries, app) && entries - {app} == old(entries) - {app}
      ensures app in entries <==> app in old(entries) && old(entries)[app].active != 0
      ensures app in entries ==>
        entries[app].active == old(entries)[app].active && entries[app].drained == old(entries)[app].drained
    {
      if app in entries {
        var entry := entries[app];
        if entry.active == 0 {
          entries := entries - {app};
        } else {
          entries := entries[app := entry.(held := false)];
        }
      }
    }
  }
}
