/** apps/runtime/src/sqlite-hrana-pipeline.c
  *
  * The guest's side of a stream: the statements a client has stored under numbers, and the baton
  * and generation that decide whether a pipeline may run.
  */
module HranaPipeline {
  import opened Prelude

  type Baton = string

  const STORED_SQL := 30
  const REQUEST_MAX_BYTES := 65536
  // `generation` is a uint64_t.
  const GENERATIONS := 0x1_0000_0000_0000_0000

  datatype Code = OK | MISUSE | TOOBIG

  // ----- The table of stored statements, as the map it implements

  predicate OneSlotEach(ids: seq<int>, texts: seq<Option<string>>)
    requires |ids| == |texts|
  {
    forall i, j | 0 <= i < j < |ids| && texts[i].Some? && texts[j].Some? :: ids[i] != ids[j]
  }

  function Table(ids: seq<int>, texts: seq<Option<string>>): map<int, string>
    requires |ids| == |texts|
  {
    if |ids| == 0 then map[]
    else
      var n := |ids| - 1;
      var rest := Table(ids[..n], texts[..n]);
      if texts[n].Some? then rest[ids[n] := texts[n].value] else rest
  }

  function Occupied(texts: seq<Option<string>>): nat {
    if |texts| == 0 then 0
    else Occupied(texts[..|texts| - 1]) + if texts[|texts| - 1].Some? then 1 else 0
  }

  lemma {:induction false} TableHas(ids: seq<int>, texts: seq<Option<string>>)
    requires |ids| == |texts| && OneSlotEach(ids, texts)
    ensures forall i | 0 <= i < |ids| && texts[i].Some? :: ids[i] in Table(ids, texts) && Table(ids, texts)[ids[i]] == texts[i].value
    ensures forall id | id in Table(ids, texts) :: exists i :: 0 <= i < |ids| && texts[i].Some? && ids[i] == id
    ensures |Table(ids, texts)| == Occupied(texts)
  {
    if |ids| > 0 {
      var n := |ids| - 1;
      TableHas(ids[..n], texts[..n]);
      var rest := Table(ids[..n], texts[..n]);
      assert forall i | 0 <= i < n :: ids[..n][i] == ids[i] && texts[..n][i] == texts[i];
      if texts[n].Some? {
        forall key | key in rest
          ensures key != ids[n]
        {
          var i :| 0 <= i < n && texts[..n][i].Some? && ids[..n][i] == key;
          assert texts[i].Some? && ids[i] == key;
        }
        assert ids[n] !in rest;
      }
    }
  }

  lemma {:induction false} OccupiedAll(texts: seq<Option<string>>)
    ensures Occupied(texts) <= |texts|
    ensures Occupied(texts) == |texts| <==> forall i | 0 <= i < |texts| :: texts[i].Some?
  {
    if |texts| > 0 {
      OccupiedAll(texts[..|texts| - 1]);
    }
  }

  lemma {:induction false} EmptyTable(ids: seq<int>, texts: seq<Option<string>>)
    requires |ids| == |texts| && forall i | 0 <= i < |texts| :: texts[i].None?
    ensures Table(ids, texts) == map[]
  {
    if |ids| > 0 {
      EmptyTable(ids[..|ids| - 1], texts[..|ids| - 1]);
    }
  }

  /** Two tables are the same map when they have the same entries, wherever these sit. */
  lemma TableUpdated(ids: seq<int>, texts: seq<Option<string>>, slot: nat, id: int, text: string)
    requires |ids| == |texts| && OneSlotEach(ids, texts) && slot < |ids| && texts[slot] == None
    requires forall i | 0 <= i < |ids| && texts[i].Some? :: ids[i] != id
    ensures OneSlotEach(ids[slot := id], texts[slot := Some(text)])
    ensures Table(ids[slot := id], texts[slot := Some(text)]) == Table(ids, texts)[id := text]
  {
    var ids', texts' := ids[slot := id], texts[slot := Some(text)];
    TableHas(ids, texts);
    TableHas(ids', texts');
    assert texts'[slot].Some? && ids'[slot] == id;
    forall key
      ensures key in Table(ids', texts') <==> key in Table(ids, texts) || key == id
      ensures key in Table(ids, texts) ==> Table(ids', texts')[key] == Table(ids, texts)[key]
    {
      if key in Table(ids, texts) {
        var i :| 0 <= i < |ids| && texts[i].Some? && ids[i] == key;
        assert texts'[i] == texts[i] && ids'[i] == ids[i];
      }
    }
  }

  lemma TableCleared(ids: seq<int>, texts: seq<Option<string>>, slot: nat)
    requires |ids| == |texts| && OneSlotEach(ids, texts) && slot < |ids| && texts[slot].Some?
    ensures OneSlotEach(ids, texts[slot := None])
    ensures Table(ids, texts[slot := None]) == Table(ids, texts) - {ids[slot]}
  {
    var texts' := texts[slot := None];
    TableHas(ids, texts);
    TableHas(ids, texts');
    forall key
      ensures key in Table(ids, texts') <==> key in Table(ids, texts) && key != ids[slot]
      ensures key in Table(ids, texts') ==> Table(ids, texts')[key] == Table(ids, texts)[key]
    {
      if key in Table(ids, texts) {
        var i :| 0 <= i < |ids| && texts[i].Some? && ids[i] == key;
        assert key != ids[slot] ==> texts'[i] == texts[i];
      }
    }
  }

  class StoredSql {
    var ids: array<int>
    var texts: array<Option<string>>

    ghost predicate Valid()
      reads this, ids, texts
    {
      && ids.Length == STORED_SQL && texts.Length == STORED_SQL
      && OneSlotEach(ids[..], texts[..])
    }

    ghost function Stored(): map<int, string>
      reads this, ids, texts
      requires Valid()
    {
      Table(ids[..], texts[..])
    }

    constructor ()
      ensures Valid() && Stored() == map[]
      ensures fresh(ids) && fresh(texts)
    {
      ids := new int[STORED_SQL](_ => 0);
      texts := new Option<string>[STORED_SQL](_ => None);
      new;
      EmptyTable(ids[..], texts[..]);
    }

    /** `store_sql`: a number is stored once until it is closed, and there is room for thirty.
      * `sqlId` is none when the request's number is not a 32-bit integer, `sql` when its text is
      * missing or holds a NUL. */
    method StoreSql(sqlId: Option<int>, sql: Option<string>, closing: bool) returns (code: Code)
      requires Valid()
      modifies ids, texts
      ensures Valid()
      ensures code ==
        if sqlId.None? then MISUSE
        else if closing then OK
        else if sqlId.value in old(Stored()) then MISUSE
        else if |old(Stored())| == STORED_SQL || sql.None? || |sql.value| > REQUEST_MAX_BYTES then TOOBIG
        else OK
      ensures Stored() ==
        if code != OK then old(Stored())
        else if closing then old(Stored()) - {sqlId.value}
        else old(Stored())[sqlId.value := sql.value]
    {
      if sqlId.None? {
        return MISUSE;
      }
      var id := sqlId.value;
      TableHas(ids[..], texts[..]);
      OccupiedAll(texts[..]);
      var empty := STORED_SQL;
      for index := 0 to STORED_SQL
        invariant empty == STORED_SQL || (0 <= empty < index && texts[empty].None?)
        invariant empty == STORED_SQL ==> forall i | 0 <= i < index :: texts[i].Some?
        invariant forall i | 0 <= i < index && texts[i].Some? :: ids[i] != id
        invariant ids[..] == old(ids[..]) && texts[..] == old(texts[..])
      {
        if texts[index].None? {
          empty := index;
          continue;
        }
        if ids[index] != id {
          continue;
        }
        if !closing {
          assert texts[..][index].Some? && ids[..][index] == id;
          return MISUSE;
        }
        TableCleared(ids[..], texts[..], index);
        texts[index] := None;
        assert texts[..] == old(texts[..])[index := None];
        return OK;
      }
      assert id !in Stored();
      if closing {
        return OK;
      }
      if empty == STORED_SQL || sql.None? || |sql.value| > REQUEST_MAX_BYTES {
        return TOOBIG;
      }
      TableUpdated(ids[..], texts[..], empty, id, sql.value);
      ids[empty] := id;
      texts[empty] := sql;
      assert ids[..] == old(ids[..])[empty := id] && texts[..] == old(texts[..])[empty := sql];
      code := OK;
    }
  }

  // ----- Baton and generation

  datatype Guest = Guest(generation: nat, baton: Baton, closed: bool)

  const FRESH_GUEST := Guest(0, "", false)

  /** A reply: HTTP 400 or 500, or 200 with the next baton, which is null once the stream closed. */
  datatype Reply = Refused | Broken | Answered(next: Option<Baton>)

  predicate Matches(guest: Guest, presented: Option<Baton>) {
    if guest.generation == 0 then presented == None else presented == Some(guest.baton)
  }

  /** `valid` is `requests_valid`, `rotated` the new baton unless `getrandom` failed, and `closes`
    * whether one of the requests closed the stream. */
  function Served(guest: Guest, presented: Option<Baton>, valid: bool, rotated: Option<Baton>, closes: bool): Guest {
    if !Matches(guest, presented) || !valid || guest.closed || rotated.None? then guest
    else Guest((guest.generation + 1) % GENERATIONS, rotated.value, closes)
  }

  function ReplyTo(guest: Guest, presented: Option<Baton>, valid: bool, rotated: Option<Baton>, closes: bool): Reply {
    if !Matches(guest, presented) || !valid || guest.closed then Refused
    else if rotated.None? then Broken
    else Answered(if closes then None else Some(rotated.value))
  }

  class GuestStream {
    var generation: nat
    var baton: Baton
    var closed: bool

    constructor ()
      ensures Value() == FRESH_GUEST
    {
      generation, baton, closed := 0, "", false;
    }

    function Value(): Guest
      reads this
    {
      Guest(generation, baton, closed)
    }

    method Pipeline(presented: Option<Baton>, valid: bool, rotated: Option<Baton>, closes: seq<bool>) returns (reply: Reply)
      modifies this
      ensures reply == ReplyTo(old(Value()), presented, valid, rotated, true in closes)
      ensures Value() == Served(old(Value()), presented, valid, rotated, true in closes)
    {
      var matches := if generation == 0 then presented == None else presented == Some(baton);
      if !matches || !valid || closed {
        return Refused;
      }
      if rotated.None? {
        return Broken;
      }
      baton := rotated.value;
      for index := 0 to |closes|
        invariant baton == rotated.value && generation == old(generation)
        invariant closed <==> true in closes[..index]
      {
        assert closes[..index + 1] == closes[..index] + [closes[index]];
        // A closed stream answers every further request with an error.
        if !closed && closes[index] {
          closed := true;
        }
      }
      assert closes[..|closes|] == closes;
      generation := (generation + 1) % GENERATIONS;
      reply := Answered(if closed then None else Some(baton));
    }
  }
}
