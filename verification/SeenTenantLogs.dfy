/** packages/app-operations/src/seen-tenant-logs.ts
  *
  * Streams replay what they overlap after reconnecting, and only the records of the newest instant are
  * remembered. A record's `_time` is a timestamp, so it parses to a number of milliseconds.
  */
module SeenTenantLogs {
  import opened Prelude

  datatype LogRecord = LogRecord(at: int, sourceId: string, sequence: nat)

  function Key(record: LogRecord): string {
    record.sourceId + "/" + Decimal(record.sequence)
  }

  /** What has been seen: nothing, or the newest instant and the keys admitted at it. */
  datatype Seen = Seen(newest: Option<int>, keys: set<string>)

  predicate Admits(seen: Seen, record: LogRecord) {
    seen.newest.None? || record.at > seen.newest.value || (record.at == seen.newest.value && Key(record) !in seen.keys)
  }

  function After(seen: Seen, record: LogRecord): Seen {
    if seen.newest.None? || record.at > seen.newest.value then Seen(Some(record.at), {Key(record)})
    else if record.at == seen.newest.value then seen.(keys := seen.keys + {Key(record)})
    else seen
  }

  /** After all of these records. */
  function SeenAfter(records: seq<LogRecord>): Seen {
    if records == [] then Seen(None, {})
    else After(SeenAfter(records[..|records| - 1]), records[|records| - 1])
  }

  class SeenLogs {
    var newest: Option<int>
    var keysAtNewest: set<string>

    function Value(): Seen
      reads this
    {
      Seen(newest, keysAtNewest)
    }

    constructor ()
      ensures Value() == SeenAfter([])
    {
      newest, keysAtNewest := None, {};
    }

    method Admit(record: LogRecord) returns (admitted: bool)
      requires newest.None? ==> keysAtNewest == {}
      modifies this
      ensures admitted <==> Admits(old(Value()), record)
      ensures Value() == After(old(Value()), record) && newest.Some?
    {
      if newest.Some? && record.at < newest.value {
        return false;
      }
      if newest.None? || record.at > newest.value {
        newest := Some(record.at);
        keysAtNewest := {};
      }
      var key := Key(record);
      if key in keysAtNewest {
        assert keysAtNewest + {key} == keysAtNewest;
        return false;
      }
      keysAtNewest := keysAtNewest + {key};
      admitted := true;
    }
  }

  // ----- A key tells source and sequence apart

  lemma {:induction false} DecimalDigitsOnly(n: nat)
    ensures |Decimal(n)| > 0 && '/' !in Decimal(n)
  {
    if n >= 10 {
      DecimalDigitsOnly(n / 10);
    }
  }

  lemma {:induction false} DecimalInjective(m: nat, n: nat)
    requires Decimal(m) == Decimal(n)
    ensures m == n
  {
    DecimalEnds(m);
    DecimalEnds(n);
    if m >= 10 && n >= 10 {
      DecimalInjective(m / 10, n / 10);
    }
  }

  lemma DecimalEnds(n: nat)
    ensures var text := Decimal(n);
            && |text| > 0 && text[|text| - 1] == ('0' as int + n % 10) as char
            && (n >= 10 ==> text[..|text| - 1] == Decimal(n / 10) && |text| > 1) && (n < 10 ==> |text| == 1)
  {
    if n >= 10 {
      DecimalDigitsOnly(n / 10);
    }
  }

  lemma KeyInjective(a: LogRecord, b: LogRecord)
    ensures Key(a) == Key(b) <==> a.sourceId == b.sourceId && a.sequence == b.sequence
  {
    if Key(a) == Key(b) {
      DecimalDigitsOnly(a.sequence);
      DecimalDigitsOnly(b.sequence);
      SameTail(a.sourceId, Decimal(a.sequence), b.sourceId, Decimal(b.sequence));
      DecimalInjective(a.sequence, b.sequence);
    }
  }

  lemma SameTail(a: string, m: string, b: string, n: string)
    requires a + "/" + m == b + "/" + n && '/' !in m && '/' !in n
    ensures a == b && m == n
  {
    var text := a + "/" + m;
    assert text[|a|] == '/' && text[|b|] == '/';
    assert forall k | |a| < k < |text| :: text[k] == m[k - |a| - 1];
    assert forall k | |b| < k < |text| :: text[k] == n[k - |b| - 1];
    assert |a| == |b|;
    assert a == text[..|a|] && b == text[..|b|];
    assert m == text[|a| + 1..] && n == text[|b| + 1..];
  }

  // ----- What is admitted

  /** The newest instant so far, and exactly the keys that came at it. */
  lemma {:induction false} SeenTells(records: seq<LogRecord>)
    ensures var seen := SeenAfter(records);
            && (seen.newest.None? <==> records == [])
            && (forall i | 0 <= i < |records| :: records[i].at <= seen.newest.value)
            && (forall i | 0 <= i < |records| && records[i].at == seen.newest.value :: Key(records[i]) in seen.keys)
            && (forall key | key in seen.keys ::
                  exists i :: 0 <= i < |records| && records[i].at == seen.newest.value && Key(records[i]) == key)
  {
    if records != [] {
      var last := |records| - 1;
      var before := records[..last];
      SeenTells(before);
      var was, seen := SeenAfter(before), SeenAfter(records);
      forall key | key in seen.keys
        ensures exists i :: 0 <= i < |records| && records[i].at == seen.newest.value && Key(records[i]) == key
      {
        if key == Key(records[last]) && records[last].at == seen.newest.value {
        } else {
          var i :| 0 <= i < last && before[i].at == was.newest.value && Key(before[i]) == key;
          assert records[i] == before[i];
        }
      }
      assert forall i | 0 <= i < last :: records[i] == before[i];
    }
  }

  /** A record is admitted exactly when none before it was of a later instant and none was itself: each is
    * admitted at most once, and one that is new is lost only to a later instant. */
  lemma AdmitsOnceInOrder(records: seq<LogRecord>, record: LogRecord)
    ensures Admits(SeenAfter(records), record) <==>
      (forall i | 0 <= i < |records| :: records[i].at <= record.at) && record !in records
  {
    var seen := SeenAfter(records);
    SeenTells(records);
    forall i | 0 <= i < |records|
      ensures Key(records[i]) == Key(record) && records[i].at == record.at <==> records[i] == record
    {
      KeyInjective(records[i], record);
    }
    if records != [] && record.at < seen.newest.value {
      NewestCame(records);
    }
  }

  lemma {:induction false} NewestCame(records: seq<LogRecord>)
    requires records != []
    ensures SeenAfter(records).newest.Some?
    ensures exists i :: 0 <= i < |records| && records[i].at == SeenAfter(records).newest.value
  {
    var last := |records| - 1;
    var before := records[..last];
    SeenTells(before);
    SeenTells(records);
    if before != [] {
      NewestCame(before);
      var i :| 0 <= i < last && before[i].at == SeenAfter(before).newest.value;
      assert records[i] == before[i];
    }
    assert records[last] == records[|records| - 1];
  }
}
