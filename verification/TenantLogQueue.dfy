/** apps/agent/src/services/tenant-log-queue.service.ts
  *
  * Log events waiting for the store, in two queues under one byte budget. Each `yield*` is one
  * method of the class, apart from `Take`, whose three are also steps of their own in
  * `LogQueueProtocol`.
  */
module TenantLogQueue {
  import opened Prelude

  const MAX_BUFFERED_BYTES := 8_388_608
  const OVERHEAD_BYTES_PER_EVENT := 256

  /** `text` stands for the source's UTF-16 code units, whose number is its length. */
  datatype Event =
    | Data(sourceId: string, sequence: nat, text: string)
    | Gap(sourceId: string, sequence: nat, droppedBytes: nat)

  function SizeOf(event: Event): nat {
    (if event.Data? then |event.text| else 0) + OVERHEAD_BYTES_PER_EVENT
  }

  function Total(events: seq<Event>): nat {
    if events == [] then 0 else Total(events[..|events| - 1]) + SizeOf(events[|events| - 1])
  }

  lemma {:induction false} TotalOf(a: seq<Event>, b: seq<Event>)
    ensures Total(a + b) == Total(a) + Total(b)
  {
    if b == [] {
      assert a + b == a;
    } else {
      var last := |b| - 1;
      TotalOf(a, b[..last]);
      assert (a + b)[..|a + b| - 1] == a + b[..last];
    }
  }

  /** How many events one batch takes: at least one, and no more than fit. */
  function Fitting(queued: seq<Event>, maxBytes: int, from: nat): (k: nat)
    requires from <= |queued|
    ensures from <= k <= |queued|
    decreases |queued| - from
  {
    if from == |queued| || (from > 0 && Total(queued[..from]) + SizeOf(queued[from]) > maxBytes) then from
    else Fitting(queued, maxBytes, from + 1)
  }

  function BatchLength(queued: seq<Event>, maxBytes: int): nat {
    Fitting(queued, maxBytes, 0)
  }

  lemma {:induction false} TotalGrows(queued: seq<Event>, i: nat, j: nat)
    requires i <= j <= |queued|
    ensures Total(queued[..i]) + OVERHEAD_BYTES_PER_EVENT * (j - i) <= Total(queued[..j])
  {
    if i < j {
      TotalGrows(queued, i, j - 1);
      assert queued[..j][..j - 1] == queued[..j - 1];
    }
  }

  lemma {:induction false} FittingIsLongest(queued: seq<Event>, maxBytes: int, from: nat)
    requires from <= |queued| && (from <= 1 || Total(queued[..from]) <= maxBytes)
    ensures var k := Fitting(queued, maxBytes, from);
            && (queued != [] ==> k > 0)
            && (k <= 1 || Total(queued[..k]) <= maxBytes)
            && (k < |queued| ==> Total(queued[..k + 1]) > maxBytes)
    decreases |queued| - from
  {
    if from < |queued| {
      assert queued[..from + 1][..from] == queued[..from];
      if !(from > 0 && Total(queued[..from]) + SizeOf(queued[from]) > maxBytes) {
        FittingIsLongest(queued, maxBytes, from + 1);
      }
    }
  }

  /** A batch is the longest prefix of what is queued that fits, or the first event alone when not even
    * that fits; so whatever is queued, something leaves. */
  lemma BatchIsLongestPrefix(queued: seq<Event>, maxBytes: int, n: nat)
    requires n <= |queued|
    ensures n == BatchLength(queued, maxBytes) <==>
      && (queued != [] ==> n > 0)
      && (n <= 1 || Total(queued[..n]) <= maxBytes)
      && forall m | n < m <= |queued| :: Total(queued[..m]) > maxBytes
  {
    var k := BatchLength(queued, maxBytes);
    FittingIsLongest(queued, maxBytes, 0);
    forall m | k < m <= |queued|
      ensures Total(queued[..m]) > maxBytes
    {
      TotalGrows(queued, k + 1, m);
    }
  }

  class LogQueue {
    var pending: seq<Event>
    var owed: seq<Event>
    var bufferedBytes: int

    constructor ()
      ensures pending == [] && owed == [] && bufferedBytes == 0
    {
      pending, owed, bufferedBytes := [], [], 0;
    }

    static method TotalBytes(events: seq<Event>) returns (total: nat)
      ensures total == Total(events)
    {
      total := 0;
      for index := 0 to |events|
        invariant total == Total(events[..index])
      {
        assert events[..index + 1][..index] == events[..index];
        total := total + SizeOf(events[index]);
      }
      assert events[..|events|] == events;
    }

    /** The first block of `publish`. */
    method Admit(event: Event) returns (accepted: bool)
      modifies this`bufferedBytes
      ensures accepted <==> old(bufferedBytes) + SizeOf(event) <= MAX_BUFFERED_BYTES
      ensures bufferedBytes == old(bufferedBytes) + if accepted then SizeOf(event) else 0
    {
      var bytes := SizeOf(event);
      accepted := bufferedBytes + bytes <= MAX_BUFFERED_BYTES;
      if accepted {
        bufferedBytes := bufferedBytes + bytes;
      }
    }

    /** The second block of `publish`. */
    method Offer(event: Event)
      modifies this`pending
      ensures pending == old(pending) + [event]
    {
      pending := pending + [event];
    }

    method Take(maxBytes: int) returns (batch: seq<Event>)
      modifies this`pending, this`owed
      ensures pending == []
      ensures batch == (old(owed) + old(pending))[..BatchLength(old(owed) + old(pending), maxBytes)]
      ensures batch + owed == old(owed) + old(pending)
    {
      var queued := owed;
      owed := [];
      queued := queued + pending;
      pending := [];
      batch := [];
      ghost var length := BatchLength(queued, maxBytes);
      var bytes: nat, index: nat := 0, 0;
      while index < |queued|
        invariant index == |batch| <= |queued|
        invariant batch == queued[..index] && bytes == Total(batch)
        invariant length == Fitting(queued, maxBytes, index)
      {
        var size := SizeOf(queued[index]);
        if |batch| > 0 && bytes + size > maxBytes {
          break;
        }
        assert queued[..index + 1][..index] == queued[..index];
        bytes := bytes + size;
        batch := batch + [queued[index]];
        index := index + 1;
      }
      var rest := queued[index..];
      if |rest| > 0 {
        owed := owed + rest;
      }
    }

    method Release(events: seq<Event>)
      modifies this`bufferedBytes
      ensures bufferedBytes == old(bufferedBytes) - Total(events)
    {
      var total := TotalBytes(events);
      bufferedBytes := bufferedBytes - total;
    }

    method Restore(events: seq<Event>)
      modifies this`owed
      ensures owed == events + old(owed)
    {
      var stillOwed := owed;
      owed := [];
      owed := owed + (events + stillOwed);
    }
  }
}
