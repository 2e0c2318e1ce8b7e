/** Whole runs of the log forwarder: what the tenant wrote against what went out. */
module GuestLogRuns {
  import opened Prelude
  import opened GuestLogs

  datatype Call = Write(stream: OutputStream, bytes: seq<Byte>, kernel: Kernel) | Service(kernel: Kernel)

  datatype State = State(forwarder: Forwarder, frames: seq<Frame>, written: seq<Byte>)

  function Initial(k: Kernel): State {
    State(Initialized(k), [], [])
  }

  function Apply(s: State, call: Call): State {
    match call
    case Service(k) => s.(forwarder := Servicing(s.forwarder, k))
    case Write(stream, bytes, k) =>
      var (forwarder, sent) := Forwarding(s.forwarder, stream, bytes, k);
      State(forwarder, s.frames + sent, s.written + bytes)
  }

  ghost predicate IsRun(run: seq<State>, calls: seq<Call>, boot: Kernel) {
    && |run| == |calls| + 1 && run[0] == Initial(boot)
    && forall i {:trigger calls[i]} | 0 <= i < |calls| :: run[i + 1] == Apply(run[i], calls[i])
  }

  /** The bytes of the tenant's output a frame stands for. */
  function Length(frame: Frame): nat {
    match frame
    case Output(_, bytes) => |bytes|
    case Gap(dropped) => dropped
  }

  /** The bytes the first `n` frames stand for. */
  function Carried(frames: seq<Frame>, n: nat): nat
    requires n <= |frames|
  {
    if n == 0 then 0 else Carried(frames, n - 1) + Length(frames[n - 1])
  }

  lemma {:induction false} CarriedBefore(frames: seq<Frame>, more: seq<Frame>, n: nat)
    requires n <= |frames|
    ensures Carried(frames + more, n) == Carried(frames, n)
  {
    if n > 0 {
      CarriedBefore(frames, more, n - 1);
    }
  }

  /** The call drops output while the counter has no room for it. */
  predicate Overflows(s: State, call: Call) {
    call.Write?
    && var (after, sent) := Forwarding(s.forwarder, call.stream, call.bytes, call.kernel);
       && (sent == [] || sent[|sent| - 1].Gap?)
       && |call.bytes| > UINT64_MAX - if sent == [] then s.forwarder.droppedBytes else 0
  }

  // ----- One call

  lemma ReadyingKeeps(f: Forwarder, k: Kernel)
    requires Valid(f)
    ensures Valid(Readying(f, k)) && Readying(f, k).droppedBytes == f.droppedBytes
  {
  }

  /** A call sends the whole gap first, if there is one, and then the output; what it does not send it
    * counts. */
  lemma ForwardingTells(f: Forwarder, stream: OutputStream, bytes: seq<Byte>, k: Kernel)
    requires Valid(f)
    ensures var (after, sent) := Forwarding(f, stream, bytes, k);
            && Valid(after)
            && var gap := if f.droppedBytes > 0 then [Gap(f.droppedBytes)] else [];
               || (sent == [] && after.droppedBytes == Counted(f.droppedBytes, |bytes|))
               || (sent == gap && after.droppedBytes == Counted(0, |bytes|))
               || (sent == gap + [Output(stream, bytes)] && after.droppedBytes == 0)
  {
    ReadyingKeeps(f, k);
  }

  predicate BecomesReady(f: Forwarder, k: Kernel) {
    match f.connection
    case Connected => true
    case Connecting => k.writable && !k.failed
    case Disconnected =>
      && k.nowMs >= f.retryAfterMs && k.socket
      && (k.connect == Established || (k.connect == InProgress && k.writable && !k.failed))
  }

  /** Output goes out exactly if there is a connection, or one comes about in this call, the gap goes out before
    * it if there is one, and it fits a frame the socket takes. Otherwise it is counted, and a connection
    * that failed it is given up for a quarter of a second. */
  lemma OutputIsSent(f: Forwarder, stream: OutputStream, bytes: seq<Byte>, k: Kernel)
    requires Valid(f)
    ensures var (after, sent) := Forwarding(f, stream, bytes, k);
            var reaches := BecomesReady(f, k) && (f.droppedBytes == 0 || k.gapSent);
            var fits := |bytes| <= 0xffff_ffff && k.outputSent;
            && sent == (if reaches && f.droppedBytes > 0 then [Gap(f.droppedBytes)] else [])
                       + (if reaches && fits then [Output(stream, bytes)] else [])
            && after.droppedBytes ==
                 (if reaches && fits then 0
                  else Min(UINT64_MAX, (if reaches then 0 else f.droppedBytes) + |bytes|))
            && (after.connection == Connected <==> reaches && fits)
            && (BecomesReady(f, k) && !(reaches && fits) ==>
                  after.connection == Disconnected && after.retryAfterMs == k.nowMs + 250)
  {
  }

  /** Until then no call tries to connect again. */
  lemma QuietUntilRetry(f: Forwarder, k: Kernel)
    requires Valid(f) && f.connection == Disconnected && k.nowMs < f.retryAfterMs
    ensures Readying(f, k) == f && Servicing(f, k) == f
  {
  }

  /** A service call gives up a connection the host has closed, and has then, or keeps, what can be had. */
  lemma ServiceReconnects(f: Forwarder, k: Kernel)
    requires Valid(f)
    ensures var after := Servicing(f, k);
            && after.droppedBytes == f.droppedBytes
            && (f.connection == Connected && k.hangup ==>
                  after == f.(socketOpen := false, connection := Disconnected, retryAfterMs := k.nowMs + 250))
            && (!(f.connection == Connected && k.hangup) ==> (after.connection == Connected <==> BecomesReady(f, k)))
  {
  }

  /** What was written and is in no frame and not counted either. */
  function Missing(s: State): int {
    |s.written| - Carried(s.frames, |s.frames|) - s.forwarder.droppedBytes
  }

  lemma CarriedWith(frames: seq<Frame>, sent: seq<Frame>)
    requires |sent| <= 2
    ensures Carried(frames + sent, |frames| + |sent|) == Carried(frames, |frames|)
         + (if |sent| > 0 then Length(sent[0]) else 0) + (if |sent| > 1 then Length(sent[1]) else 0)
  {
    CarriedBefore(frames, sent, |frames|);
    var all := frames + sent;
    if |sent| > 0 {
      assert Carried(all, |frames| + 1) == Carried(all, |frames|) + Length(all[|frames|]);
    }
    if |sent| > 1 {
      assert Carried(all, |frames| + 2) == Carried(all, |frames| + 1) + Length(all[|frames| + 1]);
    }
  }

  lemma WriteBalances(s: State, stream: OutputStream, bytes: seq<Byte>, k: Kernel)
    requires Valid(s.forwarder)
    ensures var call := Write(stream, bytes, k);
            && Missing(Apply(s, call)) >= Missing(s)
            && (Missing(Apply(s, call)) == Missing(s) <==> !Overflows(s, call))
  {
    var (after, sent) := Forwarding(s.forwarder, stream, bytes, k);
    ForwardingTells(s.forwarder, stream, bytes, k);
    CarriedWith(s.frames, sent);
  }

  lemma CallBalances(s: State, call: Call)
    requires Valid(s.forwarder)
    ensures Valid(Apply(s, call).forwarder)
    ensures Missing(Apply(s, call)) >= Missing(s)
    ensures Missing(Apply(s, call)) == Missing(s) <==> !Overflows(s, call)
  {
    match call
    case Service(k) =>
      ReadyingKeeps(if s.forwarder.connection == Connected && k.hangup then Disconnecting(s.forwarder, k) else s.forwarder, k);
    case Write(stream, bytes, k) =>
      ForwardingTells(s.forwarder, stream, bytes, k);
      WriteBalances(s, stream, bytes, k);
  }

  // ----- Runs

  lemma {:induction false} EveryState(run: seq<State>, calls: seq<Call>, boot: Kernel, i: nat)
    requires IsRun(run, calls, boot) && i < |run|
    ensures Valid(run[i].forwarder) && Missing(run[i]) >= 0
    ensures Missing(run[i]) == 0 <==> forall j {:trigger calls[j]} | 0 <= j < i :: !Overflows(run[j], calls[j])
  {
    if i > 0 {
      EveryState(run, calls, boot, i - 1);
      CallBalances(run[i - 1], calls[i - 1]);
    }
  }

  /** Every byte the tenant wrote was sent, is in a gap that was sent, or is still counted, exactly unless
    * the 64-bit counter once had no room for what was dropped. */
  lemma OutputIsAccountedFor(run: seq<State>, calls: seq<Call>, boot: Kernel, i: nat)
    requires IsRun(run, calls, boot) && i < |run|
    ensures |run[i].written| == Carried(run[i].frames, |run[i].frames|) + run[i].forwarder.droppedBytes <==>
      forall j {:trigger calls[j]} | 0 <= j < i :: !Overflows(run[j], calls[j])
  {
    EveryState(run, calls, boot, i);
  }

  /** A host that is never reached. */
  const DEAF := Kernel(0, false, Unreachable, false, false, false, false, false)

  /** As many bytes as the counter can count, and one more. */
  function OverflowingCalls(): seq<Call> {
    [Write(Stdout, seq(UINT64_MAX, _ => 0), DEAF), Write(Stdout, [0], DEAF)]
  }

  function OverflowingRun(): seq<State> {
    var calls := OverflowingCalls();
    var first := Apply(Initial(DEAF), calls[0]);
    [Initial(DEAF), first, Apply(first, calls[1])]
  }

  /** So there is a run at whose end a byte is in no frame and not counted either. */
  lemma OutputCanGoUncounted()
    ensures IsRun(OverflowingRun(), OverflowingCalls(), DEAF)
    ensures Overflows(OverflowingRun()[1], OverflowingCalls()[1])
    ensures Missing(OverflowingRun()[2]) == 1
  {
    var run := OverflowingRun();
    assert run[1].forwarder.droppedBytes == UINT64_MAX && run[1].frames == [];
    assert run[2].forwarder.droppedBytes == UINT64_MAX && run[2].frames == [];
    assert |run[2].written| == UINT64_MAX + 1;
  }

  lemma {:induction false} WrittenGrows(run: seq<State>, calls: seq<Call>, boot: Kernel, i: nat, j: nat)
    requires IsRun(run, calls, boot) && i <= j < |run|
    ensures |run[i].written| <= |run[j].written|
  {
    if i < j {
      WrittenGrows(run, calls, boot, i, j - 1);
      assert run[j] == Apply(run[j - 1], calls[j - 1]);
    }
  }

  /** It has room as long as no more was written than it can count. */
  lemma {:induction false} RoomForAll(run: seq<State>, calls: seq<Call>, boot: Kernel, i: nat)
    requires IsRun(run, calls, boot) && i < |run| && |run[i].written| <= UINT64_MAX
    ensures |run[i].written| == Carried(run[i].frames, |run[i].frames|) + run[i].forwarder.droppedBytes
  {
    if i > 0 {
      WrittenGrows(run, calls, boot, i - 1, i);
      RoomForAll(run, calls, boot, i - 1);
      EveryState(run, calls, boot, i - 1);
      CallBalances(run[i - 1], calls[i - 1]);
      assert run[i] == Apply(run[i - 1], calls[i - 1]);
    }
  }

  /** An output frame's bytes are those of the tenant's output from where the frames before it end. */
  ghost predicate InPlace(s: State, n: nat)
    requires n < |s.frames|
  {
    s.frames[n].Output? ==>
      var offset := Carried(s.frames, n);
      && offset + |s.frames[n].bytes| <= |s.written|
      && s.written[offset..offset + |s.frames[n].bytes|] == s.frames[n].bytes
  }

  lemma StaysInPlace(s: State, frames: seq<Frame>, written: seq<Byte>, forwarder: Forwarder, n: nat)
    requires n < |s.frames| && InPlace(s, n)
    ensures InPlace(State(forwarder, s.frames + frames, s.written + written), n)
  {
    CarriedBefore(s.frames, frames, n);
    if s.frames[n].Output? {
      var offset, length := Carried(s.frames, n), |s.frames[n].bytes|;
      assert (s.written + written)[offset..offset + length] == s.written[offset..offset + length];
    }
  }

  lemma SentInPlace(s: State, stream: OutputStream, bytes: seq<Byte>, k: Kernel, n: nat)
    requires Valid(s.forwarder) && Missing(s) == 0
    requires var s' := Apply(s, Write(stream, bytes, k));
             |s.frames| <= n < |s'.frames| && s'.frames[n].Output?
    ensures InPlace(Apply(s, Write(stream, bytes, k)), n)
  {
    var s' := Apply(s, Write(stream, bytes, k));
    var (after, sent) := Forwarding(s.forwarder, stream, bytes, k);
    ForwardingTells(s.forwarder, stream, bytes, k);
    CarriedBefore(s.frames, sent, |s.frames|);
    if s.forwarder.droppedBytes > 0 {
      assert Carried(s'.frames, |s.frames| + 1) == Carried(s'.frames, |s.frames|) + Length(s'.frames[|s.frames|]);
    }
    assert s'.written[|s.written|..] == bytes;
  }

  /** Reading the frames in order tells where in the tenant's output each stands, gaps included. */
  lemma {:induction false} FramesAreInPlace(run: seq<State>, calls: seq<Call>, boot: Kernel, i: nat, n: nat)
    requires IsRun(run, calls, boot) && i < |run| && n < |run[i].frames|
    requires forall j {:trigger calls[j]} | 0 <= j < i :: !Overflows(run[j], calls[j])
    ensures InPlace(run[i], n)
  {
    assert i > 0;
    var s, call := run[i - 1], calls[i - 1];
    EveryState(run, calls, boot, i - 1);
    if n < |s.frames| {
      FramesAreInPlace(run, calls, boot, i - 1, n);
      if call.Write? {
        var (after, sent) := Forwarding(s.forwarder, call.stream, call.bytes, call.kernel);
        StaysInPlace(s, sent, call.bytes, after, n);
      }
    } else if run[i].frames[n].Output? {
      SentInPlace(s, call.stream, call.bytes, call.kernel, n);
    }
  }
}
