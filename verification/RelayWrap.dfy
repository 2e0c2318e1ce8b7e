/** The one case in which the guest refuses what the relay sends, reached by a run: a client that keeps
  * one stream until its guest's 64-bit generation wraps.
  */
module RelayWrap {
  import opened Prelude
  import opened HranaStreams
  import opened HranaPipeline
  import opened HranaRelay
  import opened RelayProtocol
  import opened RelayRuns

  const SCOPE := "scope"
  const ROTATED := "baton"

  function Requests(n: nat): map<RequestId, Phase> {
    map r: nat | 0 <= r < n :: Replied(Some(r))
  }

  /** After `n` pipelines on the stream that request 0 opened: the next one goes with baton `n - 1`. */
  function Settled(n: nat): State
    requires n > 0
  {
    State(
      Store(1, map[n - 1 := 0], {0}, map[], false, map[0 := Stream(SCOPE, false, Some(n - 1))], n),
      map[0 := ROTATED],
      map[0 := Session(Guest(n % GENERATIONS, ROTATED, false), n)],
      map[],
      Requests(n))
  }

  /** Request `n` has the stream. */
  function Held(n: nat): State
    requires n > 0
  {
    var s := Settled(n);
    s.(store := s.store.(batons := map[], streams := map[0 := Stream(SCOPE, false, None)]),
       requests := s.requests[n := Acquired(0)])
  }

  /** Its pipeline is on its way. */
  function Sending(n: nat): State
    requires n > 0
  {
    Held(n).(wire := map[0 := Sent(Some(ROTATED))], requests := Requests(n)[n := Calling(0)])
  }

  /** The guest has answered it. */
  function Answering(n: nat): State
    requires n > 0
  {
    Sending(n).(wire := map[0 := Back(Answered(Some(ROTATED)))],
                sessions := map[0 := Session(Guest((n + 1) % GENERATIONS, ROTATED, false), n + 1)])
  }

  lemma Holds(n: nat)
    requires n > 0
    ensures Next(Settled(n), Held(n))
  {
    var s, action := Settled(n), Begin(n, Some(n - 1), SCOPE, false);
    assert Enabled(s, action);
    var s' := Apply(s, action);
    assert s'.store.batons == map[];
    assert s'.store.streams == map[0 := Stream(SCOPE, false, None)];
    assert s' == Held(n);
  }

  lemma Sends(n: nat)
    requires n > 0
    ensures Next(Held(n), Sending(n))
  {
    var s, action := Held(n), Send(n, false);
    assert Enabled(s, action);
    assert Apply(s, action).requests == Sending(n).requests;
    assert Apply(s, action) == Sending(n);
  }

  lemma Answers(n: nat)
    requires 0 < n < GENERATIONS
    ensures Next(Sending(n), Answering(n))
  {
    var s, action := Sending(n), Serve(0, true, Some(ROTATED), false);
    assert Enabled(s, action);
    NextGeneration(n);
    assert Apply(s, action) == Answering(n);
  }

  lemma Settles(n: nat)
    requires n > 0
    ensures Next(Answering(n), Settled(n + 1))
  {
    var s, action := Answering(n), Receive(n, true, false);
    assert Enabled(s, action);
    var s' := Apply(s, action);
    assert s'.requests == Requests(n + 1);
    assert s'.wire == map[];
    assert s'.guestBatons == map[0 := ROTATED];
    assert s'.store == Settled(n + 1).store;
    assert s' == Settled(n + 1);
  }

  // ----- The first pipeline

  function Opening0(): State {
    Initial(1).(store := Initial(1).store.(opening := map[0 := Opening(SCOPE, false)]), requests := map[0 := Starting])
  }

  function Opened0(): State {
    State(
      Store(1, map[], {0}, map[], false, map[0 := Stream(SCOPE, false, None)], 0),
      map[], map[0 := Session(FRESH_GUEST, 0)], map[], map[0 := Acquired(0)])
  }

  function Sent0(): State {
    Opened0().(wire := map[0 := Sent(None)], requests := map[0 := Calling(0)])
  }

  function Answered0(): State {
    Sent0().(wire := map[0 := Back(Answered(Some(ROTATED)))], sessions := map[0 := Session(Guest(1, ROTATED, false), 1)])
  }

  lemma Opens0()
    ensures Next(Initial(1), Opening0()) && Next(Opening0(), Opened0())
  {
    var s, action := Initial(1), Begin(0, None, SCOPE, false);
    assert Enabled(s, action) && Apply(s, action) == Opening0();
    var open := SessionOpened(0, false);
    assert Enabled(Opening0(), open);
    var s' := Apply(Opening0(), open);
    assert s'.store.opening == map[] && s'.store.live == {0};
    assert s' == Opened0();
  }

  lemma Sends0()
    ensures Next(Opened0(), Sent0()) && Next(Sent0(), Answered0())
  {
    var send, serve := Send(0, false), Serve(0, true, Some(ROTATED), false);
    assert Enabled(Opened0(), send) && Apply(Opened0(), send) == Sent0();
    assert Enabled(Sent0(), serve) && Apply(Sent0(), serve) == Answered0();
  }

  lemma Settles0()
    ensures Next(Answered0(), Settled(1))
  {
    var action := Receive(0, true, false);
    assert Enabled(Answered0(), action);
    var s' := Apply(Answered0(), action);
    assert s'.requests == Requests(1);
    assert s'.wire == map[];
    assert s'.store == Settled(1).store;
    assert s' == Settled(1);
  }

  // ----- The run

  lemma Extends(run: seq<State>, s: State)
    requires IsRun(run, 1) && Next(run[|run| - 1], s)
    ensures IsRun(run + [s], 1)
  {
    var longer := run + [s];
    forall i: nat | i < |longer| - 1
      ensures StepAt(longer, i)
    {
      if i < |run| - 1 {
        assert StepAt(run, i);
        assert longer[i] == run[i] && longer[i + 1] == run[i + 1];
      } else {
        assert longer[i] == run[|run| - 1] && longer[i + 1] == s;
      }
    }
  }

  lemma {:induction false} RunTo(n: nat) returns (run: seq<State>)
    requires 0 < n <= GENERATIONS
    ensures IsRun(run, 1) && run[|run| - 1] == Settled(n)
  {
    if n == 1 {
      run := [Initial(1)];
      Opens0();
      Sends0();
      Settles0();
      Extends(run, Opening0());
      run := run + [Opening0()];
      Extends(run, Opened0());
      run := run + [Opened0()];
      Extends(run, Sent0());
      run := run + [Sent0()];
      Extends(run, Answered0());
      run := run + [Answered0()];
      Extends(run, Settled(1));
      run := run + [Settled(1)];
    } else {
      run := RunTo(n - 1);
      Holds(n - 1);
      Sends(n - 1);
      Answers(n - 1);
      Settles(n - 1);
      Extends(run, Held(n - 1));
      run := run + [Held(n - 1)];
      Extends(run, Sending(n - 1));
      run := run + [Sending(n - 1)];
      Extends(run, Answering(n - 1));
      run := run + [Answering(n - 1)];
      Extends(run, Settled(n));
      run := run + [Settled(n)];
    }
  }

  /** After 2^64 pipelines the relay sends the baton it was given, and the guest expects none. */
  lemma WrappedGuestRefuses() returns (run: seq<State>)
    ensures IsRun(run, 1)
    ensures var s := run[|run| - 1];
            && 0 in s.wire && s.wire[0].Sent? && 0 in s.sessions
            && s.wire[0].presented == Some(s.sessions[0].guest.baton)
            && !Matches(s.sessions[0].guest, s.wire[0].presented)
  {
    run := RunTo(GENERATIONS);
    Holds(GENERATIONS);
    Sends(GENERATIONS);
    Extends(run, Held(GENERATIONS));
    run := run + [Held(GENERATIONS)];
    Extends(run, Sending(GENERATIONS));
    run := run + [Sending(GENERATIONS)];
  }
}
