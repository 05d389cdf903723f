/**
  Properties of the reconnecting decorator: the general laws of the logical session, and
  the scenarios its tests exercise.
*/
module ReconnectionProperties {
  import opened Frames
  import opened Reconnection

  /** The frames of every base connection among the answers in `script`, in order. */
  function YieldedFrames(script: seq<ConnectOutcome>): seq<Frame>
  {
    if script == [] then []
    else
      (match script[0] case Connects(c) => c.frames case Refuses(_) => []) + YieldedFrames(script[1..])
  }

  /** How many answers in `script` are base connections. */
  function Connections(script: seq<ConnectOutcome>): nat
  {
    if script == [] then 0
    else (if script[0].Connects? then 1 else 0) + Connections(script[1..])
  }

  /** The latest error of an episode caused by `cause` once `k` retries were refused. */
  function LatestError(cause: Error, script: seq<ConnectOutcome>, k: nat): Error
    requires k <= |script|
    requires forall i :: 0 <= i < k ==> script[i].Refuses?
  {
    if k == 0 then cause else script[k - 1].error
  }

  lemma {:induction false} YieldedAppend(a: seq<ConnectOutcome>, b: seq<ConnectOutcome>)
    ensures YieldedFrames(a + b) == YieldedFrames(a) + YieldedFrames(b)
    ensures Connections(a + b) == Connections(a) + Connections(b)
    decreases |a|
  {
    if a != [] {
      assert (a + b)[0] == a[0];
      assert (a + b)[1..] == a[1..] + b;
      YieldedAppend(a[1..], b);
    } else {
      assert a + b == b;
    }
  }

  /**
    The answers an episode consumes are refusals, except that a reconnecting episode ends with
    the answer that returned its new connection; only that connection contributes frames.
  */
  lemma {:induction false} RetryYields(p: Policy, script: seq<ConnectOutcome>, e: Error, attempt: nat)
    ensures var ep := Retry(p, script, e, attempt);
      && (forall i :: 0 <= i < ep.retries && !(ep.end.Reconnected? && i == ep.retries - 1) ==> script[i].Refuses?)
      && (ep.end.Reconnected? ==> script[ep.retries - 1] == Connects(ep.end.connection))
      && YieldedFrames(script[..ep.retries]) == (if ep.end.Reconnected? then ep.end.connection.frames else [])
      && Connections(script[..ep.retries]) == (if ep.end.Reconnected? then 1 else 0)
    decreases |script|
  {
    var ep := Retry(p, script, e, attempt);
    if ep.retries == 0 {
      assert script[..0] == [];
    } else {
      var head := script[..ep.retries];
      assert head[0] == script[0];
      match script[0]
      case Connects(c) =>
        assert head[1..] == [];
      case Refuses(err) =>
        var tail := script[1..];
        RetryYields(p, tail, err, attempt + 1);
        assert head[1..] == tail[..ep.retries - 1];
        assert forall i :: 0 < i < |script| ==> script[i] == tail[i - 1];
    }
  }

  /**
    Recovery: after k refused retries, with reconnectWhen saying yes each time and attempts
    to spare, the next connection the base client returns ends the episode after k + 1 calls.
  */
  lemma {:induction false} RetryRecovers(p: Policy, script: seq<ConnectOutcome>, e: Error, attempt: nat, k: nat, c: Channel)
    requires attempt + k < p.maxAttempts
    requires k < |script| && script[k] == Connects(c)
    requires forall i :: 0 <= i < k ==> script[i].Refuses?
    requires forall i :: 0 <= i <= k ==> p.reconnectWhen(LatestError(e, script, i), attempt + i)
    ensures Retry(p, script, e, attempt) == Episode(Reconnected(c), k + 1)
    decreases k
  {
    assert p.reconnectWhen(LatestError(e, script, 0), attempt);
    if k > 0 {
      var tail := script[1..];
      forall i | 0 <= i <= k - 1
        ensures LatestError(script[0].error, tail, i) == LatestError(e, script, i + 1)
      {
      }
      forall i | 0 <= i <= k - 1
        ensures p.reconnectWhen(LatestError(script[0].error, tail, i), attempt + 1 + i)
      {
        assert p.reconnectWhen(LatestError(e, script, i + 1), attempt + (i + 1));
      }
      RetryRecovers(p, tail, script[0].error, attempt + 1, k - 1, c);
    }
  }

  /** After a base channel ends, the logical session shows exactly the frames of the later connections. */
  lemma {:induction false} AfterStreamYields(p: Policy, end: StreamEnd, script: seq<ConnectOutcome>)
    ensures var t := AfterStream(p, end, script);
      && t.frames == YieldedFrames(script[..t.connectCalls])
      && t.reconnects == Connections(script[..t.connectCalls])
    decreases |script|
  {
    var t := AfterStream(p, end, script);
    if t.connectCalls == 0 {
      assert script[..0] == [];
    }
    match end
    case Completed =>
    case StaysOpen =>
    case FailedWith(e) =>
      var ep := Retry(p, script, e, 0);
      RetryYields(p, script, e, 0);
      if ep.end.Reconnected? {
        var c := ep.end.connection;
        var tail := script[ep.retries..];
        var rest := AfterStream(p, c.end, tail);
        AfterStreamYields(p, c.end, tail);
        assert script[..t.connectCalls] == script[..ep.retries] + tail[..rest.connectCalls];
        YieldedAppend(script[..ep.retries], tail[..rest.connectCalls]);
      }
  }

  /**
    Ordering: the logical stream shows the frames of the connections the base client
    returned, in order and unchanged, and afterReconnect runs once per connection after
    the first.
  */
  lemma SessionShowsYieldedFrames(p: Policy, script: seq<ConnectOutcome>)
    requires Session(p, script).Established?
    ensures var t := Session(p, script).trace;
      && t.frames == YieldedFrames(script[..t.connectCalls])
      && t.reconnects + 1 == Connections(script[..t.connectCalls])
  {
    var t := Session(p, script).trace;
    var c := script[0].connection;
    var tail := script[1..];
    var rest := AfterStream(p, c.end, tail);
    AfterStreamYields(p, c.end, tail);
    assert script[..t.connectCalls] == [script[0]] + tail[..rest.connectCalls];
    YieldedAppend([script[0]], tail[..rest.connectCalls]);
    assert [script[0]][1..] == [];
  }

  /** The first connect is never retried: its failure is the base client's own error. */
  lemma FirstConnectIsNotRetried(p: Policy, e: Error, rest: seq<ConnectOutcome>)
    ensures Session(p, [Refuses(e)] + rest) == ConnectFailed(e)
  {
  }

  /** A normal close is forwarded with its code and reason, nothing follows it, and no reconnection happens. */
  lemma NormalCloseEndsStream(p: Policy, frames: seq<Frame>, reason: string, rest: seq<ConnectOutcome>)
    ensures var last := Close(NormalClosure, reason);
      Session(p, [Connects(Channel(frames + [last], Completed))] + rest)
        == Established(Trace(frames + [last], Closed, 1, 0))
  {
  }

  /** After an error, one new base connect replaces the connection; its frames follow, and afterReconnect runs once. */
  lemma ReconnectsAfterError(p: Policy, frames: seq<Frame>, e: Error, next: Channel, rest: seq<ConnectOutcome>)
    requires p.maxAttempts >= 1 && p.reconnectWhen(e, 0)
    ensures var later := Forwarded(p, next, rest);
      Session(p, [Connects(Channel(frames, FailedWith(e))), Connects(next)] + rest)
        == Established(Trace(frames + later.frames, later.termination, 2 + later.connectCalls, 1 + later.reconnects))
  {
    var script := [Connects(Channel(frames, FailedWith(e))), Connects(next)] + rest;
    assert script[1..][1..] == rest;
  }

  /**
    After an error and k refused retries, the next connection the base client returns takes
    over: its frames follow, the session made k + 2 calls so far, and afterReconnect runs once.
  */
  lemma ReconnectsAfterRefusals(p: Policy, frames: seq<Frame>, e: Error, refusals: seq<ConnectOutcome>, next: Channel, rest: seq<ConnectOutcome>)
    requires |refusals| < p.maxAttempts
    requires forall i :: 0 <= i < |refusals| ==> refusals[i].Refuses?
    requires forall err: Error, k: nat :: p.reconnectWhen(err, k)
    ensures var later := Forwarded(p, next, rest);
      Session(p, [Connects(Channel(frames, FailedWith(e)))] + refusals + [Connects(next)] + rest)
        == Established(Trace(frames + later.frames, later.termination, 2 + |refusals| + later.connectCalls, 1 + later.reconnects))
  {
    var script := [Connects(Channel(frames, FailedWith(e)))] + refusals + [Connects(next)] + rest;
    var tail := script[1..];
    var k := |refusals|;
    assert tail == refusals + [Connects(next)] + rest;
    assert forall i :: 0 <= i < k ==> tail[i] == refusals[i];
    RetryRecovers(p, tail, e, 0, k, next);
    assert tail[k + 1..] == rest;
  }

  /** With every answer refused and reconnectWhen always true, an episode makes exactly maxAttempts retries. */
  lemma {:induction false} RetryExhausts(p: Policy, script: seq<ConnectOutcome>, e: Error, attempt: nat)
    requires attempt <= p.maxAttempts <= attempt + |script|
    requires forall i :: 0 <= i < p.maxAttempts - attempt ==> script[i].Refuses?
    requires forall err: Error, k: nat :: p.reconnectWhen(err, k)
    ensures Retry(p, script, e, attempt)
      == Episode(Exhausted(LatestError(e, script, p.maxAttempts - attempt)), p.maxAttempts - attempt)
    decreases p.maxAttempts - attempt
  {
    if attempt < p.maxAttempts {
      assert p.reconnectWhen(e, attempt);
      RetryExhausts(p, script[1..], script[0].error, attempt + 1);
    }
  }

  /**
    Exhaustion: maxAttempts refused retries end the logical stream with a
    ReconnectionException whose cause is the last retry's error; afterReconnect never runs.
  */
  lemma FailsAfterMaxAttempts(p: Policy, frames: seq<Frame>, e: Error, refusals: seq<ConnectOutcome>, rest: seq<ConnectOutcome>)
    requires |refusals| == p.maxAttempts
    requires forall i :: 0 <= i < |refusals| ==> refusals[i].Refuses?
    requires forall err: Error, k: nat :: p.reconnectWhen(err, k)
    ensures Session(p, [Connects(Channel(frames, FailedWith(e)))] + refusals + rest)
      == Established(Trace(frames, Failed(ReconnectionException(p.maxAttempts, LatestError(e, refusals, |refusals|))), 1 + p.maxAttempts, 0))
  {
    var script := [Connects(Channel(frames, FailedWith(e)))] + refusals + rest;
    var tail := script[1..];
    assert tail == refusals + rest;
    RetryExhausts(p, tail, e, 0);
    assert LatestError(e, tail, |refusals|) == LatestError(e, refusals, |refusals|);
  }

  /** reconnectWhen is asked with the latest error and the retries already made; the first "no" surfaces that error itself. */
  lemma {:induction false} RetryRejected(p: Policy, script: seq<ConnectOutcome>, e: Error, attempt: nat, k: nat)
    requires attempt + k < p.maxAttempts
    requires k <= |script|
    requires forall i :: 0 <= i < k ==> script[i].Refuses?
    requires forall i :: 0 <= i < k ==> p.reconnectWhen(LatestError(e, script, i), attempt + i)
    requires !p.reconnectWhen(LatestError(e, script, k), attempt + k)
    ensures Retry(p, script, e, attempt) == Episode(Rejected(LatestError(e, script, k)), k)
    decreases k
  {
    if k > 0 {
      assert p.reconnectWhen(LatestError(e, script, 0), attempt);
      var tail := script[1..];
      forall i | 0 <= i <= k - 1
        ensures LatestError(script[0].error, tail, i) == LatestError(e, script, i + 1)
      {
      }
      forall i | 0 <= i < k - 1
        ensures p.reconnectWhen(LatestError(script[0].error, tail, i), attempt + 1 + i)
      {
        assert p.reconnectWhen(LatestError(e, script, i + 1), attempt + (i + 1));
      }
      RetryRejected(p, tail, script[0].error, attempt + 1, k - 1);
    }
  }

  /** reconnectWhen refusing the first retry: no retry, and the stream fails with the disconnect error itself. */
  lemma FailsWhenPredicateRejects(p: Policy, frames: seq<Frame>, e: Error, rest: seq<ConnectOutcome>)
    requires p.maxAttempts >= 1 && !p.reconnectWhen(e, 0)
    ensures Session(p, [Connects(Channel(frames, FailedWith(e)))] + rest)
      == Established(Trace(frames, Failed(Rethrown(e)), 1, 0))
  {
  }

  /**
    Attempts are counted per episode: when every connection fails and every retry succeeds,
    each failure starts a fresh episode, so the session uses every connection whatever maxAttempts is.
  */
  lemma {:induction false} EpisodesStartAfresh(p: Policy, end: StreamEnd, script: seq<ConnectOutcome>)
    requires p.maxAttempts >= 1
    requires forall err: Error :: p.reconnectWhen(err, 0)
    requires end.FailedWith?
    requires forall i :: 0 <= i < |script| ==> script[i].Connects? && script[i].connection.end.FailedWith?
    ensures AfterStream(p, end, script) == Trace(YieldedFrames(script), Open, |script|, |script|)
    decreases |script|
  {
    assert p.reconnectWhen(end.error, 0);
    if script != [] {
      assert p.reconnectWhen(script[0].connection.end.error, 0);
      EpisodesStartAfresh(p, script[0].connection.end, script[1..]);
    }
  }

  /** The predicate of the test that allows two retries. */
  predicate BelowTwoAttempts(error: Error, attempt: nat)
  {
    attempt < 2
  }

  /** A frame on the base connection is forwarded with identical text. */
  lemma ForwardsTestFrame(p: Policy, rest: seq<ConnectOutcome>)
    ensures Session(p, [Connects(Channel([Text("test")], StaysOpen))] + rest)
      == Established(Trace([Text("test")], Open, 1, 0))
  {
  }

  /** The scenario of a connection that errs and is replaced by a second one. */
  lemma ReconnectScenario(p: Policy, rest: seq<ConnectOutcome>)
    requires p.maxAttempts >= 1 && p.reconnectWhen(Error("simulated error"), 0)
    ensures Session(p, [Connects(Channel([Text("test1")], FailedWith(Error("simulated error")))),
                        Connects(Channel([Text("test2")], StaysOpen))] + rest)
      == Established(Trace([Text("test1"), Text("test2")], Open, 2, 1))
  {
    ReconnectsAfterError(p, [Text("test1")], Error("simulated error"), Channel([Text("test2")], StaysOpen), rest);
  }

  /** Five refused retries with "error 0" to "error 4": the cause is "error 4". */
  lemma ExhaustionScenario(reconnectWhen: (Error, nat) -> bool, rest: seq<ConnectOutcome>)
    requires forall err: Error, k: nat :: reconnectWhen(err, k)
    ensures var refusals := [Refuses(Error("error 0")), Refuses(Error("error 1")), Refuses(Error("error 2")),
                             Refuses(Error("error 3")), Refuses(Error("error 4"))];
      Session(Policy(5, reconnectWhen), [Connects(Channel([Text("test1")], FailedWith(Error("simulated error"))))] + refusals + rest)
        == Established(Trace([Text("test1")], Failed(ReconnectionException(5, Error("error 4"))), 6, 0))
  {
    var refusals := [Refuses(Error("error 0")), Refuses(Error("error 1")), Refuses(Error("error 2")),
                     Refuses(Error("error 3")), Refuses(Error("error 4"))];
    FailsAfterMaxAttempts(Policy(5, reconnectWhen), [Text("test1")], Error("simulated error"), refusals, rest);
  }

  /** With `attempt < 2`, exactly two retries happen and the second one's error surfaces. */
  lemma PredicateBecomesFalseScenario(maxAttempts: nat, rest: seq<ConnectOutcome>)
    requires maxAttempts >= 3
    ensures Session(Policy(maxAttempts, BelowTwoAttempts),
                    [Connects(Channel([Text("test1")], FailedWith(Error("simulated error 1")))),
                     Refuses(Error("connection failure 1")), Refuses(Error("connection failure 2"))] + rest)
      == Established(Trace([Text("test1")], Failed(Rethrown(Error("connection failure 2"))), 3, 0))
  {
    var p := Policy(maxAttempts, BelowTwoAttempts);
    var script := [Connects(Channel([Text("test1")], FailedWith(Error("simulated error 1")))),
                   Refuses(Error("connection failure 1")), Refuses(Error("connection failure 2"))] + rest;
    var tail := script[1..];
    assert LatestError(Error("simulated error 1"), tail, 2) == Error("connection failure 2");
    RetryRejected(p, tail, Error("simulated error 1"), 0, 2);
  }
}
