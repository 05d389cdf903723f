/**
  The echo client of the Autobahn conformance suite: which received frames are sent back
  and how, frame truncation for messages, the server-closed check and the case verdict.
  A connection is an inbound channel plus the list of what the client has sent.
*/
module Autobahn {
  import opened Frames

  /** What the client sends on its connection. */
  datatype Send = SendText(text: string) | SendBinary(bytes: seq<byte>)

  /** What echoing one frame does. */
  datatype Echo =
    | Sends(send: Send)
    | Ignores        // ping and pong frames are left to the underlying implementation
    | Throws(error: Error)

  /** The exception `echoFrame` throws on a close frame. */
  const UnexpectedClose: Error := Error("should not receive CLOSE frame at that point")

  /** The exception a receive on a normally closed channel throws. */
  const ChannelClosed: Error := Error("Channel was closed")

  /** How an echo loop ends. */
  datatype EchoResult =
    | Finished
    | Aborted(error: Error)
    | Hangs          // the inbound channel stays open and never delivers what the loop waits for

  /** The frame the peer receives for a send. */
  function Delivered(s: Send): Frame
  {
    match s
    case SendText(t) => Text(t)
    case SendBinary(b) => Binary(b)
  }

  predicate IsControl(f: Frame)
  {
    f.Ping? || f.Pong?
  }

  /** `echoFrame`: text and binary frames are sent back, ping and pong ignored, close is an error. */
  function EchoFrame(f: Frame): (r: Echo)
    ensures r.Sends? <==> f.Text? || f.Binary?
    ensures r.Sends? ==> Delivered(r.send) == f
    ensures r.Ignores? <==> IsControl(f)
    ensures r.Throws? <==> f.Close?
    ensures r.Throws? ==> r.error == UnexpectedClose
  {
    match f
    case Text(t) => Sends(SendText(t))
    case Binary(b) => Sends(SendBinary(b))
    case Ping(_) => Ignores
    case Pong(_) => Ignores
    case Close(_, _) => Throws(UnexpectedClose)
  }

  /** The sends echoing `frames` issues (close frames issue none). */
  function Echoes(frames: seq<Frame>): seq<Send>
  {
    if frames == [] then []
    else (match EchoFrame(frames[0]) case Sends(s) => [s] case _ => []) + Echoes(frames[1..])
  }

  /** The frames of `frames` that are neither ping nor pong. */
  function Relevant(frames: seq<Frame>): (r: seq<Frame>)
    ensures forall f :: f in r <==> f in frames && !IsControl(f)
  {
    if frames == [] then []
    else (if IsControl(frames[0]) then [] else [frames[0]]) + Relevant(frames[1..])
  }

  /** The longest prefix of `frames` without a close frame: what `takeWhile` lets through. */
  function BeforeClose(frames: seq<Frame>): (r: seq<Frame>)
    ensures r <= frames
    ensures forall i :: 0 <= i < |r| ==> !r[i].Close?
    ensures |r| < |frames| ==> frames[|r|].Close?
  {
    if frames == [] || frames[0].Close? then []
    else [frames[0]] + BeforeClose(frames[1..])
  }

  /** What a receive loop observes when it finds no more frames in a channel ending with `end`. */
  function Drained(end: StreamEnd): EchoResult
  {
    match end
    case Completed => Finished
    case FailedWith(e) => Aborted(e)
    case StaysOpen => Hangs
  }

  /** What `echoNFrames` does: the sends, the frames left unread, and how it ends. */
  datatype Echoed = Echoed(sent: seq<Send>, rest: seq<Frame>, result: EchoResult)

  function EchoN(frames: seq<Frame>, end: StreamEnd, n: nat): (r: Echoed)
    ensures |r.sent| <= n
    decreases n
  {
    if n == 0 then Echoed([], frames, Finished)
    else if frames == [] then
      Echoed([], [], if end == Completed then Aborted(ChannelClosed) else Drained(end))
    else match EchoFrame(frames[0])
      case Throws(e) => Echoed([], frames[1..], Aborted(e))
      case Ignores => EchoN(frames[1..], end, n - 1)
      case Sends(s) =>
        var r := EchoN(frames[1..], end, n - 1);
        r.(sent := [s] + r.sent)
  }

  /** What `echoUntilClosed` does: echo until a close frame, which it consumes, or until the channel ends. */
  function UntilClosed(frames: seq<Frame>, end: StreamEnd): Echoed
    decreases |frames|
  {
    if frames == [] then Echoed([], [], Drained(end))
    else if frames[0].Close? then Echoed([], frames[1..], Finished)
    else
      var r := UntilClosed(frames[1..], end);
      r.(sent := Echoes([frames[0]]) + r.sent)
  }

  lemma {:induction false} EchoesAppend(a: seq<Frame>, b: seq<Frame>)
    ensures Echoes(a + b) == Echoes(a) + Echoes(b)
    decreases |a|
  {
    if a == [] {
      assert a + b == b;
    } else {
      assert (a + b)[0] == a[0];
      assert (a + b)[1..] == a[1..] + b;
      EchoesAppend(a[1..], b);
    }
  }

  lemma {:induction false} BeforeCloseAppend(a: seq<Frame>, b: seq<Frame>)
    requires forall i :: 0 <= i < |a| ==> !a[i].Close?
    ensures BeforeClose(a + b) == a + BeforeClose(b)
    decreases |a|
  {
    if a == [] {
      assert a + b == b;
    } else {
      assert (a + b)[0] == a[0];
      assert (a + b)[1..] == a[1..] + b;
      BeforeCloseAppend(a[1..], b);
    }
  }

  /** `echoUntilClosed` sends the echoes of exactly the frames `takeWhile` lets through. */
  lemma {:induction false} UntilClosedEchoesBeforeClose(frames: seq<Frame>, end: StreamEnd)
    ensures UntilClosed(frames, end).sent == Echoes(BeforeClose(frames))
    decreases |frames|
  {
    if frames != [] && !frames[0].Close? {
      UntilClosedEchoesBeforeClose(frames[1..], end);
      EchoesAppend([frames[0]], BeforeClose(frames[1..]));
    }
  }

  /**
    After `echoUntilClosed`, the first close frame has been consumed and the loop finished
    normally; with no close frame, every frame is consumed and the loop ends as the channel does.
  */
  lemma {:induction false} UntilClosedConsumesClose(frames: seq<Frame>, end: StreamEnd)
    ensures var r := UntilClosed(frames, end);
      var k := |BeforeClose(frames)|;
      if k < |frames| then r.rest == frames[k + 1..] && r.result == Finished
      else r.rest == [] && r.result == Drained(end)
    decreases |frames|
  {
    if frames != [] && !frames[0].Close? {
      var tail := frames[1..];
      UntilClosedConsumesClose(tail, end);
      var k := |BeforeClose(tail)|;
      assert BeforeClose(frames) == [frames[0]] + BeforeClose(tail);
      if k < |tail| {
        assert tail[k + 1..] == frames[k + 2..];
      }
    }
  }

  /** Echoing a frame and then delivering the sends gives back the data frames, in order. */
  lemma {:induction false} EchoesDeliverDataFrames(frames: seq<Frame>)
    ensures |Echoes(frames)| <= |frames|
    ensures forall i :: 0 <= i < |Echoes(frames)| ==> Delivered(Echoes(frames)[i]) in frames
    ensures (forall i :: 0 <= i < |frames| ==> frames[i].Text? || frames[i].Binary?) ==>
      |Echoes(frames)| == |frames| && forall i :: 0 <= i < |frames| ==> Delivered(Echoes(frames)[i]) == frames[i]
    decreases |frames|
  {
    if frames != [] {
      EchoesDeliverDataFrames(frames[1..]);
      var head := match EchoFrame(frames[0]) case Sends(s) => [s] case _ => [];
      assert Echoes(frames) == head + Echoes(frames[1..]);
      forall i | 0 <= i < |Echoes(frames)|
        ensures Delivered(Echoes(frames)[i]) in frames
      {
        if i >= |head| {
          assert Echoes(frames)[i] == Echoes(frames[1..])[i - |head|];
          assert Delivered(Echoes(frames)[i]) in frames[1..];
        }
      }
      if forall i :: 0 <= i < |frames| ==> frames[i].Text? || frames[i].Binary? {
        assert frames[0].Text? || frames[0].Binary?;
        assert forall i :: 0 <= i < |frames[1..]| ==> frames[1..][i] == frames[i + 1];
        forall i | 0 <= i < |frames|
          ensures Delivered(Echoes(frames)[i]) == frames[i]
        {
          if i > 0 {
            assert Echoes(frames)[i] == Echoes(frames[1..])[i - 1];
          }
        }
      }
    }
  }

  /** `echoNFrames(n)` on n frames without a close: exactly those n are echoed in receipt order. */
  lemma {:induction false} EchoNEchoesExactlyN(frames: seq<Frame>, end: StreamEnd, n: nat)
    requires n <= |frames|
    requires forall i :: 0 <= i < n ==> !frames[i].Close?
    ensures EchoN(frames, end, n) == Echoed(Echoes(frames[..n]), frames[n..], Finished)
    decreases n
  {
    if n > 0 {
      EchoNEchoesExactlyN(frames[1..], end, n - 1);
      assert frames[..n] == [frames[0]] + frames[1..][..n - 1];
      EchoesAppend([frames[0]], frames[1..][..n - 1]);
      assert [frames[0]][1..] == [];
      assert frames[1..][n - 1..] == frames[n..];
    } else {
      assert frames[..0] == [];
    }
  }

  /** `echoNFrames(n)` reaching a close frame, within its n frames, fails with the close error after echoing what came before. */
  lemma {:induction false} EchoNStopsAtClose(frames: seq<Frame>, end: StreamEnd, n: nat, k: nat)
    requires k < n && k < |frames| && frames[k].Close?
    requires forall i :: 0 <= i < k ==> !frames[i].Close?
    ensures EchoN(frames, end, n) == Echoed(Echoes(frames[..k]), frames[k + 1..], Aborted(UnexpectedClose))
    decreases k
  {
    if k > 0 {
      EchoNStopsAtClose(frames[1..], end, n - 1, k - 1);
      assert frames[..k] == [frames[0]] + frames[1..][..k - 1];
      EchoesAppend([frames[0]], frames[1..][..k - 1]);
      assert [frames[0]][1..] == [];
      assert frames[1..][k..] == frames[k + 1..];
    } else {
      assert frames[..0] == [];
    }
  }

  /**
    `echoNFrames(n)` on a channel that runs out before n frames, with no close frame: every frame
    is echoed, then the next receive fails: "Channel was closed" on a normal end, the channel's own
    error on a failure, or it waits forever on an open channel.
  */
  lemma {:induction false} EchoNRunsOut(frames: seq<Frame>, end: StreamEnd, n: nat)
    requires |frames| < n
    requires forall i :: 0 <= i < |frames| ==> !frames[i].Close?
    ensures EchoN(frames, end, n) == Echoed(Echoes(frames), [], if end == Completed then Aborted(ChannelClosed) else Drained(end))
    decreases n
  {
    if frames != [] {
      EchoNRunsOut(frames[1..], end, n - 1);
      EchoesAppend([frames[0]], frames[1..]);
      assert [frames[0]] + frames[1..] == frames;
      assert [frames[0]][1..] == [];
    }
  }

  /** `expectServerClosed`: the channel ended normally and, ping and pong aside, holds one frame, a close frame. */
  predicate ServerClosed(inbound: Channel)
  {
    && inbound.end == Completed
    && |Relevant(inbound.frames)| == 1
    && Relevant(inbound.frames)[0].Close?
  }

  /** A frame list has exactly one frame besides pings and pongs, at index `k`. */
  ghost predicate OnlyRelevantAt(frames: seq<Frame>, k: int)
  {
    0 <= k < |frames| && !IsControl(frames[k]) && forall j :: 0 <= j < |frames| && j != k ==> IsControl(frames[j])
  }

  lemma {:induction false} RelevantSingle(frames: seq<Frame>)
    ensures |Relevant(frames)| == 1 <==> exists k :: OnlyRelevantAt(frames, k)
    ensures forall k :: OnlyRelevantAt(frames, k) ==> Relevant(frames) == [frames[k]]
    decreases |frames|
  {
    if frames != [] {
      var tail := frames[1..];
      RelevantSingle(tail);
      RelevantEmpty(tail);
      forall k | OnlyRelevantAt(frames, k)
        ensures Relevant(frames) == [frames[k]]
      {
        if k == 0 {
          assert forall j :: 0 <= j < |tail| ==> IsControl(tail[j]) by {
            forall j | 0 <= j < |tail| ensures IsControl(tail[j]) { assert tail[j] == frames[j + 1]; }
          }
        } else {
          assert IsControl(frames[0]);
          assert OnlyRelevantAt(tail, k - 1) by {
            forall j | 0 <= j < |tail| && j != k - 1 ensures IsControl(tail[j]) { assert tail[j] == frames[j + 1]; }
          }
        }
      }
      if |Relevant(frames)| == 1 {
        if IsControl(frames[0]) {
          var k :| OnlyRelevantAt(tail, k);
          assert OnlyRelevantAt(frames, k + 1) by {
            forall j | 0 <= j < |frames| && j != k + 1 ensures IsControl(frames[j]) {
              if j > 0 { assert frames[j] == tail[j - 1]; }
            }
          }
        } else {
          assert OnlyRelevantAt(frames, 0) by {
            forall j | 0 < j < |frames| ensures IsControl(frames[j]) { assert frames[j] == tail[j - 1]; }
          }
        }
      }
    }
  }

  lemma {:induction false} RelevantEmpty(frames: seq<Frame>)
    ensures Relevant(frames) == [] <==> forall j :: 0 <= j < |frames| ==> IsControl(frames[j])
    decreases |frames|
  {
    if frames != [] {
      RelevantEmpty(frames[1..]);
      assert forall j :: 0 < j < |frames| ==> frames[j] == frames[1..][j - 1];
    }
  }

  /** The server-closed check accepts exactly the channels that end normally after one close frame among pings and pongs. */
  lemma ServerClosedCharacterization(inbound: Channel)
    ensures ServerClosed(inbound) <==>
      inbound.end == Completed && exists k :: OnlyRelevantAt(inbound.frames, k) && inbound.frames[k].Close?
  {
    RelevantSingle(inbound.frames);
  }

  /** `truncated(length)`: a text frame keeps the first `length` characters of its text; other frames are unchanged. */
  function Truncated(f: Frame, length: nat): Frame
  {
    if f.Text? then Text(f.text[..if length < |f.text| then length else |f.text|]) else f
  }

  lemma TruncatedIsPrefix(f: Frame, length: nat)
    ensures Truncated(f, length).Text? <==> f.Text?
    ensures f.Text? ==> Truncated(f, length).text <= f.text
    ensures f.Text? ==> |Truncated(f, length).text| == if length < |f.text| then length else |f.text|
    ensures !f.Text? ==> Truncated(f, length) == f
  {
  }

  /** Truncating twice truncates to the smaller length; a long enough length changes nothing. */
  lemma TruncatedTwice(f: Frame, a: nat, b: nat)
    ensures Truncated(Truncated(f, a), b) == Truncated(f, if a < b then a else b)
    ensures f.Text? && |f.text| <= a ==> Truncated(f, a) == f
  {
    if f.Text? {
      assert f.text[..|f.text|] == f.text;
    }
  }

  /** The behaviour the Autobahn server reports for a case. */
  datatype Behavior = Ok | NonStrict | OtherBehavior(name: string)

  /** The status check: OK and NON-STRICT are acceptable. */
  predicate Acceptable(b: Behavior)
  {
    b.Ok? || b.NonStrict?
  }

  /**
    The verdict of one case: an exception during the echo loop is tolerated exactly when
    the case expects a failure; a timeout fails the case; then the reported status must be acceptable.
  */
  predicate CasePasses(echo: EchoResult, expectFailure: bool, status: Behavior)
  {
    match echo
    case Finished => Acceptable(status)
    case Aborted(_) => expectFailure && Acceptable(status)
    case Hangs => false
  }

  /** How the connection to the server for one case turns out. */
  datatype Connecting = Connected(inbound: Channel) | ConnectThrows(error: Error) | ConnectTimesOut

  /** `runAutobahnTestCase`: connect, then echo until closed; what the case's try block ends with. */
  function CaseRun(connecting: Connecting): EchoResult
  {
    match connecting
    case ConnectThrows(e) => Aborted(e)
    case ConnectTimesOut => Hangs
    case Connected(inbound) => UntilClosed(inbound.frames, inbound.end).result
  }

  /**
    A case whose server sends a close frame passes exactly when its status is acceptable; without
    one, a normal end is the same, a failed channel is tolerated only when a failure is expected, and
    a channel that stays open times out and fails the case.
  */
  lemma EchoCaseVerdict(inbound: Channel, expectFailure: bool, status: Behavior)
    ensures var passes := CasePasses(CaseRun(Connected(inbound)), expectFailure, status);
      if exists i :: 0 <= i < |inbound.frames| && inbound.frames[i].Close? then passes <==> Acceptable(status)
      else match inbound.end
        case Completed => passes <==> Acceptable(status)
        case FailedWith(_) => passes <==> expectFailure && Acceptable(status)
        case StaysOpen => !passes
  {
    UntilClosedConsumesClose(inbound.frames, inbound.end);
  }

  /** A failed or timed-out connection passes only a case that expects failure, and a timeout none. */
  lemma ConnectionFailureVerdict(e: Error, expectFailure: bool, status: Behavior)
    ensures CasePasses(CaseRun(ConnectThrows(e)), expectFailure, status) <==> expectFailure && Acceptable(status)
    ensures !CasePasses(CaseRun(ConnectTimesOut), expectFailure, status)
  {
  }

  /** How a case ends, for the exact-count check. */
  datatype CaseEnd = ClientForceClose | ServerClose

  /** `expectClientForceClosed`: reading the rest of the channel must not hang (and must not fail). */
  predicate ClientForceClosed(inbound: Channel)
  {
    inbound.end == Completed
  }

  /** `echoExactFrameCountAndExpectClosure`: echo the expected count of frames, then check the closure. */
  predicate ExactFrameCountPasses(inbound: Channel, n: nat, caseEnd: CaseEnd)
  {
    var echoed := EchoN(inbound.frames, inbound.end, n);
    var after := Channel(echoed.rest, inbound.end);
    && echoed.result == Finished
    && match caseEnd
       case ClientForceClose => ClientForceClosed(after)
       case ServerClose => ServerClosed(after)
  }

  /**
    The client-force-closed check is the weaker one: an exact-count run that passes with the
    server-closed check passes with it too.
  */
  lemma ServerCloseCheckIsStronger(inbound: Channel, n: nat)
    ensures ExactFrameCountPasses(inbound, n, ServerClose) ==> ExactFrameCountPasses(inbound, n, ClientForceClose)
  {
  }

  /**
    A server that sends n frames without a close frame, then only a close frame among pings and
    pongs, and ends the channel normally, passes the exact-count check; the client has echoed those n frames.
  */
  lemma ExactFrameCountAccepts(data: seq<Frame>, tail: seq<Frame>, n: nat)
    requires |data| == n && forall i :: 0 <= i < n ==> !data[i].Close?
    requires ServerClosed(Channel(tail, Completed))
    ensures ExactFrameCountPasses(Channel(data + tail, Completed), n, ServerClose)
    ensures EchoN(data + tail, Completed, n).sent == Echoes(data)
  {
    var frames := data + tail;
    assert forall i :: 0 <= i < n ==> frames[i] == data[i];
    EchoNEchoesExactlyN(frames, Completed, n);
    assert frames[..n] == data;
    assert frames[n..] == tail;
  }

  /** A connection under test: the frames still in its inbound channel, and what it has sent. */
  class EchoConnection {
    var incoming: seq<Frame>
    const end: StreamEnd
    var sent: seq<Send>

    constructor (inbound: Channel)
      ensures incoming == inbound.frames && end == inbound.end && sent == []
    {
      incoming := inbound.frames;
      end := inbound.end;
      sent := [];
    }

    /** `echoFrame`: sends the echo of a text or binary frame; a close frame is an error. */
    method SendEcho(f: Frame) returns (r: Echo)
      modifies this`sent
      ensures r == EchoFrame(f)
      ensures sent == old(sent) + Echoes([f])
    {
      assert Echoes([f]) == (match EchoFrame(f) case Sends(s) => [s] case _ => []) + Echoes([]);
      r := EchoFrame(f);
      match r {
        case Sends(s) => sent := sent + [s];
        case Ignores =>
        case Throws(_) =>
      }
    }

    /** `echoUntilClosed`: echoes, in order, every frame before the first close frame, and consumes that close frame. */
    method EchoUntilClosed() returns (r: EchoResult)
      modifies this
      ensures var spec := UntilClosed(old(incoming), end);
        sent == old(sent) + spec.sent && incoming == spec.rest && r == spec.result
    {
      while incoming != [] && !incoming[0].Close?
        invariant var spec := UntilClosed(incoming, end);
          var whole := UntilClosed(old(incoming), end);
          old(sent) + whole.sent == sent + spec.sent && whole.rest == spec.rest && whole.result == spec.result
        decreases |incoming|
      {
        var f := incoming[0];
        var _ := SendEcho(f);
        incoming := incoming[1..];
      }
      if incoming == [] {
        return Drained(end);
      }
      incoming := incoming[1..];
      return Finished;
    }

    /** `echoNFrames(n)`: receives n frames and echoes each one as it arrives. */
    method EchoNFrames(n: nat) returns (r: EchoResult)
      modifies this
      ensures var spec := EchoN(old(incoming), end, n);
        sent == old(sent) + spec.sent && incoming == spec.rest && r == spec.result
    {
      var i := 0;
      while i < n
        invariant i <= n
        invariant var spec := EchoN(incoming, end, n - i);
          var whole := EchoN(old(incoming), end, n);
          old(sent) + whole.sent == sent + spec.sent && whole.rest == spec.rest && whole.result == spec.result
      {
        if incoming == [] {
          return if end == Completed then Aborted(ChannelClosed) else Drained(end);
        }
        var frame := incoming[0];
        incoming := incoming[1..];
        var echo := SendEcho(frame);
        if echo.Throws? {
          return Aborted(echo.error);
        }
        i := i + 1;
      }
      return Finished;
    }
  }
}
