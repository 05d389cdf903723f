/**
  The auto-reconnecting decorator (`withAutoReconnect`) over a base web socket client,
  as its tests pin it down. The base client is a script of answers to successive connect
  calls; a base connection is the channel of frames it delivers. The decorator's own
  background task is modelled by the class `ReconnectingConnection`; the functions
  `Retry`, `AfterStream`, `Forwarded` and `Session` say what the whole logical session shows.
*/
module Reconnection {
  import opened Frames

  /** One scripted answer of the base client to a connect call. */
  datatype ConnectOutcome =
    | Connects(connection: Channel)
    | Refuses(error: Error)

  /**
    Reconnection configuration: how many retries an episode may make, and the predicate
    consulted before each retry with the latest error and the number of retries already
    made in the episode.
  */
  datatype Policy = Policy(maxAttempts: nat, reconnectWhen: (Error, nat) -> bool)

  /** The exception with which the logical frame stream fails. */
  datatype Failure =
    | Rethrown(error: Error)                              // the latest error itself
    | ReconnectionException(attempts: nat, cause: Error) // retries exhausted; wraps the latest error

  /** How the logical frame stream stands once the background task can do nothing more. */
  datatype Termination =
    | Open                    // still open: waiting for frames or for the base client to answer
    | Closed                  // completed without error
    | Failed(failure: Failure)

  /** How one reconnection episode ends. */
  datatype EpisodeEnd =
    | Reconnected(connection: Channel)
    | Rejected(error: Error) // reconnectWhen said no
    | Exhausted(cause: Error) // maxAttempts retries were made, all failed
    | Pending                 // the base client has not answered the latest connect call

  /** The end of an episode and how many connect calls were answered during it. */
  datatype Episode = Episode(end: EpisodeEnd, retries: nat)

  /**
    The retry loop of one episode, from the point where `attempt` retries were made and
    `lastError` is the latest error; `retries` counts the answers taken from `script`.
  */
  function Retry(p: Policy, script: seq<ConnectOutcome>, lastError: Error, attempt: nat): (ep: Episode)
    ensures ep.retries <= |script|
    ensures ep.end.Reconnected? ==> 1 <= ep.retries
    ensures ep.end.Exhausted? ==> attempt + ep.retries == p.maxAttempts || (attempt > p.maxAttempts && ep.retries == 0)
    ensures attempt + ep.retries <= p.maxAttempts || ep.retries == 0
    decreases |script|
  {
    if attempt >= p.maxAttempts then Episode(Exhausted(lastError), 0)
    else if !p.reconnectWhen(lastError, attempt) then Episode(Rejected(lastError), 0)
    else if script == [] then Episode(Pending, 0)
    else match script[0]
      case Connects(c) => Episode(Reconnected(c), 1)
      case Refuses(e) =>
        var ep := Retry(p, script[1..], e, attempt + 1);
        Episode(ep.end, ep.retries + 1)
  }

  /** What the logical session shows: frames in order, the termination, answered base connect calls, afterReconnect calls. */
  datatype Trace = Trace(frames: seq<Frame>, termination: Termination, connectCalls: nat, reconnects: nat)

  /** What the logical session shows after the current base channel has ended with `end`. */
  function AfterStream(p: Policy, end: StreamEnd, script: seq<ConnectOutcome>): (t: Trace)
    ensures t.connectCalls <= |script|
    ensures t.termination.Closed? ==> t.reconnects <= t.connectCalls
    decreases |script|
  {
    match end
    case Completed => Trace([], Closed, 0, 0)
    case StaysOpen => Trace([], Open, 0, 0)
    case FailedWith(e) =>
      var ep := Retry(p, script, e, 0);
      match ep.end
      case Reconnected(c) =>
        var rest := AfterStream(p, c.end, script[ep.retries..]);
        Trace(c.frames + rest.frames, rest.termination, ep.retries + rest.connectCalls, rest.reconnects + 1)
      case Rejected(err) => Trace([], Failed(Rethrown(err)), ep.retries, 0)
      case Exhausted(err) => Trace([], Failed(ReconnectionException(p.maxAttempts, err)), ep.retries, 0)
      case Pending => Trace([], Open, ep.retries, 0)
  }

  /** What the logical session shows from the moment `c` becomes the current base connection. */
  function Forwarded(p: Policy, c: Channel, script: seq<ConnectOutcome>): (t: Trace)
    ensures t.connectCalls <= |script|
    ensures c.frames <= t.frames
  {
    var rest := AfterStream(p, c.end, script);
    rest.(frames := c.frames + rest.frames)
  }

  /** The outcome of `connect` on the decorated client, and what the session shows afterwards. */
  datatype SessionResult =
    | Suspended               // the base client never answers: connect does not return
    | ConnectFailed(error: Error) // the first connect threw
    | Established(trace: Trace)

  function Session(p: Policy, script: seq<ConnectOutcome>): (r: SessionResult)
    ensures r.Established? ==> 1 <= r.trace.connectCalls <= |script|
    ensures r.Suspended? <==> script == []
    ensures r.ConnectFailed? <==> script != [] && script[0].Refuses?
  {
    if script == [] then Suspended
    else match script[0]
      case Refuses(e) => ConnectFailed(e)
      case Connects(c) =>
        var t := Forwarded(p, c, script[1..]);
        Established(t.(connectCalls := t.connectCalls + 1))
  }

  /** What the caller's `connect` call does. */
  datatype ConnectReply =
    | StillConnecting
    | ConnectError(error: Error)
    | ConnectionReturned

  /** Where the logical session stands. */
  datatype Phase =
    | Connecting
    | NotConnected(error: Error) // the first connect failed
    | Forwarding
    | Reconnecting
    | Done(termination: Termination)

  /** The logical connection the decorator hands out, with its background forwarding task. */
  class ReconnectingConnection {
    const policy: Policy
    /** The base client's answers to the connect calls still to come. */
    var script: seq<ConnectOutcome>
    var phase: Phase
    /** The current base connection: the frames it still delivers and how it ends. */
    var current: Option<Channel>
    /** The frames forwarded on the logical stream so far. */
    var incoming: seq<Frame>
    /** The base connect calls answered so far. */
    var connectCalls: nat
    /** The retries already made in the current episode. */
    var attempt: nat
    /** The latest error of the current episode. */
    var lastError: Error
    var afterReconnectCalls: nat

    ghost predicate Valid()
      reads this
    {
      && (phase == Forwarding <==> current.Some?)
      && (phase.Done? ==> !phase.termination.Open?)
    }

    constructor (policy: Policy, script: seq<ConnectOutcome>)
      ensures Valid()
      ensures this.policy == policy && this.script == script
      ensures phase == Connecting && current == None && incoming == []
      ensures connectCalls == 0 && afterReconnectCalls == 0
    {
      this.policy := policy;
      this.script := script;
      phase := Connecting;
      current := None;
      incoming := [];
      connectCalls := 0;
      attempt := 0;
      lastError := Error("");
      afterReconnectCalls := 0;
    }

    /** The logical stream's terminal state as far as it is decided. */
    function Outcome(): Termination
      reads this
    {
      if phase.Done? then phase.termination else Open
    }

    /** What the logical session has shown so far. */
    function Observed(): Trace
      reads this
    {
      Trace(incoming, Outcome(), connectCalls, afterReconnectCalls)
    }

    /** What the logical session will have shown once the background task can do nothing more. */
    function Projected(): Trace
      reads this
    {
      if phase == Forwarding && current.Some? then
        var rest := Forwarded(policy, current.value, script);
        Trace(incoming + rest.frames, rest.termination, connectCalls + rest.connectCalls, afterReconnectCalls + rest.reconnects)
      else
        Observed()
    }

    /** The first connect: never retried; a failure surfaces the base client's own error. */
    method Connect() returns (reply: ConnectReply)
      requires Valid() && phase == Connecting
      modifies this
      ensures Valid()
      ensures incoming == old(incoming) && afterReconnectCalls == old(afterReconnectCalls)
      ensures old(script) == [] ==>
        reply == StillConnecting && phase == Connecting && script == [] && connectCalls == old(connectCalls)
      ensures old(script) != [] ==>
        && script == old(script)[1..] && connectCalls == old(connectCalls) + 1
        && match old(script)[0]
           case Refuses(e) => reply == ConnectError(e) && phase == NotConnected(e)
           case Connects(c) => reply == ConnectionReturned && phase == Forwarding && current == Some(c)
    {
      if script == [] {
        return StillConnecting;
      }
      var outcome := script[0];
      script := script[1..];
      connectCalls := connectCalls + 1;
      match outcome {
        case Refuses(e) =>
          phase := NotConnected(e);
          reply := ConnectError(e);
        case Connects(c) =>
          current := Some(c);
          phase := Forwarding;
          reply := ConnectionReturned;
      }
    }

    /** One reconnection episode triggered by `cause`: the retry loop. */
    method Reconnect(cause: Error) returns (end: EpisodeEnd)
      modifies this`script, this`connectCalls, this`attempt, this`lastError
      ensures var ep := Retry(policy, old(script), cause, 0);
        && end == ep.end
        && ep.retries <= |old(script)|
        && script == old(script)[ep.retries..]
        && connectCalls == old(connectCalls) + ep.retries
        && attempt == ep.retries
    {
      attempt := 0;
      lastError := cause;
      ghost var script0 := script;
      while attempt < policy.maxAttempts
        invariant attempt <= |script0| && script == script0[attempt..]
        invariant connectCalls == old(connectCalls) + attempt
        invariant var ep := Retry(policy, script, lastError, attempt);
          Retry(policy, script0, cause, 0) == Episode(ep.end, ep.retries + attempt)
        decreases policy.maxAttempts - attempt
      {
        if !policy.reconnectWhen(lastError, attempt) {
          return Rejected(lastError);
        }
        if script == [] {
          return Pending;
        }
        var outcome := script[0];
        script := script[1..];
        connectCalls := connectCalls + 1;
        attempt := attempt + 1;
        match outcome {
          case Connects(c) =>
            return Reconnected(c);
          case Refuses(e) =>
            lastError := e;
        }
      }
      return Exhausted(lastError);
    }

    /** Forwards the next frame of the current base connection, unchanged. */
    method ForwardFrame()
      requires Valid() && phase == Forwarding && current.value.frames != []
      modifies this`incoming, this`current
      ensures Valid() && Projected() == old(Projected())
      ensures incoming == old(incoming) + [old(current.value.frames[0])]
      ensures current.Some? && current.value.frames == old(current.value.frames)[1..]
      ensures current.value.end == old(current.value.end)
    {
      var c := current.value;
      incoming := incoming + [c.frames[0]];
      current := Some(Channel(c.frames[1..], c.end));
      assert incoming + c.frames[1..] == old(incoming) + c.frames;
    }

    /** The current base connection has delivered all its frames and ends with `end`. */
    method HandleEnd()
      requires Valid() && phase == Forwarding && current.value.frames == [] && current.value.end != StaysOpen
      modifies this
      ensures Valid() && Projected() == old(Projected())
      ensures |script| <= old(|script|)
      ensures phase == Forwarding ==> |script| < old(|script|)
      ensures incoming == old(incoming)
      ensures old(current.value.end) == Completed ==>
        && phase == Done(Closed) && current == None
        && script == old(script) && connectCalls == old(connectCalls) && afterReconnectCalls == old(afterReconnectCalls)
      ensures old(current.value.end).FailedWith? ==>
        var ep := Retry(policy, old(script), old(current.value.end).error, 0);
        && script == old(script)[ep.retries..] && connectCalls == old(connectCalls) + ep.retries
        && afterReconnectCalls == old(afterReconnectCalls) + (if ep.end.Reconnected? then 1 else 0)
        && match ep.end
           case Reconnected(next) => phase == Forwarding && current == Some(next)
           case Rejected(err) => phase == Done(Failed(Rethrown(err))) && current == None
           case Exhausted(err) => phase == Done(Failed(ReconnectionException(policy.maxAttempts, err))) && current == None
           case Pending => phase == Reconnecting && current == None
    {
      var c := current.value;
      match c.end {
        case Completed =>
          current := None;
          phase := Done(Closed);
        case FailedWith(e) =>
          current := None;
          phase := Reconnecting;
          var end := Reconnect(e);
          match end {
            case Reconnected(next) =>
              current := Some(next);
              phase := Forwarding;
              afterReconnectCalls := afterReconnectCalls + 1;
            case Rejected(err) =>
              phase := Done(Failed(Rethrown(err)));
            case Exhausted(err) =>
              phase := Done(Failed(ReconnectionException(policy.maxAttempts, err)));
            case Pending =>
          }
      }
    }

    /**
      The background task: forwards the current base connection's frames unchanged and in
      order; a normal end ends the logical stream, an error starts a reconnection episode.
    */
    method Run()
      requires Valid()
      modifies this
      ensures Valid()
      ensures Observed() == old(Projected())
      ensures phase != Forwarding || (current.value.frames == [] && current.value.end == StaysOpen)
    {
      while phase == Forwarding && !(current.value.frames == [] && current.value.end == StaysOpen)
        invariant Valid()
        invariant Projected() == old(Projected())
        decreases |script|, if current.Some? then |current.value.frames| + 1 else 0
      {
        if current.value.frames != [] {
          ForwardFrame();
        } else {
          HandleEnd();
        }
      }
    }
  }

  /**
    A caller connects through the decorated client and then reads the logical stream
    until nothing more arrives: what it sees is what `Session` says.
  */
  method OpenSession(p: Policy, script: seq<ConnectOutcome>)
    returns (reply: ConnectReply, frames: seq<Frame>, termination: Termination, connectCalls: nat, afterReconnects: nat)
    ensures match Session(p, script)
      case Suspended => reply == StillConnecting && connectCalls == 0 && frames == []
      case ConnectFailed(e) => reply == ConnectError(e) && connectCalls == 1 && frames == [] && afterReconnects == 0
      case Established(t) => reply == ConnectionReturned && Trace(frames, termination, connectCalls, afterReconnects) == t
  {
    var session := new ReconnectingConnection(p, script);
    reply := session.Connect();
    session.Run();
    frames, termination, connectCalls, afterReconnects :=
      session.incoming, session.Outcome(), session.connectCalls, session.afterReconnectCalls;
  }
}
