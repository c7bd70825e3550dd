/** The client that follows one operation across at most one reconnect
    (internal/daemon/operation_client.go). A connection is what the client reads
    from it before it ends; callbacks and responses are arbitrary reactions,
    numbered by how many events have been handed out. */
module OperationClient {
  import opened Integers
  import opened Wrappers
  import opened OperationStream

  // ----- the environment -----

  // An error returned by a callback; `wraps` says errors.Is finds the client's
  // own stream-interruption error in it.
  datatype CallbackError = CallbackError(wraps: bool)

  datatype PromptReaction =
    | NoHandler
    | HandlerTimedOut
    | HandlerFailed(error: CallbackError)
    | Answered
    | ResponseRefused
    | ResponseLost

  datatype Reaction = Reaction(event: Option<CallbackError>, prompt: PromptReaction)

  datatype StreamEnd = Ended | Oversized

  datatype Connection =
    | Unreachable
    | Refused(final: bool)
    | WrongContent
    | Streaming(events: seq<Event>, end: StreamEnd)

  // ----- one attempt -----

  datatype AttemptEnd =
    | Completed(result: Option<string>)
    | Interrupted(result: Option<string>)
    | Failed(result: Option<string>)

  // What one attempt does: the events handed to the Event callback, the
  // sequence numbers of prompts a response was sent for, the cursor it
  // acknowledges and how it ends.
  datatype Attempt = Attempt(delivered: seq<Event>, answered: seq<uint64>, acknowledged: uint64, end: AttemptEnd)

  function AfterError(error: CallbackError, result: Option<string>): AttemptEnd {
    if error.wraps then Interrupted(result) else Failed(result)
  }

  function Handle(e: Event, r: Reaction, acknowledged: uint64): (Attempt, bool)
    ensures !Handle(e, r, acknowledged).1 || Handle(e, r, acknowledged).0.acknowledged == e.sequence
  {
    var stop := (answered: seq<uint64>, end: AttemptEnd) => (Attempt([e], answered, acknowledged, end), false);
    var proceed := (answered: seq<uint64>) => (Attempt([e], answered, e.sequence, Interrupted(None)), true);
    if e.kind.Complete? then
      (Attempt([e], [], e.sequence,
               if r.event.Some? then AfterError(r.event.value, e.result)
               else if e.failure.Some? then Failed(None) else Completed(e.result)), false)
    else if r.event.Some? then stop([], AfterError(r.event.value, None))
    else if !e.kind.Prompting? then proceed([])
    else
      match r.prompt
      case NoHandler => stop([], Failed(None))
      case HandlerTimedOut => proceed([])
      case HandlerFailed(error) => stop([], AfterError(error, None))
      case Answered => proceed([e.sequence])
      case ResponseRefused => proceed([e.sequence])
      case ResponseLost => stop([e.sequence], Failed(None))
  }

  // Following a stream from a validator state; `n` events were handed out before.
  function Follow(
    v: Cursor, events: seq<Event>, end: StreamEnd, react: nat -> Reaction, n: nat, acknowledged: uint64): Attempt
    decreases |events|
  {
    if events == [] then Attempt([], [], acknowledged, if end.Oversized? then Failed(None) else Interrupted(None))
    else if !v.Admits(events[0]) then Attempt([], [], acknowledged, Failed(None))
    else
      var (first, proceed) := Handle(events[0], react(n), acknowledged);
      if !proceed then first
      else
        var rest := Follow(v.After(events[0]), events[1..], end, react, n + 1, first.acknowledged);
        Attempt(first.delivered + rest.delivered, first.answered + rest.answered, rest.acknowledged, rest.end)
  }

  function FollowConnection(id: string, after: uint64, c: Connection, react: nat -> Reaction, n: nat): Attempt {
    match c
    case Unreachable => Attempt([], [], after, Interrupted(None))
    case Refused(final) => Attempt([], [], after, if final then Failed(None) else Interrupted(None))
    case WrongContent => Attempt([], [], after, Failed(None))
    case Streaming(events, end) => Follow(Cursor(id, after, false), events, end, react, n, after)
  }

  // An attempt that already handed out events before what `rest` does.
  function After(delivered: seq<Event>, answered: seq<uint64>, rest: Attempt): Attempt {
    Attempt(delivered + rest.delivered, answered + rest.answered, rest.acknowledged, rest.end)
  }

  lemma AfterNothing(delivered: seq<Event>, answered: seq<uint64>, acknowledged: uint64, end: AttemptEnd)
    ensures After(delivered, answered, Attempt([], [], acknowledged, end)) ==
        Attempt(delivered, answered, acknowledged, end)
    ensures After([], [], Attempt(delivered, answered, acknowledged, end)) ==
        Attempt(delivered, answered, acknowledged, end)
  {
  }

  lemma AfterTwice(delivered: seq<Event>, answered: seq<uint64>, first: Attempt, rest: Attempt)
    ensures After(delivered, answered, After(first.delivered, first.answered, rest))
         == After(delivered + first.delivered, answered + first.answered, rest)
  {
  }

  lemma FollowStep(v: Cursor, events: seq<Event>, end: StreamEnd, react: nat -> Reaction, n: nat, acknowledged: uint64)
    requires events != [] && v.Admits(events[0])
    ensures var (first, proceed) := Handle(events[0], react(n), acknowledged);
            Follow(v, events, end, react, n, acknowledged)
            == if proceed then After(first.delivered, first.answered,
                Follow(v.After(events[0]), events[1..], end, react, n + 1, first.acknowledged))
               else first
  {
  }

  // The decode loop of followOperationAttempt, over its own validator.
  method DecodeLoop(
    id: string, after: uint64, events: seq<Event>, end: StreamEnd, react: nat -> Reaction, n: nat)
    returns (a: Attempt)
    ensures a == Follow(Cursor(id, after, false), events, end, react, n, after)
  {
    hide Handle, After;
    var validator := new OperationStreamValidator(id, after);
    var acknowledged := after;
    var delivered: seq<Event>, answered: seq<uint64> := [], [];
    var i := 0;
    ghost var whole := Follow(Cursor(id, after, false), events, end, react, n, after);
    AfterNothing(whole.delivered, whole.answered, whole.acknowledged, whole.end);
    assert events[0..] == events;
    while i < |events|
      modifies validator
      invariant 0 <= i <= |events|
      invariant validator.operationId == id
      invariant whole ==
          After(delivered, answered, Follow(validator.State(), events[i..], end, react, n + i, acknowledged))
    {
      var event := events[i];
      ghost var v := validator.State();
      ghost var ahead := events[i..];
      assert ahead[0] == event && ahead[1..] == events[i + 1..];
      var ok := validator.Accept(event);
      if !ok {
        AfterNothing(delivered, answered, acknowledged, Failed(None));
        return Attempt(delivered, answered, acknowledged, Failed(None));
      }
      var (first, proceed) := Handle(event, react(n + i), acknowledged);
      FollowStep(v, ahead, end, react, n + i, acknowledged);
      if !proceed {
        return After(delivered, answered, first);
      }
      AfterTwice(delivered, answered, first,
          Follow(validator.State(), events[i + 1..], end, react, n + i + 1, first.acknowledged));
      delivered := delivered + first.delivered;
      answered := answered + first.answered;
      acknowledged := first.acknowledged;
      i := i + 1;
    }
    AfterNothing(delivered, answered, acknowledged, if end.Oversized? then Failed(None) else Interrupted(None));
    return Attempt(delivered, answered, acknowledged, if end.Oversized? then Failed(None) else Interrupted(None));
  }

  method FollowOperationAttempt(
    id: string, after: uint64, c: Connection, react: nat -> Reaction, n: nat)
    returns (a: Attempt)
    ensures a == FollowConnection(id, after, c, react, n)
  {
    match c
    case Unreachable => return Attempt([], [], after, Interrupted(None));
    case Refused(final) => return Attempt([], [], after, if final then Failed(None) else Interrupted(None));
    case WrongContent => return Attempt([], [], after, Failed(None));
    case Streaming(events, end) => a := DecodeLoop(id, after, events, end, react, n);
  }

  // ----- both attempts -----

  datatype Outcome = Success(result: Option<string>) | Failure(result: Option<string>)

  // Everything FollowOperation does: both attempts, or one.
  datatype Following = Following(first: Attempt, second: Option<Attempt>, outcome: Outcome) {
    function Delivered(): seq<Event> {
      first.delivered + (if second.Some? then second.value.delivered else [])
    }

    function Answered(): seq<uint64> {
      first.answered + (if second.Some? then second.value.answered else [])
    }
  }

  function Conclude(a: Attempt): Outcome {
    match a.end
    case Completed(r) => Success(r)
    case Interrupted(_) => Failure(None)
    case Failed(r) => Failure(r)
  }

  // `cancelled` is the caller's context after the first attempt.
  function FollowTwice(
    id: string, after: uint64, one: Connection, two: Connection, react: nat -> Reaction, cancelled: bool): Following
  {
    var first := FollowConnection(id, after, one, react, 0);
    if first.end.Interrupted? && !cancelled then
      var second := FollowConnection(id, first.acknowledged, two, react, |first.delivered|);
      Following(first, Some(second), Conclude(second))
    else Following(first, None, Conclude(first))
  }

  method FollowOperation(
    id: string, after: uint64, connections: seq<Connection>, react: nat -> Reaction, cancelled: bool)
    returns (f: Following, acknowledged: uint64)
    requires |connections| == 2
    ensures id == "" ==> f == Following(Attempt([], [], after, Failed(None)), None, Failure(None))
    ensures id != "" ==> f == FollowTwice(id, after, connections[0], connections[1], react, cancelled)
  {
    acknowledged := after;
    if id == "" {
      return Following(Attempt([], [], after, Failed(None)), None, Failure(None)), after;
    }
    var attempts: seq<Attempt> := [];
    var n := 0;
    var attempt := 0;
    while attempt < 2
      invariant 0 <= attempt < 2 && |attempts| == attempt
      invariant attempt == 0 ==> acknowledged == after && n == 0
      invariant attempt == 1 ==>
                  && attempts[0] == FollowConnection(id, after, connections[0], react, 0)
                  && attempts[0].end.Interrupted? && !cancelled
                  && acknowledged == attempts[0].acknowledged && n == |attempts[0].delivered|
      decreases 2 - attempt
    {
      var a := FollowOperationAttempt(id, acknowledged, connections[attempt], react, n);
      acknowledged := a.acknowledged;
      n := n + |a.delivered|;
      attempts := attempts + [a];
      if a.end.Completed? || a.end.Failed? || cancelled || attempt == 1 {
        var second := if attempt == 1 then Some(attempts[1]) else None;
        return Following(attempts[0], second, Conclude(a)), acknowledged;
      }
      attempt := attempt + 1;
    }
  }
}
