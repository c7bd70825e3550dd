/** One retained operation of the hub (internal/daemon/operation.go): its bounded
    log, its subscribers' queues, its loss timers, its prompts and its worker.
    Every function below is one region executed under the hub lock, or one step of
    a consumer, a worker or a timer between such regions. */
module OperationEntries {
  import opened Integers
  import opened Wrappers
  import opened OperationStream

  // ----- options -----

  const COMPLETION_RESERVE_BYTES := 16384

  const CRITICAL_QUEUE_RESERVE := 1

  datatype Options = Options(
    maxEvents: int,
    maxBytes: int,
    maxActive: int,
    maxCompleted: int,
    retention: int,
    queue: int,
    perOperation: int,
    maxSubscribers: int)
  {
    predicate Valid() {
      && 2 <= maxEvents < 0x8000_0000_0000_0000
      && 1 <= maxBytes && 1 <= maxActive && 1 <= maxCompleted && 1 <= retention
      && 1 <= queue && 1 <= perOperation && 1 <= maxSubscribers
    }

    function Reserve(): int {
      if COMPLETION_RESERVE_BYTES > maxBytes / 2 then maxBytes / 2 else COMPLETION_RESERVE_BYTES
    }

    function NonterminalByteLimit(): int {
      maxBytes - Reserve()
    }
  }

  const DEFAULT_OPTIONS := Options(256, 1048576, 128, 128, 300, 32, 8, 128)

  function OrDefault(value: int, default: int): int {
    if value <= 0 then default else value
  }

  // What NewOperationHub makes of the caller's options.
  function Normalize(o: Options): (r: Options)
    requires o.maxEvents < 0x8000_0000_0000_0000
    ensures r.Valid()
    ensures o.maxEvents >= 2 ==> r.maxEvents == o.maxEvents
    ensures o.maxEvents == 1 ==> r.maxEvents == 2
    ensures o.maxBytes > 0 ==> r.maxBytes == o.maxBytes
    ensures o.maxActive > 0 ==> r.maxActive == o.maxActive
    ensures o.maxCompleted > 0 ==> r.maxCompleted == o.maxCompleted
    ensures o.retention > 0 ==> r.retention == o.retention
    ensures o.queue > 0 ==> r.queue == o.queue
    ensures o.perOperation > 0 ==> r.perOperation == o.perOperation
    ensures o.maxSubscribers > 0 ==> r.maxSubscribers == o.maxSubscribers
    ensures o == Options(0, 0, 0, 0, 0, 0, 0, 0) ==> r == DEFAULT_OPTIONS
  {
    var d := DEFAULT_OPTIONS;
    var maxEvents := OrDefault(o.maxEvents, d.maxEvents);
    Options(
      if maxEvents < 2 then 2 else maxEvents,
      OrDefault(o.maxBytes, d.maxBytes),
      OrDefault(o.maxActive, d.maxActive),
      OrDefault(o.maxCompleted, d.maxCompleted),
      OrDefault(o.retention, d.retention),
      OrDefault(o.queue, d.queue),
      OrDefault(o.perOperation, d.perOperation),
      OrDefault(o.maxSubscribers, d.maxSubscribers))
  }

  // ----- events before and after encoding -----

  // What a worker hands over, with everything encodeRetainedOperationEvent can
  // learn about it: whether the result is valid JSON, what the size pre-check
  // charges (None when it refuses at any budget), whether marshalling succeeds
  // and how long the encoding is.
  datatype Draft = Draft(
    kind: EventKind,
    message: string,
    prompt: Option<Prompt>,
    result: Option<string>,
    failure: Option<Descriptor>,
    resultValid: bool,
    charge: Option<nat>,
    marshals: bool,
    size: nat)

  // The retained event and the length of its encoding.
  datatype Retained = Retained(event: Event, size: nat)

  predicate Critical(kind: EventKind) {
    kind.Prompting? || kind.Complete?
  }

  datatype Encoding = Encoded | Malformed | TooLarge

  function Encode(d: Draft, remaining: int): Encoding {
    if d.result.Some? && !d.resultValid then Malformed
    else if remaining < 0 || d.charge.None? || d.charge.value > remaining then TooLarge
    else if !d.marshals then Malformed
    else if d.size > remaining then TooLarge
    else Encoded
  }

  function Digits(n: nat): nat {
    if n < 10 then 1 else 1 + Digits(n / 10)
  }

  // {"operation_id":"…","sequence":…,"kind":"complete","failure":{…}} with the
  // fixed failure text; identifiers need no JSON escapes.
  const CAPACITY_RECORD_BYTES := 190

  const DRAIN_RECORD_BYTES := 156

  const CAPACITY_MESSAGE := "operation outcome is unknown after event capacity was exhausted"

  const DRAIN_MESSAGE := "daemon drain deadline expired"

  function FailureDraft(message: string, charge: nat, size: nat): Draft {
    Draft(Complete, "", None, None, Some(Descriptor("operation_outcome_unknown", message, false)),
          true, Some(charge), true, size)
  }

  function CapacityDraft(id: string, sequence: nat): Draft {
    FailureDraft(CAPACITY_MESSAGE, 96, CAPACITY_RECORD_BYTES + |id| + Digits(sequence))
  }

  function DrainDraft(id: string, sequence: nat): Draft {
    FailureDraft(DRAIN_MESSAGE, 62, DRAIN_RECORD_BYTES + |id| + Digits(sequence))
  }

  // uint64 conversion of the next sequence number.
  function Stamp(id: string, sequence: nat, d: Draft): Event {
    Event(id, sequence % TWO_TO_THE_64, d.kind, d.message, d.prompt, d.result, d.failure)
  }

  // ----- channels -----

  // A buffered channel. `fault` records a second close, a send after close, or a
  // send that would block while the hub lock is held.
  datatype Channel = Channel(cap: nat, queue: seq<Retained>, closed: bool, fault: bool) {
    function Send(r: Retained): Channel {
      if closed || |queue| >= cap then this.(fault := true) else this.(queue := queue + [r])
    }

    function SendAll(rs: seq<Retained>): Channel
      decreases |rs|
    {
      if rs == [] then this else Send(rs[0]).SendAll(rs[1..])
    }

    function Close(): Channel {
      if closed then this.(fault := true) else this.(closed := true)
    }
  }

  // A subscription, attached while it is a key of the entry's subscriber map;
  // `taken` is what its consumer has received from the channel.
  datatype Subscription = Subscription(
    cursor: nat,
    taken: seq<Retained>,
    channel: Channel,
    attached: bool,
    counted: bool)

  // ----- prompts -----

  // A prompt and its one-slot response channel; `taken` is what the waiting
  // worker received, `ended` is set once the worker has stopped waiting.
  datatype PromptState = PromptState(
    id: string,
    responses: seq<Response>,
    responded: bool,
    taken: Option<Response>,
    ended: bool,
    fault: bool)
  {
    function Send(r: Response): PromptState {
      if |responses| >= 1 then this.(fault := true) else this.(responses := responses + [r])
    }
  }

  // ----- entries -----

  // Where the worker goroutine is: in the caller's function, past finish, past
  // the gate release, past its final bookkeeping.
  datatype Worker = Running | Finished | Released | Done

  datatype Entry = Entry(
    id: string,
    requestDigest: string,
    validator: Cursor,
    events: seq<Retained>,
    eventBytes: int,
    terminal: bool,
    completedAt: int,
    prompt: Option<nat>,
    prompts: seq<PromptState>,
    subscriptions: map<nat, Subscription>,
    subscriberCount: int,
    lossTimer: Option<nat>,
    lossTimerToken: nat,
    callbacks: set<nat>,
    cancelled: bool,
    release: Option<nat>,
    worker: Worker)
  {
    predicate WorkerActive() {
      !worker.Done?
    }

    predicate HasAttached() {
      AnyAttached(subscriptions)
    }
  }

  predicate AnyAttached(subs: map<nat, Subscription>) {
    exists s | s in subs :: subs[s].attached
  }

  function NewEntry(id: string, digest: string, release: Option<nat>): Entry {
    Entry(id, digest, Cursor(id, 0, false), [], 0, false, 0, None, [], map[], 0, None, 0, {},
          false, release, Running)
  }

  // ----- loss timers -----

  function ScheduleLoss(e: Entry): Entry {
    if e.terminal || e.HasAttached() || e.lossTimer.Some? then e
    else
      var token := e.lossTimerToken + 1;
      e.(lossTimerToken := token, lossTimer := Some(token), callbacks := e.callbacks + {token})
  }

  // Clearing the timer field; Stop may lose the race with a callback that has
  // already started and is waiting for the hub lock.
  function StopLossTimer(e: Entry, stopWins: bool): Entry {
    if e.lossTimer.None? then e
    else e.(lossTimer := None,
            callbacks := if stopWins then e.callbacks - {e.lossTimer.value} else e.callbacks)
  }

  // The timer callback; `retained` says whether the hub still maps the ID to it.
  function FireLossTimer(e: Entry, token: nat, retained: bool): Entry {
    var f := e.(callbacks := e.callbacks - {token});
    if e.lossTimerToken != token then f
    else f.(cancelled := e.cancelled || (retained && !e.terminal && !e.HasAttached()), lossTimer := None)
  }

  // ----- delivery -----

  function Deliver(s: Subscription, r: Retained): Subscription {
    if !s.attached then s
    else
      var limit := s.channel.cap - (if Critical(r.event.kind) then 0 else CRITICAL_QUEUE_RESERVE);
      if |s.channel.queue| >= limit then s.(attached := false, channel := s.channel.Close())
      else s.(channel := s.channel.Send(r))
  }

  function DeliverAll(subs: map<nat, Subscription>, r: Retained): map<nat, Subscription> {
    map s | s in subs :: Deliver(subs[s], r)
  }

  function Dispatch(e: Entry, r: Retained): Entry {
    ScheduleLoss(e.(subscriptions := DeliverAll(e.subscriptions, r)))
  }

  function CloseAttached(s: Subscription): Subscription {
    if s.attached then s.(channel := s.channel.Close()) else s
  }

  function CloseAll(subs: map<nat, Subscription>): map<nat, Subscription> {
    map s | s in subs :: CloseAttached(subs[s])
  }

  function MarkTerminal(e: Entry, now: int, stopWins: bool): Entry {
    if e.terminal then e
    else
      var f := StopLossTimer(e.(terminal := true, completedAt := now, prompt := None, cancelled := true), stopWins);
      f.(subscriptions := CloseAll(e.subscriptions))
  }

  // ----- the log -----

  function Retain(e: Entry, event: Event, size: nat): Entry {
    var r := Retained(event, size);
    Dispatch(e.(validator := e.validator.After(event), events := e.events + [r], eventBytes := e.eventBytes + size), r)
  }

  function TerminateCapacity(o: Options, e: Entry, now: int, stopWins: bool): Entry
  {
    if e.terminal then e
    else
      var d := CapacityDraft(e.id, |e.events| + 1);
      var event := Stamp(e.id, |e.events| + 1, d);
      var f := if Encode(d, o.maxBytes - e.eventBytes).Encoded? && |e.events| < o.maxEvents && e.validator.Admits(event)
               then Retain(e, event, d.size) else e;
      MarkTerminal(f, now, stopWins)
  }

  datatype Outcome = Appended | CapacityExhausted | Rejected

  function Append(o: Options, e: Entry, d: Draft, now: int, stopWins: bool): (Entry, Outcome)
  {
    var limit := if d.kind.Complete? then o.maxBytes else o.NonterminalByteLimit();
    if !d.kind.Complete? && |e.events| >= o.maxEvents - 1 then
      (TerminateCapacity(o, e, now, stopWins), CapacityExhausted)
    else if d.kind.Complete? && |e.events| >= o.maxEvents then
      (TerminateCapacity(o, e, now, stopWins), CapacityExhausted)
    else
      var event := Stamp(e.id, |e.events| + 1, d);
      match Encode(d, limit - e.eventBytes)
      case TooLarge => (TerminateCapacity(o, e, now, stopWins), CapacityExhausted)
      case Malformed => (e, Rejected)
      case Encoded => if e.validator.Admits(event) then (Retain(e, event, d.size), Appended) else (e, Rejected)
  }

  // Progress and Warning.
  function Emit(o: Options, e: Entry, d: Draft, now: int, stopWins: bool): (Entry, Outcome)
  {
    if e.terminal then (e, Rejected) else Append(o, e, d, now, stopWins)
  }

  // Publishing the worker's completion; `fallback` is the failure published when
  // its own record is rejected.
  function PublishCompletion(o: Options, e: Entry, d: Draft, fallback: Draft, now: int, stopWins: bool): Entry {
    var (f, outcome) := Append(o, e, d, now, stopWins);
    if outcome.Appended? || f.terminal then f else PublishFallback(o, f, fallback, now, stopWins)
  }

  function PublishFallback(o: Options, e: Entry, fallback: Draft, now: int, stopWins: bool): Entry {
    var (f, outcome) := Append(o, e, fallback, now, stopWins);
    if outcome.Appended? || f.terminal then f else TerminateCapacity(o, f, now, stopWins)
  }

  function Finish(o: Options, e: Entry, d: Draft, fallback: Draft, now: int, stopWins: bool): Entry {
    if e.terminal then e.(worker := Finished)
    else MarkTerminal(PublishCompletion(o, e, d, fallback, now, stopWins), now, stopWins).(worker := Finished)
  }

  function DrainCancel(o: Options, e: Entry, now: int, stopWins: bool): Entry
  {
    if e.terminal then e
    else MarkTerminal(Append(o, e, DrainDraft(e.id, |e.events| + 1), now, stopWins).0, now, stopWins)
  }

  // ----- subscriptions -----

  // The events a new subscriber is sent first.
  function Replay(log: seq<Retained>, after: nat): seq<Retained> {
    if log == [] then []
    else (if log[0].event.sequence > after then [log[0]] else []) + Replay(log[1..], after)
  }

  function Subscribe(o: Options, e: Entry, s: nat, after: nat, stopWins: bool): Entry
    requires 1 <= o.queue
  {
    var replay := Replay(e.events, after);
    var channel := Channel(|replay| + o.queue + CRITICAL_QUEUE_RESERVE, [], false, false).SendAll(replay);
    var f := StopLossTimer(e, stopWins);
    f.(subscriptions := f.subscriptions[s := Subscription(after, [],
                          if e.terminal then channel.Close() else channel, true, true)],
       subscriberCount := e.subscriberCount + 1)
  }

  function Unsubscribe(e: Entry, s: nat): Entry
    requires s in e.subscriptions
  {
    var sub := e.subscriptions[s];
    var gone := sub.(attached := false,
                     channel := if sub.attached && !e.terminal then sub.channel.Close() else sub.channel);
    if !sub.counted then e.(subscriptions := e.subscriptions[s := gone])
    else ScheduleLoss(e.(subscriptions := e.subscriptions[s := gone.(counted := false)],
                         subscriberCount := e.subscriberCount - 1))
  }

  // A consumer takes the next queued event.
  function Receive(e: Entry, s: nat): Entry
    requires s in e.subscriptions && e.subscriptions[s].channel.queue != []
  {
    var sub := e.subscriptions[s];
    var q := sub.channel.queue;
    e.(subscriptions := e.subscriptions[s := sub.(taken := sub.taken + [q[0]],
                                                  channel := sub.channel.(queue := q[1..]))])
  }

  // ----- prompts -----

  function OpenPrompt(o: Options, e: Entry, id: string, d: Draft, now: int, stopWins: bool): (Entry, Outcome)
  {
    if e.terminal || e.prompt.Some? then (e, Rejected)
    else
      var handle := |e.prompts|;
      var state := PromptState(id, [], false, None, false, false);
      var (f, outcome) := Append(o, e.(prompt := Some(handle), prompts := e.prompts + [state]), d, now, stopWins);
      if outcome.Appended? then (f, outcome)
      else (f.(prompt := if f.prompt == Some(handle) then None else f.prompt,
               prompts := e.prompts + [state.(ended := true)]), outcome)
  }

  function Respond(e: Entry, r: Response): (Entry, bool)
    requires e.prompt.Some? ==> e.prompt.value < |e.prompts|
  {
    if e.terminal || e.prompt.None? then (e, false)
    else
      var h := e.prompt.value;
      var p := e.prompts[h];
      if p.id != r.promptId || p.responded then (e, false)
      else (e.(prompts := e.prompts[h := p.(responded := true).Send(r)]), true)
  }

  // The waiting worker receives its response.
  function TakeResponse(e: Entry, h: nat): Entry
    requires h < |e.prompts| && e.prompts[h].responses != [] && !e.prompts[h].ended
  {
    var p := e.prompts[h];
    e.(prompts := e.prompts[h := p.(taken := Some(p.responses[0]), responses := p.responses[1..])])
  }

  // The deferred cleanup of Prompt, after a response or a cancelled wait.
  function EndPrompt(e: Entry, h: nat): Entry
    requires h < |e.prompts|
  {
    e.(prompts := e.prompts[h := e.prompts[h].(ended := true)],
       prompt := if e.prompt == Some(h) then None else e.prompt)
  }
}
