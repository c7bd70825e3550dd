/** Exactly what the regions that write a log or a prompt do, in terms of the
    room, the payload and the state before. */
module OperationEntryExactness {
  import opened Integers
  import opened Wrappers
  import opened OperationStream
  import opened OperationEntries
  import opened OperationEntryInvariant
  import opened OperationEntrySteps

  // ----- appending -----

  // What validateOperationEventShape asks of the payload of an event.
  predicate WellShaped(d: Draft) {
    && !d.kind.Unrecognized? && |d.message| <= MAX_MESSAGE_BYTES
    && (d.prompt.Some? <==> d.kind.Prompting?)
    && (d.prompt.Some? ==>
          d.prompt.value.id != "" && d.prompt.value.kind != "" && |d.prompt.value.message| <= MAX_MESSAGE_BYTES)
    && (if d.kind.Complete? then d.result.Some? != d.failure.Some? else d.result.None? && d.failure.None?)
  }

  function RoomFor(o: Options, e: Entry, kind: EventKind): int {
    (if kind.Complete? then o.maxBytes else o.NonterminalByteLimit()) - e.eventBytes
  }

  predicate BadResult(d: Draft) {
    d.result.Some? && !d.resultValid
  }

  predicate ChargeFits(o: Options, e: Entry, d: Draft) {
    d.charge.Some? && d.charge.value <= RoomFor(o, e, d.kind)
  }

  // There is room for the event and nothing is wrong with it.
  predicate Appendable(o: Options, e: Entry, d: Draft) {
    && (d.kind.Complete? || |e.events| < o.maxEvents - 1)
    && !BadResult(d) && d.marshals && ChargeFits(o, e, d) && d.size <= RoomFor(o, e, d.kind)
    && WellShaped(d)
  }

  // There is no room for it.
  predicate Crowded(o: Options, e: Entry, d: Draft) {
    || (!d.kind.Complete? && |e.events| >= o.maxEvents - 1)
    || (!BadResult(d) && (!ChargeFits(o, e, d) || (d.marshals && d.size > RoomFor(o, e, d.kind))))
  }

  // The event a draft becomes at the end of this log.
  function Following(e: Entry, d: Draft): Retained {
    Retained(Event(e.id, (|e.events| + 1) % TWO_TO_THE_64, d.kind, d.message, d.prompt, d.result, d.failure), d.size)
  }

  // The log with the fixed failure record, if that fits what is left of MaxBytes.
  function Capped(o: Options, e: Entry): seq<Retained> {
    var size := CAPACITY_RECORD_BYTES + |e.id| + Digits(|e.events| + 1);
    var failure := Descriptor("operation_outcome_unknown", CAPACITY_MESSAGE, false);
    var event := Event(e.id, (|e.events| + 1) % TWO_TO_THE_64, Complete, "", None, None, Some(failure));
    e.events + if size <= o.maxBytes - e.eventBytes then [Retained(event, size)] else []
  }

  lemma CapacityRecord(o: Options, e: Entry, now: int, stopWins: bool)
    requires o.Valid() && Mid(o, e) && !e.terminal && !EndsComplete(e.events)
    ensures TerminateCapacity(o, e, now, stopWins).events == Capped(o, e)
    ensures TerminateCapacity(o, e, now, stopWins).completedAt == now
  {
    hide Mid, Retain, MarkTerminal, Digits;
    OpenLogFacts(o, e);
    var d := CapacityDraft(e.id, |e.events| + 1);
    var event := Stamp(e.id, |e.events| + 1, d);
    RetainedLog(e, event, d.size);
    Ended(e, now, stopWins);
    Ended(Retain(e, event, d.size), now, stopWins);
    assert e.events + [] == e.events;
  }

  /** An event is appended exactly when nothing is wrong with it and it fits, and
      ends the operation exactly when there is no room for it. */
  lemma AppendExactly(o: Options, e: Entry, d: Draft, now: int, stopWins: bool)
    requires o.Valid() && Mid(o, e) && !e.terminal && !EndsComplete(e.events)
    ensures var (f, outcome) := Append(o, e, d, now, stopWins);
      && (outcome.Appended? <==> Appendable(o, e, d))
      && (outcome.CapacityExhausted? <==> Crowded(o, e, d))
      && (outcome.Appended? ==> f.events == e.events + [Following(e, d)] && f.eventBytes == e.eventBytes + d.size)
      && (outcome.Appended? ==> !f.terminal && f.prompt == e.prompt)
      && (outcome.CapacityExhausted? ==> f.terminal && f.events == Capped(o, e) && f.completedAt == now)
      && (outcome.Rejected? ==> f == e)
  {
    hide Mid, Retain, TerminateCapacity;
    OpenLogFacts(o, e);
    CapacityRecord(o, e, now, stopWins);
    TerminateCapacityInv(o, e, now, stopWins);
    RetainedLog(e, Stamp(e.id, |e.events| + 1, d), d.size);
  }

  // ----- finishing -----

  /** The log of a finished operation ends with the worker's own completion if
      that can be appended. The fallback is there only when that is refused for
      another reason than its length; otherwise the fixed record is, if it fits. */
  lemma FinishExactly(o: Options, e: Entry, d: Draft, fallback: Draft, now: int, stopWins: bool)
    requires o.Valid() && Inv(o, e) && d.kind.Complete? && fallback.kind.Complete?
    ensures var f := Finish(o, e, d, fallback, now, stopWins);
      && f.terminal && f.worker.Finished?
      && (e.terminal ==> f == e.(worker := Finished))
      && (!e.terminal ==> f.completedAt == now)
      && (!e.terminal && Appendable(o, e, d) ==> f.events == e.events + [Following(e, d)])
      && (!e.terminal && !Appendable(o, e, d) && !Crowded(o, e, d) && Appendable(o, e, fallback) ==>
            f.events == e.events + [Following(e, fallback)])
      && (!e.terminal && !Appendable(o, e, d) && (Crowded(o, e, d) || !Appendable(o, e, fallback)) ==>
            f.events == Capped(o, e))
  {
    hide Append, TerminateCapacity, Appendable, Crowded, Following, Capped, Inv, Mid, MarkTerminal;
    if !e.terminal {
      OpenEntry(o, e);
      AppendExactly(o, e, d, now, stopWins);
      var (first, outcome) := Append(o, e, d, now, stopWins);
      var g := PublishCompletion(o, e, d, fallback, now, stopWins);
      if outcome.Rejected? {
        assert first == e;
        AppendExactly(o, e, fallback, now, stopWins);
        CapacityRecord(o, e, now, stopWins);
        TerminateCapacityInv(o, e, now, stopWins);
        var (second, last) := Append(o, e, fallback, now, stopWins);
        assert g == if last.Rejected? then TerminateCapacity(o, e, now, stopWins) else second;
      } else {
        assert g == first;
      }
      Ended(g, now, stopWins);
    }
  }

  // ----- the fixed records -----

  // The JSON text of a failure record with an empty ID and no sequence number.
  function RecordText(message: string): string {
    "{\"operation_id\":\"\",\"sequence\":,\"kind\":\"complete\",\"failure\":{\"code\":\"operation_outcome_unknown\","
    + "\"message\":\"" + message + "\",\"retryable\":false}}"
  }

  lemma RecordTextLength(message: string)
    ensures |RecordText(message)| == 127 + |message|
  {
  }

  /** The lengths of the two fixed records are those of their texts. */
  lemma RecordsAreSized(id: string, sequence: nat)
    ensures CapacityDraft(id, sequence).size == |RecordText(CAPACITY_MESSAGE)| + |id| + Digits(sequence)
    ensures DrainDraft(id, sequence).size == |RecordText(DRAIN_MESSAGE)| + |id| + Digits(sequence)
  {
    hide RecordText, Digits;
    RecordTextLength(CAPACITY_MESSAGE);
    RecordTextLength(DRAIN_MESSAGE);
  }

  /** The size check charges the literals in them, and two bytes each for the
      message of the event and its missing details. */
  lemma RecordsAreCharged(id: string, sequence: nat)
    ensures CapacityDraft(id, sequence).charge ==
      Some(2 + |"\"operation_outcome_unknown\""| + (|CAPACITY_MESSAGE| + 2) + 2)
    ensures DrainDraft(id, sequence).charge ==
      Some(2 + |"\"operation_outcome_unknown\""| + (|DRAIN_MESSAGE| + 2) + 2)
  {
    hide Digits;
  }

  // ----- draining and asking -----

  // The log with the record of the drain deadline, if that fits.
  function Drained(o: Options, e: Entry): seq<Retained> {
    var size := DRAIN_RECORD_BYTES + |e.id| + Digits(|e.events| + 1);
    var failure := Descriptor("operation_outcome_unknown", DRAIN_MESSAGE, false);
    var event := Event(e.id, (|e.events| + 1) % TWO_TO_THE_64, Complete, "", None, None, Some(failure));
    e.events + if size <= o.maxBytes - e.eventBytes then [Retained(event, size)] else []
  }

  lemma DrainExactly(o: Options, e: Entry, now: int, stopWins: bool)
    requires o.Valid() && Inv(o, e)
    ensures var f := DrainCancel(o, e, now, stopWins);
      && f.terminal
      && (e.terminal ==> f == e)
      && (!e.terminal ==> f.events == Drained(o, e) && f.completedAt == now)
  {
    hide Append, TerminateCapacity, Inv, Mid, MarkTerminal, Digits;
    if !e.terminal {
      OpenEntry(o, e);
      OpenLogFacts(o, e);
      var d := DrainDraft(e.id, |e.events| + 1);
      AppendExactly(o, e, d, now, stopWins);
      Ended(Append(o, e, d, now, stopWins).0, now, stopWins);
      assert e.events + [] == e.events;
    }
  }

  /** A prompt is published exactly when none is open and its event can be
      appended; it is then the current one, without a response. */
  lemma AskExactly(o: Options, e: Entry, id: string, d: Draft, now: int, stopWins: bool)
    requires o.Valid() && Inv(o, e) && d.kind.Prompting?
    ensures var (f, outcome) := OpenPrompt(o, e, id, d, now, stopWins);
      && (outcome.Appended? <==> !e.terminal && e.prompt.None? && Appendable(o, e, d))
      && (outcome.CapacityExhausted? <==> !e.terminal && e.prompt.None? && Crowded(o, e, d))
      && (e.terminal || e.prompt.Some? ==> f == e)
      && (outcome.Appended? ==>
            && f.prompt == Some(|e.prompts|) && f.events == e.events + [Following(e, d)]
            && f.prompts == e.prompts + [PromptState(id, [], false, None, false, false)])
      && (!e.terminal && e.prompt.None? && !outcome.Appended? ==>
            && f.prompt.None? && f.events == (if outcome.CapacityExhausted? then Capped(o, e) else e.events)
            && f.prompts == e.prompts + [PromptState(id, [], false, None, true, false)])
  {
    hide Append, Mid, Inv, Capped, Following;
    if !e.terminal && e.prompt.None? {
      OpenEntry(o, e);
      var state := PromptState(id, [], false, None, false, false);
      var asked := e.(prompt := Some(|e.prompts|), prompts := e.prompts + [state]);
      AskedMid(o, e, id);
      AppendExactly(o, asked, d, now, stopWins);
      AppendInv(o, asked, d, now, stopWins);
      assert Following(asked, d) == Following(e, d) && Capped(o, asked) == Capped(o, e) by {
        SameNext(o, e, asked, d);
      }
    }
  }

  lemma SameNext(o: Options, e: Entry, f: Entry, d: Draft)
    requires f.id == e.id && f.events == e.events && f.eventBytes == e.eventBytes
    ensures Following(f, d) == Following(e, d) && Capped(o, f) == Capped(o, e)
  {
  }

  lemma AskedMid(o: Options, e: Entry, id: string)
    requires Mid(o, e) && !e.terminal && e.prompt.None?
    ensures Mid(o,
        e.(prompt := Some(|e.prompts|), prompts := e.prompts + [PromptState(id, [], false, None, false, false)]))
  {
    hide LogInv, SubsInv, TimerInv, Counted, AnyAttached;
  }

  lemma OpenEntry(o: Options, e: Entry)
    requires o.Valid() && Inv(o, e) && !e.terminal
    ensures Mid(o, e) && !EndsComplete(e.events)
  {
  }

  // ----- responses -----

  // The responses a prompt holds, received by its worker or still queued for it.
  function Held(p: PromptState): seq<Response> {
    (if p.taken.Some? then [p.taken.value] else []) + p.responses
  }

  // The current prompt accepts this response.
  predicate Accepts(e: Entry, h: nat, r: Response) {
    !e.terminal && e.prompt == Some(h) && h < |e.prompts| && e.prompts[h].id == r.promptId && !e.prompts[h].responded
  }

  ghost predicate HoldsAfter(e: Entry, step: Step, f: Entry) {
    && |e.prompts| <= |f.prompts|
    && (forall h: nat | h < |e.prompts| ::
          Held(f.prompts[h]) ==
            if step.Responding? && Accepts(e, h, step.r) then [step.r] else Held(e.prompts[h]))
    && (forall h: nat | |e.prompts| <= h < |f.prompts| :: Held(f.prompts[h]) == [])
  }

  lemma NotYetHeld(o: Options, e: Entry)
    requires o.Valid() && Inv(o, e)
    ensures forall h: nat | h < |e.prompts| && !e.prompts[h].responded :: Held(e.prompts[h]) == []
  {
    hide LogInv, SubsInv, TimerInv, Counted, AnyAttached;
  }

  lemma RespondHolds(o: Options, e: Entry, r: Response)
    requires o.Valid() && Inv(o, e)
    ensures HoldsAfter(e, Responding(r), Respond(e, r).0)
  {
    hide Inv;
    RespondInv(o, e, r);
    NotYetHeld(o, e);
    InvParts(o, e);
    PromptInRange(o, e);
  }

  lemma PromptInRange(o: Options, e: Entry)
    requires o.Valid() && Inv(o, e)
    ensures e.prompt.Some? ==> e.prompt.value < |e.prompts| && !e.terminal
  {
    hide LogInv, SubsInv, TimerInv, Counted, AnyAttached;
  }

  lemma RespondAccepts(o: Options, e: Entry, r: Response)
    requires o.Valid() && Inv(o, e)
    ensures e.prompt.Some? ==> e.prompt.value < |e.prompts|
    ensures Respond(e, r).1 <==> exists h: nat :: Accepts(e, h, r)
  {
    hide Inv;
    PromptInRange(o, e);
    RespondInv(o, e, r);
    if Respond(e, r).1 {
      assert Accepts(e, e.prompt.value, r);
    }
  }

  lemma TakeHolds(o: Options, e: Entry, h: nat)
    requires o.Valid() && Inv(o, e) && h < |e.prompts| && e.prompts[h].responses != [] && !e.prompts[h].ended
    ensures HoldsAfter(e, TakingResponse(h), TakeResponse(e, h))
  {
    hide LogInv, SubsInv, TimerInv, Counted, AnyAttached;
    assert PromptOk(e.prompts[h]);
  }

  lemma SameHolds(e: Entry, step: Step, f: Entry)
    requires f.prompts == e.prompts && !step.Responding?
    ensures HoldsAfter(e, step, f)
  {
  }

  // A prompt holds what it held, but that the current one may accept a response,
  // the one given, when it holds none.
  lemma StepHolds(o: Options, e: Entry, step: Step, now: int, stopWins: bool, retained: bool)
    requires o.Valid() && Inv(o, e) && Enabled(e, step)
    ensures HoldsAfter(e, step, Apply(o, e, step, now, stopWins, retained))
    ensures step.Responding? ==> forall h: nat | Accepts(e, h, step.r) :: Held(e.prompts[h]) == []
  {
    hide Inv, AnyAttached, Append, Finish, OpenPrompt, DrainCancel, Replay, HoldsAfter;
    hide TakeResponse, Respond, EndPrompt;
    var f := Apply(o, e, step, now, stopWins, retained);
    match step
    case Responding(r) =>
      NotYetHeld(o, e);
      RespondHolds(o, e, r);
    case TakingResponse(h) => TakeHolds(o, e, h);
    case EndingPrompt(h) => EndHolds(e, h);
    case Asking(id, d) => AskHolds(o, e, id, d, now, stopWins);
    case _ =>
      StepKeepsPrompts(o, e, step, now, stopWins, retained);
      SameHolds(e, step, f);
  }

  lemma EndHolds(e: Entry, h: nat)
    requires h < |e.prompts|
    ensures HoldsAfter(e, EndingPrompt(h), EndPrompt(e, h))
  {
  }

  lemma AskHolds(o: Options, e: Entry, id: string, d: Draft, now: int, stopWins: bool)
    requires o.Valid() && Inv(o, e) && d.kind.Prompting?
    ensures HoldsAfter(e, Asking(id, d), OpenPrompt(o, e, id, d, now, stopWins).0)
  {
    hide Inv, OpenPrompt;
    AskExactly(o, e, id, d, now, stopWins);
  }

  lemma StepKeepsPrompts(o: Options, e: Entry, step: Step, now: int, stopWins: bool, retained: bool)
    requires o.Valid() && Inv(o, e) && Enabled(e, step)
    requires !step.Asking? && !step.Responding? && !step.TakingResponse? && !step.EndingPrompt?
    ensures Apply(o, e, step, now, stopWins, retained).prompts == e.prompts
  {
    hide Inv, Mid, AnyAttached, Append, Finish, DrainCancel, Replay;
    match step
    case Emitting(d) =>
      if !e.terminal {
        OpenEntry(o, e);
        AppendInv(o, e, d, now, stopWins);
      }
    case Finishing(d, fallback) => FinishKeepsPrompts(o, e, d, fallback, now, stopWins);
    case Draining => DrainInv(o, e, now, stopWins);
    case _ =>
  }

  lemma FinishKeepsPrompts(o: Options, e: Entry, d: Draft, fallback: Draft, now: int, stopWins: bool)
    requires o.Valid() && Inv(o, e) && d.kind.Complete? && fallback.kind.Complete?
    ensures Finish(o, e, d, fallback, now, stopWins).prompts == e.prompts
  {
    hide Inv, Mid, PublishCompletion;
    if !e.terminal {
      PublishInv(o, e, d, fallback, now, stopWins);
    }
  }

  // ----- loss timers -----

  // A callback cancels exactly when it holds the current token and finds the
  // operation still retained, running and without subscribers.
  lemma FireExactly(e: Entry, token: nat, retained: bool)
    ensures var f := FireLossTimer(e, token, retained);
      && (f.cancelled <==>
            e.cancelled || (token == e.lossTimerToken && retained && !e.terminal && !e.HasAttached()))
      && f.lossTimer == (if token == e.lossTimerToken then None else e.lossTimer)
      && f.lossTimerToken == e.lossTimerToken && f.subscriptions == e.subscriptions && f.terminal == e.terminal
  {
    hide AnyAttached;
  }

  // ----- staying attached -----

  // Every attached subscription whose queue has room for an ordinary event stays.
  ghost predicate KeepsAttached(before: map<nat, Subscription>, after: map<nat, Subscription>) {
    forall s | s in before && before[s].attached ::
      && s in after && after[s].channel.cap == before[s].channel.cap
      && (after[s].attached || |before[s].channel.queue| >= before[s].channel.cap - 1)
  }

  lemma RetainKeepsAttached(e: Entry, event: Event, size: nat)
    ensures KeepsAttached(e.subscriptions, Retain(e, event, size).subscriptions)
  {
  }

  lemma EndKeepsAttached(before: map<nat, Subscription>, e: Entry, now: int, stopWins: bool)
    requires KeepsAttached(before, e.subscriptions)
    ensures KeepsAttached(before, MarkTerminal(e, now, stopWins).subscriptions)
  {
  }

  lemma AppendKeepsAttached(o: Options, e: Entry, d: Draft, now: int, stopWins: bool)
    ensures KeepsAttached(e.subscriptions, Append(o, e, d, now, stopWins).0.subscriptions)
    ensures KeepsAttached(e.subscriptions, TerminateCapacity(o, e, now, stopWins).subscriptions)
  {
    hide Retain, MarkTerminal, KeepsAttached;
    var c := CapacityDraft(e.id, |e.events| + 1);
    var record := Stamp(e.id, |e.events| + 1, c);
    StaysAttached(e.subscriptions);
    RetainKeepsAttached(e, record, c.size);
    RetainKeepsAttached(e, Stamp(e.id, |e.events| + 1, d), d.size);
    EndKeepsAttached(e.subscriptions, e, now, stopWins);
    EndKeepsAttached(e.subscriptions, Retain(e, record, c.size), now, stopWins);
  }

  lemma StaysAttached(subs: map<nat, Subscription>)
    ensures KeepsAttached(subs, subs)
  {
  }

  lemma FinishKeepsAttached(o: Options, e: Entry, d: Draft, fallback: Draft, now: int, stopWins: bool)
    requires o.Valid() && Inv(o, e) && d.kind.Complete? && fallback.kind.Complete?
    ensures KeepsAttached(e.subscriptions, Finish(o, e, d, fallback, now, stopWins).subscriptions)
  {
    hide Inv, Mid, Append, TerminateCapacity, MarkTerminal, KeepsAttached;
    StaysAttached(e.subscriptions);
    if !e.terminal {
      OpenEntry(o, e);
      AppendInv(o, e, d, now, stopWins);
      AppendKeepsAttached(o, e, d, now, stopWins);
      AppendKeepsAttached(o, e, fallback, now, stopWins);
      AppendInv(o, e, fallback, now, stopWins);
      var first, second := Append(o, e, d, now, stopWins), Append(o, e, fallback, now, stopWins);
      var g := PublishCompletion(o, e, d, fallback, now, stopWins);
      assert g == if !first.1.Rejected? then first.0
                  else if second.1.Rejected? then TerminateCapacity(o, e, now, stopWins)
                  else second.0;
      EndKeepsAttached(e.subscriptions, g, now, stopWins);
    }
  }

  lemma DrainKeepsAttached(o: Options, e: Entry, now: int, stopWins: bool)
    ensures KeepsAttached(e.subscriptions, DrainCancel(o, e, now, stopWins).subscriptions)
  {
    hide Append, MarkTerminal, KeepsAttached;
    var d := DrainDraft(e.id, |e.events| + 1);
    StaysAttached(e.subscriptions);
    AppendKeepsAttached(o, e, d, now, stopWins);
    EndKeepsAttached(e.subscriptions, Append(o, e, d, now, stopWins).0, now, stopWins);
  }

  lemma AskKeepsAttached(o: Options, e: Entry, id: string, d: Draft, now: int, stopWins: bool)
    ensures KeepsAttached(e.subscriptions, OpenPrompt(o, e, id, d, now, stopWins).0.subscriptions)
  {
    hide Append, KeepsAttached;
    StaysAttached(e.subscriptions);
    var state := PromptState(id, [], false, None, false, false);
    AppendKeepsAttached(o, e.(prompt := Some(|e.prompts|), prompts := e.prompts + [state]), d, now, stopWins);
  }

  lemma RespondKeepsAttached(e: Entry, r: Response)
    requires e.prompt.Some? ==> e.prompt.value < |e.prompts|
    ensures Respond(e, r).0.subscriptions == e.subscriptions
  {
  }

  lemma PromptKeepsAttached(e: Entry, h: nat)
    requires h < |e.prompts|
    ensures EndPrompt(e, h).subscriptions == e.subscriptions
    ensures e.prompts[h].responses != [] && !e.prompts[h].ended ==> TakeResponse(e, h).subscriptions == e.subscriptions
  {
  }

  lemma SubscribeKeepsAttached(o: Options, e: Entry, s: nat, after: nat, stopWins: bool)
    requires o.Valid() && s !in e.subscriptions
    ensures KeepsAttached(e.subscriptions, Subscribe(o, e, s, after, stopWins).subscriptions)
  {
    hide Replay;
  }

  lemma UnsubscribeKeepsAttached(e: Entry, s: nat)
    requires s in e.subscriptions
    ensures KeepsAttached(e.subscriptions - {s}, Unsubscribe(e, s).subscriptions)
  {
    hide AnyAttached;
  }

  lemma ReceiveKeepsAttached(e: Entry, s: nat)
    requires s in e.subscriptions && e.subscriptions[s].channel.queue != []
    ensures KeepsAttached(e.subscriptions, Receive(e, s).subscriptions)
  {
  }

  // Only its own Close or a queue without room detaches a subscription.
  lemma StepKeepsAttached(o: Options, e: Entry, step: Step, now: int, stopWins: bool, retained: bool)
    requires o.Valid() && Inv(o, e) && Enabled(e, step)
    ensures var f := Apply(o, e, step, now, stopWins, retained);
      KeepsAttached(if step.Unsubscribing? then e.subscriptions - {step.s} else e.subscriptions, f.subscriptions)
  {
    hide Inv, AnyAttached, Append, Finish, DrainCancel, Replay, KeepsAttached, Subscribe, Unsubscribe, Receive;
    hide FireLossTimer, Respond, TakeResponse, EndPrompt, OpenPrompt;
    StaysAttached(e.subscriptions);
    match step
    case Emitting(d) => AppendKeepsAttached(o, e, d, now, stopWins);
    case Asking(id, d) => AskKeepsAttached(o, e, id, d, now, stopWins);
    case Responding(r) => RespondKeepsAttached(e, r);
    case TakingResponse(h) => PromptKeepsAttached(e, h);
    case EndingPrompt(h) => PromptKeepsAttached(e, h);
    case Finishing(d, fallback) => FinishKeepsAttached(o, e, d, fallback, now, stopWins);
    case Draining => DrainKeepsAttached(o, e, now, stopWins);
    case Subscribing(s, after) => SubscribeKeepsAttached(o, e, s, after, stopWins);
    case Unsubscribing(s) => UnsubscribeKeepsAttached(e, s);
    case Receiving(s) => ReceiveKeepsAttached(e, s);
    case Firing(token) => FireExactly(e, token, retained);
    case _ =>
  }
}
