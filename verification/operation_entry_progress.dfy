/** What every step of a retained operation leaves in place: the log only grows,
    a terminal log is final, consumers keep what they received, and losing the
    last subscriber always draws a fresh timer token. */
module OperationEntryProgress {
  import opened Wrappers
  import opened OperationStream
  import opened OperationEntries
  import opened OperationEntryInvariant
  import opened OperationEntrySteps
  import opened OperationEntryExactness

  function Rank(w: Worker): nat {
    match w
    case Running => 0
    case Finished => 1
    case Released => 2
    case Done => 3
  }

  ghost predicate SubsProgress(before: map<nat, Subscription>, after: map<nat, Subscription>) {
    forall s | s in before ::
      && s in after
      && after[s].cursor == before[s].cursor
      && before[s].taken <= after[s].taken
  }

  // Prompts are never forgotten or renamed, a response is never taken back, and
  // what a worker received stays.
  ghost predicate PromptsProgress(before: seq<PromptState>, after: seq<PromptState>) {
    && |before| <= |after|
    && forall h | 0 <= h < |before| ::
      && after[h].id == before[h].id
      && (before[h].responded ==> after[h].responded)
      && (before[h].taken.Some? ==> after[h].taken == before[h].taken)
      && (before[h].ended ==> after[h].ended)
  }

  ghost predicate Evolves(e: Entry, f: Entry) {
    && f.id == e.id && f.requestDigest == e.requestDigest
    && e.events <= f.events
    && (e.terminal ==> f.terminal && f.events == e.events && f.completedAt == e.completedAt)
    && (e.cancelled ==> f.cancelled)
    && SubsProgress(e.subscriptions, f.subscriptions)
    && PromptsProgress(e.prompts, f.prompts)
    && e.lossTimerToken <= f.lossTimerToken
    && (f.lossTimerToken == e.lossTimerToken && e.HasAttached() && !f.terminal ==> f.HasAttached())
  }

  lemma ProgressTrans(e: Entry, f: Entry, g: Entry)
    requires Evolves(e, f) && Evolves(f, g)
    ensures Evolves(e, g)
  {
  }

  lemma ScheduleProgress(e: Entry, f: Entry)
    requires e.id == f.id && e.requestDigest == f.requestDigest && e.events <= f.events
    requires !e.terminal && !f.terminal && e.cancelled == f.cancelled && e.lossTimerToken == f.lossTimerToken
    requires SubsProgress(e.subscriptions, f.subscriptions) && e.prompts == f.prompts
    requires e.HasAttached() ==> f.lossTimer.None?
    ensures Evolves(e, ScheduleLoss(f))
  {
  }

  lemma RetainProgress(o: Options, e: Entry, event: Event, size: nat)
    requires Mid(o, e) && !e.terminal
    ensures Evolves(e, Retain(e, event, size))
  {
    hide LogInv, SubsInv, PromptInv, Counted, AnyAttached;
    var r := Retained(event, size);
    var f := e.(validator := e.validator.After(event), events := e.events + [r], eventBytes := e.eventBytes + size,
                subscriptions := DeliverAll(e.subscriptions, r));
    ScheduleProgress(e, f);
  }

  lemma MarkTerminalProgress(e: Entry, now: int, stopWins: bool)
    ensures Evolves(e, MarkTerminal(e, now, stopWins))
  {
  }

  lemma TerminateCapacityProgress(o: Options, e: Entry, now: int, stopWins: bool)
    requires o.Valid() && Mid(o, e)
    ensures Evolves(e, TerminateCapacity(o, e, now, stopWins))
  {
    hide Mid, Evolves, Retain, MarkTerminal;
    var d := CapacityDraft(e.id, |e.events| + 1);
    var event := Stamp(e.id, |e.events| + 1, d);
    if !e.terminal {
      RetainProgress(o, e, event, d.size);
      MarkTerminalProgress(e, now, stopWins);
      MarkTerminalProgress(Retain(e, event, d.size), now, stopWins);
      ProgressTrans(e, Retain(e, event, d.size), MarkTerminal(Retain(e, event, d.size), now, stopWins));
    } else {
      MarkTerminalProgress(e, now, stopWins);
      ProgressRefl(e);
    }
  }

  lemma ProgressRefl(e: Entry)
    ensures Evolves(e, e)
  {
  }

  lemma AppendProgress(o: Options, e: Entry, d: Draft, now: int, stopWins: bool)
    requires o.Valid() && Mid(o, e) && !e.terminal
    ensures Evolves(e, Append(o, e, d, now, stopWins).0)
  {
    hide Mid, Evolves, Retain, TerminateCapacity;
    TerminateCapacityProgress(o, e, now, stopWins);
    RetainProgress(o, e, Stamp(e.id, |e.events| + 1, d), d.size);
    ProgressRefl(e);
  }

  lemma FinishProgress(o: Options, e: Entry, d: Draft, fallback: Draft, now: int, stopWins: bool)
    requires o.Valid() && Inv(o, e) && d.kind.Complete? && fallback.kind.Complete?
    ensures Evolves(e, Finish(o, e, d, fallback, now, stopWins))
  {
    hide Mid, Evolves, Append, TerminateCapacity, MarkTerminal;
    ProgressRefl(e);
    if !e.terminal {
      AppendInv(o, e, d, now, stopWins);
      AppendProgress(o, e, d, now, stopWins);
      AppendInv(o, e, fallback, now, stopWins);
      AppendProgress(o, e, fallback, now, stopWins);
      TerminateCapacityProgress(o, e, now, stopWins);
      var g := PublishCompletion(o, e, d, fallback, now, stopWins);
      MarkTerminalProgress(g, now, stopWins);
      ProgressTrans(e, g, MarkTerminal(g, now, stopWins));
      WorkerOnly(e, MarkTerminal(g, now, stopWins), Finished);
    } else {
      WorkerOnly(e, e, Finished);
    }
  }

  lemma WorkerOnly(e: Entry, f: Entry, w: Worker)
    requires Evolves(e, f)
    ensures Evolves(e, f.(worker := w))
  {
  }

  lemma DrainProgress(o: Options, e: Entry, now: int, stopWins: bool)
    requires o.Valid() && Inv(o, e)
    ensures Evolves(e, DrainCancel(o, e, now, stopWins))
  {
    hide Mid, Evolves, Append, MarkTerminal;
    ProgressRefl(e);
    if !e.terminal {
      var d := DrainDraft(e.id, |e.events| + 1);
      AppendProgress(o, e, d, now, stopWins);
      var f := Append(o, e, d, now, stopWins).0;
      MarkTerminalProgress(f, now, stopWins);
      ProgressTrans(e, f, MarkTerminal(f, now, stopWins));
    }
  }

  lemma AskProgress(o: Options, e: Entry, id: string, d: Draft, now: int, stopWins: bool)
    requires o.Valid() && Inv(o, e)
    ensures Evolves(e, OpenPrompt(o, e, id, d, now, stopWins).0)
  {
    hide LogInv, SubsInv, TimerInv, Counted, AnyAttached, Append;
    if !e.terminal && e.prompt.None? {
      var state := PromptState(id, [], false, None, false, false);
      var asked := e.(prompt := Some(|e.prompts|), prompts := e.prompts + [state]);
      AppendProgress(o, asked, d, now, stopWins);
    }
  }

  lemma UnsubscribeProgress(e: Entry, s: nat)
    requires s in e.subscriptions && e.subscriptions[s].counted && (e.lossTimer.Some? ==> !e.HasAttached())
    ensures Evolves(e, Unsubscribe(e, s))
  {
  }

  lemma SubscribeProgress(o: Options, e: Entry, s: nat, after: nat, stopWins: bool)
    requires o.Valid() && s !in e.subscriptions
    ensures Evolves(e, Subscribe(o, e, s, after, stopWins))
  {
  }

  lemma ReceiveProgress(e: Entry, s: nat)
    requires s in e.subscriptions && e.subscriptions[s].channel.queue != []
    ensures Evolves(e, Receive(e, s))
  {
  }

  lemma PromptStepsProgress(o: Options, e: Entry, h: nat, r: Response)
    requires o.Valid() && Inv(o, e)
    ensures Evolves(e, Respond(e, r).0)
    ensures h < |e.prompts| ==> Evolves(e, EndPrompt(e, h))
    ensures h < |e.prompts| && e.prompts[h].responses != [] && !e.prompts[h].ended ==> Evolves(e, TakeResponse(e, h))
  {
    hide LogInv, SubsInv, TimerInv, Counted, AnyAttached;
  }

  lemma {:induction false} StepProgress(o: Options, e: Entry, step: Step, now: int, stopWins: bool, retained: bool)
    requires o.Valid() && Inv(o, e) && Enabled(e, step)
    ensures Evolves(e, Apply(o, e, step, now, stopWins, retained))
  {
    hide LogInv, SubsInv, PromptInv, Counted, AnyAttached, SubsProgress, PromptsProgress;
    hide Append, Finish, OpenPrompt, DrainCancel, Subscribe, Unsubscribe, Receive, Respond, TakeResponse, EndPrompt;
    ProgressRefl(e);
    match step
    case Emitting(d) =>
      if !e.terminal {
        AppendInv(o, e, d, now, stopWins);
        AppendProgress(o, e, d, now, stopWins);
      }
    case Asking(id, d) =>
        AskProgress(o, e, id, d, now, stopWins);
    case Finishing(d, fallback) =>
        FinishProgress(o, e, d, fallback, now, stopWins);
    case Draining =>
        DrainProgress(o, e, now, stopWins);
    case Subscribing(s, after) => SubscribeProgress(o, e, s, after, stopWins);
    case Unsubscribing(s) => UnsubscribeProgress(e, s);
    case Receiving(s) => ReceiveProgress(e, s);
    case Responding(r) => PromptStepsProgress(o, e, 0, r);
    case TakingResponse(h) => PromptStepsProgress(o, e, h, Response("", ""));
    case EndingPrompt(h) => PromptStepsProgress(o, e, h, Response("", ""));
    case _ =>
  }

  // What each step does to the bookkeeping the hub shares between operations.
  lemma StepAccounting(o: Options, e: Entry, step: Step, now: int, stopWins: bool, retained: bool)
    requires o.Valid() && Inv(o, e) && Enabled(e, step)
    ensures var f := Apply(o, e, step, now, stopWins, retained);
            && f.subscriberCount ==
                e.subscriberCount + (if step.Subscribing? then 1 else if step.Unsubscribing? then -1 else 0)
            && f.worker == (match step
                            case Finishing(_, _) => Finished
                            case Releasing => Released
                            case Exiting => Done
                            case _ => e.worker)
            && f.release == (if step.Exiting? then None else e.release)
            && (step.Finishing? || step.Draining? ==> f.terminal)
            && (!e.terminal && f.terminal ==> f.completedAt == now)
            && (step.Cancelling? ==> f.cancelled)
  {
    hide LogInv, SubsInv, TimerInv, PromptInv, Counted, AnyAttached, Append, TerminateCapacity;
    match step
    case Emitting(d) =>
      if !e.terminal {
        AppendInv(o, e, d, now, stopWins);
        AppendExactly(o, e, d, now, stopWins);
      }
    case Asking(id, d) =>
      if !e.terminal && e.prompt.None? {
        AppendAsked(o, e, PromptState(id, [], false, None, false, false), d, now, stopWins);
      }
    case Finishing(d, fallback) =>
      FinishAccounting(o, e, d, fallback, now, stopWins);
    case Draining =>
      DrainInv(o, e, now, stopWins);
      DrainExactly(o, e, now, stopWins);
    case _ =>
  }

  lemma AppendAsked(o: Options, e: Entry, state: PromptState, d: Draft, now: int, stopWins: bool)
    requires o.Valid() && Inv(o, e) && !e.terminal && e.prompt.None? && !d.kind.Complete?
    requires PromptOk(state) && !state.ended
    ensures var asked := e.(prompt := Some(|e.prompts|), prompts := e.prompts + [state]);
            var f := Append(o, asked, d, now, stopWins).0;
            SameIdentity(asked, f) && (f.terminal ==> f.completedAt == now)
  {
    hide LogInv, SubsInv, TimerInv, Counted, AnyAttached, Append;
    var asked := e.(prompt := Some(|e.prompts|), prompts := e.prompts + [state]);
    AppendInv(o, asked, d, now, stopWins);
    AppendExactly(o, asked, d, now, stopWins);
  }

  lemma FinishAccounting(o: Options, e: Entry, d: Draft, fallback: Draft, now: int, stopWins: bool)
    requires o.Valid() && Inv(o, e) && d.kind.Complete? && fallback.kind.Complete? && e.worker.Running?
    ensures var f := Finish(o, e, d, fallback, now, stopWins);
            && f.terminal && f.worker.Finished? && f.release == e.release && f.subscriberCount == e.subscriberCount
            && (!e.terminal ==> f.completedAt == now)
  {
    hide LogInv, SubsInv, TimerInv, PromptInv, Counted, AnyAttached, PublishCompletion;
    FinishExactly(o, e, d, fallback, now, stopWins);
    if !e.terminal {
      PublishInv(o, e, d, fallback, now, stopWins);
    }
  }
}
