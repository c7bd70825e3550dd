/** Every step one retained operation can take, and that all of them keep its
    invariant. */
module OperationEntrySteps {
  import opened Wrappers
  import opened OperationStream
  import opened OperationEntries
  import opened OperationEntryInvariant

  datatype Step =
    | Emitting(d: Draft)
    | Asking(id: string, d: Draft)
    | Responding(r: Response)
    | TakingResponse(h: nat)
    | EndingPrompt(h: nat)
    | Cancelling
    | Finishing(d: Draft, fallback: Draft)
    | Draining
    | Subscribing(s: nat, after: nat)
    | Unsubscribing(s: nat)
    | Receiving(s: nat)
    | Firing(token: nat)
    | Releasing
    | Exiting

  // When a step can happen. Subscribing assumes the hub's cursor check; nothing
  // limits when a worker may emit or ask, so a late call is covered as well.
  ghost predicate Enabled(e: Entry, step: Step) {
    match step
    case Emitting(d) => d.kind.Progress? || d.kind.Warning?
    case Asking(id, d) => id != "" && d.kind.Prompting? && d.prompt.Some? && d.prompt.value.id == id
    case Responding(r) => ResponseOk(r) && (e.prompt.Some? ==> e.prompt.value < |e.prompts|)
    case TakingResponse(h) => h < |e.prompts| && e.prompts[h].responses != [] && !e.prompts[h].ended
    case EndingPrompt(h) => h < |e.prompts| && !e.prompts[h].ended
    case Cancelling => true
    case Finishing(d, fallback) =>
      && e.worker.Running?
      && d.kind.Complete? && d.message == "" && d.prompt.None? && d.result.None? == d.failure.Some?
      && fallback.kind.Complete? && fallback.message == ""
      && fallback.prompt.None? && fallback.result.None? && fallback.failure.Some?
    case Draining => true
    case Subscribing(s, after) => s !in e.subscriptions && after <= |e.events|
    case Unsubscribing(s) => s in e.subscriptions && e.subscriptions[s].counted
    case Receiving(s) => s in e.subscriptions && e.subscriptions[s].channel.queue != []
    case Firing(token) => token in e.callbacks
    case Releasing => e.worker.Finished?
    case Exiting => e.worker.Released?
  }

  // `now` is the hub's clock, `stopWins` whether stopping a timer beats its
  // callback, `retained` whether the hub still maps the ID to this entry.
  function Apply(o: Options, e: Entry, step: Step, now: int, stopWins: bool, retained: bool): Entry
    requires o.Valid() && Enabled(e, step)
  {
    match step
    case Emitting(d) => Emit(o, e, d, now, stopWins).0
    case Asking(id, d) => OpenPrompt(o, e, id, d, now, stopWins).0
    case Responding(r) => Respond(e, r).0
    case TakingResponse(h) => TakeResponse(e, h)
    case EndingPrompt(h) => EndPrompt(e, h)
    case Cancelling => e.(cancelled := true)
    case Finishing(d, fallback) => Finish(o, e, d, fallback, now, stopWins)
    case Draining => DrainCancel(o, e, now, stopWins)
    case Subscribing(s, after) => Subscribe(o, e, s, after, stopWins)
    case Unsubscribing(s) => Unsubscribe(e, s)
    case Receiving(s) => Receive(e, s)
    case Firing(token) => FireLossTimer(e, token, retained)
    case Releasing => e.(worker := Released)
    case Exiting => e.(worker := Done, release := None)
  }

  lemma EmitInv(o: Options, e: Entry, d: Draft, now: int, stopWins: bool)
    requires o.Valid() && Inv(o, e) && !d.kind.Complete?
    ensures Inv(o, Emit(o, e, d, now, stopWins).0)
  {
    hide Append;
    if !e.terminal {
      AppendInv(o, e, d, now, stopWins);
    }
  }

  lemma AskInv(o: Options, e: Entry, id: string, d: Draft, now: int, stopWins: bool)
    requires o.Valid() && Inv(o, e) && !d.kind.Complete?
    ensures Inv(o, OpenPrompt(o, e, id, d, now, stopWins).0)
  {
    hide Append, LogInv, SubsInv, TimerInv, Counted, AnyAttached;
    if !e.terminal && e.prompt.None? {
      var handle := |e.prompts|;
      var state := PromptState(id, [], false, None, false, false);
      var asked := e.(prompt := Some(handle), prompts := e.prompts + [state]);
      AppendInv(o, asked, d, now, stopWins);
    }
  }

  lemma PublishInv(o: Options, e: Entry, d: Draft, fallback: Draft, now: int, stopWins: bool)
    requires o.Valid() && Inv(o, e) && !e.terminal && d.kind.Complete? && fallback.kind.Complete?
    ensures var g := PublishCompletion(o, e, d, fallback, now, stopWins);
            && Mid(o, g) && SameIdentity(e, g)
            && (if g.terminal then Inv(o, g) else EndsComplete(g.events))
  {
    hide LogInv, SubsInv, TimerInv, PromptInv, Counted, AnyAttached, Append, TerminateCapacity;
    AppendInv(o, e, d, now, stopWins);
    var (f, outcome) := Append(o, e, d, now, stopWins);
    if outcome.Rejected? {
      assert f == e;
      AppendInv(o, e, fallback, now, stopWins);
      var (g, second) := Append(o, e, fallback, now, stopWins);
      if second.Rejected? {
        assert g == e;
        TerminateCapacityInv(o, e, now, stopWins);
      }
    }
  }

  lemma FinishInv(o: Options, e: Entry, d: Draft, fallback: Draft, now: int, stopWins: bool)
    requires o.Valid() && Inv(o, e) && e.worker.Running?
    requires d.kind.Complete? && fallback.kind.Complete?
    ensures var f := Finish(o, e, d, fallback, now, stopWins); Inv(o, f) && f.terminal
  {
    hide LogInv, SubsInv, TimerInv, PromptInv, Counted, AnyAttached, PublishCompletion;
    if !e.terminal {
      PublishInv(o, e, d, fallback, now, stopWins);
      var g := PublishCompletion(o, e, d, fallback, now, stopWins);
      if !g.terminal {
        MarkTerminalMid(o, g, now, stopWins);
      }
    }
  }

  lemma DrainInv(o: Options, e: Entry, now: int, stopWins: bool)
    requires o.Valid() && Inv(o, e)
    ensures var f := DrainCancel(o, e, now, stopWins); Inv(o, f) && f.terminal && SameIdentity(e, f)
  {
    hide LogInv, SubsInv, TimerInv, PromptInv, Counted, AnyAttached, TerminateCapacity, Retain;
    if !e.terminal {
      var d := DrainDraft(e.id, |e.events| + 1);
      OpenLogFacts(o, e);
      AppendInv(o, e, d, now, stopWins);
      var (f, outcome) := Append(o, e, d, now, stopWins);
      assert !outcome.Rejected?;
      if !f.terminal {
        MarkTerminalMid(o, f, now, stopWins);
      }
    }
  }

  // ----- subscriptions -----

  lemma ReplayIsSuffix(id: string, log: seq<Retained>, first: nat, after: nat)
    requires forall i: nat | i < |log| :: log[i].event.sequence == first + 1 + i
    ensures Replay(log, after) ==
            if after <= first then log
            else if after - first <= |log| then log[after - first..]
            else []
  {
    if log != [] {
      ReplayIsSuffix(id, log[1..], first + 1, after);
    }
  }

  lemma SendAllFits(c: Channel, rs: seq<Retained>)
    requires !c.closed && |c.queue| + |rs| <= c.cap
    ensures c.SendAll(rs) == c.(queue := c.queue + rs)
    decreases |rs|
  {
    if rs != [] {
      SendAllFits(c.Send(rs[0]), rs[1..]);
      assert c.queue + [rs[0]] + rs[1..] == c.queue + rs;
    } else {
      assert c.queue + rs == c.queue;
    }
  }

  // The replay is the log after the cursor.
  lemma ReplayExactly(id: string, log: seq<Retained>, after: nat)
    requires Numbered(id, log) && after <= |log|
    ensures Replay(log, after) == log[after..]
  {
    forall i: nat | i < |log| ensures log[i].event.sequence == 0 + 1 + i {
      assert NumberedAt(id, log, i);
    }
    ReplayIsSuffix(id, log, 0, after);
  }

  lemma NewSubscription(o: Options, id: string, log: seq<Retained>, after: nat, terminal: bool)
    requires o.Valid() && Numbered(id, log) && after <= |log|
    ensures var replay := Replay(log, after);
            var c := Channel(|replay| + o.queue + CRITICAL_QUEUE_RESERVE, [], false, false).SendAll(replay);
            && c == Channel(|log| - after + o.queue + 1, log[after..], false, false)
            && SubInv(log, terminal, Subscription(after, [], if terminal then c.Close() else c, true, true))
  {
    hide Numbered, Replay;
    ReplayExactly(id, log, after);
    SendAllFits(Channel(|log| - after + o.queue + CRITICAL_QUEUE_RESERVE, [], false, false), log[after..]);
    assert [] + log[after..] == log[after..];
  }

  // One subscription is replaced or added.
  lemma PutSubscription(log: seq<Retained>, terminal: bool, subs: map<nat, Subscription>, s: nat, sub: Subscription)
    requires SubsInv(log, terminal, subs) && SubInv(log, terminal, sub)
    ensures SubsInv(log, terminal, subs[s := sub])
    ensures Counted(subs[s := sub]) == if sub.counted then Counted(subs) + {s} else Counted(subs) - {s}
    ensures sub.attached ==> AnyAttached(subs[s := sub])
    ensures s in subs && sub.attached == subs[s].attached ==> AnyAttached(subs[s := sub]) == AnyAttached(subs)
    ensures !sub.attached && AnyAttached(subs[s := sub]) ==> AnyAttached(subs)
    ensures s in subs && !subs[s].attached && AnyAttached(subs) ==> AnyAttached(subs[s := sub])
  {
    var put := subs[s := sub];
    assert put[s] == sub;
    if AnyAttached(subs) {
      var t :| t in subs && subs[t].attached;
      assert t in put && (t != s ==> put[t].attached);
    }
    if AnyAttached(put) {
      var t :| t in put && put[t].attached;
      assert t != s ==> t in subs && subs[t].attached;
    }
  }

  lemma AbsentNotCounted(subs: map<nat, Subscription>, s: nat)
    ensures s in Counted(subs) <==> s in subs && subs[s].counted
  {
  }

  lemma SubscribeQueues(o: Options, e: Entry, s: nat, after: nat, stopWins: bool)
    requires o.Valid() && s !in e.subscriptions && after <= |e.events|
    requires Numbered(e.id, e.events) && SubsInv(e.events, e.terminal, e.subscriptions)
    ensures var subs := Subscribe(o, e, s, after, stopWins).subscriptions;
            && SubsInv(e.events, e.terminal, subs) && AnyAttached(subs)
            && |Counted(subs)| == |Counted(e.subscriptions)| + 1
            && s in subs && subs[s].channel.queue == e.events[after..]
  {
    hide Numbered, Replay, SubInv;
    NewSubscription(o, e.id, e.events, after, e.terminal);
    PutSubscription(e.events, e.terminal, e.subscriptions, s, Subscribe(o, e, s, after, stopWins).subscriptions[s]);
    AbsentNotCounted(e.subscriptions, s);
  }

  lemma InvParts(o: Options, e: Entry)
    requires o.Valid() && Inv(o, e)
    ensures Numbered(e.id, e.events) && SubsInv(e.events, e.terminal, e.subscriptions)
  {
  }

  // A subscription with all events after the cursor queued for it, room for the
  // configured number more, and one place beyond that for a prompt or completion.
  function Attached(o: Options, log: seq<Retained>, after: nat, terminal: bool): Subscription
    requires o.Valid() && after <= |log|
  {
    Subscription(after, [], Channel(|log| - after + o.queue + 1, log[after..], terminal, false), true, true)
  }

  lemma SubscribeInv(o: Options, e: Entry, s: nat, after: nat, stopWins: bool)
    requires o.Valid() && Inv(o, e) && s !in e.subscriptions && after <= |e.events|
    ensures var f := Subscribe(o, e, s, after, stopWins);
            && Inv(o, f) && f.lossTimer.None? && f.subscriberCount == e.subscriberCount + 1
            && f.subscriptions == e.subscriptions[s := Attached(o, e.events, after, e.terminal)]
  {
    hide LogInv, PromptInv, SubsInv, AnyAttached, Counted, Replay, Numbered;
    InvParts(o, e);
    SubscribeQueues(o, e, s, after, stopWins);
    NewSubscription(o, e.id, e.events, after, e.terminal);
  }

  lemma UnsubscribeQueues(e: Entry, s: nat)
    requires SubsInv(e.events, e.terminal, e.subscriptions) && s in e.subscriptions && e.subscriptions[s].counted
    ensures var subs := Unsubscribe(e, s).subscriptions;
            && SubsInv(e.events, e.terminal, subs)
            && |Counted(subs)| == |Counted(e.subscriptions)| - 1
            && (AnyAttached(subs) ==> AnyAttached(e.subscriptions))
            && (!e.subscriptions[s].attached && AnyAttached(e.subscriptions) ==> AnyAttached(subs))
  {
    var sub := e.subscriptions[s];
    assert SubInv(e.events, e.terminal, sub);
    var gone := Unsubscribe(e, s).subscriptions[s];
    assert SubInv(e.events, e.terminal, gone);
    assert Unsubscribe(e, s).subscriptions == e.subscriptions[s := gone];
    hide SubInv, Unsubscribe;
    PutSubscription(e.events, e.terminal, e.subscriptions, s, gone);
    AbsentNotCounted(e.subscriptions, s);
  }

  lemma UnsubscribeInv(o: Options, e: Entry, s: nat)
    requires o.Valid() && Inv(o, e) && s in e.subscriptions && e.subscriptions[s].counted
    ensures Inv(o, Unsubscribe(e, s))
  {
    hide LogInv, PromptInv, SubsInv, AnyAttached, Counted, Numbered;
    InvParts(o, e);
    UnsubscribeQueues(e, s);
  }

  function Detached(sub: Subscription): Subscription {
    sub.(attached := false, counted := false, channel := sub.channel.(closed := true))
  }

  // Of all subscriptions this one was detached.
  predicate DetachedAlone(before: map<nat, Subscription>, s: nat, after: map<nat, Subscription>) {
    s in before && after == before[s := Detached(before[s])]
  }

  predicate PromptEnded(prompts: seq<PromptState>, h: nat, prompt: Option<nat>) {
    h < |prompts| && prompts[h].ended && prompt != Some(h)
  }

  // Closing detaches this subscription alone, leaves its queue to be drained, and
  // starts a loss timer when nobody is left.
  lemma UnsubscribeExactly(o: Options, e: Entry, s: nat)
    requires o.Valid() && Inv(o, e) && s in e.subscriptions && e.subscriptions[s].counted
    ensures var sub, f := e.subscriptions[s], Unsubscribe(e, s);
      && f.subscriptions == e.subscriptions[s := Detached(sub)]
      && f.subscriberCount == e.subscriberCount - 1
      && (!f.terminal && !f.HasAttached() ==> f.lossTimer == Some(f.lossTimerToken) && f.lossTimerToken in f.callbacks)
  {
    hide LogInv, PromptInv, Counted, AnyAttached;
    assert SubInv(e.events, e.terminal, e.subscriptions[s]);
  }

  lemma ReceiveInv(o: Options, e: Entry, s: nat)
    requires o.Valid() && Inv(o, e) && s in e.subscriptions && e.subscriptions[s].channel.queue != []
    ensures Inv(o, Receive(e, s))
    ensures var before, after := e.subscriptions[s], Receive(e, s).subscriptions[s];
      && |after.taken| == |before.taken| + 1 && after.taken + after.channel.queue == before.taken + before.channel.queue
      && Receive(e, s).subscriptions == e.subscriptions[s := after]
  {
    var sub := e.subscriptions[s];
    var q := sub.channel.queue;
    assert SubInv(e.events, e.terminal, sub);
    assert sub.taken + [q[0]] + q[1..] == sub.taken + q;
    PutSubscription(e.events, e.terminal, e.subscriptions, s,
                    sub.(taken := sub.taken + [q[0]], channel := sub.channel.(queue := q[1..])));
    AbsentNotCounted(e.subscriptions, s);
  }

  // A response goes to the current prompt, if it is the one addressed and has no
  // response yet, into its empty slot; it changes nothing else.
  lemma RespondInv(o: Options, e: Entry, r: Response)
    requires o.Valid() && Inv(o, e)
    ensures Inv(o, Respond(e, r).0)
    ensures var (f, ok) := Respond(e, r);
            if !ok then f == e && !(e.prompt.Some? && e.prompts[e.prompt.value].id == r.promptId
                                    && !e.prompts[e.prompt.value].responded)
            else
              && e.prompt.Some? && !e.terminal && f == e.(prompts := f.prompts) && |f.prompts| == |e.prompts|
              && (forall h: nat | h < |e.prompts| && h != e.prompt.value :: f.prompts[h] == e.prompts[h])
              && var before, after := e.prompts[e.prompt.value], f.prompts[e.prompt.value];
              && before.id == r.promptId && !before.responded && before.responses == [] && before.taken.None?
              && after == before.(responded := true, responses := [r])
  {
    hide LogInv, SubsInv, TimerInv, Counted, AnyAttached;
  }

  lemma PromptStepsInv(o: Options, e: Entry, h: nat)
    requires o.Valid() && Inv(o, e) && h < |e.prompts| && !e.prompts[h].ended
    ensures e.prompts[h].responses != [] ==> Inv(o, TakeResponse(e, h))
    ensures Inv(o, EndPrompt(e, h))
  {
  }

  // The invariant survives every step.
  lemma StepInv(o: Options, e: Entry, step: Step, now: int, stopWins: bool, retained: bool)
    requires o.Valid() && Inv(o, e) && Enabled(e, step) && (retained || e.terminal)
    ensures Inv(o, Apply(o, e, step, now, stopWins, retained))
  {
    hide LogInv, SubsInv, PromptInv, Counted, AnyAttached;
    hide Emit, OpenPrompt, Finish, DrainCancel, Subscribe, Unsubscribe, Receive, FireLossTimer, TakeResponse;
    hide EndPrompt, Respond;
    match step
    case Emitting(d) => EmitInv(o, e, d, now, stopWins);
    case Asking(id, d) => AskInv(o, e, id, d, now, stopWins);
    case Responding(r) => RespondInv(o, e, r);
    case TakingResponse(h) => PromptStepsInv(o, e, h);
    case EndingPrompt(h) => PromptStepsInv(o, e, h);
    case Cancelling =>
    case Finishing(d, fallback) => FinishInv(o, e, d, fallback, now, stopWins);
    case Draining => DrainInv(o, e, now, stopWins);
    case Subscribing(s, after) => SubscribeInv(o, e, s, after, stopWins);
    case Unsubscribing(s) => UnsubscribeInv(o, e, s);
    case Receiving(s) => ReceiveInv(o, e, s);
    case Firing(token) => FireInv(o, e, token, retained);
    case Releasing =>
    case Exiting =>
  }
}
