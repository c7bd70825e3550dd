/** Whole runs of the hub: what its subscribers, timers, logs and counters
    satisfy in every reachable state, and between any two states of a run. */
module OperationHubRuns {
  import opened Integers
  import opened Wrappers
  import opened OperationStream
  import opened OperationEntries
  import opened OperationEntryInvariant
  import opened OperationEntrySteps
  import opened OperationEntryProgress
  import opened OperationEntryExactness
  import opened OperationHubModel

  // The states of a run and the actions between them.
  ghost predicate Run(hs: seq<Hub>, acts: seq<Action>) {
    && |hs| == |acts| + 1
    && Init(hs[0])
    && (forall i: nat | i < |hs| :: hs[i].options == hs[0].options)
    && (forall i: nat | i < |acts| :: Next(hs[i], acts[i], hs[i + 1]))
  }

  lemma {:induction false} RunInv(hs: seq<Hub>, acts: seq<Action>, i: nat)
    requires Run(hs, acts) && i < |hs|
    ensures HubInv(hs[i])
  {
    hide HubInv, Next;
    if i == 0 {
      InitInv(hs[0]);
    } else {
      RunInv(hs, acts, i - 1);
      NextInv(hs[i - 1], acts[i - 1], hs[i]);
    }
  }

  // ----- one action, seen from one entry -----

  lemma NextEvolves(h: Hub, a: Action, h': Hub, k: nat)
    requires HubInv(h) && Next(h, a, h') && k < |h.entries|
    ensures k < |h'.entries| && Evolves(h.entries[k], h'.entries[k])
  {
    hide Inv, Evolves, Apply, DrainCancel, Enabled, Pruned, CapPruned, Created;
    var e := h.entries[k];
    EvolvesRefl(e);
    match a
    case Stepping(j, step, now, stopWins) =>
      if j == k {
        StepProgress(h.options, e, step, now, stopWins, h.Retains(k));
      }
    case CancellingForDrain(nows, stops) => DrainProgress(h.options, e, nows[k], stops[k]);
    case CancellingContexts => CancelEvolves(e);
    case _ =>
  }

  lemma EvolvesRefl(e: Entry)
    ensures Evolves(e, e)
  {
  }

  lemma CancelEvolves(e: Entry)
    ensures Evolves(e, e.(cancelled := true))
  {
  }

  // Between any two states of a run every entry keeps evolving.
  lemma {:induction false} RunEvolves(hs: seq<Hub>, acts: seq<Action>, i: nat, j: nat, k: nat)
    requires Run(hs, acts) && i <= j < |hs| && k < |hs[i].entries|
    ensures k < |hs[j].entries| && Evolves(hs[i].entries[k], hs[j].entries[k])
    decreases j - i
  {
    hide HubInv, Evolves, Next;
    EvolvesRefl(hs[i].entries[k]);
    if i < j {
      RunInv(hs, acts, i);
      NextEvolves(hs[i], acts[i], hs[i + 1], k);
      RunEvolves(hs, acts, i + 1, j, k);
      ProgressTrans(hs[i].entries[k], hs[i + 1].entries[k], hs[j].entries[k]);
    }
  }

  // ----- subscriber refinement -----

  // What a consumer has received, followed by what is queued for it, is a
  // contiguous piece of the log from its cursor: all of it while the
  // subscription is attached. Nothing is ever skipped, repeated or reordered.
  lemma SubscriberRefinement(hs: seq<Hub>, acts: seq<Action>, i: nat, k: nat, s: nat)
    requires Run(hs, acts) && i < |hs| && k < |hs[i].entries| && s in hs[i].entries[k].subscriptions
    ensures var e := hs[i].entries[k]; var sub := e.subscriptions[s];
            && sub.cursor <= |e.events|
            && sub.taken + sub.channel.queue <= e.events[sub.cursor..]
            && (sub.attached ==> sub.taken + sub.channel.queue == e.events[sub.cursor..])
            && (!sub.attached ==> sub.channel.closed)
  {
    hide Run, LogInv, TimerInv, PromptInv;
    RunInv(hs, acts, i);
    var e := hs[i].entries[k];
    assert Inv(hs[i].options, e);
    assert SubInv(e.events, e.terminal, e.subscriptions[s]);
  }

  // The same log is what every later state retains, so a consumer's record
  // never conflicts with the operation's final log.
  lemma ReceivedFromFinalLog(hs: seq<Hub>, acts: seq<Action>, i: nat, j: nat, k: nat, s: nat)
    requires Run(hs, acts) && i <= j < |hs| && k < |hs[i].entries| && s in hs[i].entries[k].subscriptions
    ensures k < |hs[j].entries|
    ensures var sub := hs[i].entries[k].subscriptions[s]; var log := hs[j].entries[k].events;
            sub.cursor <= |log| && sub.taken <= log[sub.cursor..]
  {
    hide Run;
    SubscriberRefinement(hs, acts, i, k, s);
    RunEvolves(hs, acts, i, j, k);
    var sub := hs[i].entries[k].subscriptions[s];
    var before := hs[i].entries[k].events;
    var log := hs[j].entries[k].events;
    assert before[sub.cursor..] <= log[sub.cursor..];
    assert sub.taken <= sub.taken + sub.channel.queue;
  }

  // The hub's "no longer retained" answer is unreachable: logs start at one.
  lemma NothingEvicted(hs: seq<Hub>, acts: seq<Action>, i: nat, k: nat, after: uint64)
    requires Run(hs, acts) && i < |hs| && k < |hs[i].entries|
    ensures var log := hs[i].entries[k].events;
            !(log != [] && after <= log[|log| - 1].event.sequence
                && (after + 1) % TWO_TO_THE_64 < log[0].event.sequence)
  {
    hide Run, SubsInv, TimerInv, PromptInv;
    RunInv(hs, acts, i);
    var e := hs[i].entries[k];
    assert Inv(hs[i].options, e);
    if e.events != [] {
      assert NumberedAt(e.id, e.events, 0);
      assert NumberedAt(e.id, e.events, |e.events| - 1);
    }
  }

  // ----- channels -----

  // No channel is closed twice, sent to after close, or would block a send made
  // under the hub lock; a full open queue ends with a prompt.
  lemma ChannelDiscipline(hs: seq<Hub>, acts: seq<Action>, i: nat, k: nat)
    requires Run(hs, acts) && i < |hs| && k < |hs[i].entries|
    ensures var e := hs[i].entries[k];
            && (forall s | s in e.subscriptions ::
                  var c := e.subscriptions[s].channel;
                  && !c.fault && |c.queue| <= c.cap
                  && (!c.closed && |c.queue| == c.cap ==>
                      c.queue != [] && c.queue[|c.queue| - 1].event.kind.Prompting?))
            && (forall h: nat | h < |e.prompts| :: !e.prompts[h].fault && |e.prompts[h].responses| <= 1)
  {
    hide Run, LogInv, SubsInv, TimerInv;
    RunInv(hs, acts, i);
    var e := hs[i].entries[k];
    assert Inv(hs[i].options, e);
    forall s | s in e.subscriptions
      ensures var c := e.subscriptions[s].channel;
              && !c.fault && |c.queue| <= c.cap
              && (!c.closed && |c.queue| == c.cap ==> c.queue != [] && c.queue[|c.queue| - 1].event.kind.Prompting?)
    {
      OpenFullQueue(hs[i].options, e, s);
    }
    forall h: nat | h < |e.prompts| ensures !e.prompts[h].fault && |e.prompts[h].responses| <= 1 {
      assert PromptOk(e.prompts[h]);
    }
  }

  lemma OpenFullQueue(o: Options, e: Entry, s: nat)
    requires o.Valid() && Inv(o, e) && s in e.subscriptions
    ensures var c := e.subscriptions[s].channel;
            && !c.fault && |c.queue| <= c.cap
            && (!c.closed && |c.queue| == c.cap ==> c.queue != [] && c.queue[|c.queue| - 1].event.kind.Prompting?)
  {
  }

  /** A subscription is dropped only by its own Close, or when its queue has no
      room for an ordinary event. */
  lemma EvictedOnlyWhenFull(hs: seq<Hub>, acts: seq<Action>, i: nat, k: nat, s: nat)
    requires Run(hs, acts) && i < |acts| && k < |hs[i].entries| && s in hs[i].entries[k].subscriptions
    requires hs[i].entries[k].subscriptions[s].attached
    ensures k < |hs[i + 1].entries| && s in hs[i + 1].entries[k].subscriptions
    ensures var c := hs[i].entries[k].subscriptions[s].channel;
      || hs[i + 1].entries[k].subscriptions[s].attached
      || |c.queue| >= c.cap - 1
      || (acts[i].Stepping? && acts[i].k == k && acts[i].step == Unsubscribing(s))
  {
    hide Inv, Evolves, Apply, DrainCancel, Enabled, Pruned, CapPruned;
    RunInv(hs, acts, i);
    RunEvolves(hs, acts, i, i + 1, k);
    SubscriptionsStay(hs[i].entries[k], hs[i + 1].entries[k]);
    var hub, a, e := hs[i], acts[i], hs[i].entries[k];
    assert Next(hub, a, hs[i + 1]) && Inv(hub.options, e);
    match a
    case Stepping(j, step, now, stopWins) =>
      if j == k {
        StepKeepsAttached(hub.options, e, step, now, stopWins, hub.Retains(k));
      }
    case CancellingForDrain(nows, stops) =>
      DrainKeepsAttached(hub.options, e, nows[k], stops[k]);
    case _ =>
  }

  lemma SubscriptionsStay(e: Entry, f: Entry)
    requires Evolves(e, f)
    ensures forall s | s in e.subscriptions :: s in f.subscriptions
  {
  }

  // ----- loss timers -----

  // A running operation is never forgotten.
  lemma NoOrphan(hs: seq<Hub>, acts: seq<Action>, i: nat, k: nat)
    requires Run(hs, acts) && i < |hs| && k < |hs[i].entries| && !hs[i].entries[k].terminal
    ensures var e := hs[i].entries[k];
            && hs[i].Retains(k)
            && (e.HasAttached() || (e.lossTimer == Some(e.lossTimerToken) && e.lossTimerToken in e.callbacks)
                || e.cancelled)
  {
    hide Run, LogInv, SubsInv, PromptInv;
    RunInv(hs, acts, i);
    assert Inv(hs[i].options, hs[i].entries[k]);
  }

  // A loss timer cancels only if nobody was attached at any time between its
  // scheduling (the action at i) and its firing (the action at j), even when
  // Stop lost its race: the token is drawn at i and the callback runs at j.
  lemma NoStaleCancel(hs: seq<Hub>, acts: seq<Action>, i: nat, j: nat, m: nat, k: nat, token: nat)
    requires Run(hs, acts) && i < m <= j < |acts|
    requires k < |hs[i + 1].entries| && hs[i + 1].entries[k].lossTimerToken == token
    requires k < |hs[i].entries| ==> hs[i].entries[k].lossTimerToken < token
    requires k < |hs[j].entries| && acts[j].Stepping? && acts[j].k == k && acts[j].step == Firing(token)
    requires !hs[j].entries[k].cancelled && hs[j + 1].entries[k].cancelled
    ensures k < |hs[m].entries| && !hs[m].entries[k].HasAttached()
  {
    hide HubInv, AnyAttached;
    RunEvolves(hs, acts, i + 1, m, k);
    RunEvolves(hs, acts, m, j, k);
    assert Next(hs[j], acts[j], hs[j + 1]);
  }

  // ----- the log -----

  // Consecutive numbers from one, exact accounting, room kept for the completion.
  lemma LogBounds(hs: seq<Hub>, acts: seq<Action>, i: nat, k: nat)
    requires Run(hs, acts) && i < |hs| && k < |hs[i].entries|
    ensures var e := hs[i].entries[k]; var o := hs[0].options;
            && e.eventBytes == SumSizes(e.events)
            && |e.events| <= o.maxEvents && e.eventBytes <= o.maxBytes
            && (!e.terminal ==> |e.events| <= o.maxEvents - 1 && e.eventBytes <= o.NonterminalByteLimit())
            && (forall n: nat | n < |e.events| ::
                e.events[n].event.operationId == e.id && e.events[n].event.sequence == n + 1)
  {
    hide SubsInv, TimerInv, PromptInv, Next;
    RunInv(hs, acts, i);
    var e := hs[i].entries[k];
    assert Inv(hs[i].options, e);
    forall n: nat | n < |e.events|
        ensures e.events[n].event.operationId == e.id && e.events[n].event.sequence == n + 1
    {
      assert NumberedAt(e.id, e.events, n);
    }
  }

  const STREAM_RESPONSE_LIMIT := 1048576 + 256 + 1

  // With the default options everything one subscription can ever be sent, one
  // newline per event, stays below the client's stream limit.
  lemma StreamNeverExhausted(hs: seq<Hub>, acts: seq<Action>, i: nat, k: nat, s: nat)
    requires Run(hs, acts) && hs[0].options == DEFAULT_OPTIONS
    requires i < |hs| && k < |hs[i].entries| && s in hs[i].entries[k].subscriptions
    ensures var taken := hs[i].entries[k].subscriptions[s].taken;
            SumSizes(taken) + |taken| < STREAM_RESPONSE_LIMIT
  {
    hide Run, SubsInv, TimerInv, PromptInv, SumSizes;
    LogBounds(hs, acts, i, k);
    SubscriberRefinement(hs, acts, i, k, s);
    var e := hs[i].entries[k];
    var sub := e.subscriptions[s];
    PieceSize(e.events, sub.cursor, sub.taken);
  }

  lemma PieceSize(log: seq<Retained>, cursor: nat, piece: seq<Retained>)
    requires cursor <= |log| && piece <= log[cursor..]
    ensures SumSizes(piece) <= SumSizes(log) && |piece| <= |log|
  {
    SumSizesSplit(log[..cursor], log[cursor..]);
    assert log == log[..cursor] + log[cursor..];
    var rest := log[cursor..][|piece|..];
    assert log[cursor..] == piece + rest;
    SumSizesSplit(piece, rest);
  }

  lemma SumSizesSplit(a: seq<Retained>, b: seq<Retained>)
    ensures SumSizes(a + b) == SumSizes(a) + SumSizes(b)
  {
    if b == [] {
      assert a + b == a;
    } else {
      assert (a + b)[..|a + b| - 1] == a + b[..|b| - 1];
      SumSizesSplit(a, b[..|b| - 1]);
    }
  }

  // A log holds a completion at most once, as its last event, and only when the
  // operation has ended. When the fixed failure record for the ID fits the
  // completion reserve, every ended operation has one. Nothing changes later.
  lemma OneTerminalEvent(hs: seq<Hub>, acts: seq<Action>, i: nat, j: nat, k: nat)
    requires Run(hs, acts) && i <= j < |hs| && k < |hs[i].entries|
    ensures k < |hs[j].entries|
    ensures var e := hs[i].entries[k]; var log := e.events;
            && (forall n: nat | n < |log| && log[n].event.kind.Complete? :: n == |log| - 1 && e.terminal)
            && (e.terminal && RecordFits(hs[0].options, e.id) ==> EndsComplete(log))
            && (e.terminal ==> hs[j].entries[k].events == log && hs[j].entries[k].terminal)
  {
    hide Next, SubsInv, TimerInv, PromptInv;
    RunInv(hs, acts, i);
    RunEvolves(hs, acts, i, j, k);
    var e := hs[i].entries[k];
    assert Inv(hs[i].options, e);
    forall n: nat | n < |e.events| && e.events[n].event.kind.Complete? ensures n == |e.events| - 1 && e.terminal {
      assert !(n < |e.events| - 1);
    }
  }

  // The reserve condition is the right one: draining ends a running operation
  // without a completion exactly when the record no longer fits.
  lemma DrainRecordedIff(o: Options, e: Entry, now: int, stopWins: bool)
    requires o.Valid() && Inv(o, e) && !e.terminal
    ensures var f := DrainCancel(o, e, now, stopWins);
            && f.terminal
            && (EndsComplete(f.events) <==> DrainDraft(e.id, |e.events| + 1).size <= o.maxBytes - e.eventBytes)
            && (!EndsComplete(f.events) ==> f.events == e.events)
  {
    hide DrainCancel, Mid, Digits;
    DrainExactly(o, e, now, stopWins);
  }

  // With a 100-byte log even a fresh operation ends without a completion.
  lemma TinyLogHasNoCompletion(digest: string, now: int)
    ensures var o := DEFAULT_OPTIONS.(maxBytes := 100);
            var e := ScheduleLoss(NewEntry("a", digest, None));
            o.Valid() && Inv(o, e) && DrainCancel(o, e, now, true).terminal && DrainCancel(o, e, now, true).events == []
  {
    hide Inv, DrainCancel, ScheduleLoss;
    var o := DEFAULT_OPTIONS.(maxBytes := 100);
    NewEntryInv(o, "a", digest, None);
    var e := ScheduleLoss(NewEntry("a", digest, None));
    assert e.events == [] && e.eventBytes == 0 && !e.terminal && e.id == "a" by {
      FreshFields("a", digest);
    }
    DrainRecordedIff(o, e, now, true);
  }

  lemma FreshFields(id: string, digest: string)
    ensures var e := ScheduleLoss(NewEntry(id, digest, None));
            e.events == [] && e.eventBytes == 0 && !e.terminal && e.id == id
  {
  }

  // With the default options the reserve always suffices for IDs up to 16 KiB
  // less the fixed text.
  lemma DefaultReserveSuffices(id: string)
    requires |id| <= COMPLETION_RESERVE_BYTES - CAPACITY_RECORD_BYTES - 3
    ensures RecordFits(DEFAULT_OPTIONS, id)
  {
  }

  // ----- prompts -----

  // One prompt is awaited at a time, and each receives at most one response,
  // addressed to it.
  lemma OnePromptAtATime(hs: seq<Hub>, acts: seq<Action>, i: nat, k: nat)
    requires Run(hs, acts) && i < |hs| && k < |hs[i].entries|
    ensures var e := hs[i].entries[k];
            && (forall g: nat, h: nat | g < |e.prompts| && h < |e.prompts| && !e.terminal
                                        && !e.prompts[g].ended && !e.prompts[h].ended :: g == h)
            && (forall h: nat | h < |e.prompts| ::
                  var p := e.prompts[h];
                  && (p.taken.Some? ==> p.responded && p.responses == [] && p.taken.value.promptId == p.id)
                  && (!p.responded ==> p.taken.None? && p.responses == []))
  {
    hide Run, LogInv, SubsInv, TimerInv;
    RunInv(hs, acts, i);
    var e := hs[i].entries[k];
    assert Inv(hs[i].options, e);
    forall h: nat | h < |e.prompts|
      ensures var p := e.prompts[h];
              && (p.taken.Some? ==> p.responded && p.responses == [] && p.taken.value.promptId == p.id)
              && (!p.responded ==> p.taken.None? && p.responses == [])
    {
      assert PromptOk(e.prompts[h]);
    }
  }

  // At i the current prompt h of entry k accepts the response r.
  ghost predicate AcceptedAt(hs: seq<Hub>, acts: seq<Action>, i: nat, k: nat, h: nat, r: Response) {
    && i < |acts| && i < |hs| && acts[i].Stepping? && acts[i].k == k && acts[i].step == Responding(r)
    && k < |hs[i].entries| && Accepts(hs[i].entries[k], h, r)
  }

  lemma NextHolds(hub: Hub, a: Action, hub': Hub, k: nat, h: nat)
    requires HubInv(hub) && Next(hub, a, hub') && k < |hub'.entries| && h < |hub'.entries[k].prompts|
    ensures var p := hub'.entries[k].prompts[h];
      if k < |hub.entries| && a.Stepping? && a.k == k && a.step.Responding? && Accepts(hub.entries[k], h, a.step.r) then
        Held(p) == [a.step.r] && h < |hub.entries[k].prompts| && Held(hub.entries[k].prompts[h]) == []
      else
        Held(p) == if k < |hub.entries| && h < |hub.entries[k].prompts| then Held(hub.entries[k].prompts[h]) else []
  {
    hide Inv, Apply, DrainCancel, Enabled, Pruned, CapPruned, Held, ScheduleLoss, NewEntry;
    if k < |hub.entries| {
      var e := hub.entries[k];
      assert Inv(hub.options, e);
      match a
      case Stepping(j, step, now, stopWins) =>
        if j == k {
          StepHolds(hub.options, e, step, now, stopWins, hub.Retains(k));
        }
      case CancellingForDrain(nows, stops) => DrainInv(hub.options, e, nows[k], stops[k]);
      case _ =>
    } else {
      CreatedPrompts(hub, a);
    }
  }

  lemma CreatedPrompts(h: Hub, a: Action)
    ensures a.Starting? ==> Created(h, a).prompts == []
  {
  }

  /** The response a worker receives is the very one that its prompt accepted:
      what a prompt holds, received or still queued, is exactly what it accepted. */
  lemma ResponseIsTheAcceptedOne(
    hs: seq<Hub>, acts: seq<Action>, j: nat, k: nat, h: nat, r: Response)
    requires Run(hs, acts) && j < |hs| && k < |hs[j].entries| && h < |hs[j].entries[k].prompts|
    ensures var p := hs[j].entries[k].prompts[h];
      && (p.taken == Some(r) || r in p.responses ==> exists i: nat :: i < j && AcceptedAt(hs, acts, i, k, h, r))
      && forall i: nat | i < j && AcceptedAt(hs, acts, i, k, h, r) ::
           if p.taken.Some? then p.taken == Some(r) && p.responses == [] else p.responses == [r]
  {
    hide Run, Held, AcceptedAt;
    HeldIsAccepted(hs, acts, j, k, h, r);
    HeldMeans(hs[j].entries[k].prompts[h], r);
  }

  lemma HeldMeans(p: PromptState, r: Response)
    ensures r in Held(p) <==> p.taken == Some(r) || r in p.responses
    ensures Held(p) == [r] ==> if p.taken.Some? then p.taken == Some(r) && p.responses == [] else p.responses == [r]
  {
    if p.taken.Some? {
      assert Held(p) == [p.taken.value] + p.responses;
      assert Held(p)[1..] == p.responses;
    } else {
      assert Held(p) == p.responses;
    }
  }

  lemma {:induction false} HeldIsAccepted(hs: seq<Hub>, acts: seq<Action>, j: nat, k: nat, h: nat, r: Response)
    requires Run(hs, acts) && j < |hs| && k < |hs[j].entries| && h < |hs[j].entries[k].prompts|
    ensures var held := Held(hs[j].entries[k].prompts[h]);
      && (r in held ==> exists i: nat :: i < j && AcceptedAt(hs, acts, i, k, h, r))
      && forall i: nat | i < j && AcceptedAt(hs, acts, i, k, h, r) :: held == [r]
    decreases j
  {
    hide HubInv, Next, Held, Accepts;
    if j > 0 {
      RunInv(hs, acts, j - 1);
      assert Next(hs[j - 1], acts[j - 1], hs[j]);
      NextHolds(hs[j - 1], acts[j - 1], hs[j], k, h);
      if acts[j - 1].Stepping? && acts[j - 1].k == k && acts[j - 1].step == Responding(r)
         && k < |hs[j - 1].entries| && Accepts(hs[j - 1].entries[k], h, r) {
        assert AcceptedAt(hs, acts, j - 1, k, h, r);
      }
      if k < |hs[j - 1].entries| && h < |hs[j - 1].entries[k].prompts| {
        HeldIsAccepted(hs, acts, j - 1, k, h, r);
      } else {
        forall i: nat | i < j - 1 && AcceptedAt(hs, acts, i, k, h, r) ensures false {
          AcceptedExists(hs[i].entries[k], h, r);
          RunEvolves(hs, acts, i, j - 1, k);
        }
      }
      assert Held(hs[j].entries[k].prompts[h]) == [r] ==> r in Held(hs[j].entries[k].prompts[h]);
    }
  }

  lemma AcceptedExists(e: Entry, h: nat, r: Response)
    requires Accepts(e, h, r)
    ensures h < |e.prompts|
  {
  }

  // ----- accounting -----

  // The counters equal the live workers and the counted subscriptions, within
  // their caps; each ID has at most one live worker, and it is retained.
  lemma Accounting(hs: seq<Hub>, acts: seq<Action>, i: nat)
    requires Run(hs, acts) && i < |hs|
    ensures var h := hs[i]; var o := hs[0].options;
            && h.active == Workers(h.entries) <= o.maxActive
            && h.subscribers == SumCounts(h.entries) <= o.maxSubscribers
            && (forall k: nat | k < |h.entries| ::
                  h.entries[k].subscriberCount == |Counted(h.entries[k].subscriptions)| <= o.perOperation)
            && (forall j: nat, k: nat | j < |h.entries| && k < |h.entries| && h.entries[j].id == h.entries[k].id
                                        && h.entries[j].WorkerActive() && h.entries[k].WorkerActive() :: j == k)
  {
    hide Next, LogInv, SubsInv, TimerInv, PromptInv, Workers, SumCounts, Counted;
    RunInv(hs, acts, i);
    var h := hs[i];
    forall k: nat | k < |h.entries|
        ensures h.entries[k].subscriberCount == |Counted(h.entries[k].subscriptions)| <= hs[0].options.perOperation
    {
      assert Inv(h.options, h.entries[k]);
    }
    forall j: nat, k: nat | j < |h.entries| && k < |h.entries| && h.entries[j].id == h.entries[k].id
                            && h.entries[j].WorkerActive() && h.entries[k].WorkerActive()
      ensures j == k
    {
      assert h.Retains(j) && h.Retains(k);
    }
  }

  // No more operations that have ended are retained than may be, but for those
  // whose workers are still there.
  ghost predicate Capped(o: Options, entries: seq<Entry>, ops: map<string, nat>) {
    |Completed(entries, ops)| <= o.maxCompleted || forall id | id in ops :: !Prunable(entries, ops[id])
  }

  lemma SameCapped(o: Options, es: seq<Entry>, fs: seq<Entry>, ops: map<string, nat>)
    requires Capped(o, es, ops) && Indexed(es, ops) && |es| <= |fs|
    requires forall id | id in ops ::
      && es[ops[id]].terminal == fs[ops[id]].terminal
      && es[ops[id]].worker.Done? == fs[ops[id]].worker.Done?
    ensures Capped(o, fs, ops)
  {
    assert Completed(es, ops) == Completed(fs, ops);
  }

  lemma PrunedIsCapped(o: Options, es: seq<Entry>, ops: map<string, nat>, now: int, ops': map<string, nat>)
    requires CapPruned(o, es, ops, ops') || Pruned(o, es, ops, now, ops')
    ensures Capped(o, es, ops')
  {
  }

  lemma StartCapped(h: Hub, a: Action, h': Hub)
    requires HubInv(h) && a.Starting? && StartNext(h, a, h')
    ensures Capped(h'.options, h'.entries, h'.operations)
  {
    hide Pruned, CapPruned, Capped, Inv, Workers, SumCounts, Created;
    var ops :| a.id !in ops && Pruned(h.options, h.entries, h.operations, a.now, ops)
               && h' == h.(operations := ops[a.id := |h.entries|], entries := h.entries + [Created(h, a)],
                   active := h.active + 1);
    PrunedIsCapped(h.options, h.entries, h.operations, a.now, ops);
    PrunedKeeps(h.options, h.entries, h.operations, a.now, ops);
    NewlyCreated(h, a);
    SameCapped(h.options, h.entries, h'.entries, ops);
    OneMoreRunning(h.options, h'.entries, ops, a.id, |h.entries|);
  }

  lemma OneMoreRunning(o: Options, entries: seq<Entry>, ops: map<string, nat>, id: string, k: nat)
    requires Capped(o, entries, ops) && id !in ops && k < |entries| && !entries[k].terminal
    ensures Capped(o, entries, ops[id := k])
  {
    assert Completed(entries, ops[id := k]) == Completed(entries, ops);
  }

  lemma StepCapped(h: Hub, a: Action, h': Hub)
    requires HubInv(h) && a.Stepping? && StepNext(h, a, h') && Capped(h.options, h.entries, h.operations)
    ensures Capped(h'.options, h'.entries, h'.operations)
  {
    hide Pruned, CapPruned, Capped, Inv, Workers, SumCounts, Apply, Enabled, Evolves;
    var e := h.entries[a.k];
    assert Inv(h.options, e);
    StepAccounting(h.options, e, a.step, a.now, a.stopWins, h.Retains(a.k));
    StepProgress(h.options, e, a.step, a.now, a.stopWins, h.Retains(a.k));
    ExitingIsActive(e, a.step);
    EndedStaysEnded(e, h'.entries[a.k]);
    if a.step.Subscribing? {
      PrunedIsCapped(h.options, h.entries, h.operations, a.now, h'.operations);
      PrunedKeeps(h.options, h.entries, h.operations, a.now, h'.operations);
      SubscribeKeepsEnd(h.options, e, a.step.s, a.step.after, a.stopWins);
      AppliedSubscribe(h.options, e, a.step, a.now, a.stopWins, h.Retains(a.k));
      SameCapped(h.options, h.entries, h'.entries, h'.operations);
    } else if a.step.Exiting? || (!e.terminal && h'.entries[a.k].terminal) {
      PrunedIsCapped(h.options, h'.entries, h.operations, a.now, h'.operations);
    } else {
      SameCapped(h.options, h.entries, h'.entries, h.operations);
    }
  }

  lemma EndedStaysEnded(e: Entry, f: Entry)
    requires Evolves(e, f)
    ensures e.terminal ==> f.terminal
  {
  }

  lemma SubscribeKeepsEnd(o: Options, e: Entry, s: nat, after: nat, stopWins: bool)
    requires o.Valid()
    ensures Subscribe(o, e, s, after, stopWins).terminal == e.terminal
  {
  }

  lemma AppliedSubscribe(o: Options, e: Entry, step: Step, now: int, stopWins: bool, retained: bool)
    requires o.Valid() && Enabled(e, step) && step.Subscribing?
    ensures Apply(o, e, step, now, stopWins, retained) == Subscribe(o, e, step.s, step.after, stopWins)
  {
    hide Subscribe;
  }

  lemma DrainCapped(h: Hub, a: Action, h': Hub)
    requires HubInv(h) && a.CancellingForDrain? && DrainNext(h, a, h') && Capped(h.options, h.entries, h.operations)
    ensures Capped(h'.options, h'.entries, h'.operations)
  {
    hide CapPruned, Capped, Inv, Workers, SumCounts, DrainCancel;
    if exists k: nat :: k < |h.entries| && h.Retains(k) && !h.entries[k].terminal {
      PrunedIsCapped(h.options, h'.entries, h.operations, 0, h'.operations);
    } else {
      forall id | id in h.operations ensures h'.entries[h.operations[id]] == h.entries[h.operations[id]] {
        var k := h.operations[id];
        assert h.Retains(k);
        DrainExactly(h.options, h.entries[k], a.nows[k], a.stops[k]);
      }
      SameCapped(h.options, h.entries, h'.entries, h.operations);
    }
  }

  lemma NextCapped(h: Hub, a: Action, h': Hub)
    requires HubInv(h) && Next(h, a, h') && Capped(h.options, h.entries, h.operations)
    ensures Capped(h'.options, h'.entries, h'.operations)
  {
    hide Inv, StartNext, StepNext, DrainNext, Pruned, CapPruned, Capped;
    match a
    case Starting(_, _, _, _) => StartCapped(h, a, h');
    case Pruning(now) => PrunedIsCapped(h.options, h.entries, h.operations, now, h'.operations);
    case Stepping(_, _, _, _) => StepCapped(h, a, h');
    case BeginningDrain(_) =>
    case CancellingForDrain(_, _) => DrainCapped(h, a, h');
    case CancellingContexts => SameCapped(h.options, h.entries, h'.entries, h.operations);
  }

  /** In every state no more ended operations are retained than the configured
      number, unless all of them are held by their workers. */
  lemma {:induction false} RetainedAreCapped(hs: seq<Hub>, acts: seq<Action>, i: nat)
    requires Run(hs, acts) && i < |hs|
    ensures Indexed(hs[i].entries, hs[i].operations)
    ensures var h := hs[i];
      || |set id | id in h.operations && h.entries[h.operations[id]].terminal| <= hs[0].options.maxCompleted
      || forall id | id in h.operations && h.entries[h.operations[id]].terminal ::
           !h.entries[h.operations[id]].worker.Done?
  {
    RetainedCapped(hs, acts, i);
    IndexedHub(hs, acts, i);
    var h := hs[i];
    assert Completed(h.entries, h.operations) ==
      set id | id in h.operations && h.entries[h.operations[id]].terminal;
  }

  lemma IndexedHub(hs: seq<Hub>, acts: seq<Action>, i: nat)
    requires Run(hs, acts) && i < |hs|
    ensures Indexed(hs[i].entries, hs[i].operations)
  {
    hide Run;
    RunInv(hs, acts, i);
  }

  lemma {:induction false} RetainedCapped(hs: seq<Hub>, acts: seq<Action>, i: nat)
    requires Run(hs, acts) && i < |hs|
    ensures hs[i].options == hs[0].options && Capped(hs[0].options, hs[i].entries, hs[i].operations)
  {
    hide HubInv, Next, Capped;
    if i == 0 {
      NothingToCap(hs[0]);
    } else {
      RetainedCapped(hs, acts, i - 1);
      RunInv(hs, acts, i - 1);
      NextCapped(hs[i - 1], acts[i - 1], hs[i]);
    }
  }

  lemma NothingToCap(h: Hub)
    requires h.operations == map[]
    ensures Capped(h.options, h.entries, h.operations)
  {
  }

  // Cancelling for the drain deadline leaves every operation ended, retained or
  // not, although pruning deletes from the map it iterates.
  lemma DrainEndsEverything(hs: seq<Hub>, acts: seq<Action>, i: nat, k: nat)
    requires Run(hs, acts) && i < |acts| && acts[i].CancellingForDrain? && k < |hs[i].entries|
    ensures k < |hs[i + 1].entries| && hs[i + 1].entries[k].terminal && hs[i + 1].entries[k].cancelled
  {
    hide HubInv, Inv;
    RunInv(hs, acts, i);
    RunInv(hs, acts, i + 1);
    assert Next(hs[i], acts[i], hs[i + 1]);
    DrainNextInv(hs[i], acts[i], hs[i + 1]);
    EndedIsCancelled(hs[i + 1], k);
  }

  lemma EndedIsCancelled(h: Hub, k: nat)
    requires HubInv(h) && k < |h.entries|
    ensures h.entries[k].terminal ==> h.entries[k].cancelled
  {
  }
}
