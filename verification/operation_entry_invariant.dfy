/** What holds of a retained operation between any two of its atomic regions. */
module OperationEntryInvariant {
  import opened Integers
  import opened Wrappers
  import opened OperationStream
  import opened OperationEntries

  // ----- the log -----

  function SumSizes(log: seq<Retained>): nat {
    if log == [] then 0 else SumSizes(log[..|log| - 1]) + log[|log| - 1].size
  }

  predicate EndsComplete(log: seq<Retained>) {
    log != [] && log[|log| - 1].event.kind.Complete?
  }

  predicate NumberedAt(id: string, log: seq<Retained>, i: nat)
    requires i < |log|
  {
    log[i].event.operationId == id && log[i].event.sequence == i + 1 && ShapeOk(log[i].event)
  }

  // Consecutive numbering and completion only at the end.
  ghost predicate Numbered(id: string, log: seq<Retained>) {
    && (forall i: nat | i < |log| :: NumberedAt(id, log, i))
    && (forall i: nat | i < |log| - 1 :: !log[i].event.kind.Complete?)
  }

  // Capacity, counting one more event and the completion reserve while no
  // completion has been appended.
  predicate WithinCapacity(o: Options, count: nat, bytes: int, complete: bool) {
    && count <= (if complete then o.maxEvents else o.maxEvents - 1)
    && bytes <= (if complete then o.maxBytes else o.NonterminalByteLimit())
  }

  ghost predicate LogInv(o: Options, id: string, log: seq<Retained>, bytes: int, validator: Cursor) {
    && Numbered(id, log)
    && bytes == SumSizes(log)
    && WithinCapacity(o, |log|, bytes, EndsComplete(log))
    && validator.operationId == id && validator.sequence == |log| && validator.terminal == EndsComplete(log)
  }

  // ----- subscribers -----

  ghost predicate SubInv(log: seq<Retained>, terminal: bool, s: Subscription) {
    var got := s.taken + s.channel.queue;
    && !s.channel.fault
    && s.cursor <= |log|
    && got <= log[s.cursor..]
    && (s.attached ==> got == log[s.cursor..] && s.counted)
    && (s.channel.closed <==> !s.attached || terminal)
    && 2 <= s.channel.cap && |s.channel.queue| <= s.channel.cap
    && (|s.channel.queue| == s.channel.cap ==> Critical(s.channel.queue[s.channel.cap - 1].event.kind))
  }

  ghost predicate SubsInv(log: seq<Retained>, terminal: bool, subs: map<nat, Subscription>) {
    forall s | s in subs :: SubInv(log, terminal, subs[s])
  }

  ghost function Counted(subs: map<nat, Subscription>): set<nat> {
    set s | s in subs && subs[s].counted
  }

  // ----- loss timers -----

  ghost predicate TimerInv(
    terminal: bool, attached: bool, cancelled: bool, timer: Option<nat>, token: nat, callbacks: set<nat>)
  {
    && (timer.Some? ==> timer.value == token && token in callbacks && !terminal && !attached)
    && (forall t | t in callbacks :: t <= token)
    && (!terminal ==> attached || timer.Some? || cancelled)
  }

  // ----- prompts -----

  ghost predicate PromptOk(p: PromptState) {
    && !p.fault
    && |p.responses| + (if p.taken.Some? then 1 else 0) == (if p.responded then 1 else 0)
    && (forall r | r in p.responses :: r.promptId == p.id)
    && (p.taken.Some? ==> p.taken.value.promptId == p.id)
  }

  ghost predicate PromptInv(terminal: bool, prompt: Option<nat>, prompts: seq<PromptState>) {
    && (forall h: nat | h < |prompts| :: PromptOk(prompts[h]))
    && (prompt.Some? ==> prompt.value < |prompts| && !prompts[prompt.value].ended && !terminal)
    && (forall h: nat | h < |prompts| && !prompts[h].ended && !terminal :: prompt == Some(h))
  }

  // ----- all of it -----

  // `Mid` holds inside a region too, `Inv` between regions: there a log that
  // ends with a completion belongs to a terminal entry.
  ghost predicate Mid(o: Options, e: Entry) {
    && LogInv(o, e.id, e.events, e.eventBytes, e.validator)
    && SubsInv(e.events, e.terminal, e.subscriptions)
    && e.subscriberCount == |Counted(e.subscriptions)|
    && TimerInv(e.terminal, e.HasAttached(), e.cancelled, e.lossTimer, e.lossTimerToken, e.callbacks)
    && PromptInv(e.terminal, e.prompt, e.prompts)
    && (e.terminal ==> e.cancelled)
    && (!e.worker.Running? ==> e.terminal)
  }

  // The fixed failure record for this ID always fits the completion reserve.
  predicate RecordFits(o: Options, id: string)
    requires o.Valid()
  {
    CAPACITY_RECORD_BYTES + |id| + Digits(o.maxEvents) <= o.Reserve()
  }

  ghost predicate Inv(o: Options, e: Entry)
    requires o.Valid()
  {
    && Mid(o, e)
    && (!e.terminal ==> !EndsComplete(e.events))
    && (RecordFits(o, e.id) && e.terminal ==> EndsComplete(e.events))
  }

  // What the log regions leave alone, except that ending an operation drops its
  // current prompt.
  predicate SameIdentity(e: Entry, f: Entry) {
    && e.id == f.id && e.requestDigest == f.requestDigest && e.release == f.release && e.worker == f.worker
    && f.subscriptions.Keys == e.subscriptions.Keys && f.subscriberCount == e.subscriberCount
    && f.prompts == e.prompts && (f.prompt == e.prompt || (f.prompt.None? && f.terminal))
  }

  // ----- preservation: timers -----

  lemma NewEntryInv(o: Options, id: string, digest: string, release: Option<nat>)
    requires o.Valid()
    ensures Inv(o, ScheduleLoss(NewEntry(id, digest, release)))
  {
  }

  lemma FireInv(o: Options, e: Entry, token: nat, retained: bool)
    requires o.Valid() && Inv(o, e) && (retained || e.terminal)
    ensures Inv(o, FireLossTimer(e, token, retained))
  {
  }

  // ----- preservation: the log -----

  lemma DeliverKeeps(log: seq<Retained>, s: Subscription, r: Retained)
    requires SubInv(log, false, s)
    ensures SubInv(log + [r], false, Deliver(s, r))
    ensures Deliver(s, r).counted == s.counted && Deliver(s, r).taken == s.taken
    ensures Deliver(s, r).attached <==>
      && s.attached
      && |s.channel.queue| < s.channel.cap - (if r.event.kind.Prompting? || r.event.kind.Complete? then 0 else 1)
    ensures Deliver(s, r).channel.queue == s.channel.queue + (if Deliver(s, r).attached then [r] else [])
  {
  }

  lemma DeliverAllKeeps(log: seq<Retained>, subs: map<nat, Subscription>, r: Retained)
    requires SubsInv(log, false, subs)
    ensures SubsInv(log + [r], false, DeliverAll(subs, r))
    ensures Counted(DeliverAll(subs, r)) == Counted(subs)
    ensures AnyAttached(DeliverAll(subs, r)) ==> AnyAttached(subs)
  {
    forall s | s in subs
        ensures SubInv(log + [r], false, Deliver(subs[s], r)) && Deliver(subs[s], r).counted == subs[s].counted
    {
      DeliverKeeps(log, subs[s], r);
    }
  }

  lemma CloseAllKeeps(log: seq<Retained>, subs: map<nat, Subscription>)
    requires SubsInv(log, false, subs)
    ensures SubsInv(log, true, CloseAll(subs))
    ensures Counted(CloseAll(subs)) == Counted(subs)
    ensures AnyAttached(CloseAll(subs)) == AnyAttached(subs)
  {
    forall s | s in subs ensures SubInv(log, true, CloseAttached(subs[s])) {
      assert SubInv(log, false, subs[s]);
    }
    if AnyAttached(subs) {
      var s :| s in subs && subs[s].attached;
      assert CloseAll(subs)[s].attached;
    }
  }

  lemma SumSizesAppend(log: seq<Retained>, r: Retained)
    ensures SumSizes(log + [r]) == SumSizes(log) + r.size
  {
  }

  lemma RetainLog(o: Options, id: string, log: seq<Retained>, bytes: int, validator: Cursor, r: Retained)
    requires o.Valid() && LogInv(o, id, log, bytes, validator) && !EndsComplete(log)
    requires validator.Admits(r.event)
    requires WithinCapacity(o, |log| + 1, bytes + r.size, r.event.kind.Complete?)
    ensures LogInv(o, id, log + [r], bytes + r.size, validator.After(r.event))
    ensures EndsComplete(log + [r]) == r.event.kind.Complete?
  {
    var longer := log + [r];
    SumSizesAppend(log, r);
    forall i: nat | i < |longer| ensures NumberedAt(id, longer, i) {
      if i < |log| {
        assert NumberedAt(id, log, i);
      }
    }
    forall i: nat | i < |longer| - 1 ensures !longer[i].event.kind.Complete? {
      assert longer[i] == log[i];
    }
  }

  lemma RetainMid(o: Options, e: Entry, event: Event, size: nat)
    requires o.Valid() && Mid(o, e) && !e.terminal && !EndsComplete(e.events)
    requires e.validator.Admits(event)
    requires WithinCapacity(o, |e.events| + 1, e.eventBytes + size, event.kind.Complete?)
    ensures Mid(o, Retain(e, event, size)) && SameIdentity(e, Retain(e, event, size))
    ensures Retain(e, event, size).events == e.events + [Retained(event, size)]
    ensures !Retain(e, event, size).terminal
    ensures EndsComplete(Retain(e, event, size).events) == event.kind.Complete?
  {
    hide LogInv, SubsInv, PromptInv, Counted, AnyAttached;
    var r := Retained(event, size);
    RetainLog(o, e.id, e.events, e.eventBytes, e.validator, r);
    DeliverAllKeeps(e.events, e.subscriptions, r);
  }

  lemma MarkTerminalMid(o: Options, e: Entry, now: int, stopWins: bool)
    requires Mid(o, e) && !e.terminal
    ensures Mid(o, MarkTerminal(e, now, stopWins)) && SameIdentity(e, MarkTerminal(e, now, stopWins))
    ensures MarkTerminal(e, now, stopWins).events == e.events && MarkTerminal(e, now, stopWins).terminal
  {
    CloseAllKeeps(e.events, e.subscriptions);
  }

  lemma RetainedLog(e: Entry, event: Event, size: nat)
    ensures var f := Retain(e, event, size);
      && f.events == e.events + [Retained(event, size)] && f.eventBytes == e.eventBytes + size
      && f.terminal == e.terminal && f.prompt == e.prompt && f.completedAt == e.completedAt
  {
    hide DeliverAll, AnyAttached;
  }

  lemma Ended(e: Entry, now: int, stopWins: bool)
    ensures var f := MarkTerminal(e, now, stopWins);
      && f.terminal && f.events == e.events && (!e.terminal ==> f.completedAt == now)
      && (e.terminal ==> f == e)
  {
  }

  lemma DigitsMonotone(m: nat, n: nat)
    requires m <= n
    ensures Digits(m) <= Digits(n)
  {
  }

  // What the append regions use of the log invariant.
  lemma OpenLogFacts(o: Options, e: Entry)
    requires o.Valid() && Mid(o, e) && !EndsComplete(e.events)
    ensures e.validator.operationId == e.id && e.validator.sequence == |e.events| && !e.validator.terminal
    ensures |e.events| <= o.maxEvents - 1 < TWO_TO_THE_64 - 2 && 0 <= e.eventBytes <= o.NonterminalByteLimit()
  {
  }

  // Inside the region that ends an operation for want of room: the failure
  // record is appended exactly when it fits what is left of MaxBytes.
  lemma TerminateCapacityInv(o: Options, e: Entry, now: int, stopWins: bool)
    requires o.Valid() && Mid(o, e) && !e.terminal && !EndsComplete(e.events)
    ensures var f := TerminateCapacity(o, e, now, stopWins);
            && Inv(o, f) && f.terminal && SameIdentity(e, f)
            && (EndsComplete(f.events) <==> CapacityDraft(e.id, |e.events| + 1).size <= o.maxBytes - e.eventBytes)
            && e.events <= f.events && |f.events| == |e.events| + (if EndsComplete(f.events) then 1 else 0)
  {
    hide LogInv, SubsInv, TimerInv, PromptInv, Counted, AnyAttached, Retain, MarkTerminal;
    OpenLogFacts(o, e);
    var d := CapacityDraft(e.id, |e.events| + 1);
    var event := Stamp(e.id, |e.events| + 1, d);
    if Encode(d, o.maxBytes - e.eventBytes).Encoded? {
      RetainMid(o, e, event, d.size);
      MarkTerminalMid(o, Retain(e, event, d.size), now, stopWins);
    } else {
      MarkTerminalMid(o, e, now, stopWins);
      DigitsMonotone(|e.events| + 1, o.maxEvents);
    }
  }

  lemma AppendInv(o: Options, e: Entry, d: Draft, now: int, stopWins: bool)
    requires o.Valid() && Mid(o, e) && !e.terminal && !EndsComplete(e.events)
    ensures var (f, outcome) := Append(o, e, d, now, stopWins);
            && Mid(o, f) && SameIdentity(e, f) && e.events <= f.events
            && (outcome.Appended? ==> !f.terminal && |f.events| == |e.events| + 1
                                      && f.events[|e.events|].event == Stamp(e.id, |e.events| + 1, d))
            && (outcome.CapacityExhausted? ==> f.terminal && Inv(o, f))
            && (outcome.Rejected? ==> f == e)
  {
    hide LogInv, SubsInv, TimerInv, PromptInv, Counted, AnyAttached, TerminateCapacity, Retain;
    OpenLogFacts(o, e);
    var limit := if d.kind.Complete? then o.maxBytes else o.NonterminalByteLimit();
    if (!d.kind.Complete? && |e.events| >= o.maxEvents - 1) || Encode(d, limit - e.eventBytes).TooLarge? {
      TerminateCapacityInv(o, e, now, stopWins);
    } else if Encode(d, limit - e.eventBytes).Encoded? {
      var event := Stamp(e.id, |e.events| + 1, d);
      if e.validator.Admits(event) {
        RetainMid(o, e, event, d.size);
      }
    }
  }
}
