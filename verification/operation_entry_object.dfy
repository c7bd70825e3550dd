/** One operation as the object the hub updates in place: the fields of
    operationEntry in internal/daemon/operation.go and the parts of its locked
    regions that touch nothing else, each proved to be the function of the
    same region on values. */
module OperationEntryObjects {
  import opened Wrappers
  import opened OperationStream
  import opened OperationEntries

  class OperationEntry {
    const id: string
    const requestDigest: string
    // The position among all entries ever created.
    const handle: nat
    var validator: Cursor
    var events: seq<Retained>
    var eventBytes: int
    var terminal: bool
    var completedAt: int
    var prompt: Option<nat>
    var prompts: seq<PromptState>
    var subscriptions: map<nat, Subscription>
    var subscriberCount: int
    var lossTimer: Option<nat>
    var lossTimerToken: nat
    var callbacks: set<nat>
    var cancelled: bool
    var release: Option<nat>
    var worker: Worker

    function View(): Entry
      reads this
    {
      Entry(id, requestDigest, validator, events, eventBytes, terminal, completedAt, prompt, prompts, subscriptions,
            subscriberCount, lossTimer, lossTimerToken, callbacks, cancelled, release, worker)
    }

    // Ended, with its worker gone.
    predicate Prunable()
      reads this
    {
      terminal && worker.Done?
    }

    predicate WorkerActive()
      reads this
    {
      !worker.Done?
    }

    predicate Expired(o: Options, now: int)
      reads this
    {
      Prunable() && now >= completedAt + o.retention
    }

    constructor (id: string, requestDigest: string, release: Option<nat>, cancelled: bool, handle: nat)
      ensures View() == NewEntry(id, requestDigest, release).(cancelled := cancelled)
      ensures this.handle == handle
    {
      this.id, this.requestDigest, this.release, this.handle := id, requestDigest, release, handle;
      validator := Cursor(id, 0, false);
      events, eventBytes, terminal, completedAt := [], 0, false, 0;
      prompt, prompts := None, [];
      subscriptions, subscriberCount := map[], 0;
      lossTimer, lossTimerToken, callbacks := None, 0, {};
      this.cancelled, worker := cancelled, Running;
    }

    method ScheduleSubscriberLossLocked()
      modifies this
      ensures View() == ScheduleLoss(old(View()))
    {
      if terminal || AnyAttached(subscriptions) || lossTimer.Some? {
        return;
      }
      lossTimerToken := lossTimerToken + 1;
      lossTimer := Some(lossTimerToken);
      callbacks := callbacks + {lossTimerToken};
    }

    method StopLossTimerLocked(stopWins: bool)
      modifies `callbacks, `lossTimer
      ensures View() == StopLossTimer(old(View()), stopWins)
    {
      if lossTimer.Some? {
        if stopWins {
          callbacks := callbacks - {lossTimer.value};
        }
        lossTimer := None;
      }
    }

    // Hands one event to every attached subscriber, evicting those with no room.
    method DispatchLocked(event: Retained)
      modifies this
      ensures View() == Dispatch(old(View()), event)
    {
      var pending := subscriptions.Keys;
      while pending != {}
        modifies `subscriptions
        invariant pending <= subscriptions.Keys == old(subscriptions).Keys
        invariant forall s | s in subscriptions ::
                    subscriptions[s] == if s in pending then old(subscriptions)[s]
                        else Deliver(old(subscriptions)[s], event)
      {
        var s :| s in pending;
        pending := pending - {s};
        var sub := subscriptions[s];
        if sub.attached {
          var limit := sub.channel.cap;
          if !event.event.kind.Prompting? && !event.event.kind.Complete? {
            limit := limit - CRITICAL_QUEUE_RESERVE;
          }
          if |sub.channel.queue| >= limit {
            sub := sub.(attached := false, channel := sub.channel.Close());
          } else {
            sub := sub.(channel := sub.channel.Send(event));
          }
          subscriptions := subscriptions[s := sub];
        }
      }
      assert subscriptions == DeliverAll(old(subscriptions), event);
      ScheduleSubscriberLossLocked();
    }

    method RetainLocked(event: Event, size: nat)
      modifies this
      ensures View() == Retain(old(View()), event, size) && worker == old(worker)
    {
      validator := validator.After(event);
      var encoded := Retained(event, size);
      events := events + [encoded];
      eventBytes := eventBytes + size;
      DispatchLocked(encoded);
    }

    method CloseSubscribersLocked()
      modifies `subscriptions
      ensures subscriptions == CloseAll(old(subscriptions))
    {
      var pending := subscriptions.Keys;
      while pending != {}
        invariant pending <= subscriptions.Keys == old(subscriptions).Keys
        invariant forall s | s in subscriptions ::
                    subscriptions[s] == if s in pending then old(subscriptions)[s]
                        else CloseAttached(old(subscriptions)[s])
      {
        var s :| s in pending;
        pending := pending - {s};
        if subscriptions[s].attached {
          subscriptions := subscriptions[s := subscriptions[s].(channel := subscriptions[s].channel.Close())];
        }
      }
    }

    // Everything markTerminalLocked does to the entry itself.
    method EndLocked(now: int, stopWins: bool)
      modifies this
      ensures View() == MarkTerminal(old(View()), now, stopWins) && worker == old(worker)
    {
      hide CloseAll, StopLossTimer;
      if terminal {
        return;
      }
      RecordEndLocked(now);
      StopLossTimerLocked(stopWins);
      ghost var stopped := View();
      CloseSubscribersLocked();
      assert View() == stopped.(subscriptions := CloseAll(stopped.subscriptions));
      TimerOnly(old(View()).(terminal := true, completedAt := now, prompt := None, cancelled := true), stopWins);
    }

    method RecordEndLocked(now: int)
      modifies `terminal, `completedAt, `prompt, `cancelled
      ensures View() == old(View()).(terminal := true, completedAt := now, prompt := None, cancelled := true)
    {
      terminal, completedAt, prompt, cancelled := true, now, None, true;
    }

    // Replays the retained events after the cursor into a new queue and attaches it.
    method AttachLocked(o: Options, s: nat, after: nat, stopWins: bool)
      requires 1 <= o.queue
      modifies this
      ensures View() == Subscribe(o, old(View()), s, after, stopWins)
      ensures events == old(events) && terminal == old(terminal)
    {
      var replay := CollectReplay(events, after);
      var channel := SendReplay(Channel(|replay| + o.queue + CRITICAL_QUEUE_RESERVE, [], false, false), replay);
      StopLossTimerLocked(stopWins);
      if terminal {
        channel := channel.Close();
      }
      subscriptions := subscriptions[s := Subscription(after, [], channel, true, true)];
      subscriberCount := subscriberCount + 1;
    }

    method RemoveSubscriberLocked(s: nat)
      requires s in subscriptions
      modifies this
      ensures View() == Unsubscribe(old(View()), s)
    {
      var sub := subscriptions[s];
      if sub.attached && !terminal {
        sub := sub.(channel := sub.channel.Close());
      }
      sub := sub.(attached := false);
      subscriptions := subscriptions[s := sub];
      if !sub.counted {
        return;
      }
      subscriptions := subscriptions[s := sub.(counted := false)];
      assert subscriptions == old(subscriptions)[s := sub.(counted := false)];
      subscriberCount := subscriberCount - 1;
      ScheduleSubscriberLossLocked();
    }

    method LossTimerFiredLocked(token: nat, retained: bool)
      modifies this
      ensures View() == FireLossTimer(old(View()), token, retained)
    {
      callbacks := callbacks - {token};
      if lossTimerToken != token {
        return;
      }
      if retained && !terminal && !AnyAttached(subscriptions) {
        cancelled := true;
      }
      lossTimer := None;
    }

    // The cancel function of the worker's context.
    method Cancel()
      modifies this`cancelled
      ensures View() == old(View()).(cancelled := true)
    {
      cancelled := true;
    }

    method RespondLocked(r: Response) returns (ok: bool)
      requires prompt.Some? ==> prompt.value < |prompts|
      modifies this
      ensures View() == Respond(old(View()), r).0 && ok == Respond(old(View()), r).1
    {
      if terminal || prompt.None? {
        return false;
      }
      var h := prompt.value;
      if prompts[h].id != r.promptId || prompts[h].responded {
        return false;
      }
      prompts := prompts[h := prompts[h].(responded := true)];
      prompts := prompts[h := prompts[h].Send(r)];
      return true;
    }

    method EndPromptLocked(h: nat)
      requires h < |prompts|
      modifies this
      ensures View() == EndPrompt(old(View()), h)
    {
      prompts := prompts[h := prompts[h].(ended := true)];
      if prompt == Some(h) {
        prompt := None;
      }
    }
  }

  lemma TimerOnly(e: Entry, stopWins: bool)
    ensures StopLossTimer(e, stopWins).subscriptions == e.subscriptions
  {
  }

  method CollectReplay(log: seq<Retained>, after: nat) returns (replay: seq<Retained>)
    ensures replay == Replay(log, after)
  {
    replay := [];
    for i := 0 to |log|
      invariant replay == Replay(log[..i], after)
    {
      ReplaySnoc(log[..i], log[i], after);
      assert log[..i + 1] == log[..i] + [log[i]];
      if log[i].event.sequence > after {
        replay := replay + [log[i]];
      }
    }
    assert log[..|log|] == log;
  }

  method SendReplay(empty: Channel, replay: seq<Retained>) returns (channel: Channel)
    ensures channel == empty.SendAll(replay)
  {
    channel := empty;
    for i := 0 to |replay|
      invariant channel.SendAll(replay[i..]) == empty.SendAll(replay)
    {
      assert replay[i..][0] == replay[i] && replay[i..][1..] == replay[i + 1..];
      channel := channel.Send(replay[i]);
    }
  }

  method NewScheduledEntry(
    id: string, digest: string, release: Option<nat>, cancelled: bool, handle: nat)
    returns (entry: OperationEntry)
    ensures fresh(entry) && entry.id == id && entry.handle == handle
    ensures entry.View() == ScheduleLoss(NewEntry(id, digest, release)).(cancelled := cancelled)
  {
    entry := new OperationEntry(id, digest, release, cancelled, handle);
    entry.ScheduleSubscriberLossLocked();
  }

  lemma ReplaySnoc(log: seq<Retained>, r: Retained, after: nat)
    ensures Replay(log + [r], after) == Replay(log, after) + (if r.event.sequence > after then [r] else [])
  {
    if log != [] {
      assert (log + [r])[1..] == log[1..] + [r];
      ReplaySnoc(log[1..], r, after);
    } else {
      assert log + [r] == [r];
    }
  }
}
