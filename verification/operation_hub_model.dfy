/** The hub as a transition system: every region under its lock is one action,
    interleaved freely with consumers, workers and timer callbacks. Entries are
    identified by their position in the sequence of all entries ever created, so
    an entry that pruning dropped can still be reached by its subscriptions. */
module OperationHubModel {
  import opened Wrappers
  import opened OperationStream
  import opened OperationEntries
  import opened OperationEntryInvariant
  import opened OperationEntrySteps
  import opened OperationEntryProgress

  datatype Hub = Hub(
    options: Options,
    operations: map<string, nat>,
    entries: seq<Entry>,
    active: int,
    subscribers: int,
    draining: bool,
    drainDeadline: int,
    contextDone: bool)
  {
    predicate Retains(k: nat)
      requires k < |entries|
    {
      Reachable(entries, operations, k)
    }
  }

  // The map still leads to this entry.
  predicate Reachable(entries: seq<Entry>, ops: map<string, nat>, k: nat)
    requires k < |entries|
  {
    entries[k].id in ops && ops[entries[k].id] == k
  }

  // ----- pruning -----

  // The operations map only names existing entries, under their own IDs.
  ghost predicate Indexed(entries: seq<Entry>, ops: map<string, nat>) {
    forall id | id in ops :: ops[id] < |entries| && entries[ops[id]].id == id
  }

  predicate Prunable(entries: seq<Entry>, k: nat) {
    k < |entries| && entries[k].terminal && !entries[k].WorkerActive()
  }

  ghost function Completed(entries: seq<Entry>, ops: map<string, nat>): set<string> {
    set id | id in ops && ops[id] < |entries| && entries[ops[id]].terminal
  }

  // Dropping completed operations, oldest first, down to the cap or until only
  // operations held by their workers remain.
  ghost predicate CapPruned(o: Options, entries: seq<Entry>, ops: map<string, nat>, ops': map<string, nat>) {
    && (forall id | id in ops' :: id in ops && ops'[id] == ops[id])
    && (forall id | id in ops && id !in ops' :: Prunable(entries, ops[id]))
    && (forall gone, kept | gone in ops && gone !in ops' && kept in ops' && Prunable(entries, ops[kept]) ::
          entries[ops[gone]].completedAt <= entries[ops[kept]].completedAt)
    && (|Completed(entries, ops')| <= o.maxCompleted || forall id | id in ops' :: !Prunable(entries, ops[id]))
    && (ops' == ops || o.maxCompleted <= |Completed(entries, ops')|)
  }

  ghost predicate Expired(o: Options, entries: seq<Entry>, k: nat, now: int) {
    Prunable(entries, k) && entries[k].completedAt + o.retention <= now
  }

  ghost function Unexpired(o: Options, entries: seq<Entry>, ops: map<string, nat>, now: int): map<string, nat> {
    map id | id in ops && !Expired(o, entries, ops[id], now) :: ops[id]
  }

  ghost predicate Pruned(o: Options, entries: seq<Entry>, ops: map<string, nat>, now: int, ops': map<string, nat>) {
    CapPruned(o, entries, Unexpired(o, entries, ops, now), ops')
  }

  // The worker has gone and the retention is over.
  predicate PastRetention(o: Options, e: Entry, now: int) {
    e.terminal && e.worker.Done? && e.completedAt + o.retention <= now
  }

  // The operations that have ended, but for those past their retention.
  ghost function Lingering(o: Options, entries: seq<Entry>, ops: map<string, nat>, now: int): set<string>
    requires Indexed(entries, ops)
  {
    set id | id in ops && entries[ops[id]].terminal && !PastRetention(o, entries[ops[id]], now)
  }

  /** What pruning drops: everything past its retention, and nothing that has not
      ended or whose worker is still there. */
  lemma PrunedExactly(o: Options, entries: seq<Entry>, ops: map<string, nat>, now: int, ops': map<string, nat>)
    requires Indexed(entries, ops) && Pruned(o, entries, ops, now, ops')
    ensures forall id | id in ops' :: id in ops && ops'[id] == ops[id] && !PastRetention(o, entries[ops[id]], now)
    ensures forall id | id in ops && id !in ops' :: entries[ops[id]].terminal && entries[ops[id]].worker.Done?
    ensures |Lingering(o, entries, ops, now)| <= o.maxCompleted ==>
      forall id | id in ops && !PastRetention(o, entries[ops[id]], now) :: id in ops'
  {
    var unexpired := Unexpired(o, entries, ops, now);
    forall gone | gone in unexpired && gone !in ops' ensures |Lingering(o, entries, ops, now)| > o.maxCompleted {
      DroppedForRoom(o, entries, ops, now, ops', gone);
    }
  }

  lemma DroppedForRoom(
    o: Options, entries: seq<Entry>, ops: map<string, nat>, now: int, ops': map<string, nat>, gone: string)
    requires Indexed(entries, ops) && Pruned(o, entries, ops, now, ops')
    requires gone in ops && gone !in ops' && !PastRetention(o, entries[ops[gone]], now)
    ensures |Lingering(o, entries, ops, now)| > o.maxCompleted
  {
    var kept, all := Completed(entries, ops'), Lingering(o, entries, ops, now);
    assert Unexpired(o, entries, ops, now) != ops' by { assert gone in Unexpired(o, entries, ops, now); }
    assert kept <= all && gone in all && gone !in kept;
    FewerOf(kept + {gone}, all);
  }

  /** What is dropped within its retention goes for want of room, oldest first and
      down to the number of ended operations that may be kept. */
  lemma PrunedOldest(o: Options, entries: seq<Entry>, ops: map<string, nat>, now: int, ops': map<string, nat>)
    requires Indexed(entries, ops) && Pruned(o, entries, ops, now, ops')
    ensures forall gone, kept | gone in ops && gone !in ops' && kept in ops' ::
      !PastRetention(o, entries[ops[gone]], now) && entries[ops'[kept]].terminal && entries[ops'[kept]].worker.Done? ==>
      entries[ops[gone]].completedAt <= entries[ops'[kept]].completedAt
    ensures forall gone | gone in ops && gone !in ops' && !PastRetention(o, entries[ops[gone]], now) ::
      o.maxCompleted <= |set id | id in ops' && entries[ops'[id]].terminal|
    ensures || |set id | id in ops' && entries[ops'[id]].terminal| <= o.maxCompleted
      || forall id | id in ops' :: !(entries[ops'[id]].terminal && entries[ops'[id]].worker.Done?)
  {
    assert Completed(entries, ops') == set id | id in ops' && entries[ops'[id]].terminal;
    forall gone | gone in ops && gone !in ops' && !PastRetention(o, entries[ops[gone]], now)
      ensures Unexpired(o, entries, ops, now) != ops'
    {
      assert gone in Unexpired(o, entries, ops, now);
    }
  }

  lemma FewerOf(a: set<string>, b: set<string>)
    requires a <= b
    ensures |a| <= |b|
  {
    assert b == a + (b - a);
  }

  // ----- actions -----

  datatype Action =
    | Starting(id: string, digest: string, release: Option<nat>, now: int)
    | Pruning(now: int)
    | Stepping(k: nat, step: Step, now: int, stopWins: bool)
    | BeginningDrain(deadline: int)
    | CancellingForDrain(nows: seq<int>, stops: seq<bool>)
    | CancellingContexts

  // A new entry, with its first loss timer running.
  function Created(h: Hub, a: Action): Entry
    requires a.Starting?
  {
    ScheduleLoss(NewEntry(a.id, a.digest, a.release)).(cancelled := h.contextDone)
  }

  // Accepting a new operation, after pruning.
  ghost predicate StartNext(h: Hub, a: Action, h': Hub)
    requires a.Starting?
  {
    && !h.draining && h.active < h.options.maxActive
    && (exists ops | a.id !in ops :: Pruned(h.options, h.entries, h.operations, a.now, ops)
                                     && h' == h.(operations := ops[a.id := |h.entries|],
                                                 entries := h.entries + [Created(h, a)],
                                                 active := h.active + 1))
  }

  // The hub's own conditions on a step of one entry.
  ghost predicate Admitted(h: Hub, k: nat, step: Step)
    requires k < |h.entries|
  {
    var e := h.entries[k];
    && Enabled(e, step)
    && !step.Draining?
    && (step.Responding? || step.Cancelling? ==> h.Retains(k))
    && (step.Subscribing? ==>
          && h.Retains(k)
          && e.subscriberCount < h.options.perOperation && h.subscribers < h.options.maxSubscribers)
  }

  // What the step does to the operations map: subscribing and exiting prune,
  // and so does every region in which the entry becomes terminal.
  ghost predicate Reindexed(h: Hub, a: Action, entries: seq<Entry>, ops: map<string, nat>)
    requires a.Stepping? && a.k < |h.entries| == |entries|
  {
    if a.step.Subscribing? then
      Pruned(h.options, h.entries, h.operations, a.now, ops) && h.entries[a.k].id in ops
    else if a.step.Exiting? then
      Pruned(h.options, entries, h.operations, a.now, ops)
    else if !h.entries[a.k].terminal && entries[a.k].terminal then
      CapPruned(h.options, entries, h.operations, ops)
    else
      ops == h.operations
  }

  ghost predicate StepNext(h: Hub, a: Action, h': Hub)
    requires a.Stepping? && h.options.Valid()
  {
    && a.k < |h.entries|
    && Admitted(h, a.k, a.step)
    && var entries := h.entries[a.k := Apply(h.options, h.entries[a.k], a.step, a.now, a.stopWins, h.Retains(a.k))];
    && Reindexed(h, a, entries, h'.operations)
    && h' == h.(operations := h'.operations,
                entries := entries,
                active := h.active - (if a.step.Exiting? then 1 else 0),
                subscribers := h.subscribers
                    + (if a.step.Subscribing? then 1 else if a.step.Unsubscribing? then -1 else 0))
  }

  // Terminating every retained operation that is still running, while pruning
  // deletes from the map being iterated.
  ghost predicate DrainNext(h: Hub, a: Action, h': Hub)
    requires a.CancellingForDrain?
  {
    && |a.nows| == |a.stops| == |h.entries| == |h'.entries|
    && (forall k: nat | k < |h.entries| ::
          h'.entries[k] == if h.Retains(k) then DrainCancel(h.options, h.entries[k], a.nows[k], a.stops[k])
              else h.entries[k])
    && (if exists k: nat :: k < |h.entries| && h.Retains(k) && !h.entries[k].terminal then
          CapPruned(h.options, h'.entries, h.operations, h'.operations)
        else h'.operations == h.operations)
    && h' == h.(entries := h'.entries, operations := h'.operations)
  }

  ghost predicate Next(h: Hub, a: Action, h': Hub)
    requires h.options.Valid()
  {
    match a
    case Starting(_, _, _, _) => StartNext(h, a, h')
    case Pruning(now) =>
      Pruned(h.options, h.entries, h.operations, now, h'.operations) && h' == h.(operations := h'.operations)
    case Stepping(_, _, _, _) => StepNext(h, a, h')
    case BeginningDrain(deadline) =>
      h' == if h.draining then h else h.(draining := true, drainDeadline := deadline)
    case CancellingForDrain(_, _) => DrainNext(h, a, h')
    case CancellingContexts =>
      h' == h.(entries := seq(|h.entries|, i requires 0 <= i < |h.entries| => h.entries[i].(cancelled := true)),
               contextDone := true)
  }

  // ----- the invariant -----

  // How many entries have a live worker.
  function Workers(entries: seq<Entry>): nat {
    if entries == [] then 0 else (if entries[0].WorkerActive() then 1 else 0) + Workers(entries[1..])
  }

  function SumCounts(entries: seq<Entry>): int {
    if entries == [] then 0 else entries[0].subscriberCount + SumCounts(entries[1..])
  }

  ghost predicate EntriesInv(o: Options, entries: seq<Entry>)
    requires o.Valid()
  {
    forall k: nat | k < |entries| :: Inv(o, entries[k]) && entries[k].subscriberCount <= o.perOperation
  }

  ghost predicate WorkersRetained(entries: seq<Entry>, ops: map<string, nat>) {
    forall k: nat | k < |entries| && entries[k].WorkerActive() :: Reachable(entries, ops, k)
  }

  ghost predicate HubInv(h: Hub) {
    && h.options.Valid()
    && EntriesInv(h.options, h.entries)
    && Indexed(h.entries, h.operations)
    && WorkersRetained(h.entries, h.operations)
    && h.active == Workers(h.entries) <= h.options.maxActive
    && h.subscribers == SumCounts(h.entries) <= h.options.maxSubscribers
  }

  ghost predicate Init(h: Hub) {
    h.options.Valid() && h.operations == map[] && h.entries == [] && h.active == 0 && h.subscribers == 0
  }

  lemma InitInv(h: Hub)
    requires Init(h)
    ensures HubInv(h)
  {
  }

  lemma SumCountsUpdate(es: seq<Entry>, k: nat, e: Entry)
    requires k < |es|
    ensures SumCounts(es[k := e]) == SumCounts(es) - es[k].subscriberCount + e.subscriberCount
  {
    var put := es[k := e];
    if k > 0 {
      assert put[1..] == es[1..][k - 1 := e];
      SumCountsUpdate(es[1..], k - 1, e);
    } else {
      assert put[1..] == es[1..];
    }
  }

  lemma SumCountsAppend(es: seq<Entry>, e: Entry)
    ensures SumCounts(es + [e]) == SumCounts(es) + e.subscriberCount
  {
    if es != [] {
      assert (es + [e])[1..] == es[1..] + [e];
      SumCountsAppend(es[1..], e);
    } else {
      assert es + [e] == [e];
    }
  }

  // Pruning drops no entry whose worker is still active.
  lemma PrunedKeeps(o: Options, entries: seq<Entry>, ops: map<string, nat>, now: int, ops': map<string, nat>)
    requires Indexed(entries, ops) && WorkersRetained(entries, ops)
    requires CapPruned(o, entries, ops, ops') || Pruned(o, entries, ops, now, ops')
    ensures forall id | id in ops' :: id in ops && ops'[id] == ops[id]
    ensures forall id | id in ops && id !in ops' :: Prunable(entries, ops[id])
    ensures Indexed(entries, ops') && WorkersRetained(entries, ops')
  {
  }

  lemma WorkersAppend(entries: seq<Entry>, e: Entry)
    ensures Workers(entries + [e]) == Workers(entries) + (if e.WorkerActive() then 1 else 0)
  {
    if entries != [] {
      assert (entries + [e])[1..] == entries[1..] + [e];
      WorkersAppend(entries[1..], e);
    } else {
      assert entries + [e] == [e];
    }
  }

  lemma StartInv(h: Hub, a: Action, h': Hub)
    requires a.Starting? && HubInv(h) && StartNext(h, a, h')
    ensures HubInv(h')
  {
    hide Inv, Created, Pruned, CapPruned, Workers, SumCounts;
    var created := Created(h, a);
    var ops :| a.id !in ops && Pruned(h.options, h.entries, h.operations, a.now, ops)
               && h' == h.(operations := ops[a.id := |h.entries|], entries := h.entries + [created],
                   active := h.active + 1);
    NewlyCreated(h, a);
    PrunedKeeps(h.options, h.entries, h.operations, a.now, ops);
    SumCountsAppend(h.entries, created);
    WorkersAppend(h.entries, created);
    forall k: nat | k < |h'.entries| && h'.entries[k].WorkerActive() ensures Reachable(h'.entries, h'.operations, k) {
      if k < |h.entries| {
        assert Reachable(h.entries, ops, k);
      }
    }
  }

  lemma NewlyCreated(h: Hub, a: Action)
    requires h.options.Valid() && a.Starting?
    ensures Inv(h.options, Created(h, a)) && Created(h, a).subscriberCount == 0 && Created(h, a).id == a.id
    ensures Created(h, a).worker.Running? && Created(h, a).release == a.release && !Created(h, a).terminal
  {
  }

  lemma WorkersUpdate(entries: seq<Entry>, k: nat, e: Entry)
    requires k < |entries|
    ensures Workers(entries[k := e]) ==
        Workers(entries) - (if entries[k].WorkerActive() then 1 else 0) + (if e.WorkerActive() then 1 else 0)
  {
    var put := entries[k := e];
    if k > 0 {
      assert put[1..] == entries[1..][k - 1 := e];
      WorkersUpdate(entries[1..], k - 1, e);
    } else {
      assert put[1..] == entries[1..];
    }
  }

  lemma WorkersSame(entries: seq<Entry>, others: seq<Entry>)
    requires |entries| == |others|
    requires forall k: nat | k < |entries| :: entries[k].WorkerActive() == others[k].WorkerActive()
    ensures Workers(entries) == Workers(others)
  {
  }

  // One step of one entry, as seen by the hub.
  lemma StepEntry(h: Hub, a: Action)
    requires a.Stepping? && HubInv(h) && a.k < |h.entries| && Enabled(h.entries[a.k], a.step)
    ensures var e := h.entries[a.k];
            var e' := Apply(h.options, e, a.step, a.now, a.stopWins, h.Retains(a.k));
            && Inv(h.options, e') && e'.id == e.id
            && e'.subscriberCount ==
                e.subscriberCount + (if a.step.Subscribing? then 1 else if a.step.Unsubscribing? then -1 else 0)
            && e'.WorkerActive() == (e.WorkerActive() && !a.step.Exiting?)
            && (a.step.Exiting? ==> e.WorkerActive())
            && SumCounts(h.entries[a.k := e']) == SumCounts(h.entries) - e.subscriberCount + e'.subscriberCount
            && Workers(h.entries[a.k := e']) == Workers(h.entries) - (if a.step.Exiting? then 1 else 0)
  {
    hide Inv, Apply, Enabled, Workers;
    var e := h.entries[a.k];
    TerminalUnlessRetained(h, a.k);
    StepInv(h.options, e, a.step, a.now, a.stopWins, h.Retains(a.k));
    StepAccounting(h.options, e, a.step, a.now, a.stopWins, h.Retains(a.k));
    StepProgress(h.options, e, a.step, a.now, a.stopWins, h.Retains(a.k));
    ExitingIsActive(e, a.step);
    var e' := Apply(h.options, e, a.step, a.now, a.stopWins, h.Retains(a.k));
    SumCountsUpdate(h.entries, a.k, e');
    WorkersUpdate(h.entries, a.k, e');
  }

  lemma StepNextInv(h: Hub, a: Action, h': Hub)
    requires a.Stepping? && HubInv(h) && StepNext(h, a, h')
    ensures HubInv(h')
  {
    hide Inv, Apply, Enabled, Pruned, CapPruned, Workers;
    StepEntry(h, a);
    forall k: nat | k < |h'.entries| && h'.entries[k].WorkerActive() ensures Reachable(h'.entries, h.operations, k) {
      assert Reachable(h.entries, h.operations, k);
    }
    if a.step.Subscribing? {
      PrunedKeeps(h.options, h.entries, h.operations, a.now, h'.operations);
      forall k: nat | k < |h'.entries| && h'.entries[k].WorkerActive() ensures Reachable(h'.entries, h'.operations, k) {
        assert Reachable(h.entries, h'.operations, k);
      }
    } else if h'.operations != h.operations {
      PrunedKeeps(h.options, h'.entries, h.operations, a.now, h'.operations);
    }
  }

  lemma ExitingIsActive(e: Entry, step: Step)
    requires Enabled(e, step)
    ensures step.Exiting? ==> e.worker.Released?
    ensures step.Releasing? ==> e.worker.Finished?
    ensures step.Finishing? ==> e.worker.Running?
  {
  }

  // An entry pruning dropped has ended.
  lemma TerminalUnlessRetained(h: Hub, k: nat)
    requires HubInv(h) && k < |h.entries|
    ensures h.Retains(k) || (h.entries[k].terminal && h.entries[k].worker.Done?)
  {
  }

  lemma DrainNextInv(h: Hub, a: Action, h': Hub)
    requires a.CancellingForDrain? && HubInv(h) && DrainNext(h, a, h')
    ensures HubInv(h')
    ensures forall k: nat | k < |h'.entries| :: h'.entries[k].terminal
  {
    hide Inv, DrainCancel, Evolves;
    forall k: nat | k < |h.entries|
      ensures Inv(h.options, h'.entries[k]) && h'.entries[k].terminal && SameIdentity(h.entries[k], h'.entries[k])
    {
      TerminalUnlessRetained(h, k);
      DrainInv(h.options, h.entries[k], a.nows[k], a.stops[k]);
    }
    SameCounts(h.entries, h'.entries);
    WorkersSame(h.entries, h'.entries);
    forall k: nat | k < |h'.entries| && h'.entries[k].WorkerActive() ensures Reachable(h'.entries, h.operations, k) {
      assert Reachable(h.entries, h.operations, k);
    }
    if h'.operations != h.operations {
      PrunedKeeps(h.options, h'.entries, h.operations, 0, h'.operations);
    }
  }

  lemma SameCounts(es: seq<Entry>, fs: seq<Entry>)
    requires |es| == |fs| && forall k: nat | k < |es| :: es[k].subscriberCount == fs[k].subscriberCount
    ensures SumCounts(es) == SumCounts(fs)
  {
  }

  lemma CancelContextsInv(h: Hub, h': Hub)
    requires HubInv(h) && Next(h, CancellingContexts, h')
    ensures HubInv(h')
  {
    hide LogInv, SubsInv, PromptInv, Workers, SumCounts;
    SameCounts(h.entries, h'.entries);
    WorkersSame(h.entries, h'.entries);
    forall k: nat | k < |h'.entries|
        ensures Inv(h.options, h'.entries[k]) && h'.entries[k].subscriberCount <= h.options.perOperation
    {
      assert Inv(h.options, h.entries[k]);
    }
    forall k: nat | k < |h'.entries| && h'.entries[k].WorkerActive() ensures Reachable(h'.entries, h'.operations, k) {
      assert Reachable(h.entries, h.operations, k);
    }
  }

  lemma NextInv(h: Hub, a: Action, h': Hub)
    requires HubInv(h) && Next(h, a, h')
    ensures HubInv(h')
  {
    hide Inv, StartNext, StepNext, DrainNext;
    match a
    case Starting(_, _, _, _) => StartInv(h, a, h');
    case Pruning(now) => PrunedKeeps(h.options, h.entries, h.operations, now, h'.operations);
    case Stepping(_, _, _, _) => StepNextInv(h, a, h');
    case BeginningDrain(_) =>
    case CancellingForDrain(_, _) => DrainNextInv(h, a, h');
    case CancellingContexts => CancelContextsInv(h, h');
  }
}
