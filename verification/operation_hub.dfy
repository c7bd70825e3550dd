/** The hub (internal/daemon/operation.go) as the object its lock protects. Each
    method is one locked region, with the loops and map iterations of the Go
    code, and is proved to be an action of the transition system. */
module OperationHubs {
  import opened Integers
  import opened Wrappers
  import opened OperationStream
  import opened OperationEntries
  import opened OperationEntryInvariant
  import opened OperationEntrySteps
  import opened OperationEntryProgress
  import opened OperationEntryExactness
  import opened OperationEntryObjects
  import opened OperationHubModel

  datatype SubscribeOutcome = Unknown | BeyondLog | NoLongerRetained | Full | Subscribed

  datatype StartOutcome = Started | Existing | Collision | Conflict | NoWorker | DaemonDraining | Exhausted | Refused

  class OperationHub {
    const options: Options
    var operations: map<string, OperationEntry>
    var active: int
    var subscribers: int
    var draining: bool
    var drainDeadline: int
    var contextDone: bool
    // Every entry ever created, in order.
    var all: seq<OperationEntry>

    ghost predicate Known(e: OperationEntry)
      reads this
    {
      e.handle < |all| && all[e.handle] == e
    }

    ghost predicate Valid()
      reads this
    {
      && options.Valid()
      && (forall i: nat | i < |all| :: all[i].handle == i)
      && (forall id | id in operations :: Known(operations[id]) && operations[id].id == id)
    }

    ghost function Views(): (r: seq<Entry>)
      reads this, all
      ensures |r| == |all| && forall i: nat | i < |all| :: r[i] == all[i].View()
    {
      seq(|all|, i requires 0 <= i < |all| reads this, all => all[i].View())
    }

    ghost function Ops(): map<string, nat>
      reads this
    {
      map id | id in operations :: operations[id].handle
    }

    ghost function State(): Hub
      reads this, all
    {
      Hub(options, Ops(), Views(), active, subscribers, draining, drainDeadline, contextDone)
    }

    constructor (options: Options)
      requires options.maxEvents < 0x8000_0000_0000_0000
      ensures Valid() && Init(State()) && this.options == Normalize(options)
    {
      this.options := Normalize(options);
      operations := map[];
      active, subscribers, draining, drainDeadline, contextDone := 0, 0, false, 0, false;
      all := [];
    }

    // ----- pruning -----

    ghost function CompletedIds(ops: map<string, OperationEntry>): set<string>
      reads ops.Values
    {
      set id | id in ops && ops[id].terminal
    }

    // Counts the completed operations and finds the oldest one whose worker has
    // exited, whatever order the map is iterated in.
    method OldestCompleted() returns (completed: nat, oldest: OperationEntry?)
      requires Valid()
      ensures completed == |CompletedIds(operations)|
      ensures oldest == null ==> forall id | id in operations :: !operations[id].Prunable()
      ensures oldest != null ==>
                && oldest.id in operations && operations[oldest.id] == oldest && oldest.Prunable()
                && forall id | id in operations && operations[id].Prunable() ::
                    oldest.completedAt <= operations[id].completedAt
    {
      completed, oldest := 0, null;
      var pending := operations.Keys;
      ghost var counted: set<string> := {};
      while pending != {}
        invariant pending <= operations.Keys
        invariant counted == (set id | id in operations && id !in pending && operations[id].terminal)
        invariant completed == |counted|
        invariant oldest == null ==> forall id | id in operations && id !in pending :: !operations[id].Prunable()
        invariant oldest != null ==>
                    && oldest.id in operations && operations[oldest.id] == oldest && oldest.Prunable()
                    && forall id | id in operations && id !in pending && operations[id].Prunable() ::
                         oldest.completedAt <= operations[id].completedAt
      {
        var id :| id in pending;
        pending := pending - {id};
        var entry := operations[id];
        if entry.terminal {
          completed := completed + 1;
          counted := counted + {id};
          if entry.Prunable() && (oldest == null || entry.completedAt < oldest.completedAt) {
            oldest := entry;
          }
        }
      }
      assert counted == CompletedIds(operations);
    }

    ghost predicate NoOlderKept(was: map<string, OperationEntry>, ops: map<string, OperationEntry>)
      reads was.Values, ops.Values
    {
      forall gone, kept | gone in was && gone !in ops && kept in ops && ops[kept].Prunable() ::
        was[gone].completedAt <= ops[kept].completedAt
    }

    // CapPruned on the objects themselves.
    ghost predicate CapPrunedObjects(was: map<string, OperationEntry>, ops: map<string, OperationEntry>)
      reads was.Values, ops.Values
    {
      && (forall id | id in ops :: id in was && ops[id] == was[id])
      && (forall id | id in was && id !in ops :: was[id].Prunable())
      && NoOlderKept(was, ops)
      && (|CompletedIds(ops)| <= options.maxCompleted || forall id | id in ops :: !ops[id].Prunable())
      && (ops == was || options.maxCompleted <= |CompletedIds(ops)|)
    }

    lemma CapPrunedView(was: map<string, OperationEntry>)
      requires Valid() && CapPrunedObjects(was, operations)
      requires forall id | id in was :: Known(was[id]) && was[id].id == id
      ensures CapPruned(options, Views(), map id | id in was :: was[id].handle, Ops())
    {
      var views := Views();
      forall id | id in was
        ensures Prunable(views, was[id].handle) == was[id].Prunable()
        ensures views[was[id].handle].completedAt == was[id].completedAt
                && views[was[id].handle].terminal == was[id].terminal
      {
        assert views[was[id].handle] == all[was[id].handle].View();
      }
      assert Completed(views, Ops()) == CompletedIds(operations);
    }

    // One round of the pruning loop.
    method DropOldestCompleted() returns (dropped: bool, ghost id: string)
      requires Valid()
      modifies `operations
      ensures Valid()
      ensures !dropped ==>
                && operations == old(operations)
                && (|CompletedIds(operations)| <= options.maxCompleted
                    || forall id | id in operations :: !operations[id].Prunable())
      ensures dropped ==>
                && id in old(operations) && old(operations)[id].Prunable()
                && operations == old(operations) - {id}
                && options.maxCompleted <= |CompletedIds(operations)|
                && |operations| < |old(operations)|
                && (forall kept | kept in operations && operations[kept].Prunable() ::
                      old(operations)[id].completedAt <= operations[kept].completedAt)
    {
      id := "";
      var completed, oldest := OldestCompleted();
      if completed <= options.maxCompleted || oldest == null {
        return false, id;
      }
      id := oldest.id;
      assert CompletedIds(operations - {id}) == CompletedIds(operations) - {id};
      assert (operations - {id}).Keys == operations.Keys - {id};
      operations := operations - {oldest.id};
      return true, id;
    }

    // Part of the way through the pruning loop; `latest` is the completion time of
    // the last operation dropped, if any.
    ghost predicate Dropping(was: map<string, OperationEntry>, ops: map<string, OperationEntry>, latest: Option<int>)
      reads was.Values, ops.Values
    {
      && (forall id | id in ops :: id in was && ops[id] == was[id])
      && (latest.None? ==> ops == was)
      && (latest.Some? ==>
            && (forall id | id in was && id !in ops :: was[id].Prunable() && was[id].completedAt <= latest.value)
            && (forall id | id in ops && ops[id].Prunable() :: latest.value <= ops[id].completedAt)
            && options.maxCompleted <= |CompletedIds(ops)|)
    }

    lemma DropOneMore(
      was: map<string, OperationEntry>, ops: map<string, OperationEntry>, latest: Option<int>, id: string,
      fewer: map<string, OperationEntry>)
      requires Dropping(was, ops, latest) && id in ops && ops[id].Prunable() && fewer == ops - {id}
      requires options.maxCompleted <= |CompletedIds(fewer)|
      requires forall kept | kept in fewer && fewer[kept].Prunable() :: ops[id].completedAt <= fewer[kept].completedAt
      ensures Dropping(was, fewer, Some(ops[id].completedAt))
    {
      hide CompletedIds;
    }

    lemma DroppedAll(was: map<string, OperationEntry>, ops: map<string, OperationEntry>, latest: Option<int>)
      requires Dropping(was, ops, latest)
      requires |CompletedIds(ops)| <= options.maxCompleted || forall id | id in ops :: !ops[id].Prunable()
      ensures CapPrunedObjects(was, ops)
    {
      hide CompletedIds;
    }

    method PruneCompletedObjects()
      requires Valid()
      modifies `operations
      ensures Valid() && CapPrunedObjects(old(operations), operations)
    {
      hide CompletedIds, CapPrunedObjects;
      ghost var latest := None;
      while true
        invariant Valid() && Dropping(old(operations), operations, latest)
        decreases |operations|
      {
        ghost var before := operations;
        var dropped, id := DropOldestCompleted();
        if !dropped {
          DroppedAll(old(operations), operations, latest);
          return;
        }
        DropOneMore(old(operations), before, latest, id, operations);
        latest := Some(before[id].completedAt);
      }
    }

    method PruneCompletedLocked()
      requires Valid()
      modifies `operations
      ensures Valid() && CapPruned(options, Views(), old(Ops()), Ops())
      ensures forall id | id in operations :: id in old(operations) && operations[id] == old(operations)[id]
      ensures Views() == old(Views())
    {
      PruneCompletedObjects();
      CapPrunedView(old(operations));
      assert Views() == old(Views());
    }

    method ExpireLocked(now: int)
      requires Valid()
      modifies `operations
      ensures Valid()
      ensures operations == map id | id in old(operations) && !old(operations)[id].Expired(options, now) ::
          old(operations)[id]
    {
      var pending := operations.Keys;
      while pending != {}
        invariant Valid()
        invariant pending <= operations.Keys
        invariant forall id | id in operations :: id in old(operations) && operations[id] == old(operations)[id]
        invariant forall id | id in old(operations) ::
                    id in operations <==> id in pending || !old(operations)[id].Expired(options, now)
      {
        var id :| id in pending;
        pending := pending - {id};
        if operations[id].Expired(options, now) {
          operations := operations - {id};
        }
      }
    }

    lemma ExpiredView(was: map<string, OperationEntry>, now: int)
      requires Valid()
      requires forall id | id in was :: Known(was[id]) && was[id].id == id
      requires operations == map id | id in was && !was[id].Expired(options, now) :: was[id]
      ensures Ops() == Unexpired(options, Views(), map id | id in was :: was[id].handle, now)
    {
      var views := Views();
      forall id | id in was
        ensures Expired(options, views, was[id].handle, now) == was[id].Expired(options, now)
      {
        assert views[was[id].handle] == all[was[id].handle].View();
      }
    }

    method PruneLocked(now: int)
      requires Valid()
      modifies `operations
      ensures Valid() && Pruned(options, Views(), old(Ops()), now, Ops())
      ensures forall id | id in operations :: id in old(operations) && operations[id] == old(operations)[id]
      ensures Views() == old(Views()) && State() == old(State()).(operations := Ops())
      ensures Next(old(State()), Pruning(now), State())
      ensures KeepsRetained(old(operations), now, operations)
    {
      hide Next, KeepsRetained;
      ExpireLocked(now);
      ExpiredView(old(operations), now);
      assert Views() == old(Views());
      PruneCompletedLocked();
      PruningIsAction(old(State()), now, State());
      RetainedObjects(old(operations), now);
    }

    // Its worker has gone and its retention is over.
    ghost predicate Past(entry: OperationEntry, now: int)
      reads entry
    {
      entry.terminal && entry.worker.Done? && entry.completedAt + options.retention <= now
    }

    ghost function LingeringIds(ops: map<string, OperationEntry>, now: int): set<string>
      reads ops.Values
    {
      set id | id in ops && ops[id].terminal && !Past(ops[id], now)
    }

    // What pruning drops, on the objects: all that is past its retention, nothing
    // that has not ended, and the rest only when too much has ended.
    ghost predicate KeepsRetained(was: map<string, OperationEntry>, now: int, ops: map<string, OperationEntry>)
      reads was.Values, ops.Values
    {
      && (forall id | id in ops :: id in was && ops[id] == was[id] && !Past(was[id], now))
      && (forall id | id in was && id !in ops :: was[id].Prunable())
      && (|LingeringIds(was, now)| <= options.maxCompleted ==>
            forall id | id in was && !Past(was[id], now) :: id in ops)
    }

    lemma RetainedObjects(was: map<string, OperationEntry>, now: int)
      requires Valid() && forall id | id in was :: Known(was[id]) && was[id].id == id
      requires Pruned(options, Views(), map id | id in was :: was[id].handle, now, Ops())
      requires forall id | id in operations :: id in was && operations[id] == was[id]
      ensures KeepsRetained(was, now, operations)
    {
      hide Pruned, PastRetention, Past, Indexed;
      var views, ops := Views(), map id | id in was :: was[id].handle;
      forall id | id in was
        ensures views[ops[id]].terminal == was[id].terminal && views[ops[id]].worker == was[id].worker
        ensures PastRetention(options, views[ops[id]], now) == Past(was[id], now)
      {
        assert all[was[id].handle] == was[id];
        PastView(was[id], now);
      }
      IndexedObjects(was);
      PrunedExactly(options, views, ops, now, Ops());
      assert Lingering(options, views, ops, now) == LingeringIds(was, now);
    }

    lemma IndexedObjects(was: map<string, OperationEntry>)
      requires Valid() && forall id | id in was :: Known(was[id]) && was[id].id == id
      ensures Indexed(Views(), map id | id in was :: was[id].handle)
    {
    }

    lemma Found(was: map<string, OperationEntry>, id: string, now: int)
      requires KeepsRetained(was, now, operations)
      ensures id in operations ==> id in was && operations[id] == was[id]
      ensures id in was && !(was[id].terminal && was[id].worker.Done?) ==> id in operations
      ensures id in was && now < was[id].completedAt + options.retention
              && |LingeringIds(was, now)| <= options.maxCompleted ==>
                id in operations
      ensures id in was && was[id].terminal && was[id].worker.Done?
              && was[id].completedAt + options.retention <= now ==>
                id !in operations
    {
    }

    lemma PastView(entry: OperationEntry, now: int)
      ensures PastRetention(options, entry.View(), now) == Past(entry, now)
    {
    }

    // ----- the log -----

    // The region changed one entry, and pruned the completed operations exactly
    // when that entry ended in it.
    twostate predicate Touched(entry: OperationEntry)
      requires old(Valid()) && old(Known(entry))
      reads this, all, entry
    {
      && Valid() && all == old(all) && Known(entry)
      && Views() == old(Views())[entry.handle := entry.View()]
      && if !old(entry.terminal) && entry.terminal then CapPruned(options, Views(), old(Ops()), Ops())
          else Ops() == old(Ops())
    }

    method MarkTerminalLocked(entry: OperationEntry, now: int, stopWins: bool)
      requires Valid() && Known(entry)
      modifies `operations, entry
      ensures entry.View() == MarkTerminal(old(entry.View()), now, stopWins)
      ensures Touched(entry) && entry.worker == old(entry.worker)
    {
      hide MarkTerminal, CapPruned;
      if entry.terminal {
        Ended(entry.View(), now, stopWins);
        assert Views() == old(Views())[entry.handle := entry.View()];
        return;
      }
      entry.EndLocked(now, stopWins);
      assert Views() == old(Views())[entry.handle := entry.View()];
      Ended(old(entry.View()), now, stopWins);
      PruneCompletedLocked();
    }

    method TerminateCapacityLocked(entry: OperationEntry, now: int, stopWins: bool)
      requires Valid() && Known(entry)
      modifies `operations, entry
      ensures entry.View() == TerminateCapacity(options, old(entry.View()), now, stopWins)
      ensures Touched(entry) && entry.worker == old(entry.worker)
    {
      hide MarkTerminal, CapPruned, Retain, Encode;
      if entry.terminal {
        assert Views() == old(Views())[entry.handle := entry.View()];
        return;
      }
      var d := CapacityDraft(entry.id, |entry.events| + 1);
      var event := Stamp(entry.id, |entry.events| + 1, d);
      if Encode(d, options.maxBytes - entry.eventBytes).Encoded? && |entry.events| < options.maxEvents {
        if entry.validator.Admits(event) {
          entry.RetainLocked(event, d.size);
          RetainedLog(old(entry.View()), event, d.size);
        }
      }
      MarkTerminalLocked(entry, now, stopWins);
    }

    method AppendLocked(entry: OperationEntry, d: Draft, now: int, stopWins: bool) returns (outcome: Outcome)
      requires Valid() && Known(entry)
      modifies `operations, entry
      ensures (entry.View(), outcome) == Append(options, old(entry.View()), d, now, stopWins)
      ensures Touched(entry) && entry.worker == old(entry.worker)
    {
      hide CapPruned, Retain, Encode, TerminateCapacity;
      var event := Stamp(entry.id, |entry.events| + 1, d);
      var limit := options.maxBytes;
      if !d.kind.Complete? {
        limit := options.NonterminalByteLimit();
      }
      if !d.kind.Complete? && |entry.events| >= options.maxEvents - 1 {
        TerminateCapacityLocked(entry, now, stopWins);
        return CapacityExhausted;
      }
      if d.kind.Complete? && |entry.events| >= options.maxEvents {
        TerminateCapacityLocked(entry, now, stopWins);
        return CapacityExhausted;
      }
      var encoding := Encode(d, limit - entry.eventBytes);
      if encoding != Encoded {
        if encoding == TooLarge {
          TerminateCapacityLocked(entry, now, stopWins);
          return CapacityExhausted;
        }
        assert Views() == old(Views())[entry.handle := entry.View()];
        return Rejected;
      }
      if !entry.validator.Admits(event) {
        assert Views() == old(Views())[entry.handle := entry.View()];
        return Rejected;
      }
      entry.RetainLocked(event, d.size);
      RetainedLog(old(entry.View()), event, d.size);
      assert Views() == old(Views())[entry.handle := entry.View()];
      return Appended;
    }

    // ----- starting -----

    // What Start decides once pruning is done, in the order of its checks.
    method Admission(id: string, generated: bool, digest: string, hasRun: bool, reservation: Option<nat>)
      returns (outcome: StartOutcome, entry: OperationEntry?)
      requires Valid()
      ensures outcome == Collision <==> id in operations && generated
      ensures outcome == Conflict <==> id in operations && !generated && operations[id].requestDigest != digest
      ensures outcome == Existing <==> id in operations && !generated && operations[id].requestDigest == digest
      ensures entry == if outcome == Existing then operations[id] else null
      ensures outcome == NoWorker <==> id !in operations && !hasRun
      ensures outcome == DaemonDraining <==> id !in operations && hasRun && draining
      ensures outcome == Exhausted <==> id !in operations && hasRun && !draining && active >= options.maxActive
      ensures outcome == Refused <==>
          id !in operations && hasRun && !draining && active < options.maxActive && reservation.None?
    {
      if id in operations {
        if generated {
          return Collision, null;
        }
        if operations[id].requestDigest != digest {
          return Conflict, null;
        }
        return Existing, operations[id];
      }
      if !hasRun {
        return NoWorker, null;
      }
      if draining {
        return DaemonDraining, null;
      }
      if active >= options.maxActive {
        return Exhausted, null;
      }
      if reservation.None? {
        return Refused, null;
      }
      return Started, null;
    }

    // One attempt of Start; `generated` says the ID came from the ID source and
    // `reservation` is what the gate answered, None when it refused.
    method Start(id: string, generated: bool, digest: string, hasRun: bool, reservation: Option<nat>, now: int)
      returns (outcome: StartOutcome, entry: OperationEntry?)
      requires Valid() && HubInv(State())
      modifies `operations, `active, `all
      ensures Valid()
      ensures outcome == Started ==> Next(old(State()), Starting(id, digest, reservation, now), State())
      ensures outcome == Started ==>
          entry != null && fresh(entry) && all == old(all) + [entry] && id in operations && operations[id] == entry
      ensures outcome != Started ==> Next(old(State()), Pruning(now), State())
      ensures outcome == Existing ==>
          id in operations && operations[id] == entry && operations[id].requestDigest == digest && !generated
      ensures outcome != Started && outcome != Existing ==> entry == null
      ensures outcome == Collision ==> id in operations && generated
      ensures outcome == Conflict ==> id in operations && !generated && operations[id].requestDigest != digest
      ensures outcome == NoWorker ==> id !in operations && !hasRun
      ensures outcome == DaemonDraining ==> id !in operations && hasRun && draining
      ensures outcome == Exhausted ==> id !in operations && hasRun && !draining && active >= options.maxActive
      ensures outcome == Refused ==>
                id !in operations && hasRun && !draining && active < options.maxActive && reservation.None?
      ensures outcome == Started ==> hasRun && !draining && old(active) < options.maxActive && reservation.Some?
      ensures outcome == Started ==>
                && entry.id == id && entry.requestDigest == digest && entry.release == reservation
                && !entry.terminal && entry.events == [] && entry.worker.Running? && entry.lossTimer.Some?
                && entry.cancelled == contextDone
      ensures id in old(operations) && !(old(operations[id].terminal) && old(operations[id].worker.Done?)) ==>
                outcome == Existing || outcome == Conflict || outcome == Collision
      ensures id in old(operations) && now < old(operations[id].completedAt) + options.retention
              && old(|LingeringIds(operations, now)|) <= options.maxCompleted ==>
                outcome == Existing || outcome == Conflict || outcome == Collision
    {
      hide HubInv, Pruned, Next, Ops, Views, KeepsRetained, Past, LingeringIds;
      ghost var before := State();
      PruneLocked(now);
      Found(old(operations), id, now);
      outcome, entry := Admission(id, generated, digest, hasRun, reservation);
      if outcome == Started {
        entry := AcceptNew(id, digest, reservation, now, before);
      }
    }

    // `before` is the state before pruning.
    method AcceptNew(
      id: string, digest: string, reservation: Option<nat>, now: int, ghost before: Hub)
      returns (entry: OperationEntry)
      requires Valid() && id !in operations && !draining && active < options.maxActive
      requires before == State().(operations := before.operations)
      requires Pruned(options, before.entries, before.operations, now, Ops())
      modifies `operations, `active, `all
      ensures Valid() && fresh(entry) && all == old(all) + [entry]
      ensures id in operations && operations[id] == entry
      ensures Next(before, Starting(id, digest, reservation, now), State())
      ensures entry.id == id && entry.requestDigest == digest && entry.release == reservation
      ensures !entry.terminal && entry.events == [] && entry.worker.Running? && entry.lossTimer.Some?
      ensures entry.cancelled == contextDone
    {
      hide Pruned, Next;
      ghost var ops := Ops();
      entry := AddEntry(id, digest, reservation);
      assert Views()[|Views()| - 1] == entry.View();
      hide ScheduleLoss, NewEntry;
      StartedIsAction(before, id, digest, reservation, now, ops, State());
    }

    method AddEntry(id: string, digest: string, reservation: Option<nat>) returns (entry: OperationEntry)
      requires Valid() && id !in operations
      modifies `operations, `active, `all
      ensures Valid() && fresh(entry) && all == old(all) + [entry]
      ensures operations == old(operations)[id := entry] && active == old(active) + 1
      ensures Ops() == old(Ops())[id := |old(all)|]
      ensures Views() == old(Views()) + [ScheduleLoss(NewEntry(id, digest, reservation)).(cancelled := contextDone)]
    {
      hide ScheduleLoss, NewEntry, Views, Ops;
      entry := NewScheduledEntry(id, digest, reservation, contextDone, |all|);
      all := all + [entry];
      operations := operations[id := entry];
      active := active + 1;
      ViewsGrow(entry);
      OpsGrow(id, entry);
    }

    // A region that changed one entry and nothing else.
    twostate lemma OneChanged(entry: OperationEntry)
      requires old(Valid()) && old(Known(entry)) && unchanged(this)
      requires forall e | e in all && e != entry :: unchanged(e)
      ensures Valid() && entry.handle < |old(Views())| && old(State()).options == options
      ensures old(State()).entries == old(Views()) && old(Views())[entry.handle] == old(entry.View())
      ensures State() == old(State()).(entries := old(Views())[entry.handle := entry.View()])
    {
      forall i: nat | i < |all| ensures Views()[i] == old(Views())[entry.handle := entry.View()][i] {
        if i != entry.handle {
          assert all[i] in all && all[i] != entry;
        }
      }
    }

    twostate lemma ViewsGrow(new entry: OperationEntry)
      requires all == old(all) + [entry]
      requires forall e | e in old(all) :: unchanged(e)
      ensures Views() == old(Views()) + [entry.View()]
    {
      ghost var was := old(Views());
      forall i: nat | i < |all| ensures Views()[i] == (was + [entry.View()])[i] {
        if i < |was| {
          assert all[i] == old(all)[i] && old(all)[i] in old(all);
        }
      }
    }

    twostate lemma OpsGrow(id: string, new entry: OperationEntry)
      requires operations == old(operations)[id := entry]
      ensures Ops() == old(Ops())[id := entry.handle]
    {
    }

    // ----- worker regions -----

    method Emit(entry: OperationEntry, d: Draft, now: int, stopWins: bool) returns (outcome: Outcome)
      requires Valid() && Known(entry) && HubInv(State()) && Enabled(entry.View(), Emitting(d))
      modifies `operations, entry
      ensures Valid() && Next(old(State()), Stepping(entry.handle, Emitting(d), now, stopWins), State())
      ensures old(entry.terminal) ==> outcome == Rejected && entry.View() == old(entry.View())
      ensures !old(entry.terminal) ==>
                && (outcome.Appended? <==> Appendable(options, old(entry.View()), d))
                && (outcome.CapacityExhausted? <==> Crowded(options, old(entry.View()), d))
                && (outcome.Appended? ==> entry.events == old(entry.events) + [Following(old(entry.View()), d)])
                && (outcome.CapacityExhausted? ==> entry.terminal && entry.events == Capped(options, old(entry.View())))
                && (outcome.Rejected? ==> entry.View() == old(entry.View()))
    {
      hide Inv, HubInv, Append, CapPruned, Appendable, Crowded, Capped, Following;
      if !entry.terminal {
        EntryInv(entry.handle);
        OpenEntry(options, entry.View());
        AppendExactly(options, entry.View(), d, now, stopWins);
      }
      if entry.terminal {
        assert Views() == old(Views())[entry.handle := entry.View()];
        return Rejected;
      }
      outcome := AppendLocked(entry, d, now, stopWins);
    }

    method PromptLocked(
      entry: OperationEntry, id: string, d: Draft, now: int, stopWins: bool)
      returns (outcome: Outcome, handle: nat)
      requires Valid() && Known(entry)
      modifies `operations, entry
      ensures (entry.View(), outcome) == OpenPrompt(options, old(entry.View()), id, d, now, stopWins)
      ensures outcome.Appended? ==> handle == |old(entry.prompts)|
      ensures Touched(entry)
    {
      hide CapPruned, Append, Ops;
      var earlier := entry.prompts;
      handle := |earlier|;
      if entry.terminal || entry.prompt.Some? {
        assert Views() == old(Views())[entry.handle := entry.View()];
        return Rejected, handle;
      }
      var state := PromptState(id, [], false, None, false, false);
      entry.prompt := Some(handle);
      entry.prompts := earlier + [state];
      assert Views() == old(Views())[entry.handle := entry.View()];
      outcome := AppendLocked(entry, d, now, stopWins);
      if !outcome.Appended? {
        AbandonPromptLocked(entry, earlier + [state.(ended := true)], old(Ops()));
      }
      assert Views() == old(Views())[entry.handle := entry.View()];
    }

    // Forgetting a prompt that was never published.
    method AbandonPromptLocked(entry: OperationEntry, prompts: seq<PromptState>, ghost before: map<string, nat>)
      requires Valid() && Known(entry) && |prompts| > 0
      modifies entry
      ensures Valid() && Views() == old(Views())[entry.handle := entry.View()]
      ensures entry.View() == old(entry.View()).(prompts := prompts,
                                prompt := if old(entry.prompt) == Some(|prompts| - 1) then None else old(entry.prompt))
      ensures CapPruned(options, old(Views()), before, Ops()) ==> CapPruned(options, Views(), before, Ops())
    {
      entry.prompts := prompts;
      if entry.prompt == Some(|prompts| - 1) {
        entry.prompt := None;
      }
      assert Views() == old(Views())[entry.handle := entry.View()];
      if CapPruned(options, old(Views()), before, Ops()) {
        CapPrunedDepends(options, old(Views()), Views(), before, Ops());
      }
    }

    // The first region of Prompt; on success the worker waits on prompt `handle`.
    method Prompt(
      entry: OperationEntry, id: string, d: Draft, now: int, stopWins: bool)
      returns (outcome: Outcome, handle: nat)
      requires Valid() && Known(entry) && HubInv(State()) && Enabled(entry.View(), Asking(id, d))
      modifies `operations, entry
      ensures Valid() && Next(old(State()), Stepping(entry.handle, Asking(id, d), now, stopWins), State())
      ensures outcome.Appended? <==>
                !old(entry.terminal) && old(entry.prompt).None? && Appendable(options, old(entry.View()), d)
      ensures outcome.Appended? ==>
                && handle == |old(entry.prompts)| && entry.prompt == Some(handle)
                && entry.prompts == old(entry.prompts) + [PromptState(id, [], false, None, false, false)]
                && entry.events == old(entry.events) + [Following(old(entry.View()), d)]
      ensures !outcome.Appended? && old(entry.prompt).None? ==> entry.prompt.None?
    {
      hide HubInv, CapPruned, OpenPrompt, Inv, Appendable, Crowded, Capped, Following;
      EntryInv(entry.handle);
      AskExactly(options, entry.View(), id, d, now, stopWins);
      outcome, handle := PromptLocked(entry, id, d, now, stopWins);
    }

    // The deferred region of Prompt.
    method EndPrompt(entry: OperationEntry, h: nat)
      requires Valid() && Known(entry) && HubInv(State()) && Enabled(entry.View(), EndingPrompt(h))
      modifies entry
      ensures Valid() && Next(old(State()), Stepping(entry.handle, EndingPrompt(h), 0, false), State())
      ensures PromptEnded(entry.prompts, h, entry.prompt)
    {
      hide HubInv;
      entry.EndPromptLocked(h);
      assert Views() == old(Views())[entry.handle := entry.View()];
    }

    // The worker's function has returned.
    method Finish(entry: OperationEntry, d: Draft, fallback: Draft, now: int, stopWins: bool)
      requires Valid() && Known(entry) && HubInv(State()) && Enabled(entry.View(), Finishing(d, fallback))
      modifies `operations, entry
      ensures Valid() && Next(old(State()), Stepping(entry.handle, Finishing(d, fallback), now, stopWins), State())
      ensures entry.terminal && entry.worker.Finished?
      ensures old(entry.terminal) ==> entry.events == old(entry.events)
      ensures !old(entry.terminal) && Appendable(options, old(entry.View()), d) ==>
                entry.events == old(entry.events) + [Following(old(entry.View()), d)]
      ensures !old(entry.terminal) && !Appendable(options, old(entry.View()), d) ==>
                entry.events ==
                  if !Crowded(options, old(entry.View()), d) && Appendable(options, old(entry.View()), fallback)
                  then old(entry.events) + [Following(old(entry.View()), fallback)]
                  else Capped(options, old(entry.View()))
    {
      hide HubInv, CapPruned, Next, OperationEntries.Finish, Inv, Appendable, Crowded, Capped, Following;
      EntryInv(entry.handle);
      FinishExactly(options, entry.View(), d, fallback, now, stopWins);
      ghost var before := State();
      FinishLocked(entry, d, fallback, now, stopWins);
      TouchIsAction(before, entry.handle, Finishing(d, fallback), now, stopWins, State());
    }

    method PublishCompletionLocked(entry: OperationEntry, d: Draft, fallback: Draft, now: int, stopWins: bool)
      requires Valid() && Known(entry) && !entry.terminal
      modifies `operations, entry
      ensures entry.View() == PublishCompletion(options, old(entry.View()), d, fallback, now, stopWins)
      ensures Touched(entry) && entry.worker == old(entry.worker)
    {
      hide CapPruned, Append, PublishFallback, Ops, Views;
      var outcome := AppendLocked(entry, d, now, stopWins);
      if !outcome.Appended? && !entry.terminal {
        PublishFallbackLocked(entry, fallback, now, stopWins);
      }
    }

    method PublishFallbackLocked(entry: OperationEntry, fallback: Draft, now: int, stopWins: bool)
      requires Valid() && Known(entry) && !entry.terminal
      modifies `operations, entry
      ensures entry.View() == PublishFallback(options, old(entry.View()), fallback, now, stopWins)
      ensures Touched(entry) && entry.worker == old(entry.worker)
    {
      hide CapPruned, Append, TerminateCapacity, Ops, Views;
      var outcome := AppendLocked(entry, fallback, now, stopWins);
      if !outcome.Appended? && !entry.terminal {
        TerminateCapacityLocked(entry, now, stopWins);
      }
    }

    // Ending an entry that may have ended earlier in the same region.
    method EndLocked(entry: OperationEntry, now: int, stopWins: bool, ghost before: map<string, nat>)
      requires Valid() && Known(entry)
      requires if entry.terminal then CapPruned(options, Views(), before, Ops()) else Ops() == before
      modifies `operations, entry
      ensures entry.View() == MarkTerminal(old(entry.View()), now, stopWins) && entry.terminal
      ensures entry.worker == old(entry.worker)
      ensures Valid() && Views() == old(Views())[entry.handle := entry.View()]
      ensures CapPruned(options, Views(), before, Ops())
    {
      hide CapPruned, MarkTerminal;
      Ended(entry.View(), now, stopWins);
      if entry.terminal {
        Ended(entry.View(), now, stopWins);
        assert Views() == old(Views())[entry.handle := entry.View()];
      } else {
        MarkTerminalLocked(entry, now, stopWins);
      }
    }

    method FinishLocked(entry: OperationEntry, d: Draft, fallback: Draft, now: int, stopWins: bool)
      requires Valid() && Known(entry) && entry.worker.Running?
      modifies `operations, entry
      ensures entry.View() == OperationEntries.Finish(options, old(entry.View()), d, fallback, now, stopWins)
      ensures Touched(entry)
    {
      hide CapPruned, PublishCompletion, MarkTerminal, Ops, Views;
      if entry.terminal {
        FinishedWorkerLocked(entry, old(Ops()));
        return;
      }
      PublishCompletionLocked(entry, d, fallback, now, stopWins);
      EndLocked(entry, now, stopWins, old(Ops()));
      FinishedWorkerLocked(entry, old(Ops()));
    }

    method FinishedWorkerLocked(entry: OperationEntry, ghost before: map<string, nat>)
      requires Valid() && Known(entry) && entry.worker.Running?
      modifies entry`worker
      ensures entry.View() == old(entry.View()).(worker := Finished)
      ensures Valid() && Views() == old(Views())[entry.handle := entry.View()]
      ensures CapPruned(options, old(Views()), before, Ops()) ==> CapPruned(options, Views(), before, Ops())
    {
      entry.worker := Finished;
      assert Views() == old(Views())[entry.handle := entry.View()];
      if CapPruned(options, old(Views()), before, Ops()) {
        CapPrunedDepends(options, old(Views()), Views(), before, Ops());
      }
    }

    // ----- the worker's exit -----

    // Recording that the gate reservation was released; the release itself runs
    // without the hub lock.
    method ReleasedWorker(entry: OperationEntry)
      requires Valid() && Known(entry) && HubInv(State()) && entry.worker.Finished?
      modifies entry`worker
      ensures Valid() && Next(old(State()), Stepping(entry.handle, Releasing, 0, false), State())
      ensures entry.worker.Released?
    {
      hide HubInv;
      entry.worker := Released;
      assert Views() == old(Views())[entry.handle := entry.View()];
    }

    method ReleaseWorker(entry: OperationEntry, now: int)
      requires Valid() && Known(entry) && HubInv(State()) && entry.worker.Released?
      modifies `operations, `active, entry
      ensures Valid() && Next(old(State()), Stepping(entry.handle, Exiting, now, false), State())
      ensures entry.worker.Done? && entry.release.None? && active == old(active) - 1
      ensures KeepsRetained(old(operations), now, operations)
    {
      hide HubInv, CapPruned, Unexpired, KeepsRetained;
      ExitLocked(entry);
      PruneLocked(now);
    }

    method ExitLocked(entry: OperationEntry)
      requires Valid() && Known(entry)
      modifies `active, entry
      ensures Valid() && Ops() == old(Ops()) && active == old(active) - 1
      ensures entry.worker.Done? && entry.release.None?
      ensures Views() == old(Views())[entry.handle := old(entry.View()).(worker := Done, release := None)]
    {
      entry.release := None;
      entry.worker := Done;
      active := active - 1;
      assert Views() == old(Views())[entry.handle := entry.View()];
    }

    // ----- requests -----

    method Respond(id: string, r: Response) returns (ok: bool)
      requires Valid() && HubInv(State())
      modifies operations.Values
      ensures Valid()
      ensures !ResponseOk(r) || id !in operations ==> !ok && State() == old(State())
      ensures ResponseOk(r) && id in operations ==>
                && Next(old(State()), Stepping(operations[id].handle, Responding(r), 0, false), State())
                && (ok <==> exists h: nat :: Accepts(old(operations[id].View()), h, r))
    {
      hide HubInv;
      if !ResponseOk(r) || id !in operations {
        return false;
      }
      Lookup(id);
      ok := RespondTo(operations[id], r);
    }

    method RespondTo(entry: OperationEntry, r: Response) returns (ok: bool)
      requires Valid() && Known(entry) && HubInv(State()) && ResponseOk(r) && State().Retains(entry.handle)
      modifies entry
      ensures Valid() && Next(old(State()), Stepping(entry.handle, Responding(r), 0, false), State())
      ensures ok <==> exists h: nat :: Accepts(old(entry.View()), h, r)
    {
      hide HubInv, Next, OperationEntries.Respond, Views, Ops, State, Inv, Accepts, CapPruned, Reachable;
      EntryInv(entry.handle);
      RespondAccepts(options, entry.View(), r);
      ghost var before := State();
      ok := entry.RespondLocked(r);
      OneChanged(entry);
      RespondedStays(before.entries[entry.handle], r);
      TouchIsAction(before, entry.handle, Responding(r), 0, false, State());
    }

    // An ID leads to an entry exactly when the map says so.
    lemma Lookup(id: string)
      requires Valid() && id in operations
      ensures State().Retains(operations[id].handle) && id in Ops()
    {
    }

    lemma Lost(entry: OperationEntry)
      requires Valid() && Known(entry)
      ensures State().Retains(entry.handle) <==> entry.id in operations && operations[entry.id] == entry
    {
    }

    lemma EntryInv(k: nat)
      requires Valid() && HubInv(State()) && k < |all|
      ensures Inv(options, all[k].View())
    {
      assert Views()[k] == all[k].View();
    }

    method Cancel(id: string) returns (ok: bool)
      requires Valid() && HubInv(State())
      modifies operations.Values
      ensures Valid() && (ok <==> id in operations)
      ensures id !in operations ==> State() == old(State())
      ensures id in operations ==> Next(old(State()), Stepping(operations[id].handle, Cancelling, 0, false), State())
      ensures id in operations ==> operations[id].cancelled
    {
      hide HubInv;
      if id !in operations {
        return false;
      }
      Lookup(id);
      CancelEntry(operations[id]);
      return true;
    }

    method CancelEntry(entry: OperationEntry)
      requires Valid() && Known(entry) && HubInv(State()) && State().Retains(entry.handle)
      modifies entry
      ensures Valid() && Next(old(State()), Stepping(entry.handle, Cancelling, 0, false), State())
      ensures entry.cancelled
    {
      hide HubInv, Next, Views, Ops, State, CapPruned, Reachable;
      EndedIsCancelled(entry.handle);
      ghost var before := State();
      if !entry.terminal {
        entry.Cancel();
      }
      OneChanged(entry);
      TouchIsAction(before, entry.handle, Cancelling, 0, false, State());
    }

    lemma EndedIsCancelled(k: nat)
      requires Valid() && HubInv(State()) && k < |all|
      ensures all[k].terminal ==> all[k].cancelled
    {
    }

    method BeginDrain(deadline: int)
      requires Valid() && HubInv(State())
      modifies `draining, `drainDeadline
      ensures Valid() && Next(old(State()), BeginningDrain(deadline), State())
      ensures draining && drainDeadline == if old(draining) then old(drainDeadline) else deadline
    {
      hide HubInv;
      if draining {
        return;
      }
      draining := true;
      drainDeadline := deadline;
      assert Views() == old(Views());
    }

    // ----- subscribers -----

    method Subscribe(id: string, s: nat, after: uint64, now: int, stopWins: bool) returns (outcome: SubscribeOutcome)
      requires Valid() && HubInv(State())
      requires forall k: nat | k < |all| :: s !in all[k].subscriptions
      modifies `operations, `subscribers, operations.Values
      ensures Valid()
      ensures outcome != NoLongerRetained
      ensures outcome == Unknown <==> id !in operations
      ensures forall k | k in operations :: k in old(operations) && operations[k] == old(operations)[k]
      ensures outcome == BeyondLog <==> id in operations && after > |operations[id].events|
      ensures outcome == Full <==>
                && id in operations && after <= |operations[id].events|
                && (old(subscribers) >= options.maxSubscribers
                    || (id in old(operations) && old(operations[id].subscriberCount) >= options.perOperation))
      ensures outcome == Subscribed ==>
                && id in operations
                && Next(old(State()), Stepping(operations[id].handle, Subscribing(s, after), now, stopWins), State())
      ensures outcome != Subscribed ==> Next(old(State()), Pruning(now), State())
      ensures id in old(operations) && !(old(operations[id].terminal) && old(operations[id].worker.Done?)) ==>
                outcome != Unknown
      ensures id in old(operations) && now < old(operations[id].completedAt) + options.retention
              && old(|LingeringIds(operations, now)|) <= options.maxCompleted ==>
                outcome != Unknown
      ensures id in old(operations) && old(operations[id].terminal) && old(operations[id].worker.Done?)
              && old(operations[id].completedAt) + options.retention <= now ==>
                outcome == Unknown
      ensures outcome == Subscribed ==>
                && id in old(operations) && after <= |operations[id].events|
                && operations[id].subscriptions == old(operations[id].subscriptions)[
                     s := Attached(options, operations[id].events, after, operations[id].terminal)]
    {
      hide HubInv, Pruned, Next, Ops, Views, KeepsRetained, Past, LingeringIds, Inv, Attached;
      ghost var before := State();
      if id in operations {
        NumberedFromOne(operations[id].handle);
        EntryInv(operations[id].handle);
        Lookup(id);
      }
      PruneLocked(now);
      Found(old(operations), id, now);
      if id !in operations {
        return Unknown;
      }
      Lookup(id);
      outcome := SubscribeTo(operations[id], s, after, now, stopWins, before);
    }

    // The rest of the region, once pruning has kept the entry; `before` is the
    // state before pruning.
    method SubscribeTo(entry: OperationEntry, s: nat, after: uint64, now: int, stopWins: bool, ghost before: Hub)
      returns (outcome: SubscribeOutcome)
      requires Valid() && Known(entry) && s !in entry.subscriptions && Inv(options, entry.View())
      requires |entry.events| > 0 ==>
                 && entry.events[0].event.sequence == 1
                 && entry.events[|entry.events| - 1].event.sequence == |entry.events| < TWO_TO_THE_64 - 1
      requires before == State().(operations := before.operations) && before.Retains(entry.handle)
      requires Pruned(options, before.entries, before.operations, now, Ops()) && entry.id in Ops()
      modifies `subscribers, entry
      ensures Valid() && unchanged(`operations)
      ensures outcome == BeyondLog <==> after > |old(entry.events)|
      ensures outcome == Subscribed <==>
                && after <= |old(entry.events)|
                && old(entry.subscriberCount) < options.perOperation && old(subscribers) < options.maxSubscribers
      ensures outcome == Subscribed || outcome == BeyondLog || outcome == Full
      ensures entry.events == old(entry.events)
      ensures outcome == Subscribed ==>
          Next(before, Stepping(entry.handle, Subscribing(s, after), now, stopWins), State())
      ensures outcome != Subscribed ==> State() == old(State())
      ensures outcome == Subscribed ==>
                entry.subscriptions ==
                  old(entry.subscriptions)[s := Attached(options, entry.events, after, entry.terminal)]
    {
      hide Pruned, Next, OperationEntries.Subscribe, Inv, Attached;
      outcome := SubscriberAdmission(entry, after);
      if outcome == Subscribed {
        AttachSubscriber(entry, s, after, stopWins);
        SubscribedIsAction(before, entry.handle, s, after, now, stopWins, State());
      }
    }

    // The checks on the cursor and the caps.
    method SubscriberAdmission(entry: OperationEntry, after: uint64) returns (outcome: SubscribeOutcome)
      requires |entry.events| > 0 ==>
                 && entry.events[0].event.sequence == 1
                 && entry.events[|entry.events| - 1].event.sequence == |entry.events| < TWO_TO_THE_64 - 1
      ensures outcome == BeyondLog <==> after > |entry.events|
      ensures outcome == Subscribed <==>
                && after <= |entry.events|
                && entry.subscriberCount < options.perOperation && subscribers < options.maxSubscribers
      ensures outcome == Subscribed || outcome == BeyondLog || outcome == Full
    {
      var lastSequence: uint64 := 0;
      if |entry.events| > 0 {
        lastSequence := entry.events[|entry.events| - 1].event.sequence;
      }
      if after > lastSequence {
        return BeyondLog;
      }
      if |entry.events| > 0 && (after + 1) % TWO_TO_THE_64 < entry.events[0].event.sequence {
        return NoLongerRetained;
      }
      if entry.subscriberCount >= options.perOperation || subscribers >= options.maxSubscribers {
        return Full;
      }
      return Subscribed;
    }

    method AttachSubscriber(entry: OperationEntry, s: nat, after: nat, stopWins: bool)
      requires Valid() && Known(entry)
      requires Inv(options, entry.View()) && s !in entry.subscriptions && after <= |entry.events|
      modifies `subscribers, entry
      ensures Valid()
      ensures State() == old(State()).(
                       entries := old(Views())[
                           entry.handle := OperationEntries.Subscribe(options, old(entry.View()), s, after, stopWins)],
                       subscribers := old(subscribers) + 1)
      ensures entry.events == old(entry.events) && entry.terminal == old(entry.terminal)
      ensures entry.subscriptions ==
                old(entry.subscriptions)[s := Attached(options, entry.events, after, entry.terminal)]
    {
      hide OperationEntries.Subscribe, Inv, Attached;
      SubscribeInv(options, entry.View(), s, after, stopWins);
      entry.AttachLocked(options, s, after, stopWins);
      subscribers := subscribers + 1;
      assert Views() == old(Views())[entry.handle := entry.View()];
    }

    lemma NumberedFromOne(k: nat)
      requires Valid() && HubInv(State()) && k < |all|
      ensures var log := all[k].events;
              |log| > 0 ==> log[0].event.sequence == 1 && log[|log| - 1].event.sequence == |log| < TWO_TO_THE_64 - 1
    {
      hide SubsInv, TimerInv, PromptInv;
      assert Inv(options, Views()[k]);
      if |all[k].events| > 0 {
        assert NumberedAt(all[k].id, all[k].events, 0);
        assert NumberedAt(all[k].id, all[k].events, |all[k].events| - 1);
      }
    }

    // OperationSubscription.Close, which runs at most once.
    method RemoveSubscriber(entry: OperationEntry, s: nat)
      requires Valid() && Known(entry) && HubInv(State()) && Enabled(entry.View(), Unsubscribing(s))
      modifies `subscribers, entry
      ensures Valid() && Next(old(State()), Stepping(entry.handle, Unsubscribing(s), 0, false), State())
      ensures subscribers == old(subscribers) - 1 && entry.subscriberCount == old(entry.subscriberCount) - 1
      ensures DetachedAlone(old(entry.subscriptions), s, entry.subscriptions)
      ensures !entry.terminal && !AnyAttached(entry.subscriptions) ==> entry.lossTimer.Some?
    {
      hide HubInv, AnyAttached, Inv, Unsubscribe, Pruned, CapPruned, Next;
      EntryInv(entry.handle);
      ghost var before := State();
      DetachSubscriber(entry, s);
      subscribers := subscribers - 1;
      assert Views() == old(Views())[entry.handle := entry.View()];
      ClosedIsAction(before, entry.handle, s, State());
    }

    method DetachSubscriber(entry: OperationEntry, s: nat)
      requires options.Valid() && Inv(options, entry.View()) && Enabled(entry.View(), Unsubscribing(s))
      modifies entry
      ensures entry.View() == Unsubscribe(old(entry.View()), s) && entry.terminal == old(entry.terminal)
      ensures entry.subscriberCount == old(entry.subscriberCount) - 1
      ensures DetachedAlone(old(entry.subscriptions), s, entry.subscriptions)
      ensures !entry.terminal && !AnyAttached(entry.subscriptions) ==> entry.lossTimer.Some?
    {
      hide AnyAttached, Inv;
      UnsubscribeExactly(options, entry.View(), s);
      entry.RemoveSubscriberLocked(s);
    }

    // The callback of a loss timer.
    method LossTimerFired(entry: OperationEntry, token: nat)
      requires Valid() && Known(entry) && HubInv(State()) && token in entry.callbacks
      modifies entry
      ensures Valid() && Next(old(State()), Stepping(entry.handle, Firing(token), 0, false), State())
      ensures entry.cancelled <==>
        || old(entry.cancelled)
        || (token == entry.lossTimerToken && !entry.terminal && !AnyAttached(entry.subscriptions)
            && entry.id in operations && operations[entry.id] == entry)
      ensures token == entry.lossTimerToken ==> entry.lossTimer.None?
    {
      hide HubInv, AnyAttached, Next, Views, Ops, State, CapPruned, Reachable, FireLossTimer;
      ghost var before, e := State(), entry.View();
      var retained := entry.id in operations && operations[entry.id] == entry;
      Lost(entry);
      FireExactly(e, token, retained);
      entry.LossTimerFiredLocked(token, retained);
      OneChanged(entry);
      TouchIsAction(before, entry.handle, Firing(token), 0, false, State());
    }

    // ----- draining -----

    method DrainEntryLocked(entry: OperationEntry, now: int, stopWins: bool)
      requires Valid() && Known(entry) && !entry.terminal
      modifies `operations, entry
      ensures entry.View() == DrainCancel(options, old(entry.View()), now, stopWins)
      ensures Touched(entry) && entry.terminal && entry.worker == old(entry.worker)
    {
      hide Append, MarkTerminal, CapPruned;
      var d := DrainDraft(entry.id, |entry.events| + 1);
      var _ := AppendLocked(entry, d, now, stopWins);
      EndLocked(entry, now, stopWins, old(Ops()));
    }

    // The map is iterated while pruning deletes from it: an operation deleted
    // before it is reached is never produced.
    method CancelActiveForDrain(nows: seq<int>, stops: seq<bool>)
      requires Valid() && HubInv(State())
      requires |nows| == |stops| == |all|
      modifies `operations, operations.Values
      ensures Valid() && Next(old(State()), CancellingForDrain(nows, stops), State())
      ensures forall id | id in old(operations) :: old(operations)[id].terminal
    {
      hide HubInv, CapPruned, DrainCancel, DrainingInv, DrainNext, Next, Views, Ops;
      ghost var h := State();
      var visited: set<string> := {};
      DrainingStart(h, nows, stops);
      while operations.Keys - visited != {}
        invariant Valid() && all == old(all)
        invariant forall id | id in operations :: id in old(operations) && operations[id] == old(operations)[id]
        invariant visited <= old(operations).Keys
        invariant DrainingInv(h, Views(), Ops(), visited, nows, stops)
        decreases old(operations).Keys - visited
      {
        var id :| id in operations && id !in visited;
        CancelOneForDrain(operations[id], h, visited, nows, stops);
        visited := visited + {id};
      }
      AllVisited(visited);
      DrainingDone(h, State(), visited, nows, stops);
      AllEnded(h, CancellingForDrain(nows, stops), State());
      forall id | id in old(operations) ensures old(operations)[id].terminal {
        assert Views()[old(operations)[id].handle] == all[old(operations)[id].handle].View();
      }
    }

    lemma AllVisited(visited: set<string>)
      requires operations.Keys - visited == {}
      ensures Ops().Keys <= visited
    {
      forall id | id in Ops() ensures id in visited {
        assert id !in operations.Keys - visited;
      }
    }

    method CancelOneForDrain(
      entry: OperationEntry, ghost h: Hub, ghost visited: set<string>, nows: seq<int>, stops: seq<bool>)
      requires Valid() && Known(entry) && entry.id in operations && operations[entry.id] == entry
      requires entry.id !in visited
      requires DrainingInv(h, Views(), Ops(), visited, nows, stops) && h.options == options
      requires |nows| == |stops| == |all|
      modifies `operations, entry
      ensures Valid() && forall id | id in operations :: id in old(operations) && operations[id] == old(operations)[id]
      ensures DrainingInv(h, Views(), Ops(), visited + {entry.id}, nows, stops)
    {
      hide CapPruned, DrainCancel, DrainingInv;
      var k := entry.handle;
      if entry.terminal {
        DrainedStays(options, entry.View(), nows[k], stops[k]);
        assert Views() == Views()[k := Views()[k]];
      } else {
        DrainingActive(h, Views(), Ops(), visited, nows, stops, k);
        DrainEntryLocked(entry, nows[k], stops[k]);
        CapPrunedSubmap(options, Views(), old(Ops()), Ops());
        forall id | id in operations ensures id in old(operations) && operations[id] == old(operations)[id] {
          assert id in Ops() && Ops()[id] == old(Ops())[id];
        }
      }
      DrainingStep(h, old(Views()), old(Ops()), visited, nows, stops, entry.id, Views(), Ops());
    }
  }

  // Draining part of the map: the visited operations have been ended.
  ghost predicate DrainingInv(
    h: Hub, entries: seq<Entry>, ops: map<string, nat>, visited: set<string>, nows: seq<int>, stops: seq<bool>)
  {
    && |entries| == |h.entries| == |nows| == |stops|
    && (forall k: nat | k < |entries| ::
          && entries[k].id == h.entries[k].id && entries[k].WorkerActive() == h.entries[k].WorkerActive()
          && (entries[k].terminal || entries[k].WorkerActive())
          && entries[k] ==
              if h.entries[k].id in visited && h.Retains(k) then DrainCancel(h.options, h.entries[k], nows[k], stops[k])
                           else h.entries[k])
    && (forall id | id in ops :: id in h.operations && ops[id] == h.operations[id])
    && (if exists k: nat :: k < |h.entries| && EndedBy(h, visited, k) then
          CapPruned(h.options, entries, h.operations, ops)
        else ops == h.operations)
  }

  // The drain has ended this entry.
  predicate EndedBy(h: Hub, visited: set<string>, k: nat)
    requires k < |h.entries|
  {
    h.Retains(k) && h.entries[k].id in visited && !h.entries[k].terminal
  }

  lemma DrainingStart(h: Hub, nows: seq<int>, stops: seq<bool>)
    requires HubInv(h) && |h.entries| == |nows| == |stops|
    ensures DrainingInv(h, h.entries, h.operations, {}, nows, stops)
  {
  }

  lemma DrainingActive(
    h: Hub, entries: seq<Entry>, ops: map<string, nat>, visited: set<string>, nows: seq<int>, stops: seq<bool>,
    k: nat)
    requires DrainingInv(h, entries, ops, visited, nows, stops) && k < |entries|
    ensures entries[k].terminal || entries[k].WorkerActive()
  {
  }

  lemma DrainingStep(
    h: Hub, entries: seq<Entry>, ops: map<string, nat>, visited: set<string>, nows: seq<int>, stops: seq<bool>,
    id: string, entries': seq<Entry>, ops': map<string, nat>)
    requires DrainingInv(h, entries, ops, visited, nows, stops)
    requires id in ops && id !in visited && ops[id] < |entries| && entries[ops[id]].id == id
    requires var k := ops[id];
             && |entries'| == |entries|
             && entries' == entries[k := entries'[k]]
             && entries'[k] == DrainCancel(h.options, entries[k], nows[k], stops[k])
             && entries'[k].id == id && entries'[k].WorkerActive() == entries[k].WorkerActive()
             && (if entries[k].terminal then ops' == ops && entries'[k] == entries[k]
                 else entries'[k].terminal && entries[k].WorkerActive() && CapPruned(h.options, entries', ops, ops'))
    ensures DrainingInv(h, entries', ops', visited + {id}, nows, stops)
  {
    hide DrainCancel, CapPruned;
    var k := ops[id];
    forall j: nat | j < |entries'|
      ensures && entries'[j].id == h.entries[j].id && entries'[j].WorkerActive() == h.entries[j].WorkerActive()
              && (entries'[j].terminal || entries'[j].WorkerActive())
              && entries'[j] ==
                  if h.entries[j].id in visited + {id} && h.Retains(j)
                  then DrainCancel(h.options, h.entries[j], nows[j], stops[j])
                                else h.entries[j]
    {
      if j != k {
        assert entries'[j] == entries[j];
      }
    }
    forall j: nat | j < |h.entries|
      ensures EndedBy(h, visited + {id}, j) <==> EndedBy(h, visited, j) || (j == k && !entries[k].terminal)
    {
    }
    if entries[k].terminal {
      assert entries' == entries;
    } else {
      assert EndedBy(h, visited + {id}, k);
      CapPrunedTwice(h.options, entries, entries', k, h.operations, ops, ops');
      CapPrunedSubmap(h.options, entries', ops, ops');
    }
  }

  lemma DrainingDone(h: Hub, h': Hub, visited: set<string>, nows: seq<int>, stops: seq<bool>)
    requires HubInv(h) && DrainingInv(h, h'.entries, h'.operations, visited, nows, stops)
    requires h'.operations.Keys <= visited && h' == h.(entries := h'.entries, operations := h'.operations)
    ensures Next(h, CancellingForDrain(nows, stops), h')
  {
    hide DrainCancel, HubInv;
    forall k: nat | k < |h.entries|
      ensures h'.entries[k] == if h.Retains(k) then DrainCancel(h.options, h.entries[k], nows[k], stops[k])
          else h.entries[k]
      ensures EndedBy(h, visited, k) <==> h.Retains(k) && !h.entries[k].terminal
    {
      if h.Retains(k) && h.entries[k].id !in visited {
        assert h.entries[k].id !in h'.operations;
        assert Prunable(h'.entries, h.operations[h.entries[k].id]);
        DrainedStays(h.options, h.entries[k], nows[k], stops[k]);
      }
    }
  }

  lemma AllEnded(h: Hub, a: Action, h': Hub)
    requires HubInv(h) && a.CancellingForDrain? && Next(h, a, h')
    ensures forall k: nat | k < |h'.entries| :: h'.entries[k].terminal
  {
    hide HubInv, DrainNext;
    DrainNextInv(h, a, h');
  }

  lemma CapPrunedSubmap(o: Options, es: seq<Entry>, ops: map<string, nat>, ops': map<string, nat>)
    requires CapPruned(o, es, ops, ops')
    ensures forall id | id in ops' :: id in ops && ops'[id] == ops[id]
  {
  }

  lemma DrainedStays(o: Options, e: Entry, now: int, stopWins: bool)
    requires e.terminal
    ensures DrainCancel(o, e, now, stopWins) == e
  {
  }

  // Pruning again after one more operation has ended, with its worker active.
  lemma CapPrunedTwice(o: Options, es: seq<Entry>, fs: seq<Entry>, k: nat,
                       ops: map<string, nat>, mid: map<string, nat>, ops': map<string, nat>)
    requires |es| == |fs| && k < |es| && fs == es[k := fs[k]] && fs[k].WorkerActive() && fs[k].terminal
    requires es[k].WorkerActive()
    requires ops == mid || CapPruned(o, es, ops, mid)
    requires CapPruned(o, fs, mid, ops')
    ensures CapPruned(o, fs, ops, ops')
  {
    assert forall j: nat :: Prunable(es, j) == Prunable(fs, j);
    FewerOf(Completed(es, ops'), Completed(fs, ops'));
  }

  lemma RespondedStays(e: Entry, r: Response)
    requires e.prompt.Some? ==> e.prompt.value < |e.prompts|
    ensures OperationEntries.Respond(e, r).0.terminal == e.terminal
  {
  }

  // A region that changed one entry and nothing that subscriptions or workers
  // count.
  lemma TouchIsAction(h: Hub, k: nat, step: Step, now: int, stopWins: bool, h': Hub)
    requires h.options.Valid() && k < |h.entries| && Admitted(h, k, step)
    requires !step.Subscribing? && !step.Unsubscribing? && !step.Exiting?
    requires var e := Apply(h.options, h.entries[k], step, now, stopWins, h.Retains(k));
      && h' == h.(entries := h.entries[k := e], operations := h'.operations)
      && if !h.entries[k].terminal && e.terminal then CapPruned(h.options, h'.entries, h.operations, h'.operations)
         else h'.operations == h.operations
    ensures Next(h, Stepping(k, step, now, stopWins), h')
  {
    hide Apply, CapPruned;
  }

  lemma PruningIsAction(h: Hub, now: int, h': Hub)
    requires h.options.Valid() && Pruned(h.options, h.entries, h.operations, now, h'.operations)
    requires h' == h.(operations := h'.operations)
    ensures Next(h, Pruning(now), h')
  {
  }

  lemma StartedIsAction(
    h: Hub, id: string, digest: string, release: Option<nat>, now: int, ops: map<string, nat>, h': Hub)
    requires h.options.Valid() && !h.draining && h.active < h.options.maxActive && id !in ops
    requires Pruned(h.options, h.entries, h.operations, now, ops)
    requires h' == h.(operations := ops[id := |h.entries|],
                      entries := h.entries + [ScheduleLoss(NewEntry(id, digest, release)).(cancelled := h.contextDone)],
                      active := h.active + 1)
    ensures Next(h, Starting(id, digest, release, now), h')
  {
  }

  lemma SubscribedIsAction(h: Hub, k: nat, s: nat, after: nat, now: int, stopWins: bool, h': Hub)
    requires h.options.Valid() && k < |h.entries| && h.Retains(k)
    requires s !in h.entries[k].subscriptions && after <= |h.entries[k].events|
    requires h.entries[k].subscriberCount < h.options.perOperation && h.subscribers < h.options.maxSubscribers
    requires Pruned(h.options, h.entries, h.operations, now, h'.operations) && h.entries[k].id in h'.operations
    requires h' == h.(operations := h'.operations,
                      entries := h.entries[k := Subscribe(h.options, h.entries[k], s, after, stopWins)],
                      subscribers := h.subscribers + 1)
    ensures Next(h, Stepping(k, Subscribing(s, after), now, stopWins), h')
  {
  }

  lemma ClosedIsAction(h: Hub, k: nat, s: nat, h': Hub)
    requires h.options.Valid() && k < |h.entries| && Enabled(h.entries[k], Unsubscribing(s))
    requires Unsubscribe(h.entries[k], s).terminal == h.entries[k].terminal
    requires h' == h.(entries := h.entries[k := Unsubscribe(h.entries[k], s)], subscribers := h.subscribers - 1)
    ensures Next(h, Stepping(k, Unsubscribing(s), 0, false), h')
  {
    hide Unsubscribe;
  }

  // Pruning looks at nothing but how entries ended.
  lemma CapPrunedDepends(o: Options, es: seq<Entry>, fs: seq<Entry>, ops: map<string, nat>, ops': map<string, nat>)
    requires |es| == |fs| && CapPruned(o, es, ops, ops')
    requires forall k: nat | k < |es| ::
               es[k].terminal == fs[k].terminal && es[k].WorkerActive() == fs[k].WorkerActive()
                   && es[k].completedAt == fs[k].completedAt
    ensures CapPruned(o, fs, ops, ops')
  {
    assert forall k: nat :: Prunable(es, k) == Prunable(fs, k);
    assert Completed(es, ops') == Completed(fs, ops');
  }
}
