/** One kwt process at work among the others: the operations of worktree/lock.go,
    reservation.go and warm.go, system call by system call, while every other
    process, native Git and crashes act in between. */
module WorktreeMachine {
  import opened Wrappers
  import opened WorktreeProtocol
  import opened WorktreeInvariant
  import opened WorktreeRuns

  // What the others do before the n-th system call of an operation.
  type Schedule = nat -> seq<Step>

  // Where an operation can fail for a reason of its own.
  datatype Fault =
    | NoFault | RecordNotWritten | WorktreeNotAdded | RecordNotRemoved | IdentityNotWritten
    | StaleRecordKept | SpareNotAdded | MarkerNotWritten | ResetFailed | ReadyNotWritten | CheckoutNotMoved

  ghost predicate Silent(env: Schedule) {
    forall n :: env(n) == []
  }

  ghost predicate AllSilent(env: nat -> Schedule) {
    forall m :: Silent(env(m))
  }

  // Everything processes share.
  datatype Shared = Shared(
    repo: Option<Pid>, creation: Option<Pid>, pools: map<Path, Pid>, record: Option<Path>,
    regs: map<Path, Registration>, nextId: nat)

  function SharedOf(s: State): Shared {
    Shared(s.repo, s.creation, s.pools, s.record, s.regs, s.nextId)
  }

  datatype Prepared = Published | NothingToDo | NotPrepared

  // Nobody interferes, nothing fails, and the locks every operation takes are free.
  ghost predicate Quiet(env: nat -> Schedule, patience: nat, fault: Fault, s: State) {
    AllSilent(env) && patience > 0 && fault.NoFault? && s.repo.None? && s.creation.None?
  }

  // An interrupted preparation to take up again.
  predicate Adoptable(regs: map<Path, Registration>, path: Path) {
    path in regs && regs[path].present && SpareState(regs[path]) == Some(Preparing) && !regs[path].lock.ForeignLock?
  }

  // What keeps a preparation from using its path.
  function SpareRefused(regs: map<Path, Registration>, path: Path): Option<Prepared> {
    if path !in regs || Adoptable(regs, path) then None
    else if regs[path].present then
      Some(if SpareState(regs[path]) == Some(Preparing) then NotPrepared else NothingToDo)
    else if regs[path].lock.ForeignLock? || SpareState(regs[path]).None? then Some(NotPrepared)
    else None
  }

  // The spare a preparation works on: the interrupted one, or a new one.
  function FoundSpare(regs: map<Path, Registration>, path: Path, id: nat): Registration {
    if Adoptable(regs, path) then regs[path] else Fresh(id, SpareLock, true)
  }

  lemma FoundIsSpare(regs: map<Path, Registration>, path: Path, id: nat)
    ensures var r := FoundSpare(regs, path, id).(marker := Preparing, lock := SpareLock, clean := true, filled := true);
      SpareState(r) == Some(Preparing)
    ensures !FoundSpare(regs, path, id).lock.ForeignLock?
  {
  }

  // ----- the same on the fields of a registration -----

  // An unassigned detached checkout whose preparation was interrupted: marked so,
  // or unmarked under the spare's own lock.
  predicate Interrupted(r: Registration) {
    r.identity.None? && r.detached && (r.marker.Preparing? || (r.marker.Unmarked? && r.lock.SpareLock?))
  }

  predicate Finished(r: Registration) {
    r.identity.None? && r.detached && r.marker.Ready?
  }

  // What PrepareWarm answers when nobody interferes: it leaves every checkout
  // that is no interrupted spare alone, refuses an interrupted one under a foreign
  // lock and a missing one that is locked so or shows no sign of a spare.
  predicate AnswersRightly(regs: map<Path, Registration>, path: Path, result: Prepared) {
    && (result.NothingToDo? <==> path in regs && regs[path].present && !Interrupted(regs[path]))
    && (result.NotPrepared? <==>
          && path in regs
          && if regs[path].present then Interrupted(regs[path]) && regs[path].lock.ForeignLock?
             else regs[path].lock.ForeignLock? || !(Interrupted(regs[path]) || Finished(regs[path])))
  }

  // The ready spare it leaves: the interrupted registration, or a new one.
  function PublishedSpare(regs: map<Path, Registration>, path: Path, nextId: nat): Registration {
    Registration(if path in regs && regs[path].present then regs[path].id else nextId,
                 true, None, Ready, Unlocked, true, true, true)
  }

  lemma RefusedRightly(regs: map<Path, Registration>, path: Path)
    ensures SpareRefused(regs, path) != Some(Published)
    ensures AnswersRightly(regs, path,
      if SpareRefused(regs, path).Some? then SpareRefused(regs, path).value else Published)
  {
  }

  lemma PublishedFields(regs: map<Path, Registration>, path: Path, nextId: nat)
    requires SpareRefused(regs, path).None?
    ensures FoundSpare(regs, path, nextId).(marker := Ready, lock := Unlocked, clean := true, filled := true)
         == PublishedSpare(regs, path, nextId)
    ensures Adoptable(regs, path) <==> path in regs && regs[path].present
  {
  }

  lemma ClaimableRightly(regs: map<Path, Registration>, path: Path)
    ensures Claimable(regs, path) <==>
      path in regs && regs[path].present && Finished(regs[path]) && regs[path].lock.Unlocked? && regs[path].clean
  {
  }

  // What a claim asks of the spare.
  predicate Claimable(regs: map<Path, Registration>, path: Path) {
    path in regs && regs[path].present && SpareState(regs[path]) == Some(Ready) && regs[path].lock.Unlocked?
        && regs[path].clean
  }

  class Machine {
    const cfg: Config
    var s: State
    ghost var states: seq<State>
    ghost var steps: seq<Step>

    ghost predicate Valid()
      reads this
    {
      IsRun(cfg, states, steps) && s == states[|states| - 1]
    }

    constructor (cfg: Config, initial: State)
      requires Init(initial)
      ensures Valid() && this.cfg == cfg && s == initial && steps == []
    {
      this.cfg := cfg;
      s := initial;
      states := [initial];
      steps := [];
    }

    method Do(step: Step)
      requires Valid() && Enabled(cfg, s, step)
      modifies this
      ensures Valid() && s == Apply(cfg, old(s), step)
      ensures steps == old(steps) + [step]
    {
      ghost var before := states;
      s := Apply(cfg, s, step);
      Extends(cfg, states, steps, step);
      states := states + [s];
      steps := steps + [step];
    }

    // The steps of others that can be taken, in the order given.
    method Others(p: Pid, schedule: seq<Step>)
      requires Valid() && p < |s.actors| && !HasChild(s, p)
      modifies this
      ensures Valid() && |s.actors| == |old(s).actors| && !HasChild(s, p)
      ensures s.actors[p].phase == old(s).actors[p].phase && s.actors[p].task == old(s).actors[p].task
      ensures old(steps) <= steps && forall i | |old(steps)| <= i < |steps| :: Who(steps[i]) != Some(p)
      ensures schedule == [] ==> s == old(s)
    {
      hide IsRun, Enabled, Apply, HasChild;
      for n := 0 to |schedule|
        invariant Valid() && |s.actors| == |old(s).actors| && !HasChild(s, p)
        invariant s.actors[p].phase == old(s).actors[p].phase && s.actors[p].task == old(s).actors[p].task
        invariant old(steps) <= steps && forall i | |old(steps)| <= i < |steps| :: Who(steps[i]) != Some(p)
        invariant n == 0 ==> s == old(s)
      {
        if Who(schedule[n]) != Some(p) && Enabled(cfg, s, schedule[n]) {
          ghost var before := s;
          Do(schedule[n]);
          OthersLeave(cfg, before, schedule[n], p);
        }
      }
    }

    // A system call of p.
    method Act(p: Pid, step: Step)
      requires Valid() && Enabled(cfg, s, step) && Who(step) == Some(p) && p < |s.actors| && !HasChild(s, p)
      requires !step.Spawn? && !step.Crash?
      modifies this
      ensures Valid() && s == Apply(cfg, old(s), step) && !HasChild(s, p)
      ensures steps == old(steps) + [step] && old(steps) <= steps
    {
      OwnKeepsChildless(cfg, s, step, p);
      hide Enabled, Apply, IsRun, HasChild;
      Do(step);
    }

    // ----- lock.go -----

    // The scope's callback has returned.
    method LeaveScope(p: Pid)
      requires Valid() && p < |s.actors| && !HasChild(s, p) && s.actors[p].phase.In?
      requires s.actors[p].task.Reentrant? ==>
        !s.actors[p].task.reentrant.Locked? && !s.actors[p].task.reentrant.Withdrawn?
      modifies this
      ensures Valid() && p < |s.actors| && !HasChild(s, p)
      ensures steps == old(steps) + [Scoped(p, Leave)] && old(steps) <= steps
      ensures s.actors[p].phase.Out? && s.actors[p].task == AfterScope(old(s).actors[p].task)
      ensures SharedOf(s) == SharedOf(old(s)).(repo := None)
    {
      hide IsRun, HasChild;
      Act(p, Scoped(p, Leave));
    }

    // TryLockContext: tries until the lock is free or the context ends.
    method AcquireRepo(p: Pid, env: Schedule, patience: nat) returns (ok: bool)
      requires Valid() && p < |s.actors| && !HasChild(s, p) && s.actors[p].phase.Waiting?
      modifies this
      ensures Valid() && p < |s.actors| && !HasChild(s, p) && old(steps) <= steps
      ensures ok ==> s.actors[p].phase == In(NotLooked) && s.actors[p].task == old(s).actors[p].task
      ensures !ok ==> s.actors[p].phase == Out && s.actors[p].task == AfterScope(old(s).actors[p].task)
      ensures Silent(env) && patience > 0 && old(s).repo.None? ==>
        ok && SharedOf(s) == SharedOf(old(s)).(repo := Some(p))
    {
      hide IsRun, HasChild;
      for n := 0 to patience
        invariant Valid() && p < |s.actors| && !HasChild(s, p) && old(steps) <= steps
        invariant s.actors[p].phase.Waiting? && s.actors[p].task == old(s).actors[p].task
        invariant Silent(env) ==> SharedOf(s) == SharedOf(old(s)) && (n > 0 ==> s.repo.Some?)
      {
        Others(p, env(n));
        if s.repo.None? {
          Act(p, Scoped(p, Acquire));
          return true;
        }
      }
      Act(p, Scoped(p, GiveUp));
      return false;
    }

    /** activeCreation, inside a scope: what was seen is what later steps of the
        scope may rely on; an error leaves nothing seen. */
    method ActiveCreation(p: Pid, env: Schedule, fault: Fault) returns (seen: Seen)
      requires Valid() && p < |s.actors| && !HasChild(s, p) && s.actors[p].phase.In? && Looks(s.actors[p].task)
      modifies this
      ensures Valid() && p < |s.actors| && !HasChild(s, p) && old(steps) <= steps
      ensures s.actors[p].phase == In(seen) && s.actors[p].task == old(s).actors[p].task
      ensures seen.SawNone? ==> NobodyReserves(s)
      ensures Silent(env) && old(s).creation.None? && !fault.StaleRecordKept? ==>
        seen.SawNone? && SharedOf(s) == SharedOf(old(s)).(record := None)
      ensures Silent(env) && old(s).creation.None? && fault.StaleRecordKept? ==>
        seen.NotLooked? && SharedOf(s) == SharedOf(old(s))
      ensures Silent(env) && old(s).creation.Some? ==>
        && seen == (if old(s).record.Some? then SawPath(old(s).record.value) else NotLooked)
        && SharedOf(s) == SharedOf(old(s))
    {
      hide IsRun, HasChild, ClaimApply, ReserveApply, PrepareApply, NativeApply, CrashApply;
      hide ClaimEnabled, ReserveEnabled, PrepareEnabled, NativeEnabled, NobodyReserves;
      Others(p, env(0));
      Act(p, Scoped(p, Probe));
      seen := AnswerProbe(p, env(1), fault);
      if seen.SawNone? {
        RunLength(cfg, states, steps);
        NoneMeansNone(cfg, states, steps, |states| - 1, p);
      }
    }

    // activeCreation after its try: removes a stale record, or reads a live one.
    method AnswerProbe(p: Pid, schedule: seq<Step>, fault: Fault) returns (seen: Seen)
      requires Valid() && p < |s.actors| && !HasChild(s, p)
      requires s.actors[p].phase.Probing? || s.actors[p].phase.Reading?
      modifies this
      ensures Valid() && p < |s.actors| && !HasChild(s, p) && old(steps) <= steps
      ensures s.actors[p].phase == In(seen) && s.actors[p].task == old(s).actors[p].task
      ensures schedule == [] && old(s).actors[p].phase.Probing? && !fault.StaleRecordKept? ==>
        seen.SawNone? && SharedOf(s) == SharedOf(old(s)).(record := None, creation := None)
      ensures schedule == [] && old(s).actors[p].phase.Probing? && fault.StaleRecordKept? ==>
        seen.NotLooked? && SharedOf(s) == SharedOf(old(s)).(creation := None)
      ensures schedule == [] && old(s).actors[p].phase.Reading? ==>
        && seen == (if old(s).record.Some? then SawPath(old(s).record.value) else NotLooked)
        && SharedOf(s) == SharedOf(old(s))
    {
      hide IsRun, HasChild, ClaimApply, ReserveApply, PrepareApply, NativeApply, CrashApply;
      hide ClaimEnabled, ReserveEnabled, PrepareEnabled, NativeEnabled, NobodyReserves;
      Others(p, schedule);
      if s.actors[p].phase.Probing? && fault.StaleRecordKept? {
        Act(p, Scoped(p, ClearFails));
      } else if s.actors[p].phase.Probing? {
        Act(p, Scoped(p, ClearProbe));
      } else {
        Act(p, Scoped(p, ReadRecord));
      }
      seen := s.actors[p].phase.seen;
    }

    // A process between operations holds nothing and waits for nothing.
    predicate AtRest(p: Pid)
      reads this
    {
      p < |s.actors| && !HasChild(s, p) && s.actors[p].phase.Out? && s.actors[p].task.NoTask?
    }

    // The configuration lets descendants of a reset prepare spares, or p is none.
    predicate MayPrepare(p: Pid)
      reads this
    {
      p < |s.actors| && (s.actors[p].underReset ==> cfg.resetHooksPrepare)
    }

    // ----- reservation.go -----

    // creationReservation.release: the lock goes even when the record does not.
    method Release(p: Pid, env: Schedule, fault: Fault)
      requires Valid() && p < |s.actors| && !HasChild(s, p) && s.actors[p].task.Reentrant?
      requires s.actors[p].phase.Out? || s.actors[p].phase.In?
      requires s.actors[p].task.reentrant.Made? || (s.actors[p].task.reentrant.Recorded? && s.actors[p].phase.Out?)
      modifies this
      ensures Valid() && p < |s.actors| && !HasChild(s, p) && old(steps) <= steps
      ensures s.actors[p].phase == old(s).actors[p].phase
      ensures old(s).actors[p].phase.Out? ==> s.actors[p].task.NoTask?
      ensures old(s).actors[p].phase.In? && fault.RecordNotRemoved? ==> s.actors[p].task.Plain?
      ensures old(s).actors[p].phase.In? && !fault.RecordNotRemoved? ==>
        s.actors[p].task == Reentrant(old(s).actors[p].task.path, Released(old(s).actors[p].task.reentrant.id))
      ensures Silent(env) ==>
        SharedOf(s) ==
            SharedOf(old(s)).(creation := None, record := if fault.RecordNotRemoved? then old(s).record else None)
    {
      hide IsRun, HasChild, ScopeApply, ClaimApply, PrepareApply, ScopeEnabled, ClaimEnabled, PrepareEnabled;
      hide NativeApply;
      Others(p, env(0));
      if fault.RecordNotRemoved? {
        Act(p, Reserving(p, RemoveFails));
      } else {
        Act(p, Reserving(p, RemoveRecord));
      }
      Unlock(p, env(1));
    }

    method Unlock(p: Pid, schedule: seq<Step>)
      requires Valid() && p < |s.actors| && !HasChild(s, p)
      requires s.actors[p].task.Reentrant? && s.actors[p].task.reentrant.Withdrawn?
      modifies this
      ensures Valid() && p < |s.actors| && !HasChild(s, p) && old(steps) <= steps
      ensures s.actors[p].phase == old(s).actors[p].phase
      ensures var path, made := old(s).actors[p].task.path, old(s).actors[p].task.reentrant.made;
        s.actors[p].task ==
          if !s.actors[p].phase.In? then NoTask else if made.Some? then Reentrant(path, Released(made.value)) else Plain
      ensures schedule == [] ==> SharedOf(s) == SharedOf(old(s)).(creation := None)
    {
      hide IsRun, HasChild, ScopeApply, ClaimApply, PrepareApply, ScopeEnabled, ClaimEnabled, PrepareEnabled;
      hide NativeApply, SpareState, Fresh;
      Others(p, schedule);
      Act(p, Reserving(p, UnlockCreation));
    }

    // The scope in which a re-entrant creation reserves its path.
    method Reserve(p: Pid, path: Path, env: Schedule, patience: nat, fault: Fault) returns (ok: bool)
      requires Valid() && AtRest(p)
      modifies this
      ensures Valid() && p < |s.actors| && !HasChild(s, p) && s.actors[p].phase.Out? && old(steps) <= steps
      ensures s.actors[p].task == if ok then Reentrant(path, Recorded) else NoTask
      ensures Silent(env) && patience > 0 && old(s).repo.None? && old(s).creation.None? && !fault.RecordNotWritten? ==>
        ok && SharedOf(s) == SharedOf(old(s)).(creation := Some(p), record := Some(path))
      ensures Silent(env) && patience > 0 && old(s).repo.None? && old(s).creation.Some? ==>
        !ok && SharedOf(s) == SharedOf(old(s))
    {
      hide IsRun, HasChild, ScopeApply, ClaimApply, PrepareApply, ScopeEnabled, ClaimEnabled, PrepareEnabled;
      hide NativeApply;
      Act(p, Reserving(p, Ask(path)));
      ok := AcquireRepo(p, env, patience);
      if !ok {
        return;
      }
      ok := RecordPath(p, path, (n: nat) => env(patience + n), fault);
    }

    // Scope.reserve and the end of its scope.
    method RecordPath(p: Pid, path: Path, env: Schedule, fault: Fault) returns (ok: bool)
      requires Valid() && p < |s.actors| && !HasChild(s, p)
      requires s.actors[p].phase == In(NotLooked) && s.actors[p].task == Reentrant(path, Asked)
      modifies this
      ensures Valid() && p < |s.actors| && !HasChild(s, p) && s.actors[p].phase.Out? && old(steps) <= steps
      ensures s.actors[p].task == if ok then Reentrant(path, Recorded) else NoTask
      ensures Silent(env) && old(s).creation.None? && !fault.RecordNotWritten? ==>
        ok && SharedOf(s) == SharedOf(old(s)).(repo := None, creation := Some(p), record := Some(path))
      ensures Silent(env) && old(s).creation.Some? ==> !ok && SharedOf(s) == SharedOf(old(s)).(repo := None)
    {
      hide IsRun, HasChild, ScopeApply, ClaimApply, PrepareApply, ScopeEnabled, ClaimEnabled, PrepareEnabled;
      hide NativeApply, SpareState, Fresh;
      Others(p, env(0));
      if s.creation.Some? {
        LeaveScope(p);
        return false;
      }
      Act(p, Reserving(p, TakeCreation));
      ok := WriteRecordFile(p, path, (n: nat) => env(n + 1), fault);
    }

    method WriteRecordFile(p: Pid, path: Path, env: Schedule, fault: Fault) returns (ok: bool)
      requires Valid() && p < |s.actors| && !HasChild(s, p)
      requires s.actors[p].phase == In(NotLooked) && s.actors[p].task == Reentrant(path, Locked)
      modifies this
      ensures Valid() && p < |s.actors| && !HasChild(s, p) && s.actors[p].phase.Out? && old(steps) <= steps
      ensures s.actors[p].task == if ok then Reentrant(path, Recorded) else NoTask
      ensures Silent(env) && !fault.RecordNotWritten? ==>
        ok && SharedOf(s) == SharedOf(old(s)).(repo := None, record := Some(path))
    {
      hide IsRun, HasChild, ScopeApply, ClaimApply, PrepareApply, ScopeEnabled, ClaimEnabled, PrepareEnabled;
      hide NativeApply;
      hide SpareState, Fresh;
      Others(p, env(0));
      if fault.RecordNotWritten? {
        Act(p, Reserving(p, WriteFails));
        LeaveScope(p);
        return false;
      }
      Act(p, Reserving(p, WriteRecord));
      Others(p, env(1));
      LeaveScope(p);
      return true;
    }

    // EnsureIdentity at the end of a re-entrant creation, in its second scope.
    method Finalize(p: Pid, env: Schedule, fault: Fault) returns (ok: bool)
      requires Valid() && p < |s.actors| && !HasChild(s, p)
      requires s.actors[p].phase.In? && s.actors[p].task.Reentrant? && s.actors[p].task.reentrant.Released?
      modifies this
      ensures Valid() && AtRest(p) && old(steps) <= steps
      ensures ok ==> IdentifiedSince(p, |old(steps)|)
      ensures var path := old(s).actors[p].task.path;
        Silent(env) && old(s).creation.None? && path in old(s).regs && !fault.IdentityNotWritten?
        && !fault.StaleRecordKept? ==>
          ok && SharedOf(s) == SharedOf(old(s)).(
            repo := None, record := None, regs := old(s).regs[path := Identified(old(s).regs[path], p)])
    {
      hide IsRun, HasChild, ScopeApply, ClaimApply, PrepareApply, ScopeEnabled, ClaimEnabled, PrepareEnabled;
      hide NativeApply;
      var seen := ActiveCreation(p, env, fault);
      Others(p, env(2));
      if !seen.SawNone? || s.actors[p].task.path !in s.regs || fault.IdentityNotWritten? {
        LeaveScope(p);
        return false;
      }
      ghost var at := |steps|;
      Act(p, Reserving(p, IdentifyOwn));
      Others(p, env(3));
      LeaveScope(p);
      assert steps[at] == Reserving(p, IdentifyOwn);
      return true;
    }

    ghost predicate IdentifiedSince(p: Pid, from: nat)
      reads this
    {
      exists i :: from <= i < |steps| && steps[i] == Reserving(p, IdentifyOwn)
    }

    /** createReentrant: success means that this process wrote the identity, under
        a reservation it has given back; in every case it ends holding nothing.
        Left alone it succeeds, and all that remains is the identified checkout. */
    method CreateReentrant(
      p: Pid, path: Path, detached: bool, env: nat -> Schedule, patience: nat, fault: Fault) returns (ok: bool)
      requires Valid() && AtRest(p)
      modifies this
      ensures Valid() && AtRest(p) && old(steps) <= steps
      ensures ok ==> IdentifiedSince(p, |old(steps)|)
      ensures AllSilent(env) && patience > 0 && fault.NoFault? && old(s).repo.None? && old(s).creation.None?
              && path !in old(s).regs ==>
        && ok
        && SharedOf(s) == SharedOf(old(s)).(
             record := None, nextId := old(s).nextId + 1,
             regs := old(s).regs[path := Fresh(old(s).nextId, Unlocked, detached).(identity := Some(p))])
      ensures AllSilent(env) && patience > 0 && old(s).repo.None? && old(s).creation.Some? ==>
        !ok && SharedOf(s) == SharedOf(old(s))
      ensures AllSilent(env) && patience > 0 && fault.NoFault? && old(s).repo.None? && old(s).creation.None?
              && path in old(s).regs ==>
        !ok && SharedOf(s) == SharedOf(old(s)).(record := None)
    {
      hide IsRun, HasChild, ScopeApply, ClaimApply, PrepareApply, ScopeEnabled, ClaimEnabled, PrepareEnabled;
      hide NativeApply;
      ok := Reserve(p, path, env(0), patience, fault);
      if !ok {
        return;
      }
      ok := AddWorktree(p, detached, env(1), fault);
      if !ok {
        Release(p, env(2), fault);
        return;
      }
      ok := AcquireRepo(p, env(3), patience);
      if !ok {
        Release(p, env(2), fault);
        return;
      }
      Release(p, env(2), fault);
      if fault.RecordNotRemoved? {
        LeaveScope(p);
        return false;
      }
      ok := Finalize(p, env(4), fault);
    }

    // git worktree add outside the scope, and asking for the second one.
    method AddWorktree(p: Pid, detached: bool, env: Schedule, fault: Fault) returns (ok: bool)
      requires Valid() && p < |s.actors| && !HasChild(s, p)
      requires s.actors[p].phase.Out? && s.actors[p].task.Reentrant? && s.actors[p].task.reentrant.Recorded?
      modifies this
      ensures Valid() && p < |s.actors| && !HasChild(s, p) && old(steps) <= steps
      ensures !ok ==> s.actors[p].phase.Out? && s.actors[p].task == old(s).actors[p].task
      ensures ok ==> s.actors[p].phase.Waiting? && s.actors[p].task.Reentrant? && s.actors[p].task.reentrant.Made?
      ensures ok ==> s.actors[p].task.path == old(s).actors[p].task.path
      ensures var path := old(s).actors[p].task.path;
        Silent(env) && !fault.WorktreeNotAdded? && path !in old(s).regs ==>
          ok && SharedOf(s) == SharedOf(old(s)).(
            nextId := old(s).nextId + 1, regs := old(s).regs[path := Fresh(old(s).nextId, Unlocked, detached)])
      ensures Silent(env) && old(s).actors[p].task.path in old(s).regs ==>
        !ok && SharedOf(s) == SharedOf(old(s))
    {
      hide IsRun, HasChild, ScopeApply, ClaimApply, PrepareApply, ScopeEnabled, ClaimEnabled, PrepareEnabled;
      hide NativeApply, SpareState, Fresh;
      ok := MakeWorktree(p, detached, env(0), fault);
      if ok {
        Others(p, env(1));
        Act(p, Reserving(p, Rejoin));
      }
    }

    method MakeWorktree(p: Pid, detached: bool, schedule: seq<Step>, fault: Fault) returns (ok: bool)
      requires Valid() && p < |s.actors| && !HasChild(s, p)
      requires s.actors[p].phase.Out? && s.actors[p].task.Reentrant? && s.actors[p].task.reentrant.Recorded?
      modifies this
      ensures Valid() && p < |s.actors| && !HasChild(s, p) && old(steps) <= steps && s.actors[p].phase.Out?
      ensures !ok ==> s.actors[p].task == old(s).actors[p].task
      ensures ok ==> s.actors[p].task.Reentrant? && s.actors[p].task.reentrant.Made?
      ensures ok ==> s.actors[p].task.path == old(s).actors[p].task.path
      ensures var path := old(s).actors[p].task.path;
        schedule == [] && !fault.WorktreeNotAdded? && path !in old(s).regs ==>
          ok && SharedOf(s) == SharedOf(old(s)).(
            nextId := old(s).nextId + 1, regs := old(s).regs[path := Fresh(old(s).nextId, Unlocked, detached)])
      ensures schedule == [] && old(s).actors[p].task.path in old(s).regs ==>
        !ok && SharedOf(s) == SharedOf(old(s))
    {
      hide IsRun, HasChild, ScopeApply, ClaimApply, PrepareApply, ScopeEnabled, ClaimEnabled, PrepareEnabled;
      hide NativeApply, SpareState, Fresh;
      Others(p, schedule);
      if fault.WorktreeNotAdded? || s.actors[p].task.path in s.regs {
        return false;
      }
      Act(p, Reserving(p, Make(detached)));
      return true;
    }

    // ----- warm.go: preparation -----

    predicate Prepares(p: Pid, path: Path)
      reads this
    {
      p < |s.actors| && !HasChild(s, p) && s.actors[p].task.Prepare? && s.actors[p].task.path == path
    }

    method TakePool(p: Pid, path: Path, env: Schedule, patience: nat) returns (ok: bool)
      requires Valid() && AtRest(p) && MayPrepare(p)
      modifies this
      ensures Valid() && old(steps) <= steps
      ensures ok ==> Prepares(p, path) && s.actors[p].task.prepare.HasPool? && s.actors[p].phase.Waiting?
      ensures !ok ==> AtRest(p)
      ensures Silent(env) && patience > 0 && cfg.poolOf(path) !in old(s).pools ==>
        ok && SharedOf(s) == SharedOf(old(s)).(pools := old(s).pools[cfg.poolOf(path) := p])
    {
      hide IsRun, HasChild, ScopeApply, ClaimApply, ReserveApply, ScopeEnabled, ClaimEnabled, ReserveEnabled;
      hide NativeApply, SpareState, Fresh;
      Act(p, Preparation(p, BeginPrepare(path)));
      for n := 0 to patience
        invariant Valid() && Prepares(p, path) && old(steps) <= steps
        invariant s.actors[p].task.prepare.WantsPool? && s.actors[p].phase.Out?
        invariant Silent(env) ==> SharedOf(s) == SharedOf(old(s)) && (n > 0 ==> cfg.poolOf(path) in s.pools)
      {
        Others(p, env(n));
        if cfg.poolOf(path) !in s.pools {
          Act(p, Preparation(p, PrepareAction.TakePool));
          return true;
        }
      }
      Act(p, Preparation(p, Stop));
      return false;
    }

    // Ends a preparation that holds the pool, inside a scope or not.
    method EndPrepare(p: Pid, path: Path)
      requires Valid() && Prepares(p, path)
      requires if s.actors[p].phase.In? then !s.actors[p].task.prepare.Filling?
               else s.actors[p].phase.Out? && s.actors[p].task.prepare.Ending?
      modifies this
      ensures Valid() && AtRest(p) && old(steps) <= steps
      ensures SharedOf(s) == SharedOf(old(s)).(
        repo := if old(s).actors[p].phase.In? then None else old(s).repo, pools := old(s).pools - {cfg.poolOf(path)})
    {
      hide IsRun, HasChild, ScopeApply, ClaimApply, ReserveApply, ScopeEnabled, ClaimEnabled, ReserveEnabled;
      hide NativeApply, SpareState, Fresh;
      if s.actors[p].phase.In? {
        LeaveScope(p);
      }
      Act(p, Preparation(p, End));
    }

    // Finds or registers the spare inside the first scope.
    method FindSpare(p: Pid, path: Path, env: Schedule, fault: Fault) returns (stop: Option<Prepared>)
      requires Valid() && Prepares(p, path)
      requires s.actors[p].phase == In(SawNone) && s.actors[p].task.prepare.HasPool?
      modifies this
      ensures Valid() && Prepares(p, path) && s.actors[p].phase == In(SawNone) && old(steps) <= steps
      ensures if stop.None? then s.actors[p].task.prepare.Registered? else s.actors[p].task.prepare.HasPool?
      ensures stop != Some(Published)
      ensures Silent(env) && !fault.SpareNotAdded? ==>
        && stop == SpareRefused(old(s).regs, path)
        && SharedOf(s) == SharedOf(old(s)).(
             regs := if stop.None? then old(s).regs[path := FoundSpare(old(s).regs, path, old(s).nextId)]
                 else old(s).regs,
             nextId := if stop.None? && !Adoptable(old(s).regs, path) then old(s).nextId + 1 else old(s).nextId)
        && (stop.None? ==> s.actors[p].task.prepare.id == s.regs[path].id)
    {
      hide IsRun, HasChild, ScopeApply, ClaimApply, ReserveApply, ScopeEnabled, ClaimEnabled, ReserveEnabled;
      hide NativeApply;
      Others(p, env(0));
      if path in s.regs && s.regs[path].present {
        if SpareState(s.regs[path]) != Some(Preparing) {
          return Some(NothingToDo);
        }
        if s.regs[path].lock.ForeignLock? {
          return Some(NotPrepared);
        }
        Act(p, Preparation(p, Adopt));
        return None;
      }
      if path in s.regs {
        if s.regs[path].lock.ForeignLock? || SpareState(s.regs[path]).None? {
          return Some(NotPrepared);
        }
        Act(p, Preparation(p, DropStale));
      }
      stop := AddSpare(p, path, env(1), fault);
    }

    // git worktree add for the spare, once nothing is registered at its path.
    method AddSpare(p: Pid, path: Path, schedule: seq<Step>, fault: Fault) returns (stop: Option<Prepared>)
      requires Valid() && Prepares(p, path)
      requires s.actors[p].phase == In(SawNone) && s.actors[p].task.prepare.HasPool?
      modifies this
      ensures Valid() && Prepares(p, path) && s.actors[p].phase == In(SawNone) && old(steps) <= steps
      ensures if stop.None? then s.actors[p].task.prepare.Registered? else s.actors[p].task.prepare.HasPool?
      ensures stop.None? || stop == Some(NotPrepared)
      ensures schedule == [] && !fault.SpareNotAdded? && path !in old(s).regs ==>
        && stop.None?
        && SharedOf(s) == SharedOf(old(s)).(
             regs := old(s).regs[path := Fresh(old(s).nextId, SpareLock, true)], nextId := old(s).nextId + 1)
        && s.actors[p].task.prepare.id == old(s).nextId
    {
      hide IsRun, HasChild, ScopeApply, ClaimApply, ReserveApply, ScopeEnabled, ClaimEnabled, ReserveEnabled;
      hide NativeApply;
      hide SpareState;
      Others(p, schedule);
      if fault.SpareNotAdded? || path in s.regs {
        return Some(NotPrepared);
      }
      Act(p, Preparation(p, Register));
      return None;
    }

    // Marks and locks the spare, and ends the first scope with it to be filled.
    method MarkSpare(p: Pid, path: Path, env: Schedule, fault: Fault) returns (ok: bool)
      requires Valid() && Prepares(p, path)
      requires s.actors[p].phase == In(SawNone) && s.actors[p].task.prepare.Registered?
      modifies this
      ensures Valid() && Prepares(p, path) && old(steps) <= steps
      ensures ok ==> s.actors[p].phase.Out? && s.actors[p].task.prepare.Filling?
      ensures !ok ==> s.actors[p].phase.In? && !s.actors[p].task.prepare.Filling?
      ensures var id := old(s).actors[p].task.prepare.id;
        Silent(env) && !fault.MarkerNotWritten? && At(old(s), path, id) && !old(s).regs[path].lock.ForeignLock? ==>
          && ok && s.actors[p].task.prepare == Filling(id)
          && SharedOf(s) == SharedOf(old(s)).(
               repo := None, regs := old(s).regs[path := old(s).regs[path].(marker := Preparing, lock := SpareLock)])
    {
      hide IsRun, HasChild, ScopeApply, ClaimApply, ReserveApply, ScopeEnabled, ClaimEnabled, ReserveEnabled;
      hide NativeApply, SpareState, Fresh;
      Others(p, env(0));
      if fault.MarkerNotWritten? || !At(s, path, s.actors[p].task.prepare.id) {
        return false;
      }
      Act(p, Preparation(p, MarkPreparing));
      ok := LockMarked(p, path, (n: nat) => env(n + 1));
    }

    method LockMarked(p: Pid, path: Path, env: Schedule) returns (ok: bool)
      requires Valid() && Prepares(p, path) && s.actors[p].phase == In(SawNone) && s.actors[p].task.prepare.Marked?
      modifies this
      ensures Valid() && Prepares(p, path) && old(steps) <= steps
      ensures ok ==> s.actors[p].phase.Out? && s.actors[p].task.prepare.Filling?
      ensures !ok ==> s.actors[p].phase.In? && !s.actors[p].task.prepare.Filling?
      ensures var id := old(s).actors[p].task.prepare.id;
        Silent(env) && At(old(s), path, id) && !old(s).regs[path].lock.ForeignLock? ==>
          && ok && s.actors[p].task.prepare == Filling(id)
          && SharedOf(s) == SharedOf(old(s)).(
               repo := None, regs := old(s).regs[path := old(s).regs[path].(lock := SpareLock)])
    {
      hide IsRun, HasChild, ScopeApply, ClaimApply, ReserveApply, ScopeEnabled, ClaimEnabled, ReserveEnabled;
      hide NativeApply;
      hide SpareState, Fresh;
      Others(p, env(0));
      if !At(s, path, s.actors[p].task.prepare.id) || s.regs[path].lock.ForeignLock? {
        return false;
      }
      Act(p, Preparation(p, PrepareAction.LockSpare));
      Others(p, env(1));
      LeaveScope(p);
      return true;
    }

    // Asks for the second scope once the reset is done.
    method RejoinRepo(p: Pid, path: Path, env: Schedule, patience: nat) returns (ok: bool)
      requires Valid() && Prepares(p, path) && s.actors[p].phase.Out? && s.actors[p].task.prepare.Filled?
      modifies this
      ensures Valid() && Prepares(p, path) && old(steps) <= steps
      ensures ok ==> s.actors[p].phase == In(NotLooked) && s.actors[p].task == old(s).actors[p].task
      ensures !ok ==> s.actors[p].phase.Out? && s.actors[p].task.prepare.Ending?
      ensures Silent(env) && patience > 0 && old(s).repo.None? ==>
          ok && SharedOf(s) == SharedOf(old(s)).(repo := Some(p))
    {
      hide IsRun, HasChild, ScopeApply, ClaimApply, ReserveApply, ScopeEnabled, ClaimEnabled, ReserveEnabled;
      hide NativeApply;
      hide SpareState, Fresh;
      Act(p, Preparation(p, RejoinPool));
      ok := AcquireRepo(p, env, patience);
    }

    // Resets the spare without the repository lock and asks for the second scope.
    method FillSpare(p: Pid, path: Path, env: Schedule, patience: nat, fault: Fault) returns (ok: bool)
      requires Valid() && Prepares(p, path) && s.actors[p].phase.Out? && s.actors[p].task.prepare.Filling?
      modifies this
      ensures Valid() && Prepares(p, path) && old(steps) <= steps
      ensures ok ==> s.actors[p].phase == In(NotLooked) && s.actors[p].task.prepare.Filled?
      ensures !ok ==> s.actors[p].phase.Out? && s.actors[p].task.prepare.Ending?
      ensures Silent(env) && patience > 0 && old(s).repo.None? && !fault.ResetFailed? && path in old(s).regs ==>
        && ok && s.actors[p].task.prepare == Filled(old(s).actors[p].task.prepare.id)
        && SharedOf(s) == SharedOf(old(s)).(
             repo := Some(p), regs := old(s).regs[path := old(s).regs[path].(clean := true, filled := true)])
    {
      hide IsRun, HasChild, ScopeApply, ClaimApply, ReserveApply, ScopeEnabled, ClaimEnabled, ReserveEnabled;
      hide NativeApply, SpareState, Fresh;
      Others(p, env(0));
      if fault.ResetFailed? {
        Act(p, Preparation(p, Stop));
        return false;
      }
      Act(p, Preparation(p, Reset));
      Others(p, env(1));
      ok := RejoinRepo(p, path, (n: nat) => env(n + 2), patience);
    }

    ghost predicate PublishedSince(p: Pid, from: nat)
      reads this
    {
      exists i :: from <= i < |steps| && steps[i] == Preparation(p, PublishReady)
    }

    // Checks the spare again, unlocks it and publishes it.
    method PublishSpare(p: Pid, path: Path, env: Schedule, fault: Fault) returns (ok: bool)
      requires Valid() && Prepares(p, path) && s.actors[p].phase == In(NotLooked) && s.actors[p].task.prepare.Filled?
      modifies this
      ensures Valid() && Prepares(p, path) && old(steps) <= steps
      ensures s.actors[p].phase.In? && !s.actors[p].task.prepare.Filling?
      ensures ok ==> PublishedSince(p, |old(steps)|)
      ensures Silent(env) && !fault.ReadyNotWritten? && At(old(s), path, old(s).actors[p].task.prepare.id)
              && SpareState(old(s).regs[path]) == Some(Preparing) && old(s).regs[path].lock.SpareLock? ==>
        && ok
        && SharedOf(s) == SharedOf(old(s)).(
             regs := old(s).regs[path := old(s).regs[path].(marker := Ready, lock := Unlocked)])
    {
      hide IsRun, HasChild, ScopeApply, ClaimApply, ReserveApply, ScopeEnabled, ClaimEnabled, ReserveEnabled;
      hide NativeApply;
      Others(p, env(0));
      if !At(s, path, s.actors[p].task.prepare.id) || SpareState(s.regs[path]) != Some(Preparing)
         || !s.regs[path].lock.SpareLock? {
        return false;
      }
      Act(p, Preparation(p, OpenSpare));
      ok := WriteReady(p, path, (n: nat) => env(n + 1), fault);
    }

    method WriteReady(p: Pid, path: Path, env: Schedule, fault: Fault) returns (ok: bool)
      requires Valid() && Prepares(p, path) && s.actors[p].phase.In? && s.actors[p].task.prepare.Opened?
      modifies this
      ensures Valid() && Prepares(p, path) && old(steps) <= steps
      ensures s.actors[p].phase.In? && !s.actors[p].task.prepare.Filling?
      ensures ok ==> PublishedSince(p, |old(steps)|)
      ensures Silent(env) && !fault.ReadyNotWritten? && At(old(s), path, old(s).actors[p].task.prepare.id) ==>
        ok && SharedOf(s) == SharedOf(old(s)).(regs := old(s).regs[path := old(s).regs[path].(marker := Ready)])
    {
      hide IsRun, HasChild, ScopeApply, ClaimApply, ReserveApply, ScopeEnabled, ClaimEnabled, ReserveEnabled;
      hide NativeApply;
      hide SpareState, Fresh;
      Others(p, env(0));
      if fault.ReadyNotWritten? || !At(s, path, s.actors[p].task.prepare.id) {
        return false;
      }
      ghost var at := |steps|;
      Act(p, Preparation(p, PublishReady));
      assert steps[at] == Preparation(p, PublishReady);
      return true;
    }

    // The first scope of a preparation that holds the pool: either a marked and
    // locked spare to fill, or the end.
    method FirstScope(
      p: Pid, path: Path, env: nat -> Schedule, patience: nat, fault: Fault)
      returns (stop: Option<Prepared>)
      requires Valid() && Prepares(p, path) && s.actors[p].phase.Waiting? && s.actors[p].task.prepare.HasPool?
      modifies this
      ensures Valid() && old(steps) <= steps
      ensures if stop.None? then Prepares(p, path) && s.actors[p].phase.Out? && s.actors[p].task.prepare.Filling?
              else AtRest(p)
      ensures stop != Some(Published)
      ensures Quiet(env, patience, fault, old(s)) ==>
        && stop == SpareRefused(old(s).regs, path)
        && (stop.None? ==>
              && s.actors[p].task.prepare.id == FoundSpare(old(s).regs, path, old(s).nextId).id
              && SharedOf(s) == SharedOf(old(s)).(
                   record := None,
                   regs := old(s).regs[
                       path := FoundSpare(old(s).regs, path, old(s).nextId).(marker := Preparing, lock := SpareLock)],
                   nextId := if Adoptable(old(s).regs, path) then old(s).nextId else old(s).nextId + 1))
        && (stop.Some? ==>
              SharedOf(s) == SharedOf(old(s)).(record := None, pools := old(s).pools - {cfg.poolOf(path)}))
    {
      hide IsRun, HasChild, Apply, Enabled, SpareState, FoundSpare, SpareRefused;
      FoundIsSpare(old(s).regs, path, old(s).nextId);
      var ok := AcquireRepo(p, env(1), patience);
      if !ok {
        EndPrepare(p, path);
        return Some(NotPrepared);
      }
      var seen := ActiveCreation(p, env(2), fault);
      if !seen.SawNone? {
        EndPrepare(p, path);
        return Some(NotPrepared);
      }
      stop := FindSpare(p, path, env(3), fault);
      if stop.Some? {
        EndPrepare(p, path);
        return;
      }
      ok := MarkSpare(p, path, env(4), fault);
      if !ok {
        EndPrepare(p, path);
        return Some(NotPrepared);
      }
    }

    /** PrepareWarm: success means that this process published a ready spare; in
        every case it ends holding neither lock. Left alone it refuses exactly what
        it should, and otherwise leaves a ready, unlocked, freshly reset spare. */
    method PrepareWarm(p: Pid, path: Path, env: nat -> Schedule, patience: nat, fault: Fault) returns (result: Prepared)
      requires Valid() && AtRest(p) && MayPrepare(p)
      modifies this
      ensures Valid() && AtRest(p) && old(steps) <= steps
      ensures result.Published? ==> PublishedSince(p, |old(steps)|)
      ensures Quiet(env, patience, fault, old(s)) && cfg.poolOf(path) !in old(s).pools ==>
        var regs, id := old(s).regs, old(s).nextId;
        && AnswersRightly(regs, path, result)
        && SharedOf(s) ==
             if result.Published? then
               SharedOf(old(s)).(
                 record := None,
                 regs := regs[path := PublishedSpare(regs, path, id)],
                 nextId := if path in regs && regs[path].present then id else id + 1)
             else SharedOf(old(s)).(record := None)
    {
      hide IsRun, HasChild, Apply, Enabled, SpareState, SpareRefused, FoundSpare, Adoptable;
      hide AnswersRightly, PublishedSpare;
      RefusedRightly(old(s).regs, path);
      if SpareRefused(old(s).regs, path).None? {
        PublishedFields(old(s).regs, path, old(s).nextId);
      }
      var ok := TakePool(p, path, env(0), patience);
      if !ok {
        return NotPrepared;
      }
      assert cfg.poolOf(path) !in old(s).pools ==>
          old(s).pools[cfg.poolOf(path) := p] - {cfg.poolOf(path)} == old(s).pools;
      var stop := FirstScope(p, path, env, patience, fault);
      if stop.Some? {
        return stop.value;
      }
      FoundIsSpare(old(s).regs, path, old(s).nextId);
      ok := CompleteSpare(p, path, env, patience, fault);
      return if ok then Published else NotPrepared;
    }

    // From the reset of a marked and locked spare to the end.
    method CompleteSpare(p: Pid, path: Path, env: nat -> Schedule, patience: nat, fault: Fault) returns (ok: bool)
      requires Valid() && Prepares(p, path) && s.actors[p].phase.Out? && s.actors[p].task.prepare.Filling?
      modifies this
      ensures Valid() && AtRest(p) && old(steps) <= steps
      ensures ok ==> PublishedSince(p, |old(steps)|)
      ensures Quiet(env, patience, fault, old(s)) && At(old(s), path, old(s).actors[p].task.prepare.id)
              && SpareState(old(s).regs[path].(clean := true, filled := true)) == Some(Preparing)
              && old(s).regs[path].lock.SpareLock? ==>
        && ok
        && SharedOf(s) == SharedOf(old(s)).(
             pools := old(s).pools - {cfg.poolOf(path)},
             regs := old(s).regs[
                 path := old(s).regs[path].(marker := Ready, lock := Unlocked, clean := true, filled := true)])
    {
      hide IsRun, HasChild, Apply, Enabled, SpareState;
      ok := FillSpare(p, path, env(5), patience, fault);
      if ok {
        ok := PublishSpare(p, path, env(6), fault);
      }
      EndPrepare(p, path);
    }

    // ----- warm.go: claim -----

    ghost predicate ClaimedSince(p: Pid, from: nat, dest: Path)
      reads this
    {
      exists i, detached :: from <= i < |steps| && steps[i] == Claiming(p, Move(dest, detached))
    }

    // The three reads that admit a claim, in a scope that has seen no creation.
    method AdmitClaim(p: Pid, path: Path, env: Schedule) returns (ok: bool)
      requires Valid() && p < |s.actors| && !HasChild(s, p)
      requires s.actors[p].phase == In(SawNone) && s.actors[p].task.Plain?
      modifies this
      ensures Valid() && p < |s.actors| && !HasChild(s, p) && s.actors[p].phase == In(SawNone) && old(steps) <= steps
      ensures if ok then s.actors[p].task.Claim? && s.actors[p].task.claim.Admitted? && s.actors[p].task.path == path
              else s.actors[p].task.Plain? || s.actors[p].task.Claim?
      ensures Silent(env) ==>
        && (ok <==> Claimable(old(s).regs, path)) && SharedOf(s) == SharedOf(old(s))
        && (ok ==> s.actors[p].task.id == s.regs[path].id)
    {
      hide IsRun, HasChild, ReserveApply, PrepareApply, ReserveEnabled, PrepareEnabled, NativeApply;
      Others(p, env(0));
      if path !in s.regs || !s.regs[path].present || SpareState(s.regs[path]) != Some(Ready) {
        return false;
      }
      Act(p, Claiming(p, Look(path)));
      ok := CheckClaim(p, path, (n: nat) => env(n + 1));
    }

    // The native lock and the status of the spare a claim looked at.
    method CheckClaim(p: Pid, path: Path, env: Schedule) returns (ok: bool)
      requires Valid() && p < |s.actors| && !HasChild(s, p) && s.actors[p].phase == In(SawNone)
      requires s.actors[p].task.Claim? && s.actors[p].task.claim.SawReady? && s.actors[p].task.path == path
      modifies this
      ensures Valid() && p < |s.actors| && !HasChild(s, p) && s.actors[p].phase == In(SawNone)
      ensures old(steps) <= steps
      ensures s.actors[p].task.Claim? && s.actors[p].task.path == path
      ensures s.actors[p].task.id == old(s).actors[p].task.id && (ok ==> s.actors[p].task.claim.Admitted?)
      ensures Silent(env) && Current(old(s), old(s).actors[p].task) ==>
        && (ok <==> old(s).regs[path].lock.Unlocked? && old(s).regs[path].clean)
        && SharedOf(s) == SharedOf(old(s))
    {
      hide IsRun, HasChild, ReserveApply, PrepareApply, ReserveEnabled, PrepareEnabled, NativeApply, SpareState;
      hide ScopeApply, ScopeEnabled;
      Others(p, env(0));
      if !Current(s, s.actors[p].task) || !s.regs[path].lock.Unlocked? {
        return false;
      }
      Act(p, Claiming(p, CheckLock));
      Others(p, env(1));
      if !Current(s, s.actors[p].task) || !s.regs[path].clean {
        return false;
      }
      Act(p, Claiming(p, CheckStatus));
      return true;
    }

    /** ClaimWarm: a claim moves the spare it admitted, discards it or leaves it;
        the process ends holding no lock. Left alone it claims exactly the ready,
        unassigned, detached, unlocked and clean spares. */
    method ClaimWarm(
      p: Pid, path: Path, dest: Path, detached: bool, env: nat -> Schedule, patience: nat, fault: Fault)
      returns (claimed: bool)
      requires Valid() && AtRest(p)
      modifies this
      ensures Valid() && AtRest(p) && old(steps) <= steps
      ensures claimed ==> ClaimedSince(p, |old(steps)|, dest)
      ensures Quiet(env, patience, fault, old(s)) && dest !in old(s).regs ==>
        var regs := old(s).regs;
        && (claimed <==>
              && path in regs && regs[path].present && Finished(regs[path])
              && regs[path].lock.Unlocked? && regs[path].clean)
        && SharedOf(s) == SharedOf(old(s)).(
             record := None,
             regs := if claimed then (regs - {path})[dest := regs[path].(detached := detached)] else regs)
    {
      hide IsRun, HasChild, ReserveApply, PrepareApply, ReserveEnabled, PrepareEnabled, NativeApply, SpareState;
      hide Claimable, Finished;
      ClaimableRightly(old(s).regs, path);
      Act(p, Scoped(p, Begin));
      claimed := AcquireRepo(p, env(0), patience);
      if !claimed {
        return;
      }
      var seen := ActiveCreation(p, env(1), fault);
      if !seen.SawNone? {
        LeaveScope(p);
        return false;
      }
      claimed := AdmitClaim(p, path, env(2));
      if claimed {
        claimed := MoveSpare(p, path, dest, detached, env(3), fault);
      }
      LeaveScope(p);
    }

    // git worktree move of an admitted spare. A checkout that failed discards
    // it; a move that is refused leaves it.
    method MoveSpare(p: Pid, path: Path, dest: Path, detached: bool, env: Schedule, fault: Fault) returns (moved: bool)
      requires Valid() && p < |s.actors| && !HasChild(s, p)
      requires s.actors[p].phase == In(SawNone) && s.actors[p].task.Claim? && s.actors[p].task.claim.Admitted?
      requires s.actors[p].task.path == path
      modifies this
      ensures Valid() && p < |s.actors| && !HasChild(s, p) && s.actors[p].phase == In(SawNone) && old(steps) <= steps
      ensures s.actors[p].task.Plain? || s.actors[p].task.Claim?
      ensures moved ==> ClaimedSince(p, |old(steps)|, dest)
      ensures Silent(env) && Current(old(s), old(s).actors[p].task)
              && old(s).regs[path].lock.Unlocked? && dest !in old(s).regs ==>
        && (moved <==> !fault.CheckoutNotMoved?)
        && SharedOf(s) == SharedOf(old(s)).(
             regs := if moved then (old(s).regs - {path})[dest := old(s).regs[path].(detached := detached)]
                     else old(s).regs - {path})
    {
      hide IsRun, HasChild, ReserveApply, PrepareApply, ReserveEnabled, PrepareEnabled, NativeApply, SpareState;
      Others(p, env(0));
      if !Current(s, s.actors[p].task) || !s.regs[path].lock.Unlocked? {
        return false;
      }
      if fault.CheckoutNotMoved? {
        Act(p, Claiming(p, Discard));
        return false;
      }
      if dest in s.regs {
        return false;
      }
      ghost var at := |steps|;
      Act(p, Claiming(p, Move(dest, detached)));
      assert steps[at] == Claiming(p, Move(dest, detached));
      return true;
    }
  }

  lemma RunLength(cfg: Config, states: seq<State>, steps: seq<Step>)
    requires IsRun(cfg, states, steps)
    ensures |states| == |steps| + 1
  {
  }

  lemma Extends(cfg: Config, states: seq<State>, steps: seq<Step>, step: Step)
    requires IsRun(cfg, states, steps) && Enabled(cfg, states[|states| - 1], step)
    ensures IsRun(cfg, states + [Apply(cfg, states[|states| - 1], step)], steps + [step])
  {
  }

  lemma OthersLeave(cfg: Config, s: State, step: Step, p: Pid)
    requires Enabled(cfg, s, step) && Who(step) != Some(p) && p < |s.actors| && !HasChild(s, p)
    ensures !HasChild(Apply(cfg, s, step), p)
    ensures Apply(cfg, s, step).actors[p].phase == s.actors[p].phase
    ensures Apply(cfg, s, step).actors[p].task == s.actors[p].task
  {
  }

  lemma OwnKeepsChildless(cfg: Config, s: State, step: Step, p: Pid)
    requires Enabled(cfg, s, step) && Who(step) == Some(p) && p < |s.actors| && !HasChild(s, p)
    requires !step.Spawn? && !step.Crash?
    ensures !HasChild(Apply(cfg, s, step), p)
  {
  }
}
