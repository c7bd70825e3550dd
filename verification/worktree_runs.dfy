/** What the worktree protocol guarantees over whole runs. */
module WorktreeRuns {
  import opened Wrappers
  import opened WorktreeProtocol
  import opened WorktreeInvariant

  lemma Unroll(cfg: Config, states: seq<State>, steps: seq<Step>, i: nat)
    requires IsRun(cfg, states, steps) && i < |steps|
    ensures i + 1 < |states| && Enabled(cfg, states[i], steps[i]) && states[i + 1] == Apply(cfg, states[i], steps[i])
    ensures Inv(cfg, states[i]) && LockInv(cfg, states[i]) && FenceInv(states[i]) && SpareInv(states[i])
  {
    RunInv(cfg, states, steps, i);
  }

  // Nothing has happened before the first state.
  lemma Starts(cfg: Config, states: seq<State>, steps: seq<Step>)
    requires IsRun(cfg, states, steps)
    ensures |states| == |steps| + 1 && forall p | 0 <= p < |states[0].actors| :: states[0].actors[p] == IDLE
  {
  }

  // ----- the reservation record -----

  /** Only the process that holds the creation lock writes or deletes the record. */
  lemma RecordHasOneWriter(cfg: Config, states: seq<State>, steps: seq<Step>, i: nat)
    requires IsRun(cfg, states, steps) && i < |steps|
    ensures states[i + 1].record != states[i].record ==> Who(steps[i]).Some? && states[i].creation == Who(steps[i])
  {
    Unroll(cfg, states, steps, i);
    WritesOwnRecord(cfg, states[i], steps[i]);
  }

  lemma WritesOwnRecord(cfg: Config, s: State, step: Step)
    requires LockInv(cfg, s) && Enabled(cfg, s, step)
    ensures Apply(cfg, s, step).record != s.record ==> Who(step).Some? && s.creation == Who(step)
  {
    hide LockInv, ScopeApply, ClaimApply, ReserveApply, PrepareApply;
    match step
    case Scoped(p, a) => ScopeRecord(cfg, s, p, a);
    case Claiming(p, a) => ClaimRecord(s, p, a);
    case Reserving(p, a) => ReserveRecord(cfg, s, p, a);
    case Preparation(p, a) => PrepareRecord(cfg, s, p, a);
    case _ =>
  }

  lemma ScopeRecord(cfg: Config, s: State, p: Pid, a: ScopeAction)
    requires p < |s.actors| && LockInv(cfg, s) && ScopeEnabled(s, p, a)
    ensures ScopeApply(s, p, a).record != s.record ==> s.creation == Some(p)
  {
    OwnerIsHolder(cfg, s, p);
    hide LockInv;
  }

  lemma ReserveRecord(cfg: Config, s: State, p: Pid, a: ReserveAction)
    requires p < |s.actors| && LockInv(cfg, s) && ReserveEnabled(s, p, a)
    ensures ReserveApply(s, p, a).record != s.record ==> s.creation == Some(p)
  {
    OwnerIsHolder(cfg, s, p);
    hide LockInv;
  }

  lemma ClaimRecord(s: State, p: Pid, a: ClaimAction)
    requires p < |s.actors| && ClaimEnabled(s, p, a)
    ensures ClaimApply(s, p, a).record == s.record
  {
  }

  lemma PrepareRecord(cfg: Config, s: State, p: Pid, a: PrepareAction)
    requires p < |s.actors| && PrepareEnabled(cfg, s, p, a)
    ensures PrepareApply(cfg, s, p, a).record == s.record
  {
  }

  ghost predicate NobodyReserves(s: State) {
    forall q | 0 <= q < |s.actors| :: !Reserves(s.actors[q])
  }

  /** activeCreation reports none only when nothing is reserved. */
  lemma NoneMeansNone(cfg: Config, states: seq<State>, steps: seq<Step>, i: nat, p: Pid)
    requires IsRun(cfg, states, steps) && i < |states|
    requires p < |states[i].actors| && states[i].actors[p].phase == In(SawNone)
    ensures NobodyReserves(states[i])
  {
    RunInv(cfg, states, steps, i);
    FenceFacts(states[i], p);
    forall q | 0 <= q < |states[i].actors| ensures !Reserves(states[i].actors[q]) {
      assert LocksOk(cfg, states[i], q);
    }
  }

  // A step that ends p's view: it looks again, unlocks or dies.
  predicate EndsView(step: Step, p: Pid) {
    step == Scoped(p, Probe) || step == Scoped(p, Leave) || step == Crash(p)
  }

  /** Once a scope has seen no creation, none starts before the scope ends or
      looks again. */
  lemma {:induction false} NoneStartsWhileHeld(
    cfg: Config, states: seq<State>, steps: seq<Step>, i: nat, j: nat, p: Pid)
    requires IsRun(cfg, states, steps) && i <= j < |states|
    requires p < |states[i].actors| && states[i].actors[p].phase == In(SawNone)
    requires forall k | i <= k < j :: !EndsView(steps[k], p)
    ensures p < |states[j].actors| && states[j].actors[p].phase == In(SawNone) && NobodyReserves(states[j])
  {
    hide IsRun, Enabled, Apply, Inv, LockInv, FenceInv, SpareInv, NobodyReserves;
    Starts(cfg, states, steps);
    if i < j {
      NoneStartsWhileHeld(cfg, states, steps, i, j - 1, p);
      Unroll(cfg, states, steps, j - 1);
      ViewStays(cfg, states[j - 1], steps[j - 1], p);
    }
    NoneMeansNone(cfg, states, steps, j, p);
  }

  lemma ViewStays(cfg: Config, s: State, step: Step, p: Pid)
    requires Enabled(cfg, s, step) && LockInv(cfg, s)
    requires p < |s.actors| && s.actors[p].phase == In(SawNone) && !EndsView(step, p)
    ensures var t := Apply(cfg, s, step); |t.actors| == |s.actors| && t.actors[p].phase == In(SawNone)
  {
    assert LocksOk(cfg, s, p);
    hide LockInv, OwnersOk, LocksOk;
  }

  // Step k is the look of p that found the creation lock taken for path x.
  ghost predicate Refused(cfg: Config, states: seq<State>, steps: seq<Step>, k: nat, p: Pid, x: Path) {
    && k < |steps| && k < |states| && steps[k] == Scoped(p, Probe)
    && exists q :: 0 <= q < |states[k].actors| && states[k].creation == Some(q)
         && Reserves(states[k].actors[q]) && states[k].actors[q].task.path == x
  }

  /** activeCreation reports a path only when a process reserved exactly that
      path at the moment the lock was tried. */
  lemma {:induction false} PathWasReserved(cfg: Config, states: seq<State>, steps: seq<Step>, i: nat, p: Pid)
    requires IsRun(cfg, states, steps) && i < |states| && p < |states[i].actors|
    requires states[i].actors[p].phase.In? && states[i].actors[p].phase.seen.SawPath?
    ensures exists k: nat :: k < i && Refused(cfg, states, steps, k, p, states[i].actors[p].phase.seen.path)
    decreases i
  {
    hide IsRun, Enabled, Apply, Inv, LockInv, FenceInv, SpareInv;
    Starts(cfg, states, steps);
    assert i > 0;
    var s, t, step := states[i - 1], states[i - 1 + 1], steps[i - 1];
    Unroll(cfg, states, steps, i - 1);
    ViewOrigin(cfg, s, step, p);
    if s.actors[p].phase == t.actors[p].phase {
      PathWasReserved(cfg, states, steps, i - 1, p);
    } else {
      ReadingWasRefused(cfg, states, steps, i - 1, p);
    }
  }

  lemma {:induction false} ReadingWasRefused(cfg: Config, states: seq<State>, steps: seq<Step>, i: nat, p: Pid)
    requires IsRun(cfg, states, steps) && i < |states| && p < |states[i].actors|
    requires states[i].actors[p].phase.Reading?
    ensures exists k: nat :: k < i && Refused(cfg, states, steps, k, p, states[i].actors[p].phase.reserved)
    decreases i
  {
    hide IsRun, Enabled, Apply, Inv, LockInv, FenceInv, SpareInv;
    Starts(cfg, states, steps);
    assert i > 0;
    var s, t, step := states[i - 1], states[i - 1 + 1], steps[i - 1];
    Unroll(cfg, states, steps, i - 1);
    ViewOrigin(cfg, s, step, p);
    if s.actors[p].phase == t.actors[p].phase {
      ReadingWasRefused(cfg, states, steps, i - 1, p);
    } else {
      HolderReserves(cfg, s, p);
      assert Refused(cfg, states, steps, i - 1, p, t.actors[p].phase.reserved);
    }
  }

  // How a process comes to be reading the record or to have seen a path.
  ghost predicate ViewFrom(s: State, t: State, step: Step, p: Pid)
    requires p < |s.actors| && p < |t.actors|
  {
    t.actors[p].phase != s.actors[p].phase ==>
      && (t.actors[p].phase.Reading? ==>
            step == Scoped(p, Probe) && s.creation.Some? && t.actors[p].phase.reserved == ReservedPath(s)
            && s.actors[p].phase.In? && !Reserves(s.actors[p]))
      && (t.actors[p].phase.In? && t.actors[p].phase.seen.SawPath? ==>
            s.actors[p].phase == Reading(t.actors[p].phase.seen.path))
  }

  lemma ScopeView(cfg: Config, s: State, p: Pid, a: ScopeAction)
    requires p < |s.actors| && ScopeEnabled(s, p, a) && Inv(cfg, s)
    ensures ViewFrom(s, ScopeApply(s, p, a), Scoped(p, a), p)
  {
  }

  lemma OtherView(cfg: Config, s: State, step: Step, p: Pid)
    requires p < |s.actors| && Enabled(cfg, s, step) && !step.Scoped? && Who(step) == Some(p)
    ensures ViewFrom(s, Apply(cfg, s, step), step, p)
  {
    hide ClaimEnabled, ClaimApply, ReserveEnabled, ReserveApply, PrepareEnabled, PrepareApply;
    match step
    case Claiming(_, a) => ClaimView(s, p, a);
    case Reserving(_, a) => ReserveView(s, p, a);
    case Preparation(_, a) => PrepareView(cfg, s, p, a);
    case _ =>
  }

  // Outside activeCreation a process comes to no view.
  predicate KeepsView(a: Actor, b: Actor) {
    b.phase == a.phase || b.phase.Out? || b.phase.Waiting?
  }

  lemma ClaimView(s: State, p: Pid, a: ClaimAction)
    requires p < |s.actors| && ClaimEnabled(s, p, a)
    ensures KeepsView(s.actors[p], ClaimApply(s, p, a).actors[p])
  {
  }

  lemma ReserveView(s: State, p: Pid, a: ReserveAction)
    requires p < |s.actors| && ReserveEnabled(s, p, a)
    ensures KeepsView(s.actors[p], ReserveApply(s, p, a).actors[p])
  {
  }

  lemma PrepareView(cfg: Config, s: State, p: Pid, a: PrepareAction)
    requires p < |s.actors| && PrepareEnabled(cfg, s, p, a)
    ensures KeepsView(s.actors[p], PrepareApply(cfg, s, p, a).actors[p])
  {
  }

  lemma ViewOrigin(cfg: Config, s: State, step: Step, p: Pid)
    requires p < |s.actors| && Enabled(cfg, s, step) && Inv(cfg, s)
    ensures ViewFrom(s, Apply(cfg, s, step), step, p)
  {
    hide Inv, ScopeEnabled, ScopeApply, ViewFrom;
    if Who(step) != Some(p) {
      UnchangedView(s, Apply(cfg, s, step), step, p);
    } else if step.Scoped? {
      ScopeView(cfg, s, p, step.scope);
    } else {
      OtherView(cfg, s, step, p);
    }
  }

  lemma UnchangedView(s: State, t: State, step: Step, p: Pid)
    requires p < |s.actors| && p < |t.actors| && t.actors[p].phase == s.actors[p].phase
    ensures ViewFrom(s, t, step, p)
  {
  }

  lemma HolderReserves(cfg: Config, s: State, p: Pid)
    requires LockInv(cfg, s) && p < |s.actors| && HoldsRepo(s.actors[p]) && !s.actors[p].phase.Probing?
    requires s.creation.Some?
    ensures s.creation.value < |s.actors| && Reserves(s.actors[s.creation.value])
    ensures ReservedPath(s) == s.actors[s.creation.value].task.path
  {
    assert LocksOk(cfg, s, p) && LocksOk(cfg, s, s.creation.value);
  }

  /** A re-entrant creation that succeeds is the first to write the identity of
      the checkout it made. */
  lemma CreationIdentifiesFirst(cfg: Config, states: seq<State>, steps: seq<Step>, i: nat, p: Pid)
    requires IsRun(cfg, states, steps) && i < |steps| && steps[i] == Reserving(p, IdentifyOwn)
    ensures
      var task := states[i].actors[p].task;
      At(states[i], task.path, task.reentrant.id) ==>
        states[i].regs[task.path].identity.None? && states[i + 1].regs[task.path].identity == Some(p)
  {
    RunInv(cfg, states, steps, i);
    FenceFacts(states[i], p);
  }

  // ----- spares -----

  // A reset of registration id completed at step k.
  ghost predicate ResetAt(states: seq<State>, steps: seq<Step>, k: nat, id: nat) {
    && k < |steps| && k < |states| && steps[k].Preparation? && steps[k].preparation.Reset?
    && steps[k].p < |states[k].actors|
    && states[k].actors[steps[k].p].task.Prepare? && states[k].actors[steps[k].p].task.prepare == Filling(id)
  }

  ghost predicate FilledIn(s: State, id: nat) {
    exists path :: path in s.regs && s.regs[path].id == id && s.regs[path].filled
  }

  /** A ready spare has been reset completely: the reset was of that very
      registration, in this run or before it. */
  lemma {:induction false} ReadyMeansReset(cfg: Config, states: seq<State>, steps: seq<Step>, i: nat, path: Path)
    requires IsRun(cfg, states, steps) && i < |states| && path in states[i].regs && states[i].regs[path].marker.Ready?
    ensures var id := states[i].regs[path].id;
      FilledIn(states[0], id) || exists k: nat :: k < i && ResetAt(states, steps, k, id)
  {
    RunInv(cfg, states, steps, i);
    FilledByReset(cfg, states, steps, i, states[i].regs[path].id);
  }

  lemma {:induction false} FilledByReset(cfg: Config, states: seq<State>, steps: seq<Step>, i: nat, id: nat)
    requires IsRun(cfg, states, steps) && i < |states| && FilledIn(states[i], id)
    ensures FilledIn(states[0], id) || exists k: nat :: k < i && ResetAt(states, steps, k, id)
    decreases i
  {
    hide IsRun, Enabled, Apply, Inv, LockInv, FenceInv, SpareInv, FilledIn;
    Starts(cfg, states, steps);
    if i > 0 {
      Unroll(cfg, states, steps, i - 1);
      FillOrigin(cfg, states[i - 1], steps[i - 1], id);
      if FilledIn(states[i - 1], id) {
        FilledByReset(cfg, states, steps, i - 1, id);
      } else {
        assert ResetAt(states, steps, i - 1, id);
      }
    }
  }

  // Whatever is filled was filled before.
  ghost predicate NoNewFills(s: State, t: State) {
    forall path | path in t.regs && t.regs[path].filled :: FilledIn(s, t.regs[path].id)
  }

  lemma ScopeFills(s: State, p: Pid, a: ScopeAction)
    requires p < |s.actors| && ScopeEnabled(s, p, a)
    ensures NoNewFills(s, ScopeApply(s, p, a))
  {
  }

  lemma ClaimFills(s: State, p: Pid, a: ClaimAction)
    requires p < |s.actors| && ClaimEnabled(s, p, a)
    ensures NoNewFills(s, ClaimApply(s, p, a))
  {
  }

  lemma ReserveFills(s: State, p: Pid, a: ReserveAction)
    requires p < |s.actors| && ReserveEnabled(s, p, a)
    ensures NoNewFills(s, ReserveApply(s, p, a))
  {
  }

  lemma PrepareFills(cfg: Config, s: State, p: Pid, a: PrepareAction)
    requires p < |s.actors| && PrepareEnabled(cfg, s, p, a) && !a.Reset?
    ensures NoNewFills(s, PrepareApply(cfg, s, p, a))
  {
  }

  lemma ResetFills(cfg: Config, s: State, p: Pid)
    requires p < |s.actors| && PrepareEnabled(cfg, s, p, Reset) && SpareOk(s, s.actors[p])
    ensures var t := PrepareApply(cfg, s, p, Reset);
      forall path | path in t.regs && t.regs[path].filled ::
        FilledIn(s, t.regs[path].id) || s.actors[p].task.prepare == Filling(t.regs[path].id)
  {
  }

  lemma FillOrigin(cfg: Config, s: State, step: Step, id: nat)
    requires Enabled(cfg, s, step) && Inv(cfg, s)
    ensures FilledIn(Apply(cfg, s, step), id) && !FilledIn(s, id) ==>
      && step.Preparation? && step.preparation.Reset?
      && step.p < |s.actors| && s.actors[step.p].task.Prepare? && s.actors[step.p].task.prepare == Filling(id)
  {
    if step.Preparation? && step.preparation.Reset? {
      SpareFacts(s, step.p);
      ResetFills(cfg, s, step.p);
    }
    hide Inv, LockInv, FenceInv, SpareInv;
    hide ScopeApply, ClaimApply, ReserveApply, PrepareApply, ScopeEnabled, ClaimEnabled, ReserveEnabled;
    match step
    case Scoped(p, a) => ScopeFills(s, p, a);
    case Claiming(p, a) => ClaimFills(s, p, a);
    case Reserving(p, a) => ReserveFills(s, p, a);
    case Preparation(p, a) =>
      if !a.Reset? {
        PrepareFills(cfg, s, p, a);
      }
    case _ =>
  }

  /** While a reset runs outside the repository lock, its process holds the pool
      lock, the spare says preparing and is natively locked, and no step of
      anyone else moves, removes, replaces, unlocks or remarks it. */
  lemma ResetIsUndisturbed(cfg: Config, states: seq<State>, steps: seq<Step>, i: nat, p: Pid, path: Path, id: nat)
    requires IsRun(cfg, states, steps) && i < |steps| && p < |states[i].actors|
    requires states[i].actors[p].task == Prepare(path, Filling(id)) && Who(steps[i]) != Some(p)
    ensures cfg.poolOf(path) in states[i].pools && states[i].pools[cfg.poolOf(path)] == p
    ensures At(states[i], path, id) && states[i].regs[path].marker.Preparing? && states[i].regs[path].lock.SpareLock?
    ensures At(states[i + 1], path, id)
    ensures states[i + 1].regs[path].marker.Preparing? && states[i + 1].regs[path].lock.SpareLock?
  {
    var s, t := states[i], states[i + 1];
    RunInv(cfg, states, steps, i);
    RunInv(cfg, states, steps, i + 1);
    assert LocksOk(cfg, s, p);
    SpareFacts(s, p);
    SpareFacts(t, p);
  }

  /** What a preparation publishes is a completely reset, unassigned spare: the
      registration it prepared. */
  lemma PublicationIsSound(cfg: Config, states: seq<State>, steps: seq<Step>, i: nat, p: Pid)
    requires IsRun(cfg, states, steps) && i < |steps| && steps[i] == Preparation(p, PublishReady)
    ensures var task := states[i].actors[p].task;
      && At(states[i + 1], task.path, task.prepare.id)
      && var r := states[i + 1].regs[task.path]; r.marker.Ready? && r.filled && r.identity.None?
  {
    Unroll(cfg, states, steps, i);
    SpareFacts(states[i], p);
  }

  // ----- registrations -----

  // A registration is new, or comes from one with its number: an identity once
  // written stays, only the process taking the step writes one, the marker changes
  // only in a preparation, and only a claim moves a registration.
  ghost predicate ComesFrom(s: State, t: State, step: Step, path: Path)
    requires path in t.regs
  {
    var r := t.regs[path];
    || (r.id == s.nextId < t.nextId && r.identity.None? && r.marker.Unmarked? && !r.filled && path !in s.regs)
    || exists from :: from in s.regs && Continues(s.regs[from], r, step)
         && (from == path || (step.Claiming? && step.claiming.Move? && step.claiming.path == path && path !in s.regs))
  }

  predicate Continues(before: Registration, r: Registration, step: Step) {
    && r.id == before.id
    && (r.identity == before.identity || (before.identity.None? && r.identity.Some? && r.identity == Who(step)))
    && (r.marker == before.marker
        || (step.Preparation? && step.preparation.MarkPreparing? && r.marker.Preparing?)
        || (step.Preparation? && step.preparation.PublishReady? && r.marker.Ready?))
    && (before.filled ==> r.filled)
  }

  ghost predicate AllComeFrom(s: State, t: State, step: Step) {
    s.nextId <= t.nextId && forall path | path in t.regs :: ComesFrom(s, t, step, path)
  }

  lemma ScopeRegs(s: State, p: Pid, a: ScopeAction)
    requires p < |s.actors| && ScopeEnabled(s, p, a)
    ensures AllComeFrom(s, ScopeApply(s, p, a), Scoped(p, a))
  {
    SameComeFrom(s, ScopeApply(s, p, a), Scoped(p, a));
  }

  lemma ClaimRegs(s: State, p: Pid, a: ClaimAction)
    requires p < |s.actors| && ClaimEnabled(s, p, a)
    ensures AllComeFrom(s, ClaimApply(s, p, a), Claiming(p, a))
  {
    SameComeFrom(s, ClaimApply(s, p, a), Claiming(p, a));
  }

  lemma ReserveRegs(s: State, p: Pid, a: ReserveAction)
    requires p < |s.actors| && ReserveEnabled(s, p, a)
    ensures AllComeFrom(s, ReserveApply(s, p, a), Reserving(p, a))
  {
    SameComeFrom(s, ReserveApply(s, p, a), Reserving(p, a));
  }

  lemma PrepareRegs(cfg: Config, s: State, p: Pid, a: PrepareAction)
    requires p < |s.actors| && PrepareEnabled(cfg, s, p, a)
    ensures AllComeFrom(s, PrepareApply(cfg, s, p, a), Preparation(p, a))
  {
    SameComeFrom(s, PrepareApply(cfg, s, p, a), Preparation(p, a));
  }

  // A registration that stays where it is.
  lemma SameComeFrom(s: State, t: State, step: Step)
    ensures forall path | path in s.regs && path in t.regs && Continues(s.regs[path], t.regs[path], step) ::
      ComesFrom(s, t, step, path)
  {
  }

  /** What any step leaves of any registration. */
  lemma RegistrationsContinue(cfg: Config, states: seq<State>, steps: seq<Step>, i: nat)
    requires IsRun(cfg, states, steps) && i < |steps|
    ensures i + 1 < |states| && AllComeFrom(states[i], states[i + 1], steps[i])
  {
    Unroll(cfg, states, steps, i);
    hide IsRun, Inv, ScopeEnabled, ScopeApply, ClaimEnabled, ClaimApply, ReserveEnabled, ReserveApply;
    hide PrepareEnabled, PrepareApply, LockInv, FenceInv, SpareInv, NativeEnabled, NativeApply, AllComeFrom;
    var s, step := states[i], steps[i];
    match step
    case Scoped(p, a) => ScopeRegs(s, p, a);
    case Claiming(p, a) => ClaimRegs(s, p, a);
    case Reserving(p, a) => ReserveRegs(s, p, a);
    case Preparation(p, a) => PrepareRegs(cfg, s, p, a);
    case Native(a) => NativeRegs(s, a);
    case _ => UntouchedRegs(s, states[i + 1], step);
  }

  lemma NativeRegs(s: State, a: NativeAction)
    requires NativeEnabled(s, a)
    ensures AllComeFrom(s, NativeApply(s, a), Native(a))
  {
    SameComeFrom(s, NativeApply(s, a), Native(a));
  }

  lemma UntouchedRegs(s: State, t: State, step: Step)
    requires t.regs == s.regs && t.nextId == s.nextId
    ensures AllComeFrom(s, t, step)
  {
    SameComeFrom(s, t, step);
  }

  // How a registration goes: native Git deletes it, kwt removes it or prunes a
  // missing one inside a scope that saw no creation, discards a missing spare, or
  // moves or discards the spare of an admitted claim. kwt leaves foreign locks alone.
  ghost predicate GoneBy(s: State, step: Step, path: Path)
    requires path in s.regs
  {
    var r := s.regs[path];
    || (step.Native? && step.native == Delete(path) && !r.lock.SpareLock?)
    || (step.Scoped? && step.scope == Remove(path) && r.lock.Unlocked? && SawNothing(s, step.p))
    || (step.Scoped? && step.scope == Prune(path) && r.lock.Unlocked? && !r.present && SawNothing(s, step.p))
    || (step.Preparation? && step.preparation.DropStale? && !r.lock.ForeignLock? && !r.present
        && r.identity.None? && r.detached && SawNothing(s, step.p))
    || (step.Claiming? && (step.claiming.Move? || step.claiming.Discard?) && r.lock.Unlocked?
        && step.p < |s.actors| && s.actors[step.p].task == Claim(path, r.id, Admitted))
  }

  predicate SawNothing(s: State, p: Pid) {
    p < |s.actors| && s.actors[p].phase == In(SawNone)
  }

  /** Every registration a step takes away goes in one of these ways. */
  lemma RegistrationsGoRightly(cfg: Config, states: seq<State>, steps: seq<Step>, i: nat, path: Path)
    requires IsRun(cfg, states, steps) && i < |steps| && path in states[i].regs && path !in states[i + 1].regs
    ensures GoneBy(states[i], steps[i], path)
  {
    Unroll(cfg, states, steps, i);
    hide IsRun, Inv, ScopeEnabled, ScopeApply, ClaimEnabled, ClaimApply, ReserveEnabled, ReserveApply;
    hide PrepareEnabled, PrepareApply, LockInv, FenceInv, SpareInv, GoneBy;
    var s, step := states[i], steps[i];
    match step
    case Scoped(p, a) => ScopeRemoves(s, p, a, path);
    case Claiming(p, a) => ClaimRemoves(s, p, a, path);
    case Reserving(p, a) => ReserveRemoves(s, p, a, path);
    case Preparation(p, a) => PrepareRemoves(cfg, s, p, a, path);
    case Native(a) => NativeRemoves(s, a, path);
    case _ =>
  }

  lemma ScopeRemoves(s: State, p: Pid, a: ScopeAction, path: Path)
    requires p < |s.actors| && ScopeEnabled(s, p, a) && path in s.regs
    ensures path in ScopeApply(s, p, a).regs || GoneBy(s, Scoped(p, a), path)
  {
  }

  lemma ClaimRemoves(s: State, p: Pid, a: ClaimAction, path: Path)
    requires p < |s.actors| && ClaimEnabled(s, p, a) && path in s.regs
    ensures path in ClaimApply(s, p, a).regs || GoneBy(s, Claiming(p, a), path)
  {
  }

  lemma ReserveRemoves(s: State, p: Pid, a: ReserveAction, path: Path)
    requires p < |s.actors| && ReserveEnabled(s, p, a) && path in s.regs
    ensures path in ReserveApply(s, p, a).regs
  {
  }

  lemma PrepareRemoves(cfg: Config, s: State, p: Pid, a: PrepareAction, path: Path)
    requires p < |s.actors| && PrepareEnabled(cfg, s, p, a) && path in s.regs
    ensures path in PrepareApply(cfg, s, p, a).regs || GoneBy(s, Preparation(p, a), path)
  {
  }

  lemma NativeRemoves(s: State, a: NativeAction, path: Path)
    requires NativeEnabled(s, a) && path in s.regs
    ensures path in NativeApply(s, a).regs || GoneBy(s, Native(a), path)
  {
  }

  // ----- claims -----

  // p has just read, at step k, what its claim requires.
  ghost predicate SawReadySpare(states: seq<State>, steps: seq<Step>, k: nat, p: Pid, path: Path, id: nat) {
    && k < |steps| && k < |states| && steps[k] == Claiming(p, Look(path))
    && At(states[k], path, id)
    && var r := states[k].regs[path];
       r.marker.Ready? && r.filled && r.identity.None? && r.detached && r.present
  }

  ghost predicate SawUnlockedSpare(states: seq<State>, steps: seq<Step>, k: nat, p: Pid, path: Path, id: nat) {
    && k < |steps| && k < |states| && steps[k] == Claiming(p, CheckLock)
    && At(states[k], path, id) && states[k].regs[path].lock.Unlocked?
  }

  ghost predicate SawCleanSpare(states: seq<State>, steps: seq<Step>, k: nat, p: Pid, path: Path, id: nat) {
    && k < |steps| && k < |states| && steps[k] == Claiming(p, CheckStatus)
    && At(states[k], path, id) && states[k].regs[path].clean
  }

  // The reads behind a claim's stage, all of the same registration.
  ghost predicate Evidence(states: seq<State>, steps: seq<Step>, i: nat, p: Pid, t: Task)
    requires t.Claim?
  {
    && (exists k: nat :: k < i && SawReadySpare(states, steps, k, p, t.path, t.id))
    && (!t.claim.SawReady? ==> exists k: nat :: k < i && SawUnlockedSpare(states, steps, k, p, t.path, t.id))
    && (t.claim.Admitted? ==> exists k: nat :: k < i && SawCleanSpare(states, steps, k, p, t.path, t.id))
  }

  /** Every admitted claim saw a ready, completely reset, unassigned, detached
      spare, saw it unlocked and saw it clean; and if it is still registered at
      its path, it still is ready, reset and unassigned. */
  lemma {:induction false} ClaimsHaveEvidence(cfg: Config, states: seq<State>, steps: seq<Step>, i: nat, p: Pid)
    requires IsRun(cfg, states, steps) && i < |states| && p < |states[i].actors| && states[i].actors[p].task.Claim?
    ensures Evidence(states, steps, i, p, states[i].actors[p].task)
    ensures var task := states[i].actors[p].task;
      At(states[i], task.path, task.id) ==>
        var r := states[i].regs[task.path]; r.marker.Ready? && r.filled && r.identity.None?
    decreases i
  {
    hide IsRun, Enabled, Apply, Inv, LockInv, FenceInv, SpareInv;
    Starts(cfg, states, steps);
    RunFacts(cfg, states, steps, i);
    SpareFacts(states[i], p);
    assert i > 0;
    var s, t, step := states[i - 1], states[i - 1 + 1], steps[i - 1];
    Unroll(cfg, states, steps, i - 1);
    ClaimOrigin(cfg, s, step, p);
    if s.actors[p].task.Claim? {
      ClaimsHaveEvidence(cfg, states, steps, i - 1, p);
    }
    EvidenceGrows(states, steps, i - 1, p, s, t, step);
  }

  lemma RunFacts(cfg: Config, states: seq<State>, steps: seq<Step>, i: nat)
    requires IsRun(cfg, states, steps) && i < |states|
    ensures SpareInv(states[i])
  {
    RunInv(cfg, states, steps, i);
  }

  lemma EvidenceGrows(states: seq<State>, steps: seq<Step>, i: nat, p: Pid, s: State, t: State, step: Step)
    requires i < |steps| && i + 1 < |states| && s == states[i] && t == states[i + 1] && step == steps[i]
    requires p < |s.actors| && p < |t.actors| && ClaimFrom(s, t, step, p) && t.actors[p].task.Claim?
    requires s.actors[p].task.Claim? ==> Evidence(states, steps, i, p, s.actors[p].task)
    ensures Evidence(states, steps, i + 1, p, t.actors[p].task)
  {
    hide SpareState;
    var now := t.actors[p].task;
    assert step == Claiming(p, Look(now.path)) && !s.actors[p].task.Claim? ==>
      SawReadySpare(states, steps, i, p, now.path, now.id);
    assert s.actors[p].task.Claim? && step == Claiming(p, CheckLock) && s.actors[p].task != now ==>
      SawUnlockedSpare(states, steps, i, p, now.path, now.id);
    assert s.actors[p].task.Claim? && step == Claiming(p, CheckStatus) && s.actors[p].task != now ==>
      SawCleanSpare(states, steps, i, p, now.path, now.id);
  }

  // How a process comes to its claim.
  ghost predicate ClaimFrom(s: State, t: State, step: Step, p: Pid)
    requires p < |s.actors| && p < |t.actors|
  {
    var was, now := s.actors[p].task, t.actors[p].task;
    now.Claim? && was != now ==>
      if !was.Claim? then
        && now.claim.SawReady? && step == Claiming(p, Look(now.path)) && At(s, now.path, now.id)
        && var r := s.regs[now.path]; r.marker.Ready? && r.filled && r.identity.None? && r.detached && r.present
      else
        && now.path == was.path && now.id == was.id && At(s, now.path, now.id)
        && ((was.claim.SawReady? && now.claim.SawUnlocked? && step == Claiming(p, CheckLock)
             && s.regs[now.path].lock.Unlocked?)
            || (was.claim.SawUnlocked? && now.claim.Admitted? && step == Claiming(p, CheckStatus)
                && s.regs[now.path].clean))
  }

  lemma ClaimSteps(cfg: Config, s: State, p: Pid, a: ClaimAction)
    requires p < |s.actors| && ClaimEnabled(s, p, a) && SpareInv(s)
    ensures ClaimFrom(s, ClaimApply(s, p, a), Claiming(p, a), p)
  {
  }

  lemma ScopeKeepsClaim(s: State, p: Pid, a: ScopeAction)
    requires p < |s.actors| && ScopeEnabled(s, p, a)
    ensures ScopeApply(s, p, a).actors[p].task.Claim? ==> ScopeApply(s, p, a).actors[p].task == s.actors[p].task
  {
  }

  lemma ReserveKeepsClaim(s: State, p: Pid, a: ReserveAction)
    requires p < |s.actors| && ReserveEnabled(s, p, a)
    ensures !ReserveApply(s, p, a).actors[p].task.Claim?
  {
  }

  lemma PrepareKeepsClaim(cfg: Config, s: State, p: Pid, a: PrepareAction)
    requires p < |s.actors| && PrepareEnabled(cfg, s, p, a)
    ensures !PrepareApply(cfg, s, p, a).actors[p].task.Claim?
  {
  }

  lemma OtherSteps(cfg: Config, s: State, step: Step, p: Pid)
    requires p < |s.actors| && Enabled(cfg, s, step) && !step.Claiming? && Who(step) == Some(p)
    ensures Apply(cfg, s, step).actors[p].task.Claim? ==> Apply(cfg, s, step).actors[p].task == s.actors[p].task
  {
    hide ScopeEnabled, ScopeApply, ReserveEnabled, ReserveApply, PrepareEnabled, PrepareApply;
    match step
    case Scoped(_, a) => ScopeKeepsClaim(s, p, a);
    case Reserving(_, a) => ReserveKeepsClaim(s, p, a);
    case Preparation(_, a) => PrepareKeepsClaim(cfg, s, p, a);
    case _ =>
  }

  lemma ClaimOrigin(cfg: Config, s: State, step: Step, p: Pid)
    requires p < |s.actors| && Enabled(cfg, s, step) && Inv(cfg, s)
    ensures ClaimFrom(s, Apply(cfg, s, step), step, p)
  {
    hide Inv, LockInv, FenceInv, ClaimEnabled, ClaimApply;
    if Who(step) == Some(p) {
      if step.Claiming? {
        assert SpareInv(s) by { InvParts(cfg, s); }
        ClaimSteps(cfg, s, p, step.claiming);
      } else {
        OtherSteps(cfg, s, step, p);
      }
    }
  }

  lemma InvParts(cfg: Config, s: State)
    requires Inv(cfg, s)
    ensures LockInv(cfg, s) && FenceInv(s) && SpareInv(s)
  {
  }
}
