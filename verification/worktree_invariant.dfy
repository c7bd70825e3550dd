/** What every reachable state of the worktree protocol satisfies. */
module WorktreeInvariant {
  import opened Wrappers
  import opened WorktreeProtocol

  // ----- locks -----

  // The phases a task can be in.
  predicate Shape(a: Actor) {
    match a.task
    case NoTask => a.phase.Out?
    case Plain => !a.phase.Out?
    case Claim(_, _, _) => a.phase == In(SawNone)
    case Reentrant(_, stage) =>
      if stage.Asked? then a.phase.Waiting? || a.phase == In(NotLooked)
      else if stage.Locked? then a.phase == In(NotLooked)
      else if stage.Recorded? then a.phase.Out? || a.phase == In(NotLooked)
      else if stage.Made? then a.phase.Out? || a.phase.Waiting? || a.phase == In(NotLooked)
      else if stage.Withdrawn? then a.phase.Out? || a.phase == In(NotLooked)
      else HoldsRepo(a)
    case Prepare(_, stage) =>
      if stage.WantsPool? then a.phase.Out?
      else if stage.Ending? then a.phase.Out? || a.phase == In(NotLooked)
      else if stage.HasPool? then a.phase.Waiting? || HoldsRepo(a)
      else if stage.Registered? || stage.Marked? then a.phase == In(SawNone)
      else if stage.Filling? then a.phase.Out? || a.phase == In(SawNone)
      else if stage.Filled? then a.phase.Out? || a.phase.Waiting? || a.phase == In(NotLooked)
      else a.phase == In(NotLooked)
  }

  // The locks a process holds are recorded as held by it.
  predicate LocksOk(cfg: Config, s: State, p: Pid)
    requires p < |s.actors|
  {
    var a := s.actors[p];
    && Shape(a)
    && (HoldsRepo(a) ==> s.repo == Some(p))
    && (HoldsCreation(a) ==> s.creation == Some(p))
    && (a.task.Prepare? && !a.task.prepare.WantsPool? ==>
          cfg.poolOf(a.task.path) in s.pools && s.pools[cfg.poolOf(a.task.path)] == p)
  }

  predicate OwnersOk(cfg: Config, s: State) {
    && (s.repo.Some? ==> s.repo.value < |s.actors| && HoldsRepo(s.actors[s.repo.value]))
    && (s.creation.Some? ==> s.creation.value < |s.actors| && HoldsCreation(s.actors[s.creation.value]))
    && (forall k | k in s.pools :: s.pools[k] < |s.actors| && HoldsPool(cfg, s.actors[s.pools[k]], k))
  }

  ghost predicate LockInv(cfg: Config, s: State) {
    OwnersOk(cfg, s) && forall p | 0 <= p < |s.actors| :: LocksOk(cfg, s, p)
  }

  // ----- the reservation fence -----

  // The record of a reservation that has one.
  predicate RecordOk(s: State, a: Actor) {
    a.task.Reentrant? ==>
      && (a.task.reentrant.Recorded? || a.task.reentrant.Made? ==> s.record == Some(a.task.path))
      && (a.task.reentrant.Withdrawn? ==> s.record.None? || s.record == Some(a.task.path))
  }

  // What a scope learnt stays true of the reservation until the scope ends.
  predicate SeenOk(s: State, a: Actor) {
    match a.phase
    case In(SawNone) => s.creation.None?
    case In(SawPath(x)) => s.creation.None? || ReservedPath(s) == x
    case Reading(x) => (s.creation.None? || ReservedPath(s) == x) && (s.record.None? || s.record == Some(x))
    case _ => true
  }

  // A checkout whose creation still holds it back has no identity yet.
  predicate Unidentified(s: State, a: Actor) {
    a.task.Reentrant? ==>
      match a.task.reentrant
      case Made(id) => id < s.nextId && (At(s, a.task.path, id) ==> s.regs[a.task.path].identity.None?)
      case Withdrawn(Some(id)) =>
        id < s.nextId && (HoldsRepo(a) && At(s, a.task.path, id) ==> s.regs[a.task.path].identity.None?)
      case Released(id) => id < s.nextId && (At(s, a.task.path, id) ==> s.regs[a.task.path].identity.None?)
      case _ => true
  }

  ghost predicate FenceInv(s: State) {
    && (forall path | path in s.regs :: s.regs[path].id < s.nextId)
    && forall p | 0 <= p < |s.actors| ::
         RecordOk(s, s.actors[p]) && SeenOk(s, s.actors[p]) && Unidentified(s, s.actors[p])
  }

  // ----- spares -----

  predicate SpareOk(s: State, a: Actor) {
    match a.task
    case Claim(path, id, _) =>
      id < s.nextId
      && (At(s, path, id) ==> s.regs[path].marker.Ready? && s.regs[path].filled && s.regs[path].identity.None?)
    case Prepare(path, stage) =>
      (match stage
       case Registered(id) => id < s.nextId
       case Marked(id) => id < s.nextId && (At(s, path, id) ==> s.regs[path].marker.Preparing?)
       case Filling(id) => At(s, path, id) && s.regs[path].marker.Preparing? && s.regs[path].lock.SpareLock?
       case Filled(id) =>
         At(s, path, id) && s.regs[path].marker.Preparing? && s.regs[path].lock.SpareLock? && s.regs[path].filled
       case Opened(id) =>
         id < s.nextId
         && (At(s, path, id) ==>
               s.regs[path].marker.Preparing? && s.regs[path].filled && s.regs[path].identity.None?)
       case _ => true)
    case _ => true
  }

  ghost predicate SpareInv(s: State) {
    && (forall path | path in s.regs :: s.regs[path].id < s.nextId)
    && (forall path | path in s.regs :: s.regs[path].marker.Ready? ==> s.regs[path].filled)
    && forall p | 0 <= p < |s.actors| :: SpareOk(s, s.actors[p])
  }

  ghost predicate Inv(cfg: Config, s: State) {
    LockInv(cfg, s) && FenceInv(s) && SpareInv(s)
  }

  lemma InitInv(cfg: Config, s: State)
    requires Init(s)
    ensures Inv(cfg, s)
  {
  }

  // ----- locks are kept -----

  // A step of p: it changes its own state, takes what is free, gives back what
  // is its own, and its locks fit its new state.
  predicate OwnLocks(cfg: Config, s: State, t: State, p: Pid)
    requires p < |s.actors|
  {
    && OnlyActor(s, t, p)
    && (t.repo == s.repo || s.repo.None? || s.repo == Some(p))
    && (t.creation == s.creation || s.creation.None? || s.creation == Some(p))
    && (t.repo == Some(p) <==> HoldsRepo(t.actors[p])) && (t.repo == s.repo || t.repo.None? || t.repo == Some(p))
    && (t.creation == Some(p) <==> HoldsCreation(t.actors[p]))
    && (t.creation == s.creation || t.creation.None? || t.creation == Some(p))
    && Shape(t.actors[p])
  }

  function PoolHeld(cfg: Config, a: Actor): Option<Path> {
    if a.task.Prepare? && !a.task.prepare.WantsPool? then Some(cfg.poolOf(a.task.path)) else None
  }

  // The pools after p moved on: its old one given back, its new one taken.
  predicate OwnPools(cfg: Config, s: State, t: State, p: Pid)
    requires p < |s.actors| && |t.actors| == |s.actors|
  {
    var was, now := PoolHeld(cfg, s.actors[p]), PoolHeld(cfg, t.actors[p]);
    if was == now then t.pools == s.pools
    else if now.None? then t.pools == s.pools - {was.value}
    else was.None? && now.value !in s.pools && t.pools == s.pools[now.value := p]
  }

  lemma OwnStep(cfg: Config, s: State, t: State, p: Pid)
    requires LockInv(cfg, s) && p < |s.actors| && OwnLocks(cfg, s, t, p) && OwnPools(cfg, s, t, p)
    ensures LockInv(cfg, t)
  {
    hide Shape, HoldsRepo, HoldsCreation;
    assert LocksOk(cfg, s, p);
    forall q | 0 <= q < |t.actors| ensures LocksOk(cfg, t, q) {
      assert LocksOk(cfg, s, q);
    }
  }

  lemma ScopeLocks(cfg: Config, s: State, p: Pid, a: ScopeAction)
    requires LockInv(cfg, s) && p < |s.actors| && ScopeEnabled(s, p, a)
    ensures LockInv(cfg, ScopeApply(s, p, a))
  {
    assert LocksOk(cfg, s, p);
    OwnerIsHolder(cfg, s, p);
    hide LockInv, OwnersOk, LocksOk;
    OwnStep(cfg, s, ScopeApply(s, p, a), p);
  }

  lemma ClaimLocks(cfg: Config, s: State, p: Pid, a: ClaimAction)
    requires LockInv(cfg, s) && p < |s.actors| && ClaimEnabled(s, p, a)
    ensures LockInv(cfg, ClaimApply(s, p, a))
  {
    assert LocksOk(cfg, s, p);
    OwnerIsHolder(cfg, s, p);
    hide LockInv, OwnersOk, LocksOk;
    OwnStep(cfg, s, ClaimApply(s, p, a), p);
  }

  lemma ReserveLocks(cfg: Config, s: State, p: Pid, a: ReserveAction)
    requires LockInv(cfg, s) && p < |s.actors| && ReserveEnabled(s, p, a)
    ensures LockInv(cfg, ReserveApply(s, p, a))
  {
    assert LocksOk(cfg, s, p);
    OwnerIsHolder(cfg, s, p);
    hide LockInv, OwnersOk, LocksOk;
    OwnStep(cfg, s, ReserveApply(s, p, a), p);
  }

  lemma PoolLocks(cfg: Config, s: State, p: Pid, a: PrepareAction)
    requires LockInv(cfg, s) && p < |s.actors| && PrepareEnabled(cfg, s, p, a)
    requires PreparePools(a)
    ensures LockInv(cfg, PrepareApply(cfg, s, p, a))
  {
    assert LocksOk(cfg, s, p);
    OwnerIsHolder(cfg, s, p);
    hide LockInv, OwnersOk, LocksOk;
    OwnStep(cfg, s, PrepareApply(cfg, s, p, a), p);
  }

  lemma BuildLocks(cfg: Config, s: State, p: Pid, a: PrepareAction)
    requires LockInv(cfg, s) && p < |s.actors| && PrepareEnabled(cfg, s, p, a)
    requires PrepareBuilds(a) || a.Adopt?
    ensures LockInv(cfg, PrepareApply(cfg, s, p, a))
  {
    assert LocksOk(cfg, s, p);
    OwnerIsHolder(cfg, s, p);
    hide LockInv, OwnersOk, LocksOk;
    OwnStep(cfg, s, PrepareApply(cfg, s, p, a), p);
  }

  lemma PublishLocks(cfg: Config, s: State, p: Pid, a: PrepareAction)
    requires LockInv(cfg, s) && p < |s.actors| && PrepareEnabled(cfg, s, p, a)
    requires !PreparePools(a) && !PrepareBuilds(a) && !a.Adopt?
    ensures LockInv(cfg, PrepareApply(cfg, s, p, a))
  {
    assert LocksOk(cfg, s, p);
    OwnerIsHolder(cfg, s, p);
    hide LockInv, OwnersOk, LocksOk;
    OwnStep(cfg, s, PrepareApply(cfg, s, p, a), p);
  }

  lemma PrepareLocks(cfg: Config, s: State, p: Pid, a: PrepareAction)
    requires LockInv(cfg, s) && p < |s.actors| && PrepareEnabled(cfg, s, p, a)
    ensures LockInv(cfg, PrepareApply(cfg, s, p, a))
  {
    hide LockInv, PrepareEnabled, PrepareApply, PreparePools, PrepareBuilds;
    if PreparePools(a) {
      PoolLocks(cfg, s, p, a);
    } else if PrepareBuilds(a) || a.Adopt? {
      BuildLocks(cfg, s, p, a);
    } else {
      PublishLocks(cfg, s, p, a);
    }
  }

  lemma OwnerIsHolder(cfg: Config, s: State, p: Pid)
    requires LockInv(cfg, s) && p < |s.actors|
    ensures s.repo == Some(p) <==> HoldsRepo(s.actors[p])
    ensures s.creation == Some(p) <==> HoldsCreation(s.actors[p])
    ensures PoolHeld(cfg, s.actors[p]).Some? ==>
      PoolHeld(cfg, s.actors[p]).value in s.pools && s.pools[PoolHeld(cfg, s.actors[p]).value] == p
  {
    assert LocksOk(cfg, s, p);
  }

  lemma CrashLocks(cfg: Config, s: State, p: Pid)
    requires LockInv(cfg, s) && p < |s.actors|
    ensures LockInv(cfg, CrashApply(s, p))
  {
    var t := CrashApply(s, p);
    forall q | 0 <= q < |t.actors| ensures LocksOk(cfg, t, q) {
      assert LocksOk(cfg, s, q) && LocksOk(cfg, s, p);
    }
  }

  lemma ParentLocks(cfg: Config, s: State, c: Pid, parent: Option<Pid>, underReset: bool)
    requires LockInv(cfg, s) && c < |s.actors|
    ensures LockInv(cfg, Put(s, c, s.actors[c].(parent := parent, underReset := underReset)))
  {
    var t := Put(s, c, s.actors[c].(parent := parent, underReset := underReset));
    forall q | 0 <= q < |t.actors| ensures LocksOk(cfg, t, q) {
      assert LocksOk(cfg, s, q);
    }
  }

  lemma NativeLocks(cfg: Config, s: State, a: NativeAction)
    requires LockInv(cfg, s) && NativeEnabled(s, a)
    ensures LockInv(cfg, NativeApply(s, a))
  {
    var t := NativeApply(s, a);
    forall q | 0 <= q < |t.actors| ensures LocksOk(cfg, t, q) {
      assert LocksOk(cfg, s, q);
    }
  }

  lemma LockStep(cfg: Config, s: State, step: Step)
    requires LockInv(cfg, s) && Enabled(cfg, s, step)
    ensures LockInv(cfg, Apply(cfg, s, step))
  {
    hide LockInv, ScopeApply, ClaimApply, ReserveApply, PrepareApply, NativeApply, CrashApply;
    match step
    case Scoped(p, a) => ScopeLocks(cfg, s, p, a);
    case Claiming(p, a) => ClaimLocks(cfg, s, p, a);
    case Reserving(p, a) => ReserveLocks(cfg, s, p, a);
    case Preparation(p, a) => PrepareLocks(cfg, s, p, a);
    case Native(a) => NativeLocks(cfg, s, a);
    case Crash(p) => CrashLocks(cfg, s, p);
    case Spawn(p, c) => ParentLocks(cfg, s, c, Some(p), s.actors[p].underReset || ResetsOutside(s.actors[p]));
    case Reap(c) => ParentLocks(cfg, s, c, None, false);
  }

  // The actions of a scope that change a registration.
  predicate ScopeWrites(a: ScopeAction) {
    a.Identify? || a.CreateHere? || a.Remove? || a.Prune?
  }

  // The actions of activeCreation.
  predicate ScopeLooks(a: ScopeAction) {
    a.Probe? || a.ClearProbe? || a.ClearFails? || a.ReadRecord?
  }

  // The actions of a re-entrant creation that change a registration.
  predicate ReserveWrites(a: ReserveAction) {
    a.Make? || a.IdentifyOwn?
  }

  // The actions that begin and end a preparation.
  predicate PreparePools(a: PrepareAction) {
    a.BeginPrepare? || a.TakePool? || a.Stop? || a.End?
  }

  // The actions of a preparation before its reset.
  predicate PrepareBuilds(a: PrepareAction) {
    a.DropStale? || a.Register? || a.MarkPreparing? || a.LockSpare?
  }

  // From the reset on.
  predicate PreparePublishes(a: PrepareAction) {
    a.Reset? || a.OpenSpare? || a.PublishReady?
  }

  // ----- the fence is kept -----

  // What a step of p guarantees the other processes about the reservation.
  ghost predicate FenceGuarantee(s: State, t: State, p: Pid)
    requires p < |s.actors|
  {
    && OnlyActor(s, t, p)
    && s.nextId <= t.nextId
    && (t.record == s.record || (s.creation == Some(p) && (t.record.None? || s.repo == Some(p))))
    && (t.creation == s.creation || (s.creation == Some(p) && t.creation.None?) || s.repo == Some(p))
    && (t.creation == s.creation && s.creation.Some? ==> ReservedPath(t) == ReservedPath(s))
    && forall path | path in t.regs && t.regs[path].identity.Some? && t.regs[path].id < s.nextId ::
         || (path in s.regs && s.regs[path].id == t.regs[path].id && s.regs[path].identity.Some?)
         || (s.repo == Some(p) && (s.creation.None? || ReservedPath(s) != path))
  }

  lemma OthersFence(cfg: Config, s: State, t: State, p: Pid)
    requires LockInv(cfg, s) && FenceInv(s) && p < |s.actors| && FenceGuarantee(s, t, p)
    requires forall path | path in t.regs :: t.regs[path].id < t.nextId
    requires RecordOk(t, t.actors[p]) && SeenOk(t, t.actors[p]) && Unidentified(t, t.actors[p])
    ensures FenceInv(t)
  {
    forall q | 0 <= q < |t.actors|
      ensures RecordOk(t, t.actors[q]) && SeenOk(t, t.actors[q]) && Unidentified(t, t.actors[q])
    {
      assert LocksOk(cfg, s, q);
    }
  }

  // A step that touches no registration.
  lemma QuietFence(cfg: Config, s: State, t: State, p: Pid)
    requires LockInv(cfg, s) && FenceInv(s) && p < |s.actors| && t.regs == s.regs && t.nextId == s.nextId
    requires OnlyActor(s, t, p)
    requires t.record == s.record || (s.creation == Some(p) && (t.record.None? || s.repo == Some(p)))
    requires t.creation == s.creation || (s.creation == Some(p) && t.creation.None?) || s.repo == Some(p)
    requires t.creation == s.creation && s.creation.Some? ==> ReservedPath(t) == ReservedPath(s)
    requires RecordOk(t, t.actors[p]) && SeenOk(t, t.actors[p]) && Unidentified(t, t.actors[p])
    ensures FenceInv(t)
  {
    OthersFence(cfg, s, t, p);
  }

  lemma FenceFacts(s: State, p: Pid)
    requires FenceInv(s) && p < |s.actors|
    ensures RecordOk(s, s.actors[p]) && SeenOk(s, s.actors[p]) && Unidentified(s, s.actors[p])
    ensures forall path | path in s.regs :: s.regs[path].id < s.nextId
  {
  }

  // The holder of the creation lock, seen from a process that runs a scope.
  lemma CreationHolder(cfg: Config, s: State, p: Pid)
    requires LockInv(cfg, s) && FenceInv(s) && p < |s.actors| && s.repo == Some(p)
    requires !HoldsCreation(s.actors[p])
    ensures s.creation.Some? ==> s.record.None? || s.record == Some(ReservedPath(s))
  {
    if s.creation.Some? {
      assert LocksOk(cfg, s, s.creation.value) && LocksOk(cfg, s, p);
      assert RecordOk(s, s.actors[s.creation.value]);
    }
  }

  lemma ScopeFenceFiles(cfg: Config, s: State, p: Pid, a: ScopeAction)
    requires LockInv(cfg, s) && FenceInv(s) && p < |s.actors| && ScopeEnabled(s, p, a) && ScopeWrites(a)
    ensures FenceInv(ScopeApply(s, p, a))
  {
    assert LocksOk(cfg, s, p);
    FenceFacts(s, p);
    OwnerIsHolder(cfg, s, p);
    if HoldsRepo(s.actors[p]) && !HoldsCreation(s.actors[p]) {
      CreationHolder(cfg, s, p);
    }
    hide LockInv, OwnersOk, LocksOk, FenceInv;
    OthersFence(cfg, s, ScopeApply(s, p, a), p);
  }

  lemma ScopeFenceLooks(cfg: Config, s: State, p: Pid, a: ScopeAction)
    requires LockInv(cfg, s) && FenceInv(s) && p < |s.actors| && ScopeEnabled(s, p, a) && ScopeLooks(a)
    ensures FenceInv(ScopeApply(s, p, a))
  {
    assert LocksOk(cfg, s, p);
    FenceFacts(s, p);
    OwnerIsHolder(cfg, s, p);
    if HoldsRepo(s.actors[p]) && !HoldsCreation(s.actors[p]) {
      CreationHolder(cfg, s, p);
    }
    hide LockInv, OwnersOk, LocksOk, FenceInv;
    QuietFence(cfg, s, ScopeApply(s, p, a), p);
  }

  lemma ScopeFenceRest(cfg: Config, s: State, p: Pid, a: ScopeAction)
    requires LockInv(cfg, s) && FenceInv(s) && p < |s.actors| && ScopeEnabled(s, p, a) && !ScopeWrites(a)
    requires !ScopeLooks(a)
    ensures FenceInv(ScopeApply(s, p, a))
  {
    assert LocksOk(cfg, s, p);
    FenceFacts(s, p);
    OwnerIsHolder(cfg, s, p);
    hide LockInv, OwnersOk, LocksOk, FenceInv;
    QuietFence(cfg, s, ScopeApply(s, p, a), p);
  }

  lemma ScopeFence(cfg: Config, s: State, p: Pid, a: ScopeAction)
    requires LockInv(cfg, s) && FenceInv(s) && p < |s.actors| && ScopeEnabled(s, p, a)
    ensures FenceInv(ScopeApply(s, p, a))
  {
    hide FenceInv, LockInv, ScopeWrites, ScopeLooks;
    if ScopeWrites(a) {
      ScopeFenceFiles(cfg, s, p, a);
    } else if ScopeLooks(a) {
      ScopeFenceLooks(cfg, s, p, a);
    } else {
      ScopeFenceRest(cfg, s, p, a);
    }
  }

  lemma ClaimFence(cfg: Config, s: State, p: Pid, a: ClaimAction)
    requires LockInv(cfg, s) && FenceInv(s) && p < |s.actors| && ClaimEnabled(s, p, a)
    ensures FenceInv(ClaimApply(s, p, a))
  {
    assert LocksOk(cfg, s, p);
    FenceFacts(s, p);
    OwnerIsHolder(cfg, s, p);
    hide LockInv, OwnersOk, LocksOk, FenceInv;
    OthersFence(cfg, s, ClaimApply(s, p, a), p);
  }

  lemma ReserveFence(cfg: Config, s: State, p: Pid, a: ReserveAction)
    requires LockInv(cfg, s) && FenceInv(s) && p < |s.actors| && ReserveEnabled(s, p, a)
    ensures FenceInv(ReserveApply(s, p, a))
  {
    assert LocksOk(cfg, s, p);
    FenceFacts(s, p);
    OwnerIsHolder(cfg, s, p);
    hide LockInv, OwnersOk, LocksOk, FenceInv;
    OthersFence(cfg, s, ReserveApply(s, p, a), p);
  }

  lemma PrepareFenceBuilds(cfg: Config, s: State, p: Pid, a: PrepareAction)
    requires LockInv(cfg, s) && FenceInv(s) && p < |s.actors| && PrepareEnabled(cfg, s, p, a) && PrepareBuilds(a)
    ensures FenceInv(PrepareApply(cfg, s, p, a))
  {
    assert LocksOk(cfg, s, p);
    FenceFacts(s, p);
    OwnerIsHolder(cfg, s, p);
    hide LockInv, OwnersOk, LocksOk, FenceInv;
    OthersFence(cfg, s, PrepareApply(cfg, s, p, a), p);
  }

  lemma PrepareFenceResets(cfg: Config, s: State, p: Pid)
    requires LockInv(cfg, s) && FenceInv(s) && p < |s.actors| && PrepareEnabled(cfg, s, p, Reset)
    ensures FenceInv(PrepareApply(cfg, s, p, Reset))
  {
    assert LocksOk(cfg, s, p);
    FenceFacts(s, p);
    OwnerIsHolder(cfg, s, p);
    hide LockInv, OwnersOk, LocksOk, FenceInv;
    OthersFence(cfg, s, PrepareApply(cfg, s, p, Reset), p);
  }

  lemma PrepareFencePublishes(cfg: Config, s: State, p: Pid, a: PrepareAction)
    requires LockInv(cfg, s) && FenceInv(s) && p < |s.actors| && PrepareEnabled(cfg, s, p, a)
    requires a.OpenSpare? || a.PublishReady?
    ensures FenceInv(PrepareApply(cfg, s, p, a))
  {
    assert LocksOk(cfg, s, p);
    FenceFacts(s, p);
    OwnerIsHolder(cfg, s, p);
    hide LockInv, OwnersOk, LocksOk, FenceInv;
    OthersFence(cfg, s, PrepareApply(cfg, s, p, a), p);
  }

  lemma PrepareFenceRest(cfg: Config, s: State, p: Pid, a: PrepareAction)
    requires LockInv(cfg, s) && FenceInv(s) && p < |s.actors| && PrepareEnabled(cfg, s, p, a) && !PrepareBuilds(a)
    requires !PreparePublishes(a)
    ensures FenceInv(PrepareApply(cfg, s, p, a))
  {
    assert LocksOk(cfg, s, p);
    FenceFacts(s, p);
    OwnerIsHolder(cfg, s, p);
    hide LockInv, OwnersOk, LocksOk, FenceInv;
    QuietFence(cfg, s, PrepareApply(cfg, s, p, a), p);
  }

  lemma PrepareFence(cfg: Config, s: State, p: Pid, a: PrepareAction)
    requires LockInv(cfg, s) && FenceInv(s) && p < |s.actors| && PrepareEnabled(cfg, s, p, a)
    ensures FenceInv(PrepareApply(cfg, s, p, a))
  {
    hide FenceInv, LockInv, PrepareBuilds;
    if PrepareBuilds(a) {
      PrepareFenceBuilds(cfg, s, p, a);
    } else if a.Reset? {
      PrepareFenceResets(cfg, s, p);
    } else if PreparePublishes(a) {
      PrepareFencePublishes(cfg, s, p, a);
    } else {
      PrepareFenceRest(cfg, s, p, a);
    }
  }

  // ----- spares are kept -----

  // What a step of p guarantees the other processes about the spares: without
  // the repository lock it changes no registration but by filling its own, and
  // no spare under preparation but in its own pool.
  ghost predicate SpareGuarantee(cfg: Config, s: State, t: State, p: Pid)
    requires p < |s.actors|
  {
    && OnlyActor(s, t, p)
    && s.nextId <= t.nextId
    && (s.repo != Some(p) ==> forall path | path in t.regs && t.regs[path].id < s.nextId ::
          path in s.regs && OnlyFilled(s.regs[path], t.regs[path]))
    && forall path | path in s.regs && s.regs[path].marker.Preparing? && s.regs[path].lock.SpareLock?
                     && !HoldsPool(cfg, s.actors[p], cfg.poolOf(path)) ::
         && path in t.regs && t.regs[path].id == s.regs[path].id
         && t.regs[path].marker.Preparing? && t.regs[path].lock.SpareLock?
         && (s.regs[path].filled ==> t.regs[path].filled)
  }

  predicate OnlyFilled(r: Registration, r': Registration) {
    && r'.id == r.id && r'.marker == r.marker && r'.lock == r.lock && r'.identity == r.identity
    && (r.filled ==> r'.filled)
  }

  lemma OthersSpares(cfg: Config, s: State, t: State, p: Pid)
    requires LockInv(cfg, s) && SpareInv(s) && p < |s.actors| && SpareGuarantee(cfg, s, t, p)
    requires forall path | path in t.regs :: t.regs[path].id < t.nextId
    requires forall path | path in t.regs :: t.regs[path].marker.Ready? ==> t.regs[path].filled
    requires SpareOk(t, t.actors[p])
    ensures SpareInv(t)
  {
    assert LocksOk(cfg, s, p);
    forall q | 0 <= q < |t.actors| ensures SpareOk(t, t.actors[q]) {
      assert LocksOk(cfg, s, q) && SpareOk(s, s.actors[q]);
    }
  }

  lemma SpareFacts(s: State, p: Pid)
    requires SpareInv(s) && p < |s.actors|
    ensures SpareOk(s, s.actors[p])
    ensures forall path | path in s.regs ::
      s.regs[path].id < s.nextId && (s.regs[path].marker.Ready? ==> s.regs[path].filled)
  {
  }

  lemma QuietSpares(cfg: Config, s: State, t: State, p: Pid)
    requires LockInv(cfg, s) && SpareInv(s) && p < |s.actors| && t.regs == s.regs && t.nextId == s.nextId
    requires OnlyActor(s, t, p)
    requires SpareOk(t, t.actors[p])
    ensures SpareInv(t)
  {
  }

  lemma ScopeSparesFiles(cfg: Config, s: State, p: Pid, a: ScopeAction)
    requires LockInv(cfg, s) && SpareInv(s) && p < |s.actors| && ScopeEnabled(s, p, a) && ScopeWrites(a)
    ensures SpareInv(ScopeApply(s, p, a))
  {
    assert LocksOk(cfg, s, p);
    SpareFacts(s, p);
    OwnerIsHolder(cfg, s, p);
    hide LockInv, OwnersOk, LocksOk, SpareInv;
    OthersSpares(cfg, s, ScopeApply(s, p, a), p);
  }

  lemma ScopeSparesRest(cfg: Config, s: State, p: Pid, a: ScopeAction)
    requires LockInv(cfg, s) && SpareInv(s) && p < |s.actors| && ScopeEnabled(s, p, a) && !ScopeWrites(a)
    ensures SpareInv(ScopeApply(s, p, a))
  {
    assert LocksOk(cfg, s, p);
    SpareFacts(s, p);
    OwnerIsHolder(cfg, s, p);
    hide LockInv, OwnersOk, LocksOk, SpareInv;
    QuietSpares(cfg, s, ScopeApply(s, p, a), p);
  }

  lemma ScopeSpares(cfg: Config, s: State, p: Pid, a: ScopeAction)
    requires LockInv(cfg, s) && SpareInv(s) && p < |s.actors| && ScopeEnabled(s, p, a)
    ensures SpareInv(ScopeApply(s, p, a))
  {
    hide SpareInv, LockInv, ScopeWrites;
    if ScopeWrites(a) {
      ScopeSparesFiles(cfg, s, p, a);
    } else {
      ScopeSparesRest(cfg, s, p, a);
    }
  }

  lemma ClaimSpares(cfg: Config, s: State, p: Pid, a: ClaimAction)
    requires LockInv(cfg, s) && SpareInv(s) && p < |s.actors| && ClaimEnabled(s, p, a)
    ensures SpareInv(ClaimApply(s, p, a))
  {
    assert LocksOk(cfg, s, p);
    SpareFacts(s, p);
    OwnerIsHolder(cfg, s, p);
    hide LockInv, OwnersOk, LocksOk, SpareInv;
    OthersSpares(cfg, s, ClaimApply(s, p, a), p);
  }

  lemma ReserveSparesFiles(cfg: Config, s: State, p: Pid, a: ReserveAction)
    requires LockInv(cfg, s) && SpareInv(s) && p < |s.actors| && ReserveEnabled(s, p, a) && ReserveWrites(a)
    ensures SpareInv(ReserveApply(s, p, a))
  {
    assert LocksOk(cfg, s, p);
    SpareFacts(s, p);
    OwnerIsHolder(cfg, s, p);
    hide LockInv, OwnersOk, LocksOk, SpareInv;
    OthersSpares(cfg, s, ReserveApply(s, p, a), p);
  }

  lemma ReserveSparesRest(cfg: Config, s: State, p: Pid, a: ReserveAction)
    requires LockInv(cfg, s) && SpareInv(s) && p < |s.actors| && ReserveEnabled(s, p, a) && !ReserveWrites(a)
    ensures SpareInv(ReserveApply(s, p, a))
  {
    assert LocksOk(cfg, s, p);
    SpareFacts(s, p);
    OwnerIsHolder(cfg, s, p);
    hide LockInv, OwnersOk, LocksOk, SpareInv;
    QuietSpares(cfg, s, ReserveApply(s, p, a), p);
  }

  lemma ReserveSpares(cfg: Config, s: State, p: Pid, a: ReserveAction)
    requires LockInv(cfg, s) && SpareInv(s) && p < |s.actors| && ReserveEnabled(s, p, a)
    ensures SpareInv(ReserveApply(s, p, a))
  {
    hide LockInv, SpareInv, ReserveEnabled, ReserveApply, ReserveWrites;
    if ReserveWrites(a) {
      ReserveSparesFiles(cfg, s, p, a);
    } else {
      ReserveSparesRest(cfg, s, p, a);
    }
  }

  lemma PrepareSparesFiles(cfg: Config, s: State, p: Pid, a: PrepareAction)
    requires LockInv(cfg, s) && SpareInv(s) && p < |s.actors| && PrepareEnabled(cfg, s, p, a) && PrepareBuilds(a)
    ensures SpareInv(PrepareApply(cfg, s, p, a))
  {
    assert LocksOk(cfg, s, p);
    SpareFacts(s, p);
    OwnerIsHolder(cfg, s, p);
    hide LockInv, OwnersOk, LocksOk, SpareInv;
    OthersSpares(cfg, s, PrepareApply(cfg, s, p, a), p);
  }

  lemma PrepareSparesReset(cfg: Config, s: State, p: Pid, a: PrepareAction)
    requires LockInv(cfg, s) && SpareInv(s) && p < |s.actors| && PrepareEnabled(cfg, s, p, a) && a.Reset?
    ensures SpareInv(PrepareApply(cfg, s, p, a))
  {
    assert LocksOk(cfg, s, p);
    SpareFacts(s, p);
    OwnerIsHolder(cfg, s, p);
    hide LockInv, OwnersOk, LocksOk, SpareInv;
    OthersSpares(cfg, s, PrepareApply(cfg, s, p, a), p);
  }

  lemma PrepareSparesPublish(cfg: Config, s: State, p: Pid, a: PrepareAction)
    requires LockInv(cfg, s) && SpareInv(s) && p < |s.actors| && PrepareEnabled(cfg, s, p, a)
    requires (a.OpenSpare? || a.PublishReady?)
    ensures SpareInv(PrepareApply(cfg, s, p, a))
  {
    assert LocksOk(cfg, s, p);
    SpareFacts(s, p);
    OwnerIsHolder(cfg, s, p);
    hide LockInv, OwnersOk, LocksOk, SpareInv;
    OthersSpares(cfg, s, PrepareApply(cfg, s, p, a), p);
  }

  lemma PrepareSparesRest(cfg: Config, s: State, p: Pid, a: PrepareAction)
    requires LockInv(cfg, s) && SpareInv(s) && p < |s.actors| && PrepareEnabled(cfg, s, p, a) && !PrepareBuilds(a)
    requires !PreparePublishes(a)
    ensures SpareInv(PrepareApply(cfg, s, p, a))
  {
  }

  lemma PrepareSpares(cfg: Config, s: State, p: Pid, a: PrepareAction)
    requires LockInv(cfg, s) && SpareInv(s) && p < |s.actors| && PrepareEnabled(cfg, s, p, a)
    ensures SpareInv(PrepareApply(cfg, s, p, a))
  {
    hide SpareInv, LockInv, PrepareBuilds;
    if PrepareBuilds(a) {
      PrepareSparesFiles(cfg, s, p, a);
    } else if a.Reset? {
      PrepareSparesReset(cfg, s, p, a);
    } else if PreparePublishes(a) {
      PrepareSparesPublish(cfg, s, p, a);
    } else {
      PrepareSparesRest(cfg, s, p, a);
    }
  }

  // ----- crashes, hooks and native Git -----

  lemma NativeFence(s: State, a: NativeAction)
    requires FenceInv(s) && NativeEnabled(s, a)
    ensures FenceInv(NativeApply(s, a))
  {
  }

  lemma NativeSpares(s: State, a: NativeAction)
    requires SpareInv(s) && NativeEnabled(s, a)
    ensures SpareInv(NativeApply(s, a))
  {
    var t := NativeApply(s, a);
    forall q | 0 <= q < |t.actors| ensures SpareOk(t, t.actors[q]) {
      SpareFacts(s, q);
    }
  }

  lemma CrashFence(cfg: Config, s: State, p: Pid)
    requires LockInv(cfg, s) && FenceInv(s) && p < |s.actors|
    ensures FenceInv(CrashApply(s, p))
  {
  }

  lemma CrashSpares(s: State, p: Pid)
    requires SpareInv(s) && p < |s.actors|
    ensures SpareInv(CrashApply(s, p))
  {
  }

  lemma ParentFence(s: State, c: Pid, parent: Option<Pid>, underReset: bool)
    requires FenceInv(s) && c < |s.actors|
    ensures FenceInv(Put(s, c, s.actors[c].(parent := parent, underReset := underReset)))
  {
  }

  lemma ParentSpares(s: State, c: Pid, parent: Option<Pid>, underReset: bool)
    requires SpareInv(s) && c < |s.actors|
    ensures SpareInv(Put(s, c, s.actors[c].(parent := parent, underReset := underReset)))
  {
  }

  // ----- every step -----

  lemma FenceStep(cfg: Config, s: State, step: Step)
    requires LockInv(cfg, s) && FenceInv(s) && Enabled(cfg, s, step)
    ensures FenceInv(Apply(cfg, s, step))
  {
    hide LockInv, FenceInv, ScopeApply, ClaimApply, ReserveApply, PrepareApply, NativeApply, CrashApply;
    match step
    case Scoped(p, a) => ScopeFence(cfg, s, p, a);
    case Claiming(p, a) => ClaimFence(cfg, s, p, a);
    case Reserving(p, a) => ReserveFence(cfg, s, p, a);
    case Preparation(p, a) => PrepareFence(cfg, s, p, a);
    case Native(a) => NativeFence(s, a);
    case Crash(p) => CrashFence(cfg, s, p);
    case Spawn(p, c) => ParentFence(s, c, Some(p), s.actors[p].underReset || ResetsOutside(s.actors[p]));
    case Reap(c) => ParentFence(s, c, None, false);
  }

  lemma SpareStep(cfg: Config, s: State, step: Step)
    requires LockInv(cfg, s) && SpareInv(s) && Enabled(cfg, s, step)
    ensures SpareInv(Apply(cfg, s, step))
  {
    hide LockInv, SpareInv, ScopeApply, ClaimApply, ReserveApply, PrepareApply, NativeApply, CrashApply;
    match step
    case Scoped(p, a) => ScopeSpares(cfg, s, p, a);
    case Claiming(p, a) => ClaimSpares(cfg, s, p, a);
    case Reserving(p, a) => ReserveSpares(cfg, s, p, a);
    case Preparation(p, a) => PrepareSpares(cfg, s, p, a);
    case Native(a) => NativeSpares(s, a);
    case Crash(p) => CrashSpares(s, p);
    case Spawn(p, c) => ParentSpares(s, c, Some(p), s.actors[p].underReset || ResetsOutside(s.actors[p]));
    case Reap(c) => ParentSpares(s, c, None, false);
  }

  /** Locks, fence and spares are kept by every step, crashes included. */
  lemma StepInv(cfg: Config, s: State, step: Step)
    requires Inv(cfg, s) && Enabled(cfg, s, step)
    ensures Inv(cfg, Apply(cfg, s, step))
  {
    hide LockInv, FenceInv, SpareInv, Apply, Enabled;
    LockStep(cfg, s, step);
    FenceStep(cfg, s, step);
    SpareStep(cfg, s, step);
  }

  lemma {:induction false} RunInv(cfg: Config, states: seq<State>, steps: seq<Step>, i: nat)
    requires IsRun(cfg, states, steps) && i < |states|
    ensures Inv(cfg, states[i])
  {
    hide Inv, Apply, Enabled;
    if i == 0 {
      InitInv(cfg, states[0]);
    } else {
      RunInv(cfg, states, steps, i - 1);
      StepInv(cfg, states[i - 1], steps[i - 1]);
      assert states[i - 1 + 1] == Apply(cfg, states[i - 1], steps[i - 1]);
    }
  }
}
