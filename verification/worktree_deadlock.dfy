/** Waiting in the worktree protocol: pool lock before repository lock, the
    creation lock only tried, and a process whose Git hook runs waits for it. */
module WorktreeDeadlock {
  import opened Wrappers
  import opened WorktreeProtocol
  import opened WorktreeInvariant
  import opened WorktreeRuns

  ghost predicate WaitsFor(cfg: Config, s: State, p: Pid, q: Pid) {
    && p < |s.actors| && q < |s.actors|
    && ((s.actors[p].phase.Waiting? && s.repo == Some(q))
        || (WantsPoolOf(cfg, s, p) && s.pools[cfg.poolOf(s.actors[p].task.path)] == q)
        || s.actors[q].parent == Some(p))
  }

  predicate WantsPoolOf(cfg: Config, s: State, p: Pid)
    requires p < |s.actors|
  {
    var a := s.actors[p];
    a.task.Prepare? && a.task.prepare.WantsPool? && cfg.poolOf(a.task.path) in s.pools
  }

  // Hooks run in a scope do not re-enter, and no descendant of a spare's reset
  // prepares a spare.
  predicate HooksBehave(cfg: Config) {
    !cfg.scopedHooksReenter && !cfg.resetHooksPrepare
  }

  // What the parent of each process owes it.
  predicate ParentOk(s: State, c: Pid)
    requires c < |s.actors|
  {
    s.actors[c].parent.Some? ==>
      var p := s.actors[c].parent.value;
      && p < |s.actors| && p != c && RunsHooksOutside(s.actors[p])
      && (s.actors[p].underReset || ResetsOutside(s.actors[p]) ==> s.actors[c].underReset)
  }

  // A process that waits for a hook runs it outside a scope; what descends from
  // a reset is marked so and prepares nothing.
  ghost predicate HookInv(s: State) {
    && (forall c | 0 <= c < |s.actors| :: ParentOk(s, c))
    && forall p | 0 <= p < |s.actors| :: s.actors[p].underReset ==> !s.actors[p].task.Prepare?
  }

  lemma ParentRunsHooks(s: State, p: Pid)
    requires HookInv(s) && HasChild(s, p)
    ensures p < |s.actors| && RunsHooksOutside(s.actors[p]) && s.actors[p].parent != Some(p)
  {
    var c :| 0 <= c < |s.actors| && s.actors[c].parent == Some(p);
    assert ParentOk(s, c) && ParentOk(s, p);
  }

  // A process of another kind does not become a preparation unless it may.
  lemma NoNewPreparation(cfg: Config, s: State, step: Step, p: Pid)
    requires HooksBehave(cfg) && Enabled(cfg, s, step) && p < |s.actors|
    requires s.actors[p].underReset ==> !s.actors[p].task.Prepare?
    ensures var t := Apply(cfg, s, step); t.actors[p].underReset ==> !t.actors[p].task.Prepare?
  {
    hide HasChild, ScopeEnabled, ScopeApply, ClaimEnabled, ClaimApply, ReserveEnabled, ReserveApply;
    hide PrepareEnabled, PrepareApply;
    if Who(step) == Some(p) {
      match step
      case Scoped(_, a) => ScopeKind(s, p, a);
      case Claiming(_, a) => ClaimKind(s, p, a);
      case Reserving(_, a) => ReserveKind(s, p, a);
      case Preparation(_, a) => PrepareKind(cfg, s, p, a);
      case _ =>
    }
  }

  lemma ScopeKind(s: State, p: Pid, a: ScopeAction)
    requires p < |s.actors| && ScopeEnabled(s, p, a)
    ensures ScopeApply(s, p, a).actors[p].task.Prepare? ==> s.actors[p].task.Prepare?
  {
  }

  lemma ClaimKind(s: State, p: Pid, a: ClaimAction)
    requires p < |s.actors| && ClaimEnabled(s, p, a)
    ensures !ClaimApply(s, p, a).actors[p].task.Prepare?
  {
  }

  lemma ReserveKind(s: State, p: Pid, a: ReserveAction)
    requires p < |s.actors| && ReserveEnabled(s, p, a)
    ensures !ReserveApply(s, p, a).actors[p].task.Prepare?
  {
  }

  // Only BeginPrepare starts a preparation, and it asks whether it may.
  lemma PrepareKind(cfg: Config, s: State, p: Pid, a: PrepareAction)
    requires !cfg.resetHooksPrepare && p < |s.actors| && PrepareEnabled(cfg, s, p, a)
    ensures s.actors[p].task.Prepare? || !s.actors[p].underReset
  {
  }

  lemma HookStep(cfg: Config, s: State, step: Step)
    requires HooksBehave(cfg) && HookInv(s) && Enabled(cfg, s, step)
    ensures HookInv(Apply(cfg, s, step))
  {
    var t := Apply(cfg, s, step);
    forall p | 0 <= p < |t.actors| ensures t.actors[p].underReset ==> !t.actors[p].task.Prepare? {
      assert s.actors[p].underReset ==> !s.actors[p].task.Prepare?;
      NoNewPreparation(cfg, s, step, p);
    }
    forall c | 0 <= c < |t.actors| ensures ParentOk(t, c) {
      assert ParentOk(s, c);
      ParentStep(cfg, s, step, c);
    }
  }

  // A process with a child takes no step, so nobody's parent changes its state.
  lemma ParentStep(cfg: Config, s: State, step: Step, c: Pid)
    requires HooksBehave(cfg) && Enabled(cfg, s, step) && c < |s.actors| && ParentOk(s, c)
    ensures ParentOk(Apply(cfg, s, step), c)
  {
    hide ScopeApply, ClaimApply, ReserveApply, PrepareApply, NativeApply;
    hide ScopeEnabled, ClaimEnabled, ReserveEnabled, PrepareEnabled, NativeEnabled;
    if s.actors[c].parent.Some? {
      assert HasChild(s, s.actors[c].parent.value);
    }
  }

  lemma {:induction false} RunHooks(cfg: Config, states: seq<State>, steps: seq<Step>, i: nat)
    requires HooksBehave(cfg) && IsRun(cfg, states, steps) && i < |states|
    ensures HookInv(states[i])
    decreases i
  {
    hide IsRun, Enabled, Apply, HookInv, Inv, LockInv, FenceInv, SpareInv;
    Starts(cfg, states, steps);
    if i == 0 {
      NoParents(states[0]);
    } else {
      RunHooks(cfg, states, steps, i - 1);
      Unroll(cfg, states, steps, i - 1);
      HookStep(cfg, states[i - 1], steps[i - 1]);
    }
  }

  lemma NoParents(s: State)
    requires forall p | 0 <= p < |s.actors| :: s.actors[p] == IDLE
    ensures HookInv(s)
  {
  }

  // Waiting leads from a higher rank to a lower one: a creation whose hook waits
  // for a pool is above the preparation that holds it, and that one above the
  // creation its own hook may run.
  ghost function Rank(s: State, p: Pid): nat
    requires p < |s.actors|
  {
    var a := s.actors[p];
    if HasChild(s, p) then if ResetsOutside(a) then 3 else if a.underReset then 2 else 5
    else if a.task.Prepare? && a.task.prepare.WantsPool? then 4
    else if a.phase.Waiting? then 1
    else 0
  }

  lemma WaitingDescends(cfg: Config, s: State, p: Pid, q: Pid)
    requires LockInv(cfg, s) && HookInv(s) && WaitsFor(cfg, s, p, q)
    ensures Rank(s, p) > Rank(s, q)
  {
    assert LocksOk(cfg, s, p) && LocksOk(cfg, s, q) && ParentOk(s, q);
    assert s.actors[q].parent == Some(p) ==> HasChild(s, p);
    if HasChild(s, p) {
      ParentRunsHooks(s, p);
    }
    if HasChild(s, q) {
      ParentRunsHooks(s, q);
    }
  }

  ghost predicate IsChain(cfg: Config, s: State, chain: seq<Pid>) {
    |chain| > 1 && forall i | 0 <= i < |chain| - 1 :: WaitsFor(cfg, s, chain[i], chain[i + 1])
  }

  lemma {:induction false} ChainDescends(cfg: Config, s: State, chain: seq<Pid>, i: nat)
    requires LockInv(cfg, s) && HookInv(s) && IsChain(cfg, s, chain) && 0 < i < |chain|
    ensures chain[0] < |s.actors| && chain[i] < |s.actors| && Rank(s, chain[0]) > Rank(s, chain[i])
  {
    hide LockInv, HookInv, Rank;
    if i > 1 {
      ChainDescends(cfg, s, chain, i - 1);
    }
    assert WaitsFor(cfg, s, chain[i - 1], chain[i - 1 + 1]);
    WaitingDescends(cfg, s, chain[i - 1], chain[i]);
  }

  /** In no reachable state do processes wait for each other in a circle, as long
      as hooks run inside a scope do not re-enter and no descendant of a spare's
      reset prepares a spare. */
  lemma NoCircularWait(cfg: Config, states: seq<State>, steps: seq<Step>, i: nat, chain: seq<Pid>)
    requires HooksBehave(cfg) && IsRun(cfg, states, steps) && i < |states|
    requires IsChain(cfg, states[i], chain)
    ensures chain[0] != chain[|chain| - 1]
  {
    RunInv(cfg, states, steps, i);
    RunHooks(cfg, states, steps, i);
    ChainDescends(cfg, states[i], chain, |chain| - 1);
  }

  // ----- progress -----

  predicate Busy(a: Actor) {
    !a.task.NoTask? || a.parent.Some?
  }

  // Process q is busy, waits for nobody, and its next step is enabled.
  ghost predicate CanMove(cfg: Config, s: State, q: Pid) {
    q < |s.actors| && Busy(s.actors[q]) && Enabled(cfg, s, NextMove(s.actors[q], q))
  }

  lemma {:induction false} Unblocked(cfg: Config, s: State, p: Pid)
    requires LockInv(cfg, s) && HookInv(s) && p < |s.actors| && Busy(s.actors[p])
    ensures exists q: nat :: CanMove(cfg, s, q)
    decreases Rank(s, p)
  {
    hide LockInv, HookInv, Rank, Enabled, ScopeEnabled, NextMove;
    if HasChild(s, p) {
      var c :| 0 <= c < |s.actors| && s.actors[c].parent == Some(p);
      assert WaitsFor(cfg, s, p, c);
      WaitingDescends(cfg, s, p, c);
      Unblocked(cfg, s, c);
    } else if WantsPoolOf(cfg, s, p) {
      var q := s.pools[cfg.poolOf(s.actors[p].task.path)];
      PoolHolderBusy(cfg, s, cfg.poolOf(s.actors[p].task.path));
      assert WaitsFor(cfg, s, p, q);
      WaitingDescends(cfg, s, p, q);
      Unblocked(cfg, s, q);
    } else if s.actors[p].phase.Waiting? && s.repo.Some? {
      var q := s.repo.value;
      RepoHolderBusy(cfg, s);
      assert WaitsFor(cfg, s, p, q);
      WaitingDescends(cfg, s, p, q);
      Unblocked(cfg, s, q);
    } else {
      OwnMove(cfg, s, p);
      assert CanMove(cfg, s, p);
    }
  }

  lemma RepoHolderBusy(cfg: Config, s: State)
    requires LockInv(cfg, s) && s.repo.Some?
    ensures s.repo.value < |s.actors| && Busy(s.actors[s.repo.value])
  {
    assert LocksOk(cfg, s, s.repo.value);
  }

  lemma PoolHolderBusy(cfg: Config, s: State, pool: Path)
    requires LockInv(cfg, s) && pool in s.pools
    ensures s.pools[pool] < |s.actors| && Busy(s.actors[s.pools[pool]])
  {
  }

  // The next step of a process that waits for nobody.
  function NextMove(a: Actor, p: Pid): Step {
    if a.task.NoTask? then Reap(p)
    else if a.phase.Waiting? then Scoped(p, Acquire)
    else if a.phase.Probing? then Scoped(p, ClearProbe)
    else if a.phase.Reading? then Scoped(p, ReadRecord)
    else if a.task.Reentrant? then
      match a.task.reentrant
      case Locked => Reserving(p, WriteRecord)
      case Recorded => if a.phase.Out? then Reserving(p, RemoveRecord) else Scoped(p, Leave)
      case Made(_) => if a.phase.Out? then Reserving(p, Rejoin) else Reserving(p, RemoveRecord)
      case Withdrawn(_) => Reserving(p, UnlockCreation)
      case _ => Scoped(p, Leave)
    else if a.task.Prepare? && a.phase.Out? then
      match a.task.prepare
      case WantsPool => Preparation(p, TakePool)
      case Filling(_) => Preparation(p, Reset)
      case Filled(_) => Preparation(p, RejoinPool)
      case _ => Preparation(p, End)
    else Scoped(p, Leave)
  }

  lemma OwnMove(cfg: Config, s: State, p: Pid)
    requires LockInv(cfg, s) && p < |s.actors| && Busy(s.actors[p]) && !HasChild(s, p)
    requires !WantsPoolOf(cfg, s, p) && (s.actors[p].phase.Waiting? ==> s.repo.None?)
    ensures Who(NextMove(s.actors[p], p)) == Some(p) && !NextMove(s.actors[p], p).Crash?
    ensures Enabled(cfg, s, NextMove(s.actors[p], p))
  {
    assert LocksOk(cfg, s, p);
    hide LockInv, OwnersOk, LocksOk;
  }

  // How many more of its own steps a process needs to come to rest.
  function Work(a: Actor): nat {
    10 * TaskWork(a.task) + PhaseWork(a) + if a.parent.Some? then 1 else 0
  }

  function TaskWork(t: Task): nat {
    match t
    case NoTask => 0
    case Reentrant(_, stage) =>
      (match stage
       case Locked => 8
       case Recorded => 7
       case Made(_) => 6
       case Withdrawn(_) => 5
       case Released(_) => 4
       case Asked => 3)
    case Prepare(_, stage) =>
      (match stage
       case WantsPool => 8
       case HasPool => 7
       case Registered(_) => 6
       case Marked(_) => 6
       case Filling(_) => 5
       case Filled(_) => 4
       case Opened(_) => 3
       case Ending => 2)
    case _ => 3
  }

  function PhaseWork(a: Actor): nat {
    match a.phase
    case In(_) => 1
    case Probing => 2
    case Reading(_) => 2
    case Waiting => 3
    case Out =>
      if (a.task.Prepare? && a.task.prepare.Filled?) || (a.task.Reentrant? && a.task.reentrant.Made?) then 4 else 0
  }

  lemma MoveDescends(cfg: Config, s: State, q: Pid)
    requires LockInv(cfg, s) && CanMove(cfg, s, q)
    ensures var t := Apply(cfg, s, NextMove(s.actors[q], q));
      t.actors == s.actors[q := t.actors[q]] && Work(t.actors[q]) < Work(s.actors[q])
  {
    assert LocksOk(cfg, s, q);
    var step := NextMove(s.actors[q], q);
    hide LockInv, OwnersOk, LocksOk, HasChild, Work, ScopeApply, ReserveApply, PrepareApply;
    match step
    case Scoped(_, a) => ScopedMove(s, q, a);
    case Reserving(_, a) => ReservingMove(s, q, a);
    case Preparation(_, a) => PreparationMove(cfg, s, q, a);
    case _ => ReapMove(s, q);
  }

  lemma ScopedMove(s: State, q: Pid, a: ScopeAction)
    requires q < |s.actors| && Shape(s.actors[q]) && ScopeEnabled(s, q, a) && NextMove(s.actors[q], q) == Scoped(q, a)
    ensures Work(ScopeApply(s, q, a).actors[q]) < Work(s.actors[q])
  {
  }

  lemma ReservingMove(s: State, q: Pid, a: ReserveAction)
    requires q < |s.actors| && Shape(s.actors[q]) && ReserveEnabled(s, q, a)
    requires NextMove(s.actors[q], q) == Reserving(q, a)
    ensures Work(ReserveApply(s, q, a).actors[q]) < Work(s.actors[q])
  {
  }

  lemma PreparationMove(cfg: Config, s: State, q: Pid, a: PrepareAction)
    requires q < |s.actors| && Shape(s.actors[q]) && PrepareEnabled(cfg, s, q, a)
    requires NextMove(s.actors[q], q) == Preparation(q, a)
    ensures Work(PrepareApply(cfg, s, q, a).actors[q]) < Work(s.actors[q])
  {
  }

  lemma ReapMove(s: State, q: Pid)
    requires q < |s.actors| && Busy(s.actors[q]) && s.actors[q].task.NoTask?
    ensures Work(s.actors[q].(parent := None, underReset := false)) < Work(s.actors[q])
  {
  }

  function TotalWork(actors: seq<Actor>): nat {
    if actors == [] then 0 else TotalWork(actors[..|actors| - 1]) + Work(actors[|actors| - 1])
  }

  lemma {:induction false} TotalDescends(actors: seq<Actor>, q: nat, a: Actor)
    requires q < |actors| && Work(a) < Work(actors[q])
    ensures TotalWork(actors[q := a]) < TotalWork(actors)
    decreases |actors|
  {
    var last := |actors| - 1;
    if q < last {
      assert actors[q := a][..last] == actors[..last][q := a];
      TotalDescends(actors[..last], q, a);
    } else {
      assert actors[q := a][..last] == actors[..last];
    }
  }

  ghost predicate AtRest(s: State) {
    forall p | 0 <= p < |s.actors| :: !Busy(s.actors[p])
  }

  // A continuation in which only processes that wait for nobody take their next
  // steps: nobody crashes and nobody gives up waiting.
  ghost predicate Continues(cfg: Config, s: State, states: seq<State>, steps: seq<Step>) {
    && |states| == |steps| + 1 && states[0] == s
    && forall i | 0 <= i < |steps| :: MovesOn(cfg, states[i], states[i + 1], steps[i])
  }

  ghost predicate MovesOn(cfg: Config, s: State, t: State, step: Step) {
    exists q: nat :: CanMove(cfg, s, q) && step == NextMove(s.actors[q], q) && t == Apply(cfg, s, step)
  }

  lemma {:induction false} Finishing(cfg: Config, s: State) returns (states: seq<State>, steps: seq<Step>)
    requires HooksBehave(cfg) && LockInv(cfg, s) && HookInv(s)
    ensures Continues(cfg, s, states, steps) && AtRest(states[|states| - 1])
    decreases TotalWork(s.actors)
  {
    hide LockInv, HookInv, CanMove, Enabled, Apply, NextMove, Continues, Work;
    if AtRest(s) {
      Stays(cfg, s);
      return [s], [];
    }
    var p :| 0 <= p < |s.actors| && Busy(s.actors[p]);
    Unblocked(cfg, s, p);
    var q: nat :| CanMove(cfg, s, q);
    MayMove(cfg, s, q);
    var step := NextMove(s.actors[q], q);
    var t := Apply(cfg, s, step);
    MoveDescends(cfg, s, q);
    TotalDescends(s.actors, q, t.actors[q]);
    LockStep(cfg, s, step);
    HookStep(cfg, s, step);
    states, steps := Finishing(cfg, t);
    assert MovesOn(cfg, s, t, step);
    Prepends(cfg, s, t, step, states, steps);
    states, steps := [s] + states, [step] + steps;
  }

  lemma Stays(cfg: Config, s: State)
    ensures Continues(cfg, s, [s], [])
  {
  }

  lemma Prepends(cfg: Config, s: State, t: State, step: Step, states: seq<State>, steps: seq<Step>)
    requires MovesOn(cfg, s, t, step) && Continues(cfg, t, states, steps)
    ensures Continues(cfg, s, [s] + states, [step] + steps)
    ensures ([s] + states)[|states|] == states[|states| - 1]
  {
    hide MovesOn;
    var all, moves := [s] + states, [step] + steps;
    forall i | 0 <= i < |moves| ensures MovesOn(cfg, all[i], all[i + 1], moves[i]) {
      assert i > 0 ==> all[i] == states[i - 1] && all[i + 1] == states[i - 1 + 1] && moves[i] == steps[i - 1];
    }
  }

  lemma MayMove(cfg: Config, s: State, q: Pid)
    requires CanMove(cfg, s, q)
    ensures q < |s.actors| && Enabled(cfg, s, NextMove(s.actors[q], q))
  {
  }

  /** From every reachable state everyone can come to rest: there is a
      continuation in which no process crashes, none gives up waiting, and every
      step is the next one of a process that waits for nobody. */
  lemma EveryoneCanFinish(cfg: Config, states: seq<State>, steps: seq<Step>, i: nat)
    requires HooksBehave(cfg) && IsRun(cfg, states, steps) && i < |states|
    ensures exists later, moves :: Continues(cfg, states[i], later, moves) && AtRest(later[|later| - 1])
  {
    RunInv(cfg, states, steps, i);
    RunHooks(cfg, states, steps, i);
    var later, moves := Finishing(cfg, states[i]);
  }

  /** While anyone is busy, some busy process waits for nobody and can take its
      next step. */
  lemma SomeoneCanMove(cfg: Config, states: seq<State>, steps: seq<Step>, i: nat, p: Pid)
    requires HooksBehave(cfg) && IsRun(cfg, states, steps) && i < |states|
    requires p < |states[i].actors| && Busy(states[i].actors[p])
    ensures exists q: nat :: CanMove(cfg, states[i], q)
  {
    RunInv(cfg, states, steps, i);
    RunHooks(cfg, states, steps, i);
    Unblocked(cfg, states[i], p);
  }

  // ----- what the condition is for -----

  function Two(a: Actor, b: Actor): seq<Actor> {
    [a, b]
  }

  function Holder(phase: Phase, task: Task): Actor {
    Actor(None, false, phase, task)
  }

  const EMPTY := State(None, None, map[], None, map[], 0, [IDLE, IDLE])

  ghost predicate Steps(cfg: Config, s: State, step: Step, t: State) {
    Enabled(cfg, s, step) && t == Apply(cfg, s, step)
  }

  // A run that ends with two processes waiting for each other and nobody able to
  // take a next step.
  ghost predicate Deadlocks(cfg: Config, states: seq<State>, steps: seq<Step>) {
    IsRun(cfg, states, steps) && Stuck(cfg, states[|states| - 1])
  }

  ghost predicate Stuck(cfg: Config, s: State) {
    IsChain(cfg, s, [0, 1, 0]) && forall q: nat :: !CanMove(cfg, s, q)
  }

  lemma RunOf(cfg: Config, states: seq<State>, steps: seq<Step>)
    requires |states| == |steps| + 1 && Init(states[0])
    requires forall i | 0 <= i < |steps| :: Steps(cfg, states[i], steps[i], states[i + 1])
    ensures IsRun(cfg, states, steps)
  {
    hide Enabled, Apply, Init;
    forall i | 0 <= i < |steps|
      ensures Enabled(cfg, states[i], steps[i]) && states[i + 1] == Apply(cfg, states[i], steps[i])
    {
      assert Steps(cfg, states[i], steps[i], states[i + 1]);
    }
  }

  /** A scope that runs a hook which re-enters kwt waits for its own lock. */
  lemma ReentryUnderScopeDeadlocks(cfg: Config)
    requires cfg.scopedHooksReenter
    ensures exists states, steps :: Deadlocks(cfg, states, steps)
  {
    var s1 := EMPTY.(actors := Two(Holder(Waiting, Plain), IDLE));
    var s2 := EMPTY.(repo := Some(0), actors := Two(Holder(In(NotLooked), Plain), IDLE));
    var s3 := s2.(actors := Two(Holder(In(NotLooked), Plain), Hooked(IDLE, 0, s2.actors[0])));
    var s4 := s2.(actors := Two(Holder(In(NotLooked), Plain), Actor(Some(0), false, Waiting, Plain)));
    assert Steps(cfg, EMPTY, Scoped(0, Begin), s1);
    assert Steps(cfg, s1, Scoped(0, Acquire), s2);
    assert Steps(cfg, s2, Spawn(0, 1), s3);
    assert Steps(cfg, s3, Scoped(1, Begin), s4);
    assert Stuck(cfg, s4) by { assert HasChild(s4, 0); }
    hide Steps, Stuck;
    var states := [EMPTY, s1, s2, s3, s4];
    var steps := [Scoped(0, Begin), Scoped(0, Acquire), Spawn(0, 1), Scoped(1, Begin)];
    RunOf(cfg, states, steps);
    assert Deadlocks(cfg, states, steps);
  }

  // A spare in preparation at path "" and the process that prepares it.
  function Spare(
    cfg: Config, repo: Option<Pid>, regs: map<Path, Registration>, phase: Phase, stage: PrepareStage): State
  {
    State(repo, if phase.Probing? then Some(0) else None, map[cfg.poolOf("") := 0], None, regs, |regs|,
          Two(Holder(phase, Prepare("", stage)), IDLE))
  }

  const NEW_SPARE := Fresh(0, SpareLock, true)

  const MARKED_SPARE := NEW_SPARE.(marker := Preparing)

  // The first scope of the preparation, up to its look for a creation.
  lemma SpareIsWanted(cfg: Config) returns (states: seq<State>, steps: seq<Step>)
    ensures |states| == 6 && |steps| == 5 && states[0] == EMPTY
    ensures forall i | 0 <= i < |steps| :: Steps(cfg, states[i], steps[i], states[i + 1])
    ensures states[5] == Spare(cfg, Some(0), map[], In(SawNone), HasPool)
  {
    var s1 := EMPTY.(actors := Two(Holder(Out, Prepare("", WantsPool)), IDLE));
    var s2 := Spare(cfg, None, map[], Waiting, HasPool);
    var s3 := Spare(cfg, Some(0), map[], In(NotLooked), HasPool);
    var s4 := Spare(cfg, Some(0), map[], Probing, HasPool);
    var s5 := Spare(cfg, Some(0), map[], In(SawNone), HasPool);
    assert Steps(cfg, EMPTY, Preparation(0, BeginPrepare("")), s1);
    assert Steps(cfg, s1, Preparation(0, TakePool), s2);
    assert Steps(cfg, s2, Scoped(0, Acquire), s3);
    assert Steps(cfg, s3, Scoped(0, Probe), s4);
    assert Steps(cfg, s4, Scoped(0, ClearProbe), s5);
    hide Steps, Spare;
    states := [EMPTY, s1, s2, s3, s4, s5];
    steps := [Preparation(0, BeginPrepare("")), Preparation(0, TakePool), Scoped(0, Acquire), Scoped(0, Probe),
              Scoped(0, ClearProbe)];
  }

  lemma RegisterAndMark(cfg: Config)
    ensures var s := Spare(cfg, Some(0), map["" := NEW_SPARE], In(SawNone), Registered(0));
      && Steps(cfg, Spare(cfg, Some(0), map[], In(SawNone), HasPool), Preparation(0, Register), s)
      && Steps(cfg, s, Preparation(0, MarkPreparing),
          Spare(cfg, Some(0), map["" := MARKED_SPARE], In(SawNone), Marked(0)))
  {
    hide ScopeApply, ScopeEnabled;
  }

  lemma LockAndLeave(cfg: Config)
    ensures var s := Spare(cfg, Some(0), map["" := MARKED_SPARE], In(SawNone), Filling(0));
      && Steps(cfg, Spare(cfg, Some(0), map["" := MARKED_SPARE], In(SawNone), Marked(0)), Preparation(0, LockSpare), s)
      && Steps(cfg, s, Scoped(0, Leave), Spare(cfg, None, map["" := MARKED_SPARE], Out, Filling(0)))
  {
  }

  // The rest of it, up to the reset.
  lemma SpareIsMarked(cfg: Config) returns (states: seq<State>, steps: seq<Step>)
    ensures |states| == 5 && |steps| == 4 && states[0] == Spare(cfg, Some(0), map[], In(SawNone), HasPool)
    ensures forall i | 0 <= i < |steps| :: Steps(cfg, states[i], steps[i], states[i + 1])
    ensures states[4] == Spare(cfg, None, map["" := MARKED_SPARE], Out, Filling(0))
  {
    var s5 := Spare(cfg, Some(0), map[], In(SawNone), HasPool);
    var s6 := Spare(cfg, Some(0), map["" := NEW_SPARE], In(SawNone), Registered(0));
    var s7 := Spare(cfg, Some(0), map["" := MARKED_SPARE], In(SawNone), Marked(0));
    var s8 := Spare(cfg, Some(0), map["" := MARKED_SPARE], In(SawNone), Filling(0));
    var s9 := Spare(cfg, None, map["" := MARKED_SPARE], Out, Filling(0));
    RegisterAndMark(cfg);
    LockAndLeave(cfg);
    hide Steps, Spare;
    states := [s5, s6, s7, s8, s9];
    steps := [Preparation(0, Register), Preparation(0, MarkPreparing), Preparation(0, LockSpare), Scoped(0, Leave)];
  }

  lemma Joins(cfg: Config, a: seq<State>, x: seq<Step>, b: seq<State>, y: seq<Step>)
    requires |a| == |x| + 1 && |b| == |y| + 1 && a[|x|] == b[0]
    requires forall i | 0 <= i < |x| :: Steps(cfg, a[i], x[i], a[i + 1])
    requires forall i | 0 <= i < |y| :: Steps(cfg, b[i], y[i], b[i + 1])
    ensures forall i | 0 <= i < |x + y| :: Steps(cfg, (a + b[1..])[i], (x + y)[i], (a + b[1..])[i + 1])
  {
    hide Steps;
    var states, steps := a + b[1..], x + y;
    forall i | 0 <= i < |steps| ensures Steps(cfg, states[i], steps[i], states[i + 1]) {
      if i < |x| {
        assert states[i] == a[i] && states[i + 1] == a[i + 1];
      } else {
        var j := i - |x|;
        assert states[i] == b[j] && states[i + 1] == b[j + 1] && steps[i] == y[j];
      }
    }
  }

  /** A reset that runs a hook which prepares a spare of the same pool waits for
      the pool lock its own process holds. */
  lemma PreparingUnderResetDeadlocks(cfg: Config)
    requires cfg.resetHooksPrepare
    ensures exists states, steps :: Deadlocks(cfg, states, steps)
  {
    var wanted, x := SpareIsWanted(cfg);
    var marked, y := SpareIsMarked(cfg);
    var s := marked[4];
    var s1 := s.(actors := Two(s.actors[0], Hooked(IDLE, 0, s.actors[0])));
    var s2 := s.(actors := Two(s.actors[0], Actor(Some(0), true, Out, Prepare("", WantsPool))));
    assert Steps(cfg, s, Spawn(0, 1), s1);
    assert Steps(cfg, s1, Preparation(1, BeginPrepare("")), s2);
    assert Stuck(cfg, s2) by { assert HasChild(s2, 0); }
    hide Steps, Stuck, Spare;
    var z := [Spawn(0, 1), Preparation(1, BeginPrepare(""))];
    Joins(cfg, marked, y, [s, s1, s2], z);
    var rest, moves := marked + [s, s1, s2][1..], y + z;
    Joins(cfg, wanted, x, rest, moves);
    var states, steps := wanted + rest[1..], x + moves;
    assert states[|states| - 1] == s2;
    RunOf(cfg, states, steps);
    assert Deadlocks(cfg, states, steps);
  }

  ghost predicate Circle(cfg: Config, states: seq<State>, steps: seq<Step>, chain: seq<Pid>) {
    && IsRun(cfg, states, steps) && IsChain(cfg, states[|states| - 1], chain)
    && chain[0] == chain[|chain| - 1]
  }

  /** Processes can come to wait for each other in a circle exactly when hooks run
      inside a scope re-enter or descendants of a spare's reset prepare spares. */
  lemma DeadlocksExactly(cfg: Config)
    ensures (exists states, steps, chain :: Circle(cfg, states, steps, chain)) <==> !HooksBehave(cfg)
  {
    forall states, steps, chain | Circle(cfg, states, steps, chain) ensures !HooksBehave(cfg) {
      if HooksBehave(cfg) {
        NoCircularWait(cfg, states, steps, |states| - 1, chain);
      }
    }
    if !HooksBehave(cfg) {
      if cfg.scopedHooksReenter {
        ReentryUnderScopeDeadlocks(cfg);
      } else {
        PreparingUnderResetDeadlocks(cfg);
      }
      var states, steps :| Deadlocks(cfg, states, steps);
      assert Circle(cfg, states, steps, [0, 1, 0]);
    }
  }
}
