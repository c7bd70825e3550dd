/** The processes that share one repository's worktrees: the repository lock,
    the warm pool locks, the creation lock that is only ever tried, the record
    file beside it, and the registrations with their marker files. A step is one
    system call or one Git command; steps of different processes interleave
    freely, and a crash releases a process's locks and leaves its files. */
module WorktreeProtocol {
  import opened Wrappers

  type Pid = nat

  // Paths are compared through their canonical keys.
  type Path = string

  // ----- files -----

  datatype Marker = Unmarked | Preparing | Ready

  // Git's `locked` file: absent, carrying the spare's own reason, or another.
  datatype GitLock = Unlocked | SpareLock | ForeignLock

  // One linked worktree: its administrative directory and its checkout. `id`
  // tells a registration from a later one at the same path; `filled` records
  // that a hard reset has completed in it.
  datatype Registration = Registration(
    id: nat, present: bool, identity: Option<Pid>, marker: Marker, lock: GitLock, detached: bool, clean: bool,
    filled: bool)

  // ----- processes -----

  // What activeCreation last told the running scope.
  datatype Seen = NotLooked | SawNone | SawPath(path: Path)

  // A process with respect to the repository lock. Probing and Reading are the
  // two outcomes of trying the creation lock inside activeCreation.
  datatype Phase = Out | Waiting | In(seen: Seen) | Probing | Reading(reserved: Path)

  datatype ClaimStage = SawReady | SawUnlocked | Admitted

  datatype ReentrantStage =
    | Asked                          // about to reserve
    | Locked                         // holds the creation lock, record not written
    | Recorded                       // record written; git worktree add may run
    | Made(id: nat)                  // the checkout exists
    | Withdrawn(made: Option<nat>)   // release has dealt with the record, not yet the lock
    | Released(id: nat)              // about to write the identity

  datatype PrepareStage =
    | WantsPool
    | HasPool
    | Registered(id: nat)
    | Marked(id: nat)                // marker says preparing
    | Filling(id: nat)               // reset runs, without the repository lock
    | Filled(id: nat)
    | Opened(id: nat)                // natively unlocked, not yet ready
    | Ending

  datatype Task =
    | NoTask
    | Plain                          // a scoped callback
    | Claim(path: Path, id: nat, claim: ClaimStage)
    | Reentrant(path: Path, reentrant: ReentrantStage)
    | Prepare(path: Path, prepare: PrepareStage)

  // `parent` is the process whose Git hook this one runs in; `underReset` says
  // that it descends from the reset of a warm spare.
  datatype Actor = Actor(parent: Option<Pid>, underReset: bool, phase: Phase, task: Task)

  datatype State = State(
    repo: Option<Pid>, creation: Option<Pid>, pools: map<Path, Pid>,
    record: Option<Path>, regs: map<Path, Registration>, nextId: nat, actors: seq<Actor>)

  datatype Config = Config(
    poolOf: Path -> Path,
    // Whether hooks of Git commands run inside a scope re-enter kwt. Callers
    // disable hooks or ask for re-entrant creation so that they do not.
    scopedHooksReenter: bool,
    // Whether hooks of the reset of a warm spare, or processes they start in
    // turn, prepare warm spares themselves.
    resetHooksPrepare: bool)

  // ----- locks as a property of the holder -----

  predicate HoldsRepo(a: Actor) {
    a.phase.In? || a.phase.Probing? || a.phase.Reading?
  }

  predicate Reserves(a: Actor) {
    a.task.Reentrant? && !a.task.reentrant.Asked? && !a.task.reentrant.Released?
  }

  predicate HoldsCreation(a: Actor) {
    a.phase.Probing? || Reserves(a)
  }

  predicate HoldsPool(cfg: Config, a: Actor, pool: Path) {
    a.task.Prepare? && !a.task.prepare.WantsPool? && cfg.poolOf(a.task.path) == pool
  }

  predicate HasChild(s: State, p: Pid) {
    exists c | 0 <= c < |s.actors| :: s.actors[c].parent == Some(p)
  }

  // ----- what the readers in worktree/warm.go report -----

  // spareState: the marker, or Preparing for an unmarked spare that is locked.
  // No evidence in an assigned or attached checkout.
  function SpareState(r: Registration): Option<Marker> {
    if r.identity.Some? || !r.detached then None
    else if r.marker.Unmarked? then if r.lock.SpareLock? then Some(Preparing) else None
    else Some(r.marker)
  }

  // ----- actions -----

  datatype ScopeAction =
    | Begin | Acquire | GiveUp | Probe | ClearProbe | ClearFails | ReadRecord
    | Identify(path: Path) | CreateHere(path: Path, detached: bool) | Remove(path: Path) | Prune(path: Path)
    | Leave

  datatype ClaimAction = Look(path: Path) | CheckLock | CheckStatus | Move(path: Path, detached: bool) | Discard | Miss

  datatype ReserveAction =
    | Ask(path: Path) | TakeCreation | WriteRecord | WriteFails | Make(detached: bool) | Rejoin
    | RemoveRecord | RemoveFails | UnlockCreation | IdentifyOwn

  datatype PrepareAction =
    | BeginPrepare(path: Path) | TakePool | Adopt | DropStale | Register | MarkPreparing | LockSpare
    | Reset | RejoinPool | OpenSpare | PublishReady | Stop | End

  // Git commands of other users. They leave a spare's own lock alone.
  datatype NativeAction =
    | Add(path: Path, foreignLock: bool, detached: bool)
    | Delete(path: Path)
    | SetLock(path: Path, foreignLock: bool)
    | Edit(path: Path, present: bool, detached: bool, clean: bool)

  datatype Step =
    | Scoped(p: Pid, scope: ScopeAction)
    | Claiming(p: Pid, claiming: ClaimAction)
    | Reserving(p: Pid, reserving: ReserveAction)
    | Preparation(p: Pid, preparation: PrepareAction)
    | Native(native: NativeAction)
    | Crash(p: Pid)
    | Spawn(p: Pid, child: Pid)
    | Reap(p: Pid)

  // ----- guards -----

  // Tasks during which activeCreation may be called.
  predicate Looks(t: Task) {
    t.Plain? || (t.Prepare? && t.prepare.HasPool?) || (t.Reentrant? && t.reentrant.Released?)
  }

  predicate ScopeEnabled(s: State, p: Pid, a: ScopeAction)
    requires p < |s.actors|
  {
    var me := s.actors[p];
    match a
    case Begin => me.task.NoTask? && me.phase.Out?
    case Acquire => me.phase.Waiting? && s.repo.None?
    case GiveUp => me.phase.Waiting?
    case Probe => me.phase.In? && Looks(me.task)
    case ClearProbe => me.phase.Probing?
    case ClearFails => me.phase.Probing?
    case ReadRecord => me.phase.Reading?
    case Identify(path) =>
      && me.task.Plain? && path in s.regs
      && (me.phase == In(SawNone) || (me.phase.In? && me.phase.seen.SawPath? && me.phase.seen.path != path))
    case CreateHere(path, _) => me.task.Plain? && me.phase == In(SawNone) && path !in s.regs
    case Remove(path) => me.task.Plain? && me.phase == In(SawNone) && path in s.regs && s.regs[path].lock.Unlocked?
    case Prune(path) =>
      && me.task.Plain? && me.phase == In(SawNone)
      && path in s.regs && !s.regs[path].present && s.regs[path].lock.Unlocked?
    case Leave => me.phase.In? && !(me.task.Reentrant? && (me.task.reentrant.Locked? || me.task.reentrant.Withdrawn?))
  }

  predicate ClaimEnabled(s: State, p: Pid, a: ClaimAction)
    requires p < |s.actors|
  {
    var me := s.actors[p];
    && me.phase.In?
    && match a
       case Look(path) =>
         && me.task.Plain? && me.phase == In(SawNone)
         && path in s.regs && s.regs[path].present && SpareState(s.regs[path]) == Some(Ready)
       case Miss => me.task.Claim?
       case CheckLock =>
         && me.task.Claim? && me.task.claim.SawReady? && Current(s, me.task)
         && s.regs[me.task.path].lock.Unlocked?
       case CheckStatus =>
         && me.task.Claim? && me.task.claim.SawUnlocked? && Current(s, me.task)
         && s.regs[me.task.path].clean
       case Move(path, _) =>
         && me.task.Claim? && me.task.claim.Admitted? && Current(s, me.task)
         && s.regs[me.task.path].lock.Unlocked? && path !in s.regs
       case Discard =>
         && me.task.Claim? && me.task.claim.Admitted? && Current(s, me.task)
         && s.regs[me.task.path].lock.Unlocked?
  }

  // The registration a claim looked at is still the one at its path.
  predicate Current(s: State, t: Task)
    requires t.Claim?
  {
    t.path in s.regs && s.regs[t.path].id == t.id
  }

  predicate ReserveEnabled(s: State, p: Pid, a: ReserveAction)
    requires p < |s.actors|
  {
    var me := s.actors[p];
    if a.Ask? then me.task.NoTask? && me.phase.Out?
    else
      && me.task.Reentrant?
      && var stage := me.task.reentrant;
      match a
      case TakeCreation => stage.Asked? && me.phase.In? && s.creation.None?
      case WriteRecord => stage.Locked?
      case WriteFails => stage.Locked?
      case Make(_) => stage.Recorded? && me.phase.Out? && me.task.path !in s.regs
      case Rejoin => stage.Made? && me.phase.Out?
      case RemoveRecord => (stage.Recorded? && me.phase.Out?) || (stage.Made? && (me.phase.Out? || me.phase.In?))
      case RemoveFails => (stage.Recorded? && me.phase.Out?) || (stage.Made? && (me.phase.Out? || me.phase.In?))
      case UnlockCreation => stage.Withdrawn?
      case IdentifyOwn => stage.Released? && me.phase == In(SawNone) && me.task.path in s.regs
  }

  // The registration a preparation works on is still the one at its path.
  predicate At(s: State, path: Path, id: nat) {
    path in s.regs && s.regs[path].id == id
  }

  predicate PrepareEnabled(cfg: Config, s: State, p: Pid, a: PrepareAction)
    requires p < |s.actors|
  {
    var me := s.actors[p];
    if a.BeginPrepare? then me.task.NoTask? && me.phase.Out? && (me.underReset ==> cfg.resetHooksPrepare)
    else
      && me.task.Prepare?
      && var path, stage := me.task.path, me.task.prepare;
      match a
      case TakePool => stage.WantsPool? && cfg.poolOf(path) !in s.pools
      case Adopt =>
        && stage.HasPool? && me.phase == In(SawNone)
        && path in s.regs && s.regs[path].present && SpareState(s.regs[path]) == Some(Preparing)
        && !s.regs[path].lock.ForeignLock?
      case DropStale =>
        && stage.HasPool? && me.phase == In(SawNone)
        && path in s.regs && !s.regs[path].present && SpareState(s.regs[path]).Some?
        && !s.regs[path].lock.ForeignLock?
      case Register => stage.HasPool? && me.phase == In(SawNone) && path !in s.regs
      case MarkPreparing => stage.Registered? && me.phase.In? && At(s, path, stage.id)
      case LockSpare => stage.Marked? && me.phase.In? && At(s, path, stage.id) && !s.regs[path].lock.ForeignLock?
      case Reset => stage.Filling? && me.phase.Out?
      case RejoinPool => stage.Filled? && me.phase.Out?
      case OpenSpare =>
        && stage.Filled? && me.phase.In? && At(s, path, stage.id)
        && SpareState(s.regs[path]) == Some(Preparing) && s.regs[path].lock.SpareLock?
      case PublishReady => stage.Opened? && me.phase.In? && At(s, path, stage.id)
      case Stop => (stage.WantsPool? || stage.Filling? || stage.Filled?) && me.phase.Out?
      case End => stage.Ending? && me.phase.Out?
  }

  predicate NativeEnabled(s: State, a: NativeAction) {
    match a
    case Add(path, _, _) => path !in s.regs
    case Delete(path) => path in s.regs && !s.regs[path].lock.SpareLock?
    case SetLock(path, _) => path in s.regs && !s.regs[path].lock.SpareLock?
    case Edit(path, _, _, _) => path in s.regs
  }

  // The worktree add of a re-entrant creation, and the reset of a warm spare:
  // the Git commands with hooks that run outside a scope.
  predicate CreatesOutside(a: Actor) {
    a.task.Reentrant? && a.task.reentrant.Recorded? && a.phase.Out?
  }

  predicate ResetsOutside(a: Actor) {
    a.task.Prepare? && a.task.prepare.Filling? && a.phase.Out?
  }

  predicate RunsHooksOutside(a: Actor) {
    CreatesOutside(a) || ResetsOutside(a)
  }

  // A process whose hook is still running waits for it.
  predicate Enabled(cfg: Config, s: State, step: Step) {
    match step
    case Scoped(p, a) => p < |s.actors| && !HasChild(s, p) && ScopeEnabled(s, p, a)
    case Claiming(p, a) => p < |s.actors| && !HasChild(s, p) && ClaimEnabled(s, p, a)
    case Reserving(p, a) => p < |s.actors| && !HasChild(s, p) && ReserveEnabled(s, p, a)
    case Preparation(p, a) => p < |s.actors| && !HasChild(s, p) && PrepareEnabled(cfg, s, p, a)
    case Native(a) => NativeEnabled(s, a)
    case Crash(p) => p < |s.actors|
    case Spawn(p, c) =>
      && p < |s.actors| && c < |s.actors| && c != p && !HasChild(s, c) && s.actors[c] == IDLE
      && (RunsHooksOutside(s.actors[p]) || (cfg.scopedHooksReenter && s.actors[p].phase.In?))
    case Reap(c) => c < |s.actors| && !HasChild(s, c) && s.actors[c].phase.Out? && s.actors[c].task.NoTask?
  }

  // ----- effects -----

  function Fresh(id: nat, lock: GitLock, detached: bool): Registration {
    Registration(id, true, None, Unmarked, lock, detached, true, false)
  }

  function Put(s: State, p: Pid, me: Actor): State
    requires p < |s.actors|
  {
    s.(actors := s.actors[p := me])
  }

  // Of all processes, only p changes state.
  predicate OnlyActor(s: State, t: State, p: Pid)
    requires p < |s.actors|
  {
    |t.actors| == |s.actors| && t.actors == s.actors[p := t.actors[p]] && t.actors[p].parent == s.actors[p].parent
    && t.actors[p].underReset == s.actors[p].underReset
  }

  // The path reserved by the holder of the creation lock.
  function ReservedPath(s: State): Path {
    if s.creation.Some? && s.creation.value < |s.actors| && s.actors[s.creation.value].task.Reentrant?
    then s.actors[s.creation.value].task.path
    else ""
  }

  // What a task becomes when its scope ends.
  function AfterScope(t: Task): Task {
    match t
    case Reentrant(_, stage) => if stage.Recorded? || stage.Made? then t else NoTask
    case Prepare(path, stage) => if stage.Filling? then t else Prepare(path, Ending)
    case _ => NoTask
  }

  function ScopeApply(s: State, p: Pid, a: ScopeAction): (t: State)
    requires p < |s.actors| && ScopeEnabled(s, p, a)
    ensures OnlyActor(s, t, p)
  {
    var me := s.actors[p];
    match a
    case Begin => Put(s, p, me.(task := Plain, phase := Waiting))
    case Acquire => Put(s, p, me.(phase := In(NotLooked))).(repo := Some(p))
    case GiveUp =>
      Put(s, p, me.(phase := Out, task := AfterScope(me.task)))
    case Probe =>
      if s.creation.None? then Put(s, p, me.(phase := Probing)).(creation := Some(p))
      else Put(s, p, me.(phase := Reading(ReservedPath(s))))
    case ClearProbe => Put(s, p, me.(phase := In(SawNone))).(record := None, creation := None)
    // The stale record could not be removed: an error, and the lock goes anyway.
    case ClearFails => Put(s, p, me.(phase := In(NotLooked))).(creation := None)
    case ReadRecord => Put(s, p, me.(phase := In(if s.record.Some? then SawPath(s.record.value) else NotLooked)))
    case Identify(path) => s.(regs := s.regs[path := Identified(s.regs[path], p)])
    case CreateHere(path, detached) =>
      s.(regs := s.regs[path := Fresh(s.nextId, Unlocked, detached)], nextId := s.nextId + 1)
    case Remove(path) => s.(regs := s.regs - {path})
    case Prune(path) => s.(regs := s.regs - {path})
    case Leave => Put(s, p, me.(phase := Out, task := AfterScope(me.task))).(repo := None)
  }

  // EnsureIdentity keeps a marker it finds.
  function Identified(r: Registration, p: Pid): Registration {
    if r.identity.Some? then r else r.(identity := Some(p))
  }

  function ClaimApply(s: State, p: Pid, a: ClaimAction): (t: State)
    requires p < |s.actors| && ClaimEnabled(s, p, a)
    ensures OnlyActor(s, t, p)
  {
    var me := s.actors[p];
    match a
    case Look(path) => Put(s, p, me.(task := Claim(path, s.regs[path].id, SawReady)))
    case Miss => Put(s, p, me.(task := Plain))
    case CheckLock => Put(s, p, me.(task := me.task.(claim := SawUnlocked)))
    case CheckStatus => Put(s, p, me.(task := me.task.(claim := Admitted)))
    case Move(path, detached) =>
      Put(s, p, me.(task := Plain))
        .(regs := (s.regs - {me.task.path})[path := s.regs[me.task.path].(detached := detached)])
    case Discard => Put(s, p, me.(task := Plain)).(regs := s.regs - {me.task.path})
  }

  function ReserveApply(s: State, p: Pid, a: ReserveAction): (t: State)
    requires p < |s.actors| && ReserveEnabled(s, p, a)
    ensures OnlyActor(s, t, p)
  {
    var me := s.actors[p];
    match a
    case Ask(path) => Put(s, p, me.(task := Reentrant(path, Asked), phase := Waiting))
    case TakeCreation => Put(s, p, me.(task := me.task.(reentrant := Locked))).(creation := Some(p))
    case WriteRecord => Put(s, p, me.(task := me.task.(reentrant := Recorded))).(record := Some(me.task.path))
    case WriteFails => Put(s, p, me.(task := me.task.(reentrant := Asked))).(creation := None)
    case Make(detached) =>
      Put(s, p, me.(task := me.task.(reentrant := Made(s.nextId))))
        .(regs := s.regs[me.task.path := Fresh(s.nextId, Unlocked, detached)], nextId := s.nextId + 1)
    case Rejoin => Put(s, p, me.(phase := Waiting))
    case RemoveRecord =>
      Put(s, p, me.(task := me.task.(reentrant := Withdrawn(MadeId(me.task.reentrant))))).(record := None)
    case RemoveFails => Put(s, p, me.(task := me.task.(reentrant := Withdrawn(None))))
    case UnlockCreation =>
      var made := me.task.reentrant.made;
      Put(s, p, me.(task :=
          if me.phase.In? then (if made.Some? then me.task.(reentrant := Released(made.value)) else Plain)
          else NoTask)).(creation := None)
    case IdentifyOwn =>
      Put(s, p, me.(task := Plain)).(regs := s.regs[me.task.path := Identified(s.regs[me.task.path], p)])
  }

  function MadeId(stage: ReentrantStage): Option<nat> {
    if stage.Made? then Some(stage.id) else None
  }

  function PrepareApply(cfg: Config, s: State, p: Pid, a: PrepareAction): (t: State)
    requires p < |s.actors| && PrepareEnabled(cfg, s, p, a)
    ensures OnlyActor(s, t, p)
  {
    var me := s.actors[p];
    var path := if me.task.Prepare? then me.task.path else "";
    match a
    case BeginPrepare(path) => Put(s, p, me.(task := Prepare(path, WantsPool)))
    case TakePool =>
      Put(s, p, me.(task := me.task.(prepare := HasPool), phase := Waiting)).(pools := s.pools[cfg.poolOf(path) := p])
    case Adopt => Put(s, p, me.(task := me.task.(prepare := Registered(s.regs[path].id))))
    case DropStale => s.(regs := s.regs - {path})
    case Register =>
      Put(s, p, me.(task := me.task.(prepare := Registered(s.nextId))))
        .(regs := s.regs[path := Fresh(s.nextId, SpareLock, true)], nextId := s.nextId + 1)
    case MarkPreparing =>
      Put(s, p, me.(task := me.task.(prepare := Marked(me.task.prepare.id))))
        .(regs := s.regs[path := s.regs[path].(marker := Preparing)])
    case LockSpare =>
      Put(s, p, me.(task := me.task.(prepare := Filling(me.task.prepare.id))))
        .(regs := s.regs[path := s.regs[path].(lock := SpareLock)])
    case Reset =>
      var id := me.task.prepare.id;
      var reset := Put(s, p, me.(task := me.task.(prepare := Filled(id))));
      if path in s.regs then reset.(regs := s.regs[path := s.regs[path].(clean := true, filled := true)]) else reset
    case RejoinPool => Put(s, p, me.(phase := Waiting))
    case OpenSpare =>
      Put(s, p, me.(task := me.task.(prepare := Opened(me.task.prepare.id))))
        .(regs := s.regs[path := s.regs[path].(lock := Unlocked)])
    case PublishReady =>
      Put(s, p, me.(task := me.task.(prepare := Ending)))
        .(regs := s.regs[path := s.regs[path].(marker := Ready)])
    case Stop => Put(s, p, me.(task := if me.task.prepare.WantsPool? then NoTask else me.task.(prepare := Ending)))
    case End => Put(s, p, me.(task := NoTask)).(pools := s.pools - {cfg.poolOf(path)})
  }

  function NativeApply(s: State, a: NativeAction): (t: State)
    requires NativeEnabled(s, a)
    ensures t.actors == s.actors
  {
    match a
    case Add(path, foreignLock, detached) =>
      s.(regs := s.regs[path := Fresh(s.nextId, if foreignLock then ForeignLock else Unlocked, detached)],
         nextId := s.nextId + 1)
    case Delete(path) => s.(regs := s.regs - {path})
    case SetLock(path, foreignLock) =>
      s.(regs := s.regs[path := s.regs[path].(lock := if foreignLock then ForeignLock else Unlocked)])
    case Edit(path, present, detached, clean) =>
      s.(regs := s.regs[path := s.regs[path].(present := present, detached := detached, clean := clean)])
  }

  const IDLE := Actor(None, false, Out, NoTask)

  // A process started by a hook of p, whose state is `parent`.
  function Hooked(a: Actor, p: Pid, parent: Actor): Actor {
    a.(parent := Some(p), underReset := parent.underReset || ResetsOutside(parent))
  }

  // The kernel frees the flocks of a process that dies. Its hook children live
  // on without a parent.
  function CrashApply(s: State, p: Pid): State
    requires p < |s.actors|
  {
    s.(repo := if s.repo == Some(p) then None else s.repo,
       creation := if s.creation == Some(p) then None else s.creation,
       pools := map k | k in s.pools && s.pools[k] != p :: s.pools[k],
       actors := seq(|s.actors|, i requires 0 <= i < |s.actors| =>
         if i == p then IDLE
         else if s.actors[i].parent == Some(p) then s.actors[i].(parent := None)
         else s.actors[i]))
  }

  function Who(step: Step): Option<Pid> {
    match step
    case Scoped(p, _) => Some(p)
    case Claiming(p, _) => Some(p)
    case Reserving(p, _) => Some(p)
    case Preparation(p, _) => Some(p)
    case Native(_) => None
    case Crash(p) => Some(p)
    case Spawn(p, _) => Some(p)
    case Reap(p) => Some(p)
  }

  function Apply(cfg: Config, s: State, step: Step): (t: State)
    requires Enabled(cfg, s, step)
    ensures |t.actors| == |s.actors|
    ensures forall q | 0 <= q < |s.actors| && Who(step) != Some(q) ::
      t.actors[q].phase == s.actors[q].phase && t.actors[q].task == s.actors[q].task
  {
    match step
    case Scoped(p, a) => ScopeApply(s, p, a)
    case Claiming(p, a) => ClaimApply(s, p, a)
    case Reserving(p, a) => ReserveApply(s, p, a)
    case Preparation(p, a) => PrepareApply(cfg, s, p, a)
    case Native(a) => NativeApply(s, a)
    case Crash(p) => CrashApply(s, p)
    case Spawn(p, c) => Put(s, c, Hooked(s.actors[c], p, s.actors[p]))
    case Reap(c) => Put(s, c, s.actors[c].(parent := None, underReset := false))
  }

  ghost predicate Init(s: State) {
    && s.repo.None? && s.creation.None? && s.pools == map[]
    && (forall path | path in s.regs ::
        s.regs[path].id < s.nextId && (s.regs[path].marker.Ready? ==> s.regs[path].filled))
    && forall p | 0 <= p < |s.actors| :: s.actors[p] == IDLE
  }

  ghost predicate IsRun(cfg: Config, states: seq<State>, steps: seq<Step>) {
    && |states| == |steps| + 1 && Init(states[0])
    && forall i | 0 <= i < |steps| ::
        Enabled(cfg, states[i], steps[i]) && states[i + 1] == Apply(cfg, states[i], steps[i])
  }
}
