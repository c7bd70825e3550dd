/** worktree/base.go: following a source ref while native Git, which does not
    take kwt's lock, updates refs between any two of its commands. */
module BaseSync {
  import opened Wrappers
  import opened RefNames

  // An object ID in hexadecimal, of SHA-1 or SHA-256.
  predicate IsOid(s: string) {
    |s| in {40, 64} && forall c | c in s :: '0' <= c <= '9' || 'a' <= c <= 'f'
  }

  type Oid = s: string | IsOid(s) witness "0000000000000000000000000000000000000000"

  type Refs = map<string, Oid>

  datatype Request = Request(branch: string, backupPrefix: string, managed: bool)

  // The Git commands SyncBase issues, in order.
  datatype Command =
    | CheckBranchFormat | ResolveSource | ResolveBranch | MergeBase | CheckBackupFormat | WriteBackup
    | ListWorktrees | WriteBranch | ListWorktreesAgain | ListRefs

  datatype Error = NamesRequired | PrefixRequired | CommandFailed(command: Command)

  /** Everything SyncBase does not decide itself. */
  datatype World = World(
    // The parents of each commit; content addressing fixes them for good.
    parents: Oid -> set<Oid>,
    // git merge-base --is-ancestor
    isAncestor: (Oid, Oid) -> bool,
    // The commit the source ref names, if any.
    source: Refs -> Option<Oid>,
    // What native Git makes of the refs just before a command.
    native: (Command, Refs) -> Refs,
    // Whether a command fails for a reason of its own.
    fails: Command -> bool,
    // Whether a listing of the worktrees shows the branch checked out.
    checkedOut: Command -> bool)

  datatype Write = Write(ref: string, before: Refs, after: Refs)

  datatype Run = Run(error: Option<Error>, writes: seq<Write>, refs: Refs)

  function BranchRef(req: Request): string {
    HEADS + req.branch
  }

  function Tip(refs: Refs, ref: string): Option<Oid> {
    if ref in refs then Some(refs[ref]) else None
  }

  predicate PrefixOk(prefix: string) {
    prefix != "" && "refs/" <= prefix && prefix[|prefix| - 1] == '/'
  }

  predicate Taken(refs: Refs, name: string) {
    exists r | r in refs :: Comparable(r, name)
  }

  // ----- reachability -----

  ghost predicate IsPath(w: World, p: seq<Oid>) {
    p != [] && forall i | 0 <= i < |p| - 1 :: p[i + 1] in w.parents(p[i])
  }

  ghost predicate Reaches(w: World, from: Oid, to: Oid) {
    exists p :: IsPath(w, p) && p[0] == from && p[|p| - 1] == to
  }

  lemma ReachesItself(w: World, c: Oid)
    ensures Reaches(w, c, c)
  {
    assert IsPath(w, [c]);
  }

  lemma ReachesTransitive(w: World, a: Oid, b: Oid, c: Oid)
    requires Reaches(w, a, b) && Reaches(w, b, c)
    ensures Reaches(w, a, c)
  {
    var p :| IsPath(w, p) && p[0] == a && p[|p| - 1] == b;
    var q :| IsPath(w, q) && q[0] == b && q[|q| - 1] == c;
    var r := p + q[1..];
    forall i | 0 <= i < |r| - 1 ensures r[i + 1] in w.parents(r[i]) {
      assert i + 1 >= |p| ==> r[i + 1] == q[i + 2 - |p|];
      assert i >= |p| - 1 ==> r[i] == q[i + 1 - |p|];
    }
    assert IsPath(w, r);
  }

  ghost predicate Kept(w: World, refs: Refs, commit: Oid) {
    exists r :: r in refs && Reaches(w, refs[r], commit)
  }

  // Every commit reachable before is reachable after.
  ghost predicate KeepsHistory(w: World, before: Refs, after: Refs) {
    forall commit :: Kept(w, before, commit) ==> Kept(w, after, commit)
  }

  // ----- SyncBase -----

  function Failed(command: Command, writes: seq<Write>, refs: Refs): Run {
    Run(Some(CommandFailed(command)), writes, refs)
  }

  function Sync(w: World, req: Request, refs: Refs): Run {
    if req.branch == "" then Run(Some(NamesRequired), [], refs)
    else if w.fails(CheckBranchFormat) then Failed(CheckBranchFormat, [], refs)
    else
      var atSource := w.native(ResolveSource, refs);
      if w.fails(ResolveSource) then Failed(ResolveSource, [], atSource)
      else
        match w.source(atSource)
        case None => Run(None, [], atSource)
        case Some(remote) =>
          var atBranch := w.native(ResolveBranch, atSource);
          if w.fails(ResolveBranch) then Failed(ResolveBranch, [], atBranch)
          else SyncTip(w, req, remote, Tip(atBranch, BranchRef(req)), atBranch)
  }

  // From the reading of the branch on.
  function SyncTip(w: World, req: Request, remote: Oid, local: Option<Oid>, refs: Refs): Run {
    if local.None? then Follow(w, req, remote, local, [], refs)
    else if local.value == remote then Run(None, [], refs)
    else
      var atMerge := w.native(MergeBase, refs);
      if w.fails(MergeBase) then Failed(MergeBase, [], atMerge)
      else if w.isAncestor(local.value, remote) then Follow(w, req, remote, local, [], atMerge)
      else if !req.managed then Run(None, [], atMerge)
      else if !PrefixOk(req.backupPrefix) then Run(Some(PrefixRequired), [], atMerge)
      else if w.fails(CheckBackupFormat) then Failed(CheckBackupFormat, [], atMerge)
      else
        var backup := req.backupPrefix + local.value;
        var before := w.native(WriteBackup, atMerge);
        if w.fails(WriteBackup) then Failed(WriteBackup, [], before)
        else
          var after := before[backup := local.value];
          Follow(w, req, remote, local, [Write(backup, before, after)], after)
  }

  // The checks and the compare-and-swap at the end.
  function Follow(w: World, req: Request, remote: Oid, local: Option<Oid>, writes: seq<Write>, refs: Refs): Run {
    var branch := BranchRef(req);
    var atList := w.native(ListWorktrees, refs);
    if w.fails(ListWorktrees) then Failed(ListWorktrees, writes, atList)
    else if w.checkedOut(ListWorktrees) then Run(None, writes, atList)
    else
      var before := w.native(WriteBranch, atList);
      if !w.fails(WriteBranch) && Tip(before, branch) == local then
        var after := before[branch := remote];
        Run(None, writes + [Write(branch, before, after)], after)
      else
        var again := w.native(ListWorktreesAgain, before);
        if !w.fails(ListWorktreesAgain) && w.checkedOut(ListWorktreesAgain) then Run(None, writes, again)
        else if local.None? then
          var listed := w.native(ListRefs, again);
          if !w.fails(ListRefs) && Taken(listed, branch) then Run(None, writes, listed)
          else Failed(WriteBranch, writes, listed)
        else Failed(WriteBranch, writes, again)
  }

  class Repository {
    var refs: Refs
    ghost var writes: seq<Write>

    constructor (initial: Refs)
      ensures refs == initial && writes == []
    {
      refs := initial;
      writes := [];
    }

    method Native(w: World, command: Command)
      modifies this
      ensures refs == w.native(command, old(refs)) && writes == old(writes)
    {
      refs := w.native(command, refs);
    }

    // git update-ref without an expected old value.
    method UpdateRef(ref: string, value: Oid)
      modifies this
      ensures refs == old(refs)[ref := value]
      ensures writes == old(writes) + [Write(ref, old(refs), refs)]
    {
      ghost var before := refs;
      refs := refs[ref := value];
      writes := writes + [Write(ref, before, refs)];
    }

    method SyncBase(w: World, req: Request) returns (error: Option<Error>)
      requires writes == []
      modifies this
      ensures Run(error, writes, refs) == Sync(w, req, old(refs))
    {
      if req.branch == "" {
        return Some(NamesRequired);
      }
      if w.fails(CheckBranchFormat) {
        return Some(CommandFailed(CheckBranchFormat));
      }
      Native(w, ResolveSource);
      if w.fails(ResolveSource) {
        return Some(CommandFailed(ResolveSource));
      }
      var remote := w.source(refs);
      if remote.None? {
        return None;
      }
      Native(w, ResolveBranch);
      if w.fails(ResolveBranch) {
        return Some(CommandFailed(ResolveBranch));
      }
      var local := Tip(refs, BranchRef(req));
      if local.Some? {
        if local == remote {
          return None;
        }
        Native(w, MergeBase);
        if w.fails(MergeBase) {
          return Some(CommandFailed(MergeBase));
        }
        if !w.isAncestor(local.value, remote.value) {
          if !req.managed {
            return None;
          }
          if !PrefixOk(req.backupPrefix) {
            return Some(PrefixRequired);
          }
          var backup := req.backupPrefix + local.value;
          if w.fails(CheckBackupFormat) {
            return Some(CommandFailed(CheckBackupFormat));
          }
          Native(w, WriteBackup);
          if w.fails(WriteBackup) {
            return Some(CommandFailed(WriteBackup));
          }
          UpdateRef(backup, local.value);
        }
      }
      Native(w, ListWorktrees);
      if w.fails(ListWorktrees) {
        return Some(CommandFailed(ListWorktrees));
      }
      if w.checkedOut(ListWorktrees) {
        return None;
      }
      Native(w, WriteBranch);
      if !w.fails(WriteBranch) && Tip(refs, BranchRef(req)) == local {
        UpdateRef(BranchRef(req), remote.value);
        return None;
      }
      Native(w, ListWorktreesAgain);
      if !w.fails(ListWorktreesAgain) && w.checkedOut(ListWorktreesAgain) {
        return None;
      }
      if local.None? {
        Native(w, ListRefs);
        if !w.fails(ListRefs) && Taken(refs, BranchRef(req)) {
          return None;
        }
      }
      return Some(CommandFailed(WriteBranch));
    }
  }

  // ----- no history is lost -----

  // Backup refs are named by the commit they hold.
  ghost predicate BackupsNamed(req: Request, refs: Refs) {
    forall oid: Oid | req.backupPrefix + oid in refs :: refs[req.backupPrefix + oid] == oid
  }

  // Git answers ancestry truthfully, and native users leave backup refs alone.
  ghost predicate Sound(w: World, req: Request) {
    && (forall a, b :: w.isAncestor(a, b) <==> Reaches(w, b, a))
    && (PrefixOk(req.backupPrefix) ==> forall command, refs :: LeavesBackups(req, refs, w.native(command, refs)))
  }

  ghost predicate LeavesBackups(req: Request, before: Refs, after: Refs) {
    BackupsNamed(req, before) ==>
      && BackupsNamed(req, after)
      && forall oid: Oid | req.backupPrefix + oid in before :: req.backupPrefix + oid in after
  }

  ghost predicate BackedUp(req: Request, refs: Refs, tip: Oid) {
    req.managed && PrefixOk(req.backupPrefix) && Tip(refs, req.backupPrefix + tip) == Some(tip)
  }

  // The ref was absent or is fast-forwarded.
  ghost predicate Grows(w: World, write: Write)
    requires write.ref in write.after
  {
    var was := Tip(write.before, write.ref);
    was.None? || Reaches(w, write.after[write.ref], was.value)
  }

  // A write sets one ref, and that ref grows or has its old commit under a
  // backup ref.
  ghost predicate SafeUpdate(w: World, req: Request, write: Write) {
    && write.ref in write.after
    && write.after == write.before[write.ref := write.after[write.ref]]
    && (Grows(w, write) || BackedUp(req, write.before, write.before[write.ref]))
  }

  // The branch is itself the backup ref of some commit: its ref is the backup
  // prefix followed by an object ID.
  predicate BacksUpOntoItself(req: Request) {
    req.managed && PrefixOk(req.backupPrefix) && req.backupPrefix <= BranchRef(req)
    && IsOid(BranchRef(req)[|req.backupPrefix|..])
  }

  lemma FollowWrites(w: World, req: Request, remote: Oid, local: Option<Oid>, writes: seq<Write>, refs: Refs)
    requires Sound(w, req) && (PrefixOk(req.backupPrefix) ==> BackupsNamed(req, refs))
    requires local.None? || Reaches(w, remote, local.value) || BackedUp(req, refs, local.value)
    ensures var run := Follow(w, req, remote, local, writes, refs);
      run.writes == writes
      || exists write :: run.writes == writes + [write] && write.ref == BranchRef(req) && SafeUpdate(w, req, write)
  {
  }

  lemma SyncTipWrites(w: World, req: Request, remote: Oid, local: Option<Oid>, refs: Refs)
    requires Sound(w, req) && (PrefixOk(req.backupPrefix) ==> BackupsNamed(req, refs))
    ensures forall write | write in SyncTip(w, req, remote, local, refs).writes ::
      SafeUpdate(w, req, write) && (write.ref == BranchRef(req) || Grows(w, write))
  {
    hide Follow, Reaches, IsOid;
    var run := SyncTip(w, req, remote, local, refs);
    var atMerge := w.native(MergeBase, refs);
    var before := w.native(WriteBackup, atMerge);
    if local.None? {
      FollowWrites(w, req, remote, local, [], refs);
    } else if w.isAncestor(local.value, remote) {
      if PrefixOk(req.backupPrefix) { assert LeavesBackups(req, refs, atMerge); }
      FollowWrites(w, req, remote, local, [], atMerge);
    } else if req.managed && PrefixOk(req.backupPrefix) {
      assert LeavesBackups(req, refs, atMerge) && LeavesBackups(req, atMerge, before);
      var backup := req.backupPrefix + local.value;
      var after := before[backup := local.value];
      BackupWrite(w, req, local.value, before, after);
      FollowWrites(w, req, remote, local, [Write(backup, before, after)], after);
    }
  }

  lemma BackupWrite(w: World, req: Request, tip: Oid, before: Refs, after: Refs)
    requires req.managed && PrefixOk(req.backupPrefix) && BackupsNamed(req, before)
    requires after == before[req.backupPrefix + tip := tip]
    ensures BackupsNamed(req, after) && BackedUp(req, after, tip)
    ensures var write := Write(req.backupPrefix + tip, before, after);
      SafeUpdate(w, req, write) && Grows(w, write)
  {
    ReachesItself(w, tip);
    forall oid: Oid | req.backupPrefix + oid in after ensures after[req.backupPrefix + oid] == oid {
      if req.backupPrefix + oid == req.backupPrefix + tip {
        assert oid == (req.backupPrefix + oid)[|req.backupPrefix|..];
      }
    }
  }

  /** Every branch write creates an absent branch, fast-forwards the tip it
      replaces, or rewinds it while a backup ref holds that tip, whatever native
      Git does between the commands. */
  lemma SyncWritesSafely(w: World, req: Request, refs: Refs)
    requires Sound(w, req) && (PrefixOk(req.backupPrefix) ==> BackupsNamed(req, refs))
    ensures forall write | write in Sync(w, req, refs).writes ::
      SafeUpdate(w, req, write) && (write.ref == BranchRef(req) || Grows(w, write))
  {
    hide SyncTip, Reaches, IsOid, BackupsNamed;
    var atSource := w.native(ResolveSource, refs);
    var atBranch := w.native(ResolveBranch, atSource);
    if PrefixOk(req.backupPrefix) {
      assert LeavesBackups(req, refs, atSource) && LeavesBackups(req, atSource, atBranch);
    }
    if w.source(atSource).Some? {
      SyncTipWrites(w, req, w.source(atSource).value, Tip(atBranch, BranchRef(req)), atBranch);
    }
  }

  // A write that replaces a tip does not overwrite that tip's backup.
  lemma SeparateBackup(req: Request, tip: Oid)
    requires req.managed && PrefixOk(req.backupPrefix) && req.backupPrefix + tip == BranchRef(req)
    ensures BacksUpOntoItself(req)
  {
  }

  lemma SafeUpdateKeepsHistory(w: World, req: Request, write: Write)
    requires SafeUpdate(w, req, write)
    requires Grows(w, write) || (write.ref == BranchRef(req) && !BacksUpOntoItself(req))
    ensures KeepsHistory(w, write.before, write.after)
  {
    hide Reaches, IsOid, BacksUpOntoItself;
    forall commit | Kept(w, write.before, commit) ensures Kept(w, write.after, commit) {
      var r :| r in write.before && Reaches(w, write.before[r], commit);
      if r != write.ref {
        assert write.after[r] == write.before[r];
      } else if Grows(w, write) {
        ReachesTransitive(w, write.after[r], write.before[r], commit);
      } else {
        var backup := req.backupPrefix + write.before[r];
        if backup == write.ref {
          SeparateBackup(req, write.before[r]);
        }
        assert write.after[backup] == write.before[r];
      }
    }
  }

  /** A sync loses no commit that any ref still reached, unless the branch is
      its own backup ref. */
  lemma SyncLosesNothing(w: World, req: Request, refs: Refs)
    requires Sound(w, req) && (PrefixOk(req.backupPrefix) ==> BackupsNamed(req, refs))
    requires !BacksUpOntoItself(req)
    ensures forall write | write in Sync(w, req, refs).writes :: KeepsHistory(w, write.before, write.after)
  {
    hide Sync, Reaches, IsOid, BacksUpOntoItself, SafeUpdate, Grows, KeepsHistory;
    SyncWritesSafely(w, req, refs);
    forall write | write in Sync(w, req, refs).writes ensures KeepsHistory(w, write.before, write.after) {
      Sets(w, req, write);
      SafeUpdateKeepsHistory(w, req, write);
    }
  }

  lemma Sets(w: World, req: Request, write: Write)
    requires SafeUpdate(w, req, write)
    ensures write.ref in write.after
  {
  }

  // ----- the exception -----

  const ONE: Oid := "0000000000000000000000000000000000000000"
  const OTHER: Oid := "1111111111111111111111111111111111111111"

  lemma OidIsLong(oid: Oid)
    ensures |oid| >= 40
  {
  }

  lemma Distinct()
    ensures ONE != OTHER
  {
  }

  // Two commits without parents, a source naming one of them, and nobody else
  // at work.
  function Still(remote: Oid): World {
    World(_ => {}, (a, b) => a == b, _ => Some(remote), (_, refs) => refs, _ => false, _ => false)
  }

  lemma StillReaches(remote: Oid, a: Oid, b: Oid)
    ensures Reaches(Still(remote), a, b) <==> a == b
  {
    var w := Still(remote);
    ReachesItself(w, a);
    if Reaches(w, a, b) {
      var p :| IsPath(w, p) && p[0] == a && p[|p| - 1] == b;
      if |p| > 1 {
        FirstStep(w, p);
      }
    }
  }

  lemma FirstStep(w: World, p: seq<Oid>)
    requires IsPath(w, p) && |p| > 1
    ensures p[1] in w.parents(p[0])
  {
  }

  ghost predicate CanLose(req: Request, w: World, refs: Refs) {
    && Sound(w, req) && (PrefixOk(req.backupPrefix) ==> BackupsNamed(req, refs))
    && exists write :: write in Sync(w, req, refs).writes && !KeepsHistory(w, write.before, write.after)
  }

  /** A sync can lose history exactly when backups are made and the ref of its
      branch is the backup prefix followed by an object ID: refs/heads/team/<oid>
      with backups under refs/heads/team/, say. */
  lemma LosesExactlyWhenBackedUpOntoItself(req: Request)
    ensures (exists w, refs :: CanLose(req, w, refs)) <==> BacksUpOntoItself(req)
  {
    hide IsOid, Sync, Sound, BackupsNamed, KeepsHistory, ONE, OTHER;
    forall w, refs | CanLose(req, w, refs) ensures BacksUpOntoItself(req) {
      if !BacksUpOntoItself(req) {
        SyncLosesNothing(w, req, refs);
      }
    }
    Distinct();
    if BacksUpOntoItself(req) {
      var branch := BranchRef(req);
      var tip: Oid := branch[|req.backupPrefix|..];
      var remote := if tip == ONE then OTHER else ONE;
      SelfBackupLoses(req, tip, remote);
    }
  }

  lemma SelfBackupLoses(req: Request, tip: Oid, remote: Oid)
    requires req.managed && PrefixOk(req.backupPrefix) && req.backupPrefix + tip == BranchRef(req) && tip != remote
    ensures CanLose(req, Still(remote), map[BranchRef(req) := tip])
  {
    hide IsOid, Reaches;
    var w, branch := Still(remote), BranchRef(req);
    var refs: Refs := map[branch := tip];
    OidIsLong(tip);
    assert |branch| == |HEADS| + |req.branch| == |req.backupPrefix| + |tip|;
    forall a, b ensures w.isAncestor(a, b) <==> Reaches(w, b, a) { StillReaches(remote, b, a); }
    forall oid: Oid | req.backupPrefix + oid in refs ensures refs[req.backupPrefix + oid] == oid {
      assert oid == (req.backupPrefix + oid)[|req.backupPrefix|..] == branch[|req.backupPrefix|..] == tip;
    }
    var backup := Write(branch, refs, refs[branch := tip]);
    var write := Write(branch, refs, refs[branch := remote]);
    assert refs[branch := tip] == refs;
    assert Sync(w, req, refs).writes == [backup, write];
    assert Kept(w, refs, tip) by { StillReaches(remote, tip, tip); }
    assert !Kept(w, write.after, tip) by { StillReaches(remote, remote, tip); }
    assert write in Sync(w, req, refs).writes;
  }

  // ----- when the branch is written, and what the caller is told -----

  // A listing of the worktrees that succeeded and does not show the branch.
  predicate ListedFree(w: World, listing: Command) {
    !w.fails(listing) && !w.checkedOut(listing)
  }

  predicate ListedCheckedOut(w: World, listing: Command) {
    !w.fails(listing) && w.checkedOut(listing)
  }

  // A backup: the prefix followed by the commit it holds.
  predicate IsBackup(req: Request, write: Write) {
    req.managed && write.ref in write.after && write.ref == req.backupPrefix + write.after[write.ref]
  }

  /** No branch that is seen checked out is rewritten: every write but a backup is
      the last one, sets the branch, and follows a listing of the worktrees that
      succeeded and did not show it. */
  lemma ChecksOutBeforeWriting(w: World, req: Request, refs: Refs)
    ensures var writes := Sync(w, req, refs).writes;
      && |writes| <= 2
      && forall i | 0 <= i < |writes| :: IsBackup(req, writes[i])
           || (i == |writes| - 1 && writes[i].ref == BranchRef(req) && ListedFree(w, ListWorktrees))
  {
    hide IsOid;
  }

  // The refs as the sync finds them at its steps, when none of them ends it.
  datatype Trail = Trail(
    atSource: Refs, atBranch: Refs, remote: Oid, local: Option<Oid>, atMerge: Refs, backedUp: Refs, backups: seq<Write>,
    atList: Refs, atWrite: Refs)

  // The sync gets as far as its compare-and-swap, and sees this on its way.
  ghost predicate Arrives(w: World, req: Request, refs: Refs, t: Trail) {
    && req.branch != "" && !w.fails(CheckBranchFormat) && !w.fails(ResolveSource) && !w.fails(ResolveBranch)
    && t.atSource == w.native(ResolveSource, refs) && w.source(t.atSource) == Some(t.remote)
    && t.atBranch == w.native(ResolveBranch, t.atSource)
    && t.local == (if BranchRef(req) in t.atBranch then Some(t.atBranch[BranchRef(req)]) else None)
    && t.local != Some(t.remote)
    && (t.local.Some? ==> !w.fails(MergeBase))
    && t.atMerge == (if t.local.Some? then w.native(MergeBase, t.atBranch) else t.atBranch)
    && (if t.local.None? || w.isAncestor(t.local.value, t.remote) then
          t.backedUp == t.atMerge && t.backups == []
        else
          && req.managed && PrefixOk(req.backupPrefix) && !w.fails(CheckBackupFormat) && !w.fails(WriteBackup)
          && var before := w.native(WriteBackup, t.atMerge);
          && t.backedUp == before[req.backupPrefix + t.local.value := t.local.value]
          && t.backups == [Write(req.backupPrefix + t.local.value, before, t.backedUp)])
    && ListedFree(w, ListWorktrees)
    && t.atList == w.native(ListWorktrees, t.backedUp) && t.atWrite == w.native(WriteBranch, t.atList)
  }

  // The update-ref of the branch finds the tip read before.
  predicate Swaps(w: World, req: Request, t: Trail) {
    !w.fails(WriteBranch)
    && (if t.local.None? then BranchRef(req) !in t.atWrite
        else BranchRef(req) in t.atWrite && t.atWrite[BranchRef(req)] == t.local.value)
  }

  // Something else explains why the branch could not be written: it is checked
  // out now, or a branch that conflicts with it has appeared.
  ghost predicate Excused(w: World, req: Request, t: Trail) {
    || ListedCheckedOut(w, ListWorktreesAgain)
    || (t.local.None? && !w.fails(ListRefs)
        && exists ref :: ref in w.native(ListRefs, w.native(ListWorktreesAgain, t.atWrite))
             && Comparable(ref, BranchRef(req)))
  }

  /** A sync writes the branch exactly when it gets as far as its compare-and-swap
      and still finds the tip it read. A lost one is an error unless the branch is
      checked out by then or, where it was absent, a conflicting one exists. */
  lemma SwapsExactly(w: World, req: Request, refs: Refs, t: Trail)
    requires Arrives(w, req, refs, t)
    ensures var run := Sync(w, req, refs);
      if Swaps(w, req, t) then
        var after := t.atWrite[BranchRef(req) := t.remote];
        run == Run(None, t.backups + [Write(BranchRef(req), t.atWrite, after)], after)
      else
        && run.writes == t.backups
        && run.error == if Excused(w, req, t) then None else Some(CommandFailed(WriteBranch))
  {
    hide IsOid;
  }

  // There is nothing to follow or nothing to do, the branch may not be rewound, or
  // it is checked out; no command has failed by then.
  ghost predicate NothingToDo(w: World, req: Request, refs: Refs) {
    var atSource := w.native(ResolveSource, refs);
    && req.branch != "" && !w.fails(CheckBranchFormat) && !w.fails(ResolveSource)
    && (|| w.source(atSource).None?
        || NothingToFollow(w, req, w.source(atSource).value, w.native(ResolveBranch, atSource)))
  }

  ghost predicate NothingToFollow(w: World, req: Request, remote: Oid, atBranch: Refs) {
    var branch := BranchRef(req);
    var diverged := branch in atBranch && !w.isAncestor(atBranch[branch], remote);
    && !w.fails(ResolveBranch)
    && ( || (branch in atBranch && atBranch[branch] == remote)
         || (&& (branch in atBranch ==> !w.fails(MergeBase))
             && ( || (diverged && !req.managed)
                  || (ListedCheckedOut(w, ListWorktrees)
                      && (diverged ==>
                            PrefixOk(req.backupPrefix) && !w.fails(CheckBackupFormat) && !w.fails(WriteBackup))))))
  }

  // The trail of a sync that no step has ended.
  function TrailOf(w: World, req: Request, refs: Refs, remote: Oid): Trail {
    var atSource := w.native(ResolveSource, refs);
    var atBranch := w.native(ResolveBranch, atSource);
    var local := Tip(atBranch, BranchRef(req));
    var atMerge := if local.Some? then w.native(MergeBase, atBranch) else atBranch;
    var before := w.native(WriteBackup, atMerge);
    var diverged := local.Some? && !w.isAncestor(local.value, remote);
    var backedUp := if diverged then before[req.backupPrefix + local.value := local.value] else atMerge;
    var backups := if diverged then [Write(req.backupPrefix + local.value, before, backedUp)] else [];
    var atList := w.native(ListWorktrees, backedUp);
    Trail(atSource, atBranch, remote, local, atMerge, backedUp, backups, atList, w.native(WriteBranch, atList))
  }

  /** What a sync answers that does not get that far: there is no error exactly
      when there is nothing to do. */
  lemma StopsEarly(w: World, req: Request, refs: Refs)
    requires !exists t :: Arrives(w, req, refs, t)
    ensures var run := Sync(w, req, refs);
      && (run.error.None? <==> NothingToDo(w, req, refs))
      && (req.branch == "" <==> run.error == Some(NamesRequired))
      && (run.error == Some(PrefixRequired) ==> req.managed && var prefix := req.backupPrefix;
            prefix == "" || prefix[|prefix| - 1] != '/' || |prefix| < 5 || prefix[..5] != "refs/")
  {
    hide IsOid;
    var atSource := w.native(ResolveSource, refs);
    if w.source(atSource).Some? {
      assert !Arrives(w, req, refs, TrailOf(w, req, refs, w.source(atSource).value));
    }
  }

  // It writes nothing but the backup of a branch then found checked out.
  lemma WritesNothingEarly(w: World, req: Request, refs: Refs)
    requires !exists t :: Arrives(w, req, refs, t)
    ensures var run := Sync(w, req, refs);
      && (forall write | write in run.writes :: IsBackup(req, write))
      && (run.error.None? && run.writes != [] ==> ListedCheckedOut(w, ListWorktrees))
      && (run.error.Some? && run.error.value.CommandFailed? ==>
            w.fails(run.error.value.command) && run.error.value.command != WriteBranch)
  {
    hide IsOid;
    ChecksOutBeforeWriting(w, req, refs);
    var atSource := w.native(ResolveSource, refs);
    if w.source(atSource).Some? {
      assert !Arrives(w, req, refs, TrailOf(w, req, refs, w.source(atSource).value));
    }
  }

  // ----- what an undisturbed sync achieves -----

  ghost predicate Quiet(w: World) {
    && (forall command, refs :: w.native(command, refs) == refs)
    && (forall command :: !w.fails(command))
  }

  /** Undisturbed, a sync brings the branch to the source unless the branch has
      diverged and may not be rewound, or is checked out; syncing again then
      changes nothing. */
  lemma QuietSyncSettles(w: World, req: Request, refs: Refs, remote: Oid)
    requires Quiet(w) && req.branch != "" && forall r :: w.source(r) == Some(remote)
    requires !BacksUpOntoItself(req)
    ensures var run, local := Sync(w, req, refs), Tip(refs, BranchRef(req));
      var follows := local.None? || local.value == remote || w.isAncestor(local.value, remote)
                     || (req.managed && PrefixOk(req.backupPrefix));
      && Tip(run.refs, BranchRef(req)) == (if follows && !w.checkedOut(ListWorktrees) then Some(remote) else local)
      && (run.error == Some(PrefixRequired) <==> !follows && req.managed)
      && (run.error.Some? ==> run.error == Some(PrefixRequired))
      && Sync(w, req, run.refs).refs == run.refs
      && (forall write | write in Sync(w, req, run.refs).writes :: IsBackup(req, write) && write.after == write.before)
      && (!w.checkedOut(ListWorktrees) ==> Sync(w, req, run.refs).writes == [])
  {
  }
}
