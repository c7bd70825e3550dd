/** The branch name search of worktree/branch.go. */
module BranchNames {
  import opened Wrappers
  import opened RefNames

  // No ref is another one or lies below it: what Git keeps.
  ghost predicate ConflictFree(refs: seq<string>) {
    forall i, j | 0 <= i < j < |refs| :: !Comparable(refs[i], refs[j])
  }

  ghost predicate Available(refs: seq<string>, branch: string) {
    forall i | 0 <= i < |refs| :: !Comparable(refs[i], HEADS + branch)
  }

  // A ref stands where the branch needs a directory.
  ghost predicate HasAncestor(refs: seq<string>, branch: string) {
    exists i :: 0 <= i < |refs| && Components(refs[i]) < Components(HEADS + branch)
  }

  // The first ref in the way is such an ancestor.
  ghost predicate AncestorFirst(refs: seq<string>, branch: string) {
    exists i :: 0 <= i < |refs| && Components(refs[i]) < Components(HEADS + branch) && Clear(refs, i, HEADS + branch)
  }

  ghost predicate Clear(refs: seq<string>, n: nat, want: string)
    requires n <= |refs|
  {
    forall i | 0 <= i < n :: !Comparable(refs[i], want)
  }

  method BranchAvailable(refs: seq<string>, branch: string) returns (available: bool, ancestorConflict: bool)
    ensures available <==> Available(refs, branch)
    ensures ancestorConflict <==> AncestorFirst(refs, branch)
  {
    hide Components;
    var want := HEADS + branch;
    for n := 0 to |refs|
      invariant Clear(refs, n, want)
    {
      var ref := refs[n];
      PrefixExactly(want, ref);
      PrefixExactly(ref, want);
      if ref + "/" <= want {
        return false, true;
      }
      if ref == want || want + "/" <= ref {
        return false, false;
      }
    }
    return true, false;
  }

  /** On a conflict-free set, in any order, the flag says whether some ref stands
      above the branch. */
  lemma AncestorExactly(refs: seq<string>, branch: string)
    requires ConflictFree(refs)
    ensures AncestorFirst(refs, branch) <==> HasAncestor(refs, branch)
  {
  }

  // Elsewhere the order does matter.
  lemma OrderMattersUnderConflicts()
    ensures exists refs, others, branch :: AncestorOrderDiffers(refs, others, branch)
  {
    hide Components;
    var above, want := HEADS + "a", HEADS + "a/b";
    assert above + "/" <= want;
    PrefixExactly(want, above);
    var refs, others := [above, want], [want, above];
    assert multiset(refs) == multiset(others);
    assert AncestorFirst(refs, "a/b") by { assert Clear(refs, 0, want); }
    assert !AncestorFirst(others, "a/b") by { assert Comparable(others[0], want); }
    assert AncestorOrderDiffers(refs, others, "a/b");
  }

  ghost predicate AncestorOrderDiffers(refs: seq<string>, others: seq<string>, branch: string) {
    multiset(refs) == multiset(others) && AncestorFirst(refs, branch) && !AncestorFirst(others, branch)
  }

  /** The order refs are listed in does not matter. */
  lemma OrderIndependent(refs: seq<string>, others: seq<string>, branch: string)
    requires multiset(refs) == multiset(others)
    ensures Available(refs, branch) <==> Available(others, branch)
    ensures HasAncestor(refs, branch) <==> HasAncestor(others, branch)
  {
    assert forall r :: r in refs <==> r in others by {
      forall r ensures r in refs <==> r in others {
        assert r in multiset(refs) <==> r in multiset(others);
      }
    }
    Listed(refs, others, branch);
    Listed(others, refs, branch);
  }

  lemma Listed(refs: seq<string>, others: seq<string>, branch: string)
    requires forall r | r in refs :: r in others
    ensures Available(others, branch) ==> Available(refs, branch)
    ensures HasAncestor(refs, branch) ==> HasAncestor(others, branch)
  {
    forall i | 0 <= i < |refs| ensures exists j :: 0 <= j < |others| && others[j] == refs[i] {
      assert refs[i] in others;
    }
  }

  /** Creating an available branch keeps the set conflict-free. */
  lemma CreationKeepsConflictFree(refs: seq<string>, branch: string)
    requires ConflictFree(refs)
    ensures ConflictFree(refs + [HEADS + branch]) <==> Available(refs, branch)
  {
    var more := refs + [HEADS + branch];
    assert more[|refs|] == HEADS + branch;
    if ConflictFree(more) {
      forall i | 0 <= i < |refs| ensures !Comparable(refs[i], HEADS + branch) {
        assert more[i] == refs[i];
      }
    }
  }

  // ----- the search -----

  datatype NameError = StartOutOfRange | InvalidName(name: string) | AllTaken

  datatype Selection = Selection(branch: string, next: nat)

  function Parts(branch: string): (r: seq<string>)
    ensures r != []
  {
    Components(branch)
  }

  // The branch with its component i renamed.
  function Renamed(branch: string, i: nat, suffix: string): string
    requires i < |Parts(branch)|
  {
    var parts := Parts(branch);
    Join(parts[i := parts[i] + "-" + suffix])
  }

  lemma LastRenamed(branch: string, suffix: string)
    ensures Renamed(branch, |Parts(branch)| - 1, suffix) == branch + "-" + suffix
  {
    var parts := Parts(branch);
    var last := |parts| - 1;
    JoinComponents(branch);
    var renamed := parts[last := parts[last] + "-" + suffix];
    if last > 0 {
      var front := parts[..last];
      assert parts == front + [parts[last]] && renamed == front + [renamed[last]];
      JoinConcat(front, [parts[last]]);
      JoinConcat(front, [renamed[last]]);
      assert Join(front) + ("/" + (parts[last] + "-" + suffix)) == Join(front) + ("/" + parts[last]) + "-" + suffix;
    }
  }

  // Every name for this suffix with a component from i on renamed is taken; without
  // an ancestor conflict only the last component is ever renamed.
  ghost predicate TakenFrom(refs: seq<string>, branch: string, suffix: string, ancestor: bool, i: nat) {
    forall j: nat | i <= j < |Parts(branch)| && (ancestor || j == |Parts(branch)| - 1) ::
      !Available(refs, Renamed(branch, j, suffix))
  }

  ghost predicate TakenFor(
    refs: seq<string>, branch: string, suffixes: seq<string>, ancestor: bool, start: nat, n: nat)
    requires n <= |suffixes|
  {
    forall m: nat | start <= m < n :: TakenFrom(refs, branch, suffixes[m], ancestor, 0)
  }

  // Component i with suffix n is the first available choice: suffixes in order,
  // and for each one components from the last to the first.
  ghost predicate FirstChoice(
    refs: seq<string>, branch: string, suffixes: seq<string>, ancestor: bool, start: nat, n: nat, i: nat)
  {
    && start <= n < |suffixes| && i < |Parts(branch)| && (ancestor || i == |Parts(branch)| - 1)
    && Available(refs, Renamed(branch, i, suffixes[n]))
    && TakenFrom(refs, branch, suffixes[n], ancestor, i + 1)
    && TakenFor(refs, branch, suffixes, ancestor, start, n)
  }

  // What git for-each-ref lists under refs/heads.
  ghost predicate BranchList(refs: seq<string>) {
    ConflictFree(refs) && forall ref | ref in refs :: HEADS <= ref
  }

  ghost predicate DistinctSuffixes(suffixes: seq<string>) {
    && (forall i | 0 <= i < |suffixes| :: SlashFree(suffixes[i]))
    && forall i, j | 0 <= i < j < |suffixes| :: suffixes[i] != suffixes[j]
  }

  /** selectBranch. `valid` is git check-ref-format --branch. */
  method SelectBranch(refs: seq<string>, valid: string -> bool, branch: string, suffixes: seq<string>, start: int)
    returns (result: Result<Selection, NameError>)
    ensures result == Err(StartOutOfRange) <==> !(0 <= start < |suffixes|)
    ensures 0 <= start < |suffixes| && !valid(branch) ==> result == Err(InvalidName(branch))
    ensures result.Ok? ==> exists n: nat, i: nat ::
      && FirstChoice(refs, branch, suffixes, AncestorFirst(refs, branch), start, n, i)
      && result.value == Selection(Renamed(branch, i, suffixes[n]), n + 1) && valid(result.value.branch)
    ensures result.Err? && result.error.InvalidName? && valid(branch) ==> exists n: nat, i: nat ::
      && FirstChoice(refs, branch, suffixes, AncestorFirst(refs, branch), start, n, i)
      && result.error.name == Renamed(branch, i, suffixes[n]) && !valid(result.error.name)
    ensures result == Err(AllTaken) ==>
      TakenFor(refs, branch, suffixes, AncestorFirst(refs, branch), start, |suffixes|)
    ensures result == Err(AllTaken) && BranchList(refs) && DistinctSuffixes(suffixes) ==> |suffixes| - start <= |refs|
  {
    hide Available, AncestorFirst, Parts, Renamed;
    if start < 0 || start >= |suffixes| {
      return Err(StartOutOfRange);
    }
    if !valid(branch) {
      return Err(InvalidName(branch));
    }
    var _, ancestor := BranchAvailable(refs, branch);
    for index := start to |suffixes|
      invariant TakenFor(refs, branch, suffixes, ancestor, start, index)
    {
      var suffix := suffixes[index];
      var candidates := Candidates(branch, suffix, ancestor);
      for k := 0 to |candidates|
        invariant TakenFrom(refs, branch, suffix, ancestor, |Parts(branch)| - k)
      {
        var candidate := candidates[k];
        var available, _ := BranchAvailable(refs, candidate);
        if available {
          assert FirstChoice(refs, branch, suffixes, ancestor, start, index, |Parts(branch)| - 1 - k);
          if !valid(candidate) {
            return Err(InvalidName(candidate));
          }
          return Ok(Selection(candidate, index + 1));
        }
      }
    }
    SearchRunsOut(refs, branch, suffixes, start);
    return Err(AllTaken);
  }

  // The names tried for one suffix, in order: the last component renamed, then
  // under an ancestor conflict the ones above it, upwards.
  method Candidates(branch: string, suffix: string, ancestor: bool) returns (candidates: seq<string>)
    ensures |candidates| == if ancestor then |Parts(branch)| else 1
    ensures forall k | 0 <= k < |candidates| :: candidates[k] == Renamed(branch, |Parts(branch)| - 1 - k, suffix)
  {
    var parts := Parts(branch);
    LastRenamed(branch, suffix);
    candidates := [branch + "-" + suffix];
    if ancestor {
      var i := |parts| - 2;
      while i >= 0
        invariant -1 <= i <= |parts| - 2
        invariant |candidates| == |parts| - 1 - i
        invariant forall k | 0 <= k < |candidates| :: candidates[k] == Renamed(branch, |parts| - 1 - k, suffix)
      {
        var candidate := parts[i := parts[i] + "-" + suffix];
        candidates := candidates + [Join(candidate)];
        i := i - 1;
      }
    }
  }

  // ----- which renames can help -----

  lemma UnderHeads(branch: string)
    ensures Components(HEADS + branch) == ["refs", "heads"] + Parts(branch)
  {
    hide Components;
    assert SlashFree("refs") && SlashFree("heads");
    SlashFreeComponents("refs");
    SlashFreeComponents("heads");
    ComponentsConcat("refs", "heads");
    ComponentsConcat("refs/heads", branch);
    assert "refs" + ("/" + "heads") == "refs/heads";
    assert "refs/heads" + ("/" + branch) == HEADS + branch;
  }

  // A rename leaves the components before it alone.
  lemma RenamedKeepsHead(branch: string, i: nat, suffix: string)
    requires i < |Parts(branch)|
    ensures Parts(branch)[..i] <= Parts(Renamed(branch, i, suffix))
    ensures SlashFree(suffix) ==>
      Parts(Renamed(branch, i, suffix)) == Parts(branch)[i := Parts(branch)[i] + "-" + suffix]
  {
    hide Components, Join;
    var parts := Parts(branch);
    var renamed := parts[i := parts[i] + "-" + suffix];
    JoinComponents(branch);
    if i > 0 {
      var head, tail := parts[..i], renamed[i..];
      assert renamed == head + tail;
      JoinConcat(head, tail);
      assert forall p | p in head :: p in parts;
      ComponentsJoin(head);
      ComponentsConcat(Join(head), Join(tail));
    }
    if SlashFree(suffix) {
      assert SlashFree(renamed[i]) by { assert parts[i] in parts; }
      forall p | p in renamed ensures SlashFree(p) {
        assert p == renamed[i] || p in parts;
      }
      ComponentsJoin(renamed);
    }
  }

  /** Under an ancestor conflict only a rename at or above the conflicting
      component can succeed. */
  lemma OnlyRenamesAboveHelp(refs: seq<string>, branch: string, i: nat, suffix: string, ref: string)
    requires i < |Parts(branch)|
    requires ref in refs && Components(ref) < Components(HEADS + branch)
    requires Available(refs, Renamed(branch, i, suffix))
    ensures 2 + i < |Components(ref)|
  {
    hide Components, Parts, Renamed;
    UnderHeads(branch);
    UnderHeads(Renamed(branch, i, suffix));
    RenamedKeepsHead(branch, i, suffix);
    var kept := ["refs", "heads"] + Parts(branch)[..i];
    assert kept < Components(HEADS + branch) && kept <= Components(HEADS + Renamed(branch, i, suffix));
    ShortPrefix(Components(ref), Components(HEADS + branch), kept);
    PrefixesChain(Components(ref), kept, Components(HEADS + Renamed(branch, i, suffix)));
  }

  lemma PrefixesChain<T>(a: seq<T>, b: seq<T>, c: seq<T>)
    requires b <= c
    ensures a <= b ==> a <= c
  {
  }

  // ----- enough suffixes always succeed -----

  // The candidate the argument follows: the topmost rename under an ancestor
  // conflict, the plain one otherwise.
  function Followed(branch: string, suffix: string, ancestor: bool): string {
    Renamed(branch, FollowedAt(branch, ancestor), suffix)
  }

  function FollowedAt(branch: string, ancestor: bool): (i: nat)
    ensures i < |Parts(branch)|
  {
    if ancestor then 0 else |Parts(branch)| - 1
  }

  // A ref is comparable to the followed candidate of at most one suffix.
  lemma OneSuffixEach(refs: seq<string>, ref: string, branch: string, a: string, b: string)
    requires ref in refs && HEADS <= ref
    requires SlashFree(a) && SlashFree(b)
    requires Comparable(ref, HEADS + Followed(branch, a, HasAncestor(refs, branch)))
    requires Comparable(ref, HEADS + Followed(branch, b, HasAncestor(refs, branch)))
    ensures a == b
  {
    hide Components, Parts, Renamed;
    var ancestor := HasAncestor(refs, branch);
    var i := FollowedAt(branch, ancestor);
    UnderHeads(branch);
    UnderHeads(ref[|HEADS|..]);
    assert HEADS + ref[|HEADS|..] == ref;
    UnderHeads(Renamed(branch, i, a));
    UnderHeads(Renamed(branch, i, b));
    RenamedKeepsHead(branch, i, a);
    RenamedKeepsHead(branch, i, b);
    var parts := Parts(branch);
    var r := Components(ref);
    var x := Components(HEADS + Renamed(branch, i, a));
    var y := Components(HEADS + Renamed(branch, i, b));
    var kept := ["refs", "heads"] + parts[..i];
    assert kept < x && kept < Components(HEADS + branch);
    ShortPrefix(r, x, kept);
    PrefixesChain(r, kept, Components(HEADS + branch));
    assert |r| > 2 + i;
    assert r[2 + i] == x[2 + i] == y[2 + i];
    assert x[2 + i] == parts[i] + "-" + a && y[2 + i] == parts[i] + "-" + b;
    assert a == x[2 + i][|parts[i]| + 1..] && b == y[2 + i][|parts[i]| + 1..];
  }

  lemma ShortPrefix<T>(r: seq<T>, x: seq<T>, kept: seq<T>)
    requires (r <= x || x <= r) && kept < x
    ensures |r| <= |kept| ==> r <= kept
  {
  }

  lemma Pigeonhole(owner: seq<int>, holes: nat)
    requires forall i | 0 <= i < |owner| :: 0 <= owner[i] < holes
    requires forall i, j | 0 <= i < j < |owner| :: owner[i] != owner[j]
    ensures |owner| <= holes
  {
    var used := Elements(owner);
    assert used <= Below(holes);
    assert |Below(holes) - used| == |Below(holes)| - |used|;
  }

  ghost function Elements(owner: seq<int>): (r: set<int>)
    requires forall i, j | 0 <= i < j < |owner| :: owner[i] != owner[j]
    ensures |r| == |owner| && forall x :: x in r <==> x in owner
  {
    if owner == [] then {}
    else
      var last := |owner| - 1;
      assert owner == owner[..last] + [owner[last]];
      Elements(owner[..last]) + {owner[last]}
  }

  ghost function Below(n: nat): (r: set<int>)
    ensures |r| == n && forall x :: x in r <==> 0 <= x < n
  {
    if n == 0 then {} else Below(n - 1) + {n - 1}
  }

  ghost function Blocker(refs: seq<string>, name: string): (i: nat)
    requires !Available(refs, name)
    ensures i < |refs| && Comparable(refs[i], HEADS + name)
  {
    var i :| 0 <= i < |refs| && Comparable(refs[i], HEADS + name);
    i
  }

  /** With distinct suffixes the search runs out of names only when there are no
      more suffixes left than branches. */
  lemma SearchRunsOut(refs: seq<string>, branch: string, suffixes: seq<string>, start: nat)
    requires start <= |suffixes|
    ensures BranchList(refs) && DistinctSuffixes(suffixes) ==>
      TakenFor(refs, branch, suffixes, AncestorFirst(refs, branch), start, |suffixes|) ==>
      |suffixes| - start <= |refs|
  {
    hide TakenFor;
    if ConflictFree(refs) {
      AncestorExactly(refs, branch);
    }
    if TakenFor(refs, branch, suffixes, HasAncestor(refs, branch), start, |suffixes|)
       && BranchList(refs) && DistinctSuffixes(suffixes) {
      EnoughSuffixesSucceed(refs, branch, suffixes, start);
    }
  }

  lemma EnoughSuffixesSucceed(refs: seq<string>, branch: string, suffixes: seq<string>, start: nat)
    requires BranchList(refs) && DistinctSuffixes(suffixes) && start <= |suffixes|
    requires TakenFor(refs, branch, suffixes, HasAncestor(refs, branch), start, |suffixes|)
    ensures |suffixes| - start <= |refs|
  {
    hide Comparable, Followed;
    var ancestor := HasAncestor(refs, branch);
    forall n | start <= n < |suffixes| ensures !Available(refs, Followed(branch, suffixes[n], ancestor)) {
      assert TakenFrom(refs, branch, suffixes[n], ancestor, 0);
      FollowedIsTried(refs, branch, suffixes[n], ancestor);
    }
    var owner := seq(|suffixes| - start, n requires 0 <= n < |suffixes| - start =>
      Blocker(refs, Followed(branch, suffixes[start + n], ancestor)));
    forall n | 0 <= n < |owner|
      ensures 0 <= owner[n] < |refs|
      ensures Comparable(refs[owner[n]], HEADS + Followed(branch, suffixes[start + n], ancestor))
    {
      assert owner[n] == Blocker(refs, Followed(branch, suffixes[start + n], ancestor));
    }
    forall i, j | 0 <= i < j < |owner| ensures owner[i] != owner[j] {
      if owner[i] == owner[j] {
        OneSuffixEach(refs, refs[owner[i]], branch, suffixes[start + i], suffixes[start + j]);
      }
    }
    Pigeonhole(owner, |refs|);
  }

  lemma FollowedIsTried(refs: seq<string>, branch: string, suffix: string, ancestor: bool)
    requires TakenFrom(refs, branch, suffix, ancestor, 0)
    ensures !Available(refs, Followed(branch, suffix, ancestor))
  {
    hide Available;
  }
}
