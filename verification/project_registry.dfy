/** The guarded project update of internal/config/config.go: replace or remove
    exactly the raw entry the caller last saw. */
module ProjectRegistry {
  import opened Integers
  import opened Wrappers
  import opened FingerprintTypes
  import opened FingerprintValues
  import opened FingerprintExact

  datatype Project = Project(repository: string, name: string, path: string, lastTouched: string)

  // The typed and the raw reading of the configuration have different lengths.
  datatype Error = RepresentationsDisagree

  // A map[string]any.
  predicate IsEntry(raw: Value) {
    raw.Map? && raw.elem == Base(InterfaceType)
  }

  function Held(s: string): Value {
    Interface(Some(Str(s)))
  }

  function UpdateRawProject(raw: Value, project: Project): (r: Value)
    requires IsEntry(raw)
    ensures IsEntry(r) && !r.isNil
    ensures r.entries.Keys == raw.entries.Keys + {"repository", "name", "path", "last_touched"}
    ensures r.entries["repository"] == Held(project.repository) && r.entries["name"] == Held(project.name)
    ensures r.entries["path"] == Held(project.path) && r.entries["last_touched"] == Held(project.lastTouched)
    ensures forall k | k in raw.entries && k !in {"repository", "name", "path", "last_touched"} ::
              r.entries[k] == raw.entries[k]
  {
    Map(raw.elem, false,
        raw.entries["repository" := Held(project.repository)]
                   ["name" := Held(project.name)]
                   ["path" := Held(project.path)]
                   ["last_touched" := Held(project.lastTouched)])
  }

  // sameProjectPath, with the normalized comparison key as a parameter.
  predicate SamePath(key: string -> string, a: string, b: string) {
    a != "" && b != "" && key(a) == key(b)
  }

  // One entry and no other is the one the caller saw.
  ghost predicate OnlyMatch(projects: seq<Value>, expected: Value, m: int) {
    0 <= m < |projects| && forall i | 0 <= i < |projects| :: Same(projects[i], expected) <==> i == m
  }

  ghost predicate Conflicts(paths: seq<string>, key: string -> string, m: int, path: string) {
    exists i :: 0 <= i < |paths| && i != m && paths[i] != "" && path != "" && key(paths[i]) == key(path)
  }

  ghost predicate MaySwap(
    projects: seq<Value>, paths: seq<string>, key: string -> string, expected: Value, replacement: Option<Project>,
    m: int)
  {
    OnlyMatch(projects, expected, m) && (replacement.Some? ==> !Conflicts(paths, key, m, replacement.value.path))
  }

  ghost predicate Entries(projects: seq<Value>) {
    forall i | 0 <= i < |projects| :: IsEntry(projects[i])
  }

  // What one call does to the list: all of it, or nothing.
  ghost predicate Swapped(
    before: seq<Value>, paths: seq<string>, key: string -> string, expected: Value, replacement: Option<Project>,
    after: seq<Value>, changed: bool)
    requires Entries(before)
  {
    && (changed <==> exists m :: MaySwap(before, paths, key, expected, replacement, m))
    && (!changed ==> after == before)
    && forall m | MaySwap(before, paths, key, expected, replacement, m) ::
         after == if replacement.None? then before[..m] + before[m + 1..]
                  else before[m := UpdateRawProject(before[m], replacement.value)]
  }

  class GlobalConfig {
    var projects: seq<Value>

    /** compareAndSwapProjectAt inside its store mutation. `paths` are the paths
        of the typed reading of the same entries. */
    method CompareAndSwapProject(
      paths: seq<string>, key: string -> string, expected: Value, replacement: Option<Project>)
      returns (changed: Result<bool, Error>)
      requires Entries(projects) && IsEntry(expected)
      modifies this
      ensures Entries(projects)
      ensures changed.Err? <==> |paths| != |old(projects)|
      ensures changed.Err? ==> projects == old(projects)
      ensures changed.Ok? ==> Swapped(old(projects), paths, key, expected, replacement, projects, changed.value)
    {
      hide Same, UpdateRawProject;
      if |paths| != |projects| {
        return Err(RepresentationsDisagree);
      }
      var match_, matches := -1, 0;
      for index := 0 to |projects|
        invariant matches == 0 <==> forall i | 0 <= i < index :: !Same(projects[i], expected)
        invariant matches == 1 ==> OnlyMatch(projects[..index], expected, match_)
        invariant matches > 1 ==>
            exists i, j :: 0 <= i < j < index && Same(projects[i], expected) && Same(projects[j], expected)
        invariant matches >= 0 && projects == old(projects)
      {
        ghost var seen := projects[..index + 1];
        assert seen == projects[..index] + [projects[index]];
        if Same(projects[index], expected) {
          match_ := index;
          matches := matches + 1;
        }
      }
      assert projects[..|projects|] == projects;
      if matches != 1 {
        forall m ensures !OnlyMatch(projects, expected, m) {
          if 0 <= m < |projects| && matches == 0 {
            assert !Same(projects[m], expected);
          }
        }
        return Ok(false);
      }
      if replacement.None? {
        projects := projects[..match_] + projects[match_ + 1..];
      } else {
        for index := 0 to |paths|
          invariant forall i | 0 <= i < index :: i == match_ || !SamePath(key, paths[i], replacement.value.path)
          invariant projects == old(projects)
        {
          if index != match_ && SamePath(key, paths[index], replacement.value.path) {
            return Ok(false);
          }
        }
        projects := projects[match_ := UpdateRawProject(projects[match_], replacement.value)];
      }
      assert MaySwap(old(projects), paths, key, expected, replacement, match_);
      return Ok(true);
    }
  }

  // ----- what a swap keeps -----

  lemma UpdateKeepsSame(a: Value, b: Value, project: Project)
    requires IsEntry(a) && IsEntry(b) && Same(a, b)
    ensures Same(UpdateRawProject(a, project), UpdateRawProject(b, project))
  {
    hide Same, UpdateRawProject;
    var x, y := UpdateRawProject(a, project), UpdateRawProject(b, project);
    SameMaps(a, b);
    SameMaps(x, y);
    SameKeys(a.entries, b.entries);
    assert |x.entries.Keys| == |y.entries.Keys|;
    forall k | k in x.entries ensures Same(x.entries[k], y.entries[k]) {
      SameUpdated(a, b, project, k);
    }
  }

  lemma SameUpdated(a: Value, b: Value, project: Project, k: string)
    requires IsEntry(a) && IsEntry(b) && a.entries.Keys == b.entries.Keys
    requires k in a.entries ==> Same(a.entries[k], b.entries[k])
    requires k in UpdateRawProject(a, project).entries
    ensures Same(UpdateRawProject(a, project).entries[k], UpdateRawProject(b, project).entries[k])
  {
    hide Same, UpdateRawProject;
    if k in {"repository", "name", "path", "last_touched"} {
      HeldIsSame(UpdateRawProject(a, project).entries[k].content.value.text);
    }
  }

  lemma SameMaps(a: Value, b: Value)
    requires a.Map? && b.Map? && a.elem == b.elem
    ensures Same(a, b) <==>
      && a.isNil == b.isNil && |a.entries| == |b.entries|
      && forall k | k in a.entries :: k in b.entries && Same(a.entries[k], b.entries[k])
  {
  }

  lemma HeldIsSame(s: string)
    ensures Same(Held(s), Held(s))
  {
  }

  /** ReplacementFingerprint, computed from the caller's own copy, is the
      fingerprint of the entry a successful swap stores. */
  lemma StoredEntryHasPredictedFingerprint(
    before: seq<Value>, paths: seq<string>, key: string -> string, expected: Value, project: Project,
    after: seq<Value>)
    requires Entries(before) && IsEntry(expected)
    requires Swapped(before, paths, key, expected, Some(project), after, true)
    requires WellTyped(UpdateRawProject(expected, project))
    requires forall i | 0 <= i < |after| :: WellTyped(after[i])
    ensures |after| == |before|
    ensures exists m ::
      && OnlyMatch(before, expected, m)
      && Preimage(after[m]) == Preimage(UpdateRawProject(expected, project))
      && forall i | 0 <= i < |before| && i != m :: after[i] == before[i]
  {
    hide Same, WellTyped, UpdateRawProject, Encode, Conflicts;
    var m :| MaySwap(before, paths, key, expected, Some(project), m);
    UpdateKeepsSame(before[m], expected, project);
    SameShows(after[m], UpdateRawProject(expected, project));
    SameEncodesEqually(after[m], UpdateRawProject(expected, project));
    assert OnlyMatch(before, expected, m);
  }

  // ----- Same is symmetric and transitive -----

  lemma {:induction false} SameSymmetric(a: Value, b: Value)
    requires Same(a, b)
    ensures Same(b, a)
  {
    match a
    case Array(_, items) =>
      forall i | 0 <= i < |items| { SameSymmetric(items[i], b.items[i]); }
    case Slice(_, _, items) =>
      forall i | 0 <= i < |items| { SameSymmetric(items[i], b.items[i]); }
    case Map(_, _, entries) =>
      SameKeys(entries, b.entries);
      forall k | k in entries { SameSymmetric(entries[k], b.entries[k]); }
    case Interface(Some(w)) =>
      SameSymmetric(w, b.content.value);
    case _ =>
  }

  lemma {:induction false} SameTransitive(a: Value, b: Value, c: Value)
    requires Same(a, b) && Same(b, c)
    ensures Same(a, c)
  {
    if a.Map? {
      hide Same, TypeOf;
      SameShape(a, b);
      SameShape(b, c);
      SameMaps(a, b);
      SameMaps(b, c);
      SameMaps(a, c);
      forall k | k in a.entries { SameTransitive(a.entries[k], b.entries[k], c.entries[k]); }
    } else if a.Array? || a.Slice? {
      forall i | 0 <= i < |a.items| { SameTransitive(a.items[i], b.items[i], c.items[i]); }
    } else if a.Interface? && a.content.Some? {
      SameTransitive(a.content.value, b.content.value, c.content.value);
    }
  }

  lemma SameShape(a: Value, b: Value)
    requires Same(a, b) && a.Map?
    ensures b.Map? && a.elem == b.elem
  {
  }

  // ----- a token is good for one change -----

  /** After a successful swap nobody can use the same expectation again, unless
      the replacement put back an entry that still equals it. */
  lemma TokenIsSpent(
    before: seq<Value>, paths: seq<string>, key: string -> string, expected: Value, replacement: Option<Project>,
    after: seq<Value>, laterPaths: seq<string>, last: seq<Value>, changed: bool)
    requires Entries(before) && Entries(after) && IsEntry(expected)
    requires Swapped(before, paths, key, expected, replacement, after, true)
    requires Swapped(after, laterPaths, key, expected, None, last, changed)
    ensures changed <==> replacement.Some? && Same(UpdateRawProject(expected, replacement.value), expected)
  {
    hide Same, UpdateRawProject, Conflicts;
    var m :| MaySwap(before, paths, key, expected, replacement, m);
    assert changed <==> exists n :: OnlyMatch(after, expected, n) by {
      assert forall n :: MaySwap(after, laterPaths, key, expected, None, n) <==> OnlyMatch(after, expected, n);
    }
    if replacement.None? {
      RemovedIsGone(before, expected, m, after);
    } else {
      var stored, updated := after[m], UpdateRawProject(expected, replacement.value);
      UpdateKeepsSame(before[m], expected, replacement.value);
      SameSymmetric(stored, updated);
      if Same(updated, expected) {
        SameTransitive(stored, updated, expected);
      } else if Same(stored, expected) {
        SameTransitive(updated, stored, expected);
      }
      ReplacedMatches(before, expected, m, after, stored);
    }
  }

  lemma RemovedIsGone(projects: seq<Value>, expected: Value, m: int, after: seq<Value>)
    requires OnlyMatch(projects, expected, m) && after == projects[..m] + projects[m + 1..]
    ensures forall n :: !OnlyMatch(after, expected, n)
  {
    hide Same;
    forall n ensures !OnlyMatch(after, expected, n) {
      if 0 <= n < |after| {
        assert after[n] == projects[if n < m then n else n + 1];
      }
    }
  }

  lemma ReplacedMatches(projects: seq<Value>, expected: Value, m: int, after: seq<Value>, stored: Value)
    requires OnlyMatch(projects, expected, m) && after == projects[m := stored]
    ensures Same(stored, expected) <==> exists n :: OnlyMatch(after, expected, n)
  {
    hide Same;
    assert after[m] == stored;
    if Same(stored, expected) {
      assert OnlyMatch(after, expected, m);
    } else {
      forall n ensures !OnlyMatch(after, expected, n) {
        if 0 <= n < |after| {
          assert !Same(after[n], expected);
        }
      }
    }
  }

  // ----- paths stay distinct -----

  ghost predicate DistinctPaths(paths: seq<string>, key: string -> string) {
    forall i, j | 0 <= i < j < |paths| && paths[i] != "" && paths[j] != "" :: key(paths[i]) != key(paths[j])
  }

  function Paths(projects: seq<Value>, pathOf: Value -> string): (r: seq<string>)
    ensures |r| == |projects| && forall i | 0 <= i < |r| :: r[i] == pathOf(projects[i])
  {
    seq(|projects|, i requires 0 <= i < |projects| => pathOf(projects[i]))
  }

  /** No two registrations share a path after a swap if none did before. `pathOf`
      is the typed reading of an entry; it reads back the path an update wrote. */
  lemma SwapKeepsPathsDistinct(
    before: seq<Value>, key: string -> string, pathOf: Value -> string, expected: Value,
    replacement: Option<Project>, after: seq<Value>, changed: bool)
    requires Entries(before)
    requires forall raw, project: Project :: IsEntry(raw) ==> pathOf(UpdateRawProject(raw, project)) == project.path
    requires Swapped(before, Paths(before, pathOf), key, expected, replacement, after, changed)
    requires DistinctPaths(Paths(before, pathOf), key)
    ensures DistinctPaths(Paths(after, pathOf), key)
  {
    hide Same, UpdateRawProject, Paths, Conflicts, DistinctPaths;
    var p, q := Paths(before, pathOf), Paths(after, pathOf);
    if changed {
      var m :| MaySwap(before, p, key, expected, replacement, m);
      if replacement.None? {
        PathsRemoved(before, pathOf, m);
        RemovalKeepsDistinct(p, key, m);
      } else {
        assert pathOf(UpdateRawProject(before[m], replacement.value)) == replacement.value.path;
        PathsReplaced(before, pathOf, m, UpdateRawProject(before[m], replacement.value));
        ReplacementKeepsDistinct(p, key, m, replacement.value.path);
      }
    }
  }

  lemma PathsRemoved(projects: seq<Value>, pathOf: Value -> string, m: nat)
    requires m < |projects|
    ensures Paths(projects[..m] + projects[m + 1..], pathOf) ==
        Paths(projects, pathOf)[..m] + Paths(projects, pathOf)[m + 1..]
  {
  }

  lemma PathsReplaced(projects: seq<Value>, pathOf: Value -> string, m: nat, stored: Value)
    requires m < |projects|
    ensures Paths(projects[m := stored], pathOf) == Paths(projects, pathOf)[m := pathOf(stored)]
  {
  }

  lemma RemovalKeepsDistinct(paths: seq<string>, key: string -> string, m: nat)
    requires m < |paths| && DistinctPaths(paths, key)
    ensures DistinctPaths(paths[..m] + paths[m + 1..], key)
  {
  }

  lemma ReplacementKeepsDistinct(paths: seq<string>, key: string -> string, m: nat, path: string)
    requires m < |paths| && DistinctPaths(paths, key) && !Conflicts(paths, key, m, path)
    ensures DistinctPaths(paths[m := path], key)
  {
  }
}
