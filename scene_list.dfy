/**
 * The build window's scene list: adding dropped scenes and the open scene's
 * paths (each only when no entry has its path), removing the selected
 * entry, toggling an entry, and the enabled paths handed to the build.
 * Every write of the list to the editor's build settings is recorded.
 */
module SceneLists {
  import opened Wrappers
  import opened BuildTypes
  import opened Dedup

  function ScenePath(s: EditorBuildSettingsScene): string { s.path }

  function Identity(p: string): string { p }

  /** The paths of `scenes`, in order. */
  function Paths(scenes: seq<EditorBuildSettingsScene>): seq<string> {
    Keys(scenes, ScenePath)
  }

  /** One candidate: `None` is skipped; a path is appended, enabled, when no
      entry has it yet. */
  function Step(scenes: seq<EditorBuildSettingsScene>, c: Option<string>): seq<EditorBuildSettingsScene> {
    if c.Some? && c.value !in Paths(scenes) then scenes + [EditorBuildSettingsScene(c.value, true)] else scenes
  }

  /** The list after offering each candidate in turn. */
  function Added(scenes: seq<EditorBuildSettingsScene>, cs: seq<Option<string>>): seq<EditorBuildSettingsScene>
    decreases |cs|
  {
    if |cs| == 0 then scenes else Step(Added(scenes, cs[..|cs| - 1]), cs[|cs| - 1])
  }

  /** The lists written to the build settings when every addition is written
      at once, as the drop handler does. */
  function AddLog(scenes: seq<EditorBuildSettingsScene>, cs: seq<Option<string>>): seq<seq<EditorBuildSettingsScene>>
    decreases |cs|
  {
    if |cs| == 0 then []
    else
      var prev := Added(scenes, cs[..|cs| - 1]);
      var c := cs[|cs| - 1];
      AddLog(scenes, cs[..|cs| - 1]) + if c.Some? && c.value !in Paths(prev) then [Step(prev, c)] else []
  }

  /** The candidates of Add Open Scenes: the distinct paths of the open
      scene's root objects, an empty path being skipped. */
  function OpenCandidates(paths: seq<string>): (cs: seq<Option<string>>)
    ensures var d := DedupBy(paths, Identity);
      |cs| == |d| && forall i :: 0 <= i < |d| ==> cs[i] == if d[i] == "" then None else Some(d[i])
  {
    var d := DedupBy(paths, Identity);
    seq(|d|, i requires 0 <= i < |d| => if d[i] == "" then None else Some(d[i]))
  }

  lemma AddedSnoc(scenes: seq<EditorBuildSettingsScene>, cs: seq<Option<string>>, c: Option<string>)
    ensures Added(scenes, cs + [c]) == Step(Added(scenes, cs), c)
    ensures AddLog(scenes, cs + [c]) == AddLog(scenes, cs) +
      if c.Some? && c.value !in Paths(Added(scenes, cs)) then [Step(Added(scenes, cs), c)] else []
  {
    assert (cs + [c])[..|cs|] == cs;
  }

  /** Adding keeps every existing entry in place and only appends enabled
      entries whose paths were offered and were not in the list. */
  lemma {:induction false} AddedExtends(scenes: seq<EditorBuildSettingsScene>, cs: seq<Option<string>>)
    ensures var r := Added(scenes, cs);
      |scenes| <= |r| && r[..|scenes|] == scenes &&
      forall i :: |scenes| <= i < |r| ==> r[i].enabled && Some(r[i].path) in cs && r[i].path !in Paths(scenes)
    decreases |cs|
  {
    if |cs| > 0 {
      var p := cs[..|cs| - 1];
      AddedExtends(scenes, p);
      var prev := Added(scenes, p);
      var r := Added(scenes, cs);
      var c := cs[|cs| - 1];
      if c.Some? && c.value !in Paths(prev) {
        assert r == prev + [EditorBuildSettingsScene(c.value, true)];
        assert r[..|scenes|] == prev[..|scenes|];
        forall i | |scenes| <= i < |r|
          ensures r[i].enabled && Some(r[i].path) in cs && r[i].path !in Paths(scenes)
        {
          if i < |prev| {
            assert r[i] == prev[i] && Some(prev[i].path) in p;
          } else {
            assert cs[|cs| - 1] == Some(r[i].path);
            KeysPrefix(prev, |scenes|, ScenePath, c.value);
          }
        }
      } else {
        forall i | |scenes| <= i < |r| ensures Some(r[i].path) in cs {
          assert Some(prev[i].path) in p;
        }
      }
    }
  }

  /** A key absent from a list is absent from each of its prefixes. */
  lemma KeysPrefix<T>(s: seq<T>, n: nat, key: T -> string, k: string)
    requires n <= |s| && k !in Keys(s, key)
    ensures k !in Keys(s[..n], key)
  {
  }

  /** After adding, a path is in the list exactly when it was before or was offered. */
  lemma {:induction false} AddedPaths(scenes: seq<EditorBuildSettingsScene>, cs: seq<Option<string>>, path: string)
    ensures path in Paths(Added(scenes, cs)) <==> path in Paths(scenes) || Some(path) in cs
    decreases |cs|
  {
    if |cs| > 0 {
      var p := cs[..|cs| - 1];
      AddedPaths(scenes, p, path);
      var prev := Added(scenes, p);
      var c := cs[|cs| - 1];
      assert cs == p + [c];
      if c.Some? && c.value !in Paths(prev) {
        assert Paths(prev + [EditorBuildSettingsScene(c.value, true)]) == Paths(prev) + [c.value];
      }
    }
  }

  /** Adding never duplicates a path. */
  lemma {:induction false} AddedDistinct(scenes: seq<EditorBuildSettingsScene>, cs: seq<Option<string>>)
    requires DistinctKeys(scenes, ScenePath)
    ensures DistinctKeys(Added(scenes, cs), ScenePath)
    decreases |cs|
  {
    if |cs| > 0 {
      var p := cs[..|cs| - 1];
      AddedDistinct(scenes, p);
      var prev := Added(scenes, p);
      var c := cs[|cs| - 1];
      if c.Some? && c.value !in Paths(prev) {
        var r := prev + [EditorBuildSettingsScene(c.value, true)];
        forall i, j | 0 <= i < j < |r| ensures r[i].path != r[j].path {
          if j == |prev| {
            assert Paths(prev)[i] == prev[i].path;
          }
        }
      }
    }
  }

  /** One write per appended entry, and the last write is the final list. */
  lemma {:induction false} AddLogWrites(scenes: seq<EditorBuildSettingsScene>, cs: seq<Option<string>>)
    ensures var r := Added(scenes, cs); var log := AddLog(scenes, cs);
      |scenes| <= |r| && |log| == |r| - |scenes| && (|log| > 0 ==> log[|log| - 1] == r)
    decreases |cs|
  {
    if |cs| > 0 {
      AddLogWrites(scenes, cs[..|cs| - 1]);
    }
  }

  /** Add Open Scenes adds exactly the non-empty paths not yet listed. */
  lemma OpenScenesPaths(scenes: seq<EditorBuildSettingsScene>, paths: seq<string>, path: string)
    ensures path in Paths(Added(scenes, OpenCandidates(paths))) <==>
      path in Paths(scenes) || (path != "" && path in paths)
  {
    var cs := OpenCandidates(paths);
    var d := DedupBy(paths, Identity);
    AddedPaths(scenes, cs, path);
    DedupKeys(paths, Identity, path);
    IdentityKeys(d);
    IdentityKeys(paths);
    if Some(path) in cs {
      var i :| 0 <= i < |cs| && cs[i] == Some(path);
      assert d[i] == path;
    }
    if path != "" && path in d {
      var i :| 0 <= i < |d| && d[i] == path;
      assert cs[i] == Some(path);
    }
  }

  lemma IdentityKeys(s: seq<string>)
    ensures Keys(s, Identity) == s
  {
  }

  /** The list without the entry at `index`. */
  function Removed(scenes: seq<EditorBuildSettingsScene>, index: nat): (r: seq<EditorBuildSettingsScene>)
    requires index < |scenes|
    ensures |r| == |scenes| - 1
    ensures forall i :: 0 <= i < index ==> r[i] == scenes[i]
    ensures forall i :: index <= i < |r| ==> r[i] == scenes[i + 1]
    ensures multiset(r) + multiset{scenes[index]} == multiset(scenes)
  {
    assert scenes == scenes[..index] + [scenes[index]] + scenes[index + 1..];
    scenes[..index] + scenes[index + 1..]
  }

  /** Removing an entry keeps paths distinct. */
  lemma RemovedDistinct(scenes: seq<EditorBuildSettingsScene>, index: nat)
    requires index < |scenes| && DistinctKeys(scenes, ScenePath)
    ensures DistinctKeys(Removed(scenes, index), ScenePath)
  {
    var r := Removed(scenes, index);
    forall i, j | 0 <= i < j < |r| ensures r[i].path != r[j].path {
      var i' := if i < index then i else i + 1;
      var j' := if j < index then j else j + 1;
      assert r[i] == scenes[i'] && r[j] == scenes[j'];
    }
  }

  /** The paths handed to the build: the enabled entries' paths, in list order. */
  function EnabledPaths(scenes: seq<EditorBuildSettingsScene>): seq<string>
    decreases |scenes|
  {
    if |scenes| == 0 then []
    else EnabledPaths(scenes[..|scenes| - 1]) + if scenes[|scenes| - 1].enabled then [scenes[|scenes| - 1].path] else []
  }

  /** The build's scenes are exactly the enabled entries, in order: `idx`
      lists their positions, increasing, and no other entry is enabled. */
  lemma {:induction false} EnabledPathsExact(scenes: seq<EditorBuildSettingsScene>) returns (idx: seq<nat>)
    ensures var e := EnabledPaths(scenes);
      |idx| == |e| &&
      (forall j :: 0 <= j < |idx| ==> idx[j] < |scenes| && scenes[idx[j]].enabled && scenes[idx[j]].path == e[j]) &&
      (forall j, k :: 0 <= j < k < |idx| ==> idx[j] < idx[k]) &&
      (forall i :: 0 <= i < |scenes| && scenes[i].enabled ==> i in idx)
    decreases |scenes|
  {
    if |scenes| == 0 {
      idx := [];
    } else {
      var n := |scenes| - 1;
      var p := scenes[..n];
      var pidx := EnabledPathsExact(p);
      if scenes[n].enabled {
        idx := pidx + [n];
      } else {
        idx := pidx;
      }
      forall i | 0 <= i < |scenes| && scenes[i].enabled ensures i in idx {
        if i < n {
          assert p[i] == scenes[i];
          assert i in pidx;
        }
      }
    }
  }

  /** Offers each candidate in turn, returning the new list and the writes
      made after every addition. */
  method AddEach(scenes: seq<EditorBuildSettingsScene>, cs: seq<Option<string>>)
    returns (r: seq<EditorBuildSettingsScene>, log: seq<seq<EditorBuildSettingsScene>>)
    ensures r == Added(scenes, cs) && log == AddLog(scenes, cs)
  {
    r, log := scenes, [];
    for i := 0 to |cs|
      invariant r == Added(scenes, cs[..i]) && log == AddLog(scenes, cs[..i])
    {
      AddedSnoc(scenes, cs[..i], cs[i]);
      assert cs[..i + 1] == cs[..i] + [cs[i]];
      var c := cs[i];
      if c.Some? && c.value !in Paths(r) {
        r := r + [EditorBuildSettingsScene(c.value, true)];
        log := log + [r];
      }
    }
    assert cs[..|cs|] == cs;
  }

  class SceneList {
    /** The window's `scenes`. */
    var scenes: seq<EditorBuildSettingsScene>
    /** The lists written to the build settings, in order. */
    var published: seq<seq<EditorBuildSettingsScene>>

    /** `OnEnable`: a copy of the build settings' scenes. */
    constructor(initial: seq<EditorBuildSettingsScene>)
      ensures scenes == initial && published == []
    {
      scenes := initial;
      published := [];
    }

    /** A drop: `dragged` holds the asset path of each dropped scene asset and
        `None` for any other object; each new path is written at once. */
    method DropScenes(dragged: seq<Option<string>>)
      modifies this
      ensures scenes == Added(old(scenes), dragged)
      ensures published == old(published) + AddLog(old(scenes), dragged)
    {
      var r, log := AddEach(scenes, dragged);
      scenes := r;
      published := published + log;
    }

    /** Add Open Scenes: offers the distinct non-empty paths, then writes once. */
    method AddOpenScenes(paths: seq<string>)
      modifies this
      ensures scenes == Added(old(scenes), OpenCandidates(paths))
      ensures published == old(published) + [scenes]
    {
      var r, _ := AddEach(scenes, OpenCandidates(paths));
      scenes := r;
      published := published + [scenes];
    }

    /** The remove button: drops the selected entry, then writes. */
    method RemoveSelected(index: nat)
      requires index < |scenes|
      modifies this
      ensures scenes == Removed(old(scenes), index)
      ensures published == old(published) + [scenes]
    {
      scenes := scenes[..index] + scenes[index + 1..];
      published := published + [scenes];
    }

    /** The checkbox of entry `index`: a changed flag is stored and written. */
    method Toggle(index: nat, enabled: bool)
      requires index < |scenes|
      modifies this
      ensures old(scenes[index].enabled) == enabled ==> scenes == old(scenes) && published == old(published)
      ensures old(scenes[index].enabled) != enabled ==>
        scenes == old(scenes)[index := EditorBuildSettingsScene(old(scenes[index].path), enabled)] &&
        published == old(published) + [scenes]
    {
      if enabled != scenes[index].enabled {
        scenes := scenes[index := EditorBuildSettingsScene(scenes[index].path, enabled)];
        published := published + [scenes];
      }
    }

    /** `BuildGame`'s scene paths. */
    method BuildScenes() returns (paths: seq<string>)
      ensures paths == EnabledPaths(scenes)
    {
      paths := EnabledPaths(scenes);
    }
  }
}
