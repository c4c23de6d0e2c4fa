/**
  What a whole successful run does to the filesystem: every entry of the
  listing ends up where its classification sends it.
 */
module RunProperties {
  import opened Wrappers
  import opened Paths
  import opened Planner
  import opened Disk
  import opened Organiser
  import opened EntryProperties

  /**
    Where the entry `name` of `dir` belongs, judged on the filesystem `fs`:
    skipped entries and files already in place stay at their own path, the
    others go under their destination directory, keeping their name.
   */
  ghost function Target(fs: Nodes, dir: Path, cfg: Config, name: string): (t: Path)
    ensures t != [] && t[|t| - 1] == name
  {
    var path := dir + [name];
    match Classify(IsDirIn(fs, path), name, cfg.includeHidden)
    case SkipDirectory => path
    case SkipHidden => path
    case ToExtensionDir(ext) =>
      var dest := ExtensionDestination(dir, ext);
      if Parent(path) == Some(dest) then path else dest + [name]
    case ToOthersDir => OthersDestination(dir, cfg.othersDirectory) + [name]
  }

  /**
    The entry `name`, which `fs0` held, has been dealt with in `fs`: its
    target holds what the entry held, inside an existing directory when it
    is not the entry's own path; a copy, a skipped entry or a file in place
    is still there; a moved file is gone from its old path.
   */
  ghost predicate Placed(fs0: Nodes, fs: Nodes, dir: Path, cfg: Config, name: string)
    requires dir + [name] in fs0
  {
    var path := dir + [name];
    var t := Target(fs0, dir, cfg, name);
    && t in fs && fs[t] == fs0[path]
    && (t != path ==> ParentIsDir(fs, t))
    && (cfg.copy || t == path ==> path in fs && fs[path] == fs0[path])
    && (!cfg.copy && t != path ==> !IsFileIn(fs, path))
  }

  /**
    Going from `fs` to `fs'` keeps every existing path other than `t` and
    `path`, creates or changes no file other than at `t`, and removes no
    directory.
   */
  ghost predicate Keeps(fs: Nodes, fs': Nodes, t: Path, path: Path)
  {
    && (forall p :: p in fs && p != t && p != path ==> p in fs' && fs'[p] == fs[p])
    && (forall p :: p != t && IsFileIn(fs', p) ==> IsFileIn(fs, p) && fs'[p] == fs[p])
    && (forall p :: IsDirIn(fs, p) ==> IsDirIn(fs', p))
  }

  /** A step that leaves the entry where it is changes at most a missing directory. */
  lemma KeepsInPlace(fs: Nodes, fs': Nodes, dest: Path, path: Path)
    requires fs' == fs || (dest !in fs && fs' == fs[dest := Dir])
    ensures Keeps(fs, fs', path, path)
  {
  }

  /** A step that moves or copies the entry keeps everything but its target, source and directory. */
  lemma KeepsPlaced(fs: Nodes, fs': Nodes, dest: Path, path: Path, target: Path, copy: bool)
    requires IsFileIn(fs, path) && !IsDirIn(fs, target) && dest != path && dest != target
    requires Transferred(fs, fs', path, target, copy)
    requires OnlyChanges(fs, fs', dest, path, target)
    ensures Keeps(fs, fs', target, path)
  {
    forall p | p != target && IsFileIn(fs', p)
      ensures IsFileIn(fs, p) && fs'[p] == fs[p]
    {
      if p == dest {
        assert dest in fs;
      } else if p == path {
        assert copy;
      }
    }
  }

  /**
    `Place` after the destination is ensured, whatever its outcome: only the
    target and the source can change, and the entry is either still where
    it was or already transferred to the target. A failed record write
    comes after a transfer that is not undone.
   */
  lemma PlaceKeeps(st: State, fs0: Nodes, i: nat, path: Path, dest: Path, name: string, copy: bool,
                   faults: set<IoStep>)
    requires path in fs0 && dest in st.fs
    requires st.fs == fs0 || (dest !in fs0 && st.fs == fs0[dest := Dir])
    ensures var fs' := Place(st, i, path, dest, name, copy, faults).state.fs;
      && Keeps(fs0, fs', dest + [name], path)
      && ((path in fs' && fs'[path] == fs0[path])
          || (Transferred(fs0, fs', path, dest + [name], copy) && ParentIsDir(fs', dest + [name])))
    ensures var r := Place(st, i, path, dest, name, copy, faults);
      r.outcome.Ok? ==>
        Transferred(fs0, r.state.fs, path, dest + [name], copy) && ParentIsDir(r.state.fs, dest + [name])
  {
    var target := dest + [name];
    assert target[..|dest|] == dest;
    var r := Place(st, i, path, dest, name, copy, faults);
    if MoveOrCopy(i) in faults || !CanTransfer(st.fs, path, target) {
      assert r.state == st;
      if st.fs != fs0 {
        assert path != dest;
      }
    } else {
      var faults' := faults - {WriteRecord(i)};
      assert Place(st, i, path, dest, name, copy, faults').state.fs == r.state.fs;
      PlacedFile(st, fs0, i, path, dest, name, copy, faults');
      KeepsPlaced(fs0, r.state.fs, dest, path, target, copy);
    }
  }

  /**
    The extension branch of a pass, whatever its outcome: the entry is
    untouched, or transferred to `<dest>/<name>`, or already in place.
   */
  lemma ExtensionStepKeeps(st: State, dir: Path, cfg: Config, i: nat, name: string, faults: set<IoStep>)
    requires dir + [name] in st.fs && !IsDirIn(st.fs, dir + [name])
    requires NextEntry(i) !in faults && (cfg.includeHidden || !IsHidden(name))
    requires Extension(name).Some?
    ensures var dest := ExtensionDestination(dir, Lower(Extension(name).value));
      var t := if Parent(dir + [name]) == Some(dest) then dir + [name] else dest + [name];
      var fs' := Step(st, dir, cfg, i, name, faults).state.fs;
      && Keeps(st.fs, fs', t, dir + [name])
      && ((dir + [name] in fs' && fs'[dir + [name]] == st.fs[dir + [name]])
          || (Transferred(st.fs, fs', dir + [name], t, cfg.copy) && ParentIsDir(fs', t)))
    ensures var dest := ExtensionDestination(dir, Lower(Extension(name).value));
      var r := Step(st, dir, cfg, i, name, faults);
      r.outcome.Ok? && Parent(dir + [name]) != Some(dest) ==>
        Transferred(st.fs, r.state.fs, dir + [name], dest + [name], cfg.copy)
        && ParentIsDir(r.state.fs, dest + [name])
  {
    var path := dir + [name];
    var dest := ExtensionDestination(dir, Lower(Extension(name).value));
    var r := Step(st, dir, cfg, i, name, faults);
    var made := EnsureDirectory(st, dest, i, faults);
    if made.outcome.Err? {
      assert r.state.fs == st.fs;
    } else if Parent(path) == Some(dest) {
      assert r.state.fs == made.state.fs;
      KeepsInPlace(st.fs, r.state.fs, dest, path);
    } else {
      assert r == Place(made.state, i, path, dest, name, cfg.copy, faults);
      PlaceKeeps(made.state, st.fs, i, path, dest, name, cfg.copy, faults);
    }
  }

  /**
    The catch-all branch of a pass, whatever its outcome: the entry is
    untouched or transferred to `<others>/<name>`.
   */
  lemma OthersStepKeeps(st: State, dir: Path, cfg: Config, i: nat, name: string, faults: set<IoStep>)
    requires dir + [name] in st.fs && !IsDirIn(st.fs, dir + [name])
    requires NextEntry(i) !in faults && (cfg.includeHidden || !IsHidden(name))
    requires Extension(name).None?
    ensures var t := OthersDestination(dir, cfg.othersDirectory) + [name];
      var fs' := Step(st, dir, cfg, i, name, faults).state.fs;
      && Keeps(st.fs, fs', t, dir + [name])
      && ((dir + [name] in fs' && fs'[dir + [name]] == st.fs[dir + [name]])
          || (Transferred(st.fs, fs', dir + [name], t, cfg.copy) && ParentIsDir(fs', t)))
    ensures var t := OthersDestination(dir, cfg.othersDirectory) + [name];
      var r := Step(st, dir, cfg, i, name, faults);
      r.outcome.Ok? ==> Transferred(st.fs, r.state.fs, dir + [name], t, cfg.copy) && ParentIsDir(r.state.fs, t)
  {
    var path := dir + [name];
    var dest := OthersDestination(dir, cfg.othersDirectory);
    var r := Step(st, dir, cfg, i, name, faults);
    var made := EnsureDirectory(st, dest, i, faults);
    if made.outcome.Err? {
      assert r.state.fs == st.fs;
    } else {
      assert r == Place(made.state, i, path, dest, name, cfg.copy, faults);
      PlaceKeeps(made.state, st.fs, i, path, dest, name, cfg.copy, faults);
    }
  }

  /**
    One pass for an entry present in the filesystem, whatever its outcome:
    it keeps every existing path other than the entry and its target,
    creates or changes no file other than the target, removes no directory,
    and leaves the entry either untouched or placed. A failing pass is not
    rolled back; a pass that completes has placed its entry.
   */
  lemma StepKeeps(st: State, dir: Path, cfg: Config, i: nat, name: string, faults: set<IoStep>)
    requires dir + [name] in st.fs
    ensures var fs' := Step(st, dir, cfg, i, name, faults).state.fs;
      && Keeps(st.fs, fs', Target(st.fs, dir, cfg, name), dir + [name])
      && ((dir + [name] in fs' && fs'[dir + [name]] == st.fs[dir + [name]])
          || Placed(st.fs, fs', dir, cfg, name))
    ensures Step(st, dir, cfg, i, name, faults).outcome.Ok? ==>
      Placed(st.fs, Step(st, dir, cfg, i, name, faults).state.fs, dir, cfg, name)
  {
    var path := dir + [name];
    var fs' := Step(st, dir, cfg, i, name, faults).state.fs;
    if NextEntry(i) in faults || IsDirIn(st.fs, path) || (!cfg.includeHidden && IsHidden(name)) {
      assert fs' == st.fs;
    } else if Extension(name).Some? {
      ExtensionStepKeeps(st, dir, cfg, i, name, faults);
    } else {
      OthersStepKeeps(st, dir, cfg, i, name, faults);
    }
  }

  /** An entry already placed stays placed through a step about another name. */
  lemma PlacedKept(fs0: Nodes, fs: Nodes, fs': Nodes, dir: Path, cfg: Config, name: string,
                   t: Path, path: Path)
    requires dir + [name] in fs0
    requires Placed(fs0, fs, dir, cfg, name)
    requires Keeps(fs, fs', t, path)
    requires t != [] && path != [] && t[|t| - 1] != name && path[|path| - 1] != name
    ensures Placed(fs0, fs', dir, cfg, name)
  {
    var ti := Target(fs0, dir, cfg, name);
    var pi := dir + [name];
    assert ti != t && ti != path;
    assert pi != t && pi != path;
  }

  /**
    The loop's invariant after `k` entries: those are placed, the later
    ones are untouched.
   */
  ghost predicate PlacedUpTo(fs0: Nodes, fs: Nodes, dir: Path, cfg: Config, order: seq<string>, k: nat)
    requires IsListing(fs0, dir, order) && k <= |order|
  {
    && (forall i :: 0 <= i < k ==> Placed(fs0, fs, dir, cfg, order[i]))
    && (forall i :: k <= i < |order| ==> dir + [order[i]] in fs && fs[dir + [order[i]]] == fs0[dir + [order[i]]])
  }

  /** The entries before position `j` stay placed through the step for entry `j`. */
  lemma EarlierStayPlaced(fs0: Nodes, fs: Nodes, fs': Nodes, dir: Path, cfg: Config,
                          order: seq<string>, j: nat)
    requires IsListing(fs0, dir, order) && j < |order|
    requires forall i :: 0 <= i < j ==> Placed(fs0, fs, dir, cfg, order[i])
    requires Keeps(fs, fs', Target(fs0, dir, cfg, order[j]), dir + [order[j]])
    ensures forall i :: 0 <= i < j ==> Placed(fs0, fs', dir, cfg, order[i])
  {
    var t := Target(fs0, dir, cfg, order[j]);
    forall i | 0 <= i < j
      ensures Placed(fs0, fs', dir, cfg, order[i])
    {
      PlacedKept(fs0, fs, fs', dir, cfg, order[i], t, dir + [order[j]]);
    }
  }

  /** The entries after position `j` are untouched by the step for entry `j`. */
  lemma LaterUntouched(fs0: Nodes, fs: Nodes, fs': Nodes, dir: Path, cfg: Config,
                       order: seq<string>, j: nat)
    requires IsListing(fs0, dir, order) && j < |order|
    requires forall i :: j < i < |order| ==> dir + [order[i]] in fs && fs[dir + [order[i]]] == fs0[dir + [order[i]]]
    requires Keeps(fs, fs', Target(fs0, dir, cfg, order[j]), dir + [order[j]])
    ensures forall i :: j < i < |order| ==> dir + [order[i]] in fs' && fs'[dir + [order[i]]] == fs0[dir + [order[i]]]
  {
    var t := Target(fs0, dir, cfg, order[j]);
    forall i | j < i < |order|
      ensures dir + [order[i]] in fs' && fs'[dir + [order[i]]] == fs0[dir + [order[i]]]
    {
      var pi := dir + [order[i]];
      assert pi != t && pi != dir + [order[j]];
    }
  }

  /** One successful step for the entry at position `j` keeps the invariant. */
  lemma StepKeepsPlaced(fs0: Nodes, st: State, dir: Path, cfg: Config, order: seq<string>,
                        faults: set<IoStep>, j: nat)
    requires IsListing(fs0, dir, order) && j < |order|
    requires PlacedUpTo(fs0, st.fs, dir, cfg, order, j)
    requires Step(st, dir, cfg, j, order[j], faults).outcome.Ok?
    ensures PlacedUpTo(fs0, Step(st, dir, cfg, j, order[j], faults).state.fs, dir, cfg, order, j + 1)
  {
    var name := order[j];
    var path := dir + [name];
    var fs := Step(st, dir, cfg, j, name, faults).state.fs;
    StepKeepsFrom(fs0, st, dir, cfg, j, name, faults);
    EarlierStayPlaced(fs0, st.fs, fs, dir, cfg, order, j);
    LaterUntouched(fs0, st.fs, fs, dir, cfg, order, j);
    assert forall i :: 0 <= i < j + 1 ==> Placed(fs0, fs, dir, cfg, order[i]) by {
      forall i | 0 <= i < j + 1
        ensures Placed(fs0, fs, dir, cfg, order[i])
      {
        if i == j {
          assert Placed(fs0, fs, dir, cfg, name);
        }
      }
    }
  }

  /**
    After the loop has run without failure over the first `k` entries of a
    listing, those entries are placed and the later ones are untouched.
   */
  lemma {:induction false} LoopPlacesEntries(fs0: Nodes, log0: seq<Record>, dir: Path, cfg: Config,
                                            order: seq<string>, faults: set<IoStep>, k: nat)
    requires IsListing(fs0, dir, order)
    requires k <= |order|
    requires Loop(State(fs0, log0, 0), dir, cfg, order[..k], faults).outcome.Ok?
    ensures PlacedUpTo(fs0, Loop(State(fs0, log0, 0), dir, cfg, order[..k], faults).state.fs,
                       dir, cfg, order, k)
  {
    var st0 := State(fs0, log0, 0);
    if k == 0 {
      assert order[..0] == [];
    } else {
      var j := k - 1;
      LoopPrefixPass(st0, dir, cfg, order, faults, k);
      var prev := Loop(st0, dir, cfg, order[..j], faults);
      LoopPlacesEntries(fs0, log0, dir, cfg, order, faults, j);
      StepKeepsPlaced(fs0, prev.state, dir, cfg, order, faults, j);
    }
  }

  /**
    After a successful run over a listing of `dir`, every entry is where its
    classification sends it: each file with an extension under the
    directory of its lower-cased extension, each other file under the
    catch-all directory, with the contents it had; skipped entries and
    copied files are still in place, moved files are gone from it.
   */
  lemma RunPlacesEveryEntry(fs0: Nodes, log0: seq<Record>, dir: Path, cfg: Config,
                            order: seq<string>, faults: set<IoStep>)
    requires IsListing(fs0, dir, order)
    requires Organise(fs0, log0, dir, cfg, order, faults).outcome.Ok?
    ensures forall i :: 0 <= i < |order| ==>
      Placed(fs0, Organise(fs0, log0, dir, cfg, order, faults).state.fs, dir, cfg, order[i])
  {
    LoopPlacesAll(fs0, log0, dir, cfg, order, faults);
  }

  /** After the loop has run without failure over a whole listing, every entry is placed. */
  lemma LoopPlacesAll(fs0: Nodes, log0: seq<Record>, dir: Path, cfg: Config,
                      order: seq<string>, faults: set<IoStep>)
    requires IsListing(fs0, dir, order)
    requires Loop(State(fs0, log0, 0), dir, cfg, order, faults).outcome.Ok?
    ensures forall i :: 0 <= i < |order| ==>
      Placed(fs0, Loop(State(fs0, log0, 0), dir, cfg, order, faults).state.fs, dir, cfg, order[i])
  {
    assert order[..|order|] == order;
    LoopPlacesEntries(fs0, log0, dir, cfg, order, faults, |order|);
  }

  /**
    `StepKeeps` for an entry still as it was in `fs0`, with its target and
    placement judged on `fs0`.
   */
  lemma StepKeepsFrom(fs0: Nodes, st: State, dir: Path, cfg: Config, i: nat, name: string,
                      faults: set<IoStep>)
    requires dir + [name] in fs0 && dir + [name] in st.fs && st.fs[dir + [name]] == fs0[dir + [name]]
    ensures var fs' := Step(st, dir, cfg, i, name, faults).state.fs;
      && Keeps(st.fs, fs', Target(fs0, dir, cfg, name), dir + [name])
      && ((dir + [name] in fs' && fs'[dir + [name]] == fs0[dir + [name]])
          || Placed(fs0, fs', dir, cfg, name))
    ensures Step(st, dir, cfg, i, name, faults).outcome.Ok? ==>
      Placed(fs0, Step(st, dir, cfg, i, name, faults).state.fs, dir, cfg, name)
  {
    var path := dir + [name];
    var fs' := Step(st, dir, cfg, i, name, faults).state.fs;
    assert Target(st.fs, dir, cfg, name) == Target(fs0, dir, cfg, name);
    StepKeeps(st, dir, cfg, i, name, faults);
    if !(path in fs' && fs'[path] == st.fs[path]) {
      assert Placed(st.fs, fs', dir, cfg, name);
    }
  }

  /**
    The pass for entry `j`, whatever its outcome, after the first `j`
    entries are placed and the others untouched: the first `j` stay placed,
    entry `j` is untouched or placed, and the later ones stay untouched.
   */
  lemma FailedStepKeeps(fs0: Nodes, st: State, dir: Path, cfg: Config, order: seq<string>,
                        faults: set<IoStep>, j: nat)
    requires IsListing(fs0, dir, order) && j < |order|
    requires PlacedUpTo(fs0, st.fs, dir, cfg, order, j)
    ensures var fs' := Step(st, dir, cfg, j, order[j], faults).state.fs;
      && (forall i :: 0 <= i < j ==> Placed(fs0, fs', dir, cfg, order[i]))
      && ((dir + [order[j]] in fs' && fs'[dir + [order[j]]] == fs0[dir + [order[j]]])
          || Placed(fs0, fs', dir, cfg, order[j]))
      && (forall i :: j < i < |order| ==>
            dir + [order[i]] in fs' && fs'[dir + [order[i]]] == fs0[dir + [order[i]]])
  {
    var fs' := Step(st, dir, cfg, j, order[j], faults).state.fs;
    StepKeepsFrom(fs0, st, dir, cfg, j, order[j], faults);
    EarlierStayPlaced(fs0, st.fs, fs', dir, cfg, order, j);
    LaterUntouched(fs0, st.fs, fs', dir, cfg, order, j);
  }

  /**
    When the loop fails in the pass for entry `j`, the passes before it are
    kept: their records stay in the log and the bar stands at `j`; entries
    `0..j-1` are placed; entry `j` is untouched or placed; the later entries
    are untouched.
   */
  lemma LoopFailureKeeps(fs0: Nodes, log0: seq<Record>, dir: Path, cfg: Config,
                         order: seq<string>, faults: set<IoStep>)
    requires IsListing(fs0, dir, order)
    requires Loop(State(fs0, log0, 0), dir, cfg, order, faults).outcome.Err?
    ensures var r := Loop(State(fs0, log0, 0), dir, cfg, order, faults);
      var j := r.outcome.at.index;
      var done := Loop(State(fs0, log0, 0), dir, cfg, order[..j], faults);
      && j < |order| && done.outcome.Ok?
      && r.state.log == done.state.log && r.state.progress == j
      && (forall i :: 0 <= i < j ==> Placed(fs0, r.state.fs, dir, cfg, order[i]))
      && ((dir + [order[j]] in r.state.fs && r.state.fs[dir + [order[j]]] == fs0[dir + [order[j]]])
          || Placed(fs0, r.state.fs, dir, cfg, order[j]))
      && (forall i :: j < i < |order| ==>
            dir + [order[i]] in r.state.fs && r.state.fs[dir + [order[i]]] == fs0[dir + [order[i]]])
  {
    var st0 := State(fs0, log0, 0);
    var r := Loop(st0, dir, cfg, order, faults);
    LoopFailsAt(st0, dir, cfg, order, faults);
    var j := r.outcome.at.index;
    var done := Loop(st0, dir, cfg, order[..j], faults);
    LoopPlacesEntries(fs0, log0, dir, cfg, order, faults, j);
    FailedStepKeeps(fs0, done.state, dir, cfg, order, faults, j);
  }

  /**
    A run that fails is not rolled back. Failing to open the log or to list
    the directory changes nothing. A failure in the pass for entry `j`
    leaves the log of the passes before it, with entries `0..j-1` placed,
    entry `j` untouched or placed and the later entries untouched. A
    failure at the summary leaves every entry placed and the log of the
    whole loop.
   */
  lemma RunKeepsEarlierEntries(fs0: Nodes, log0: seq<Record>, dir: Path, cfg: Config,
                               order: seq<string>, faults: set<IoStep>)
    requires IsListing(fs0, dir, order)
    requires Organise(fs0, log0, dir, cfg, order, faults).outcome.Err?
    ensures var r := Organise(fs0, log0, dir, cfg, order, faults);
      r.outcome.at in {OpenLog, ReadDir, WriteSummary} || AtEntry(r.outcome.at, |order|)
    ensures var r := Organise(fs0, log0, dir, cfg, order, faults);
      r.outcome.at in {OpenLog, ReadDir} ==> r.state == State(fs0, log0, 0)
    ensures var r := Organise(fs0, log0, dir, cfg, order, faults);
      r.outcome.at == WriteSummary ==>
        && r.state == Loop(State(fs0, log0, 0), dir, cfg, order, faults).state
        && (forall i :: 0 <= i < |order| ==> Placed(fs0, r.state.fs, dir, cfg, order[i]))
    ensures var r := Organise(fs0, log0, dir, cfg, order, faults);
      AtEntry(r.outcome.at, |order|) ==>
        var j := r.outcome.at.index;
        var done := Loop(State(fs0, log0, 0), dir, cfg, order[..j], faults);
        && done.outcome.Ok?
        && r.state.log == done.state.log && r.state.progress == j
        && (forall i :: 0 <= i < j ==> Placed(fs0, r.state.fs, dir, cfg, order[i]))
        && ((dir + [order[j]] in r.state.fs && r.state.fs[dir + [order[j]]] == fs0[dir + [order[j]]])
            || Placed(fs0, r.state.fs, dir, cfg, order[j]))
        && (forall i :: j < i < |order| ==>
              dir + [order[i]] in r.state.fs && r.state.fs[dir + [order[i]]] == fs0[dir + [order[i]]])
  {
    var r := Organise(fs0, log0, dir, cfg, order, faults);
    if OpenLog !in faults && ReadDir !in faults && IsDirIn(fs0, dir) {
      var run := Loop(State(fs0, log0, 0), dir, cfg, order, faults);
      if run.outcome.Err? {
        assert r == run;
        LoopFailureKeeps(fs0, log0, dir, cfg, order, faults);
      } else {
        assert r == Stepped(run.state, Err(WriteSummary));
        LoopPlacesAll(fs0, log0, dir, cfg, order, faults);
      }
    }
  }
}
