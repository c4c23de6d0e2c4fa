/**
  Running the organiser a second time on a directory it has just organised
  leaves the filesystem as it is: subdirectories (the new destination
  directories among them) and hidden files are skipped again, and every
  file still at the top level is already at its target or, when copying,
  already has an identical copy there.
 */
module SecondRun {
  import opened Wrappers
  import opened Paths
  import opened Planner
  import opened Disk
  import opened Organiser
  import opened RunProperties

  /**
    A pass over the entry `name` of `dir` has nothing left to change in
    `fs`: `dir` is a directory and the entry's target is its own path, or,
    when copying, an existing path inside an existing directory that
    already holds what the entry holds.
   */
  ghost predicate Settled(fs: Nodes, dir: Path, cfg: Config, name: string)
  {
    var path := dir + [name];
    var t := Target(fs, dir, cfg, name);
    && IsDirIn(fs, dir)
    && (t == path || (cfg.copy && path in fs && ParentIsDir(fs, t) && t in fs && fs[t] == fs[path]))
  }

  /** A move or copy of a file onto itself, or a copy onto an identical file, changes nothing. */
  lemma PlaceChangesNothing(st: State, i: nat, path: Path, dest: Path, name: string, copy: bool,
                            faults: set<IoStep>)
    requires path == dest + [name]
      || (copy && path in st.fs && dest + [name] in st.fs && st.fs[dest + [name]] == st.fs[path])
    ensures Place(st, i, path, dest, name, copy, faults).state.fs == st.fs
  {
    var t := dest + [name];
    if MoveOrCopy(i) !in faults && CanTransfer(st.fs, path, t) {
      if copy {
        assert Copied(st.fs, path, t) == st.fs;
      } else {
        RenamedMoves(st.fs, path, t);
      }
    }
  }

  /** A pass over a settled entry leaves the filesystem as it is, whatever its outcome. */
  lemma SettledStep(st: State, dir: Path, cfg: Config, i: nat, name: string, faults: set<IoStep>)
    requires Settled(st.fs, dir, cfg, name)
    ensures Step(st, dir, cfg, i, name, faults).state.fs == st.fs
  {
    var path := dir + [name];
    var r := Step(st, dir, cfg, i, name, faults);
    var t := Target(st.fs, dir, cfg, name);
    assert path[..|dir|] == dir;
    if NextEntry(i) !in faults && !IsDirIn(st.fs, path) && (cfg.includeHidden || !IsHidden(name)) {
      var dest := if Extension(name).Some?
        then ExtensionDestination(dir, Lower(Extension(name).value))
        else OthersDestination(dir, cfg.othersDirectory);
      if Extension(name).Some? && Parent(path) == Some(dest) {
        assert dest == dir;
      } else {
        assert t == dest + [name];
        assert t[..|dest|] == dest;
        if t == path {
          assert dest == dir;
        }
      }
      assert dest in st.fs;
      assert EnsureDirectory(st, dest, i, faults) == Stepped(st, Ok);
      if !(Extension(name).Some? && Parent(path) == Some(dest)) {
        assert r == Place(st, i, path, dest, name, cfg.copy, faults);
        PlaceChangesNothing(st, i, path, dest, name, cfg.copy, faults);
      }
    }
  }

  /** A loop over settled entries leaves the filesystem as it is, whatever its outcome. */
  lemma {:induction false} LoopSettled(st0: State, dir: Path, cfg: Config, names: seq<string>,
                                      faults: set<IoStep>)
    requires forall i :: 0 <= i < |names| ==> Settled(st0.fs, dir, cfg, names[i])
    ensures Loop(st0, dir, cfg, names, faults).state.fs == st0.fs
    decreases |names|
  {
    if names != [] {
      var n := |names|;
      var front := names[..n - 1];
      assert forall i :: 0 <= i < |front| ==> front[i] == names[i];
      LoopSettled(st0, dir, cfg, front, faults);
      var prev := Loop(st0, dir, cfg, front, faults);
      if prev.outcome.Ok? {
        SettledStep(prev.state, dir, cfg, n - 1, names[n - 1], faults);
      }
    }
  }

  /** A run over settled entries leaves the filesystem as it is, whatever its outcome. */
  lemma OrganiseSettled(fs: Nodes, log: seq<Record>, dir: Path, cfg: Config, order: seq<string>,
                        faults: set<IoStep>)
    requires forall i :: 0 <= i < |order| ==> Settled(fs, dir, cfg, order[i])
    ensures Organise(fs, log, dir, cfg, order, faults).state.fs == fs
  {
    LoopSettled(State(fs, log, 0), dir, cfg, order, faults);
  }

  /** Every file directly inside `dir` in `fs` was already a file there in `fs0`, with the same contents. */
  ghost predicate NoNewChildFiles(fs0: Nodes, fs: Nodes, dir: Path)
  {
    forall p :: Parent(p) == Some(dir) && IsFileIn(fs, p) ==> IsFileIn(fs0, p) && fs[p] == fs0[p]
  }

  /** A target directly inside `dir` is the entry's own path. */
  lemma TargetChild(fs: Nodes, dir: Path, cfg: Config, name: string)
    ensures Parent(Target(fs, dir, cfg, name)) == Some(dir) ==> Target(fs, dir, cfg, name) == dir + [name]
  {
    var t := Target(fs, dir, cfg, name);
    assert t == t[..|t| - 1] + [t[|t| - 1]];
  }

  /** A pass over an untouched entry puts no new file directly inside `dir`. */
  lemma StepKeepsChildFiles(fs0: Nodes, st: State, dir: Path, cfg: Config, i: nat, name: string,
                            faults: set<IoStep>)
    requires dir + [name] in st.fs && dir + [name] in fs0 && st.fs[dir + [name]] == fs0[dir + [name]]
    requires NoNewChildFiles(fs0, st.fs, dir)
    ensures NoNewChildFiles(fs0, Step(st, dir, cfg, i, name, faults).state.fs, dir)
  {
    var path := dir + [name];
    var fs' := Step(st, dir, cfg, i, name, faults).state.fs;
    var t := Target(st.fs, dir, cfg, name);
    StepKeeps(st, dir, cfg, i, name, faults);
    TargetChild(st.fs, dir, cfg, name);
    forall p | Parent(p) == Some(dir) && IsFileIn(fs', p)
      ensures IsFileIn(fs0, p) && fs'[p] == fs0[p]
    {
      if p == t {
        assert p == path;
      }
    }
  }

  /** After the loop has completed over `k` entries of a listing, no new file is directly inside `dir`. */
  lemma {:induction false} LoopKeepsChildFiles(fs0: Nodes, log0: seq<Record>, dir: Path, cfg: Config,
                                              order: seq<string>, faults: set<IoStep>, k: nat)
    requires IsListing(fs0, dir, order) && k <= |order|
    requires Loop(State(fs0, log0, 0), dir, cfg, order[..k], faults).outcome.Ok?
    ensures NoNewChildFiles(fs0, Loop(State(fs0, log0, 0), dir, cfg, order[..k], faults).state.fs, dir)
  {
    var st0 := State(fs0, log0, 0);
    if k == 0 {
      assert order[..0] == [];
    } else {
      var j := k - 1;
      LoopPrefixPass(st0, dir, cfg, order, faults, k);
      var prev := Loop(st0, dir, cfg, order[..j], faults);
      LoopKeepsChildFiles(fs0, log0, dir, cfg, order, faults, j);
      LoopPlacesEntries(fs0, log0, dir, cfg, order, faults, j);
      StepKeepsChildFiles(fs0, prev.state, dir, cfg, j, order[j], faults);
    }
  }

  /** After a successful run over a listing of `dir`, no new file is directly inside `dir`. */
  lemma RunKeepsChildFiles(fs0: Nodes, log0: seq<Record>, dir: Path, cfg: Config, order: seq<string>,
                           faults: set<IoStep>)
    requires IsListing(fs0, dir, order)
    requires Organise(fs0, log0, dir, cfg, order, faults).outcome.Ok?
    ensures NoNewChildFiles(fs0, Organise(fs0, log0, dir, cfg, order, faults).state.fs, dir)
  {
    assert order[..|order|] == order;
    LoopKeepsChildFiles(fs0, log0, dir, cfg, order, faults, |order|);
  }

  /** A placed file that is still a file at its own path, inside a directory that is still there, is settled. */
  lemma PlacedSettled(fs0: Nodes, fs1: Nodes, dir: Path, cfg: Config, name: string)
    requires dir + [name] in fs0 && IsDirIn(fs1, dir)
    requires IsFileIn(fs1, dir + [name]) && IsFileIn(fs0, dir + [name])
    requires fs1[dir + [name]] == fs0[dir + [name]]
    requires Placed(fs0, fs1, dir, cfg, name)
    ensures Settled(fs1, dir, cfg, name)
  {
    assert Target(fs1, dir, cfg, name) == Target(fs0, dir, cfg, name);
  }

  /** After a successful run over a listing of `dir`, every entry left directly inside `dir` is settled. */
  lemma EntrySettled(fs0: Nodes, log0: seq<Record>, dir: Path, cfg: Config, order: seq<string>,
                     faults: set<IoStep>, name: string)
    requires IsListing(fs0, dir, order)
    requires Organise(fs0, log0, dir, cfg, order, faults).outcome.Ok?
    requires var fs1 := Organise(fs0, log0, dir, cfg, order, faults).state.fs;
      dir + [name] in fs1 && IsDirIn(fs1, dir)
    ensures Settled(Organise(fs0, log0, dir, cfg, order, faults).state.fs, dir, cfg, name)
  {
    var fs1 := Organise(fs0, log0, dir, cfg, order, faults).state.fs;
    var path := dir + [name];
    if !IsDirIn(fs1, path) && (cfg.includeHidden || !IsHidden(name)) {
      RunKeepsChildFiles(fs0, log0, dir, cfg, order, faults);
      assert path[..|dir|] == dir;
      assert IsFileIn(fs0, path) && fs1[path] == fs0[path];
      assert path[|path| - 1] == name;
      var i :| 0 <= i < |order| && order[i] == name;
      RunPlacesEveryEntry(fs0, log0, dir, cfg, order, faults);
      assert Placed(fs0, fs1, dir, cfg, order[i]);
      PlacedSettled(fs0, fs1, dir, cfg, name);
    }
  }

  /**
    Running the organiser again, with the same settings, on what a
    successful run left, in any listing order and whatever fails on the
    way, leaves the filesystem as it is: only records are added.
   */
  lemma SecondRunChangesNothing(fs0: Nodes, log0: seq<Record>, dir: Path, cfg: Config,
                                order: seq<string>, faults: set<IoStep>,
                                log1: seq<Record>, order2: seq<string>, faults2: set<IoStep>)
    requires IsListing(fs0, dir, order)
    requires Organise(fs0, log0, dir, cfg, order, faults).outcome.Ok?
    requires IsListing(Organise(fs0, log0, dir, cfg, order, faults).state.fs, dir, order2)
    ensures var fs1 := Organise(fs0, log0, dir, cfg, order, faults).state.fs;
      Organise(fs1, log1, dir, cfg, order2, faults2).state.fs == fs1
  {
    var fs1 := Organise(fs0, log0, dir, cfg, order, faults).state.fs;
    if IsDirIn(fs1, dir) {
      forall i | 0 <= i < |order2|
        ensures Settled(fs1, dir, cfg, order2[i])
      {
        EntrySettled(fs0, log0, dir, cfg, order, faults, order2[i]);
      }
      OrganiseSettled(fs1, log1, dir, cfg, order2, faults2);
    }
  }
}
